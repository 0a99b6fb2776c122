/**
 The pattern matcher of grep: literals, `.`, `*`, a leading `^` and a trailing `$`.

 The matcher is a backtracking search over two C strings.  It is proved equal to
 a declarative reading of the pattern: a list of items, each with its own set of
 words, where a text matches when some substring of it splits into one word per item.
 */
module Regex {

  /** A C string: the characters before the terminating NUL. */
  type CString = s: string | '\0' !in s

  /** What one position of a pattern stands for. */
  datatype Item = One(c: char) | Star(c: char)

  /** A pattern after its leading `^`, if any, has been removed. */
  datatype Pattern = Pattern(items: seq<Item>, toEnd: bool)

  predicate Fits(c: char, x: char) {
    c == '.' || c == x
  }

  /** The words of a single item. */
  predicate Accepts(item: Item, w: string) {
    match item
    case One(c) => |w| == 1 && Fits(c, w[0])
    case Star(c) => forall i :: 0 <= i < |w| ==> Fits(c, w[i])
  }

  function Concat(ws: seq<string>): string {
    if ws == [] then "" else ws[0] + Concat(ws[1..])
  }

  ghost predicate Splits(items: seq<Item>, ws: seq<string>) {
    |items| == |ws| && forall k :: 0 <= k < |ws| ==> Accepts(items[k], ws[k])
  }

  /** The language of a list of items: concatenations of one word per item. */
  ghost predicate InLanguage(items: seq<Item>, w: string) {
    exists ws :: Splits(items, ws) && Concat(ws) == w
  }

  /** How a pattern is read: `x*` is a star, a final `$` anchors, all else is one character. */
  function Parse(re: string): (p: Pattern)
  {
    if re == "" then Pattern([], false)
    else if |re| >= 2 && re[1] == '*' then
      var rest := Parse(re[2..]);
      Pattern([Star(re[0])] + rest.items, rest.toEnd)
    else if re == "$" then Pattern([], true)
    else
      var rest := Parse(re[1..]);
      Pattern([One(re[0])] + rest.items, rest.toEnd)
  }

  /** How a pattern is written. */
  function Written(p: Pattern): string
    decreases |p.items|
  {
    if p.items == [] then (if p.toEnd then "$" else "")
    else WrittenItem(p.items[0]) + Written(Pattern(p.items[1..], p.toEnd))
  }

  function WrittenItem(item: Item): string {
    match item case One(c) => [c] case Star(c) => [c, '*']
  }

  /** A list of items that reads back as itself: nothing but a star is followed by `*`, and no final `$` is a character. */
  predicate Canonical(p: Pattern) {
    && (forall k :: 0 <= k < |p.items| - 1 && p.items[k].One? ==> p.items[k + 1].c != '*')
    && (p.items != [] && p.items[|p.items| - 1] == One('$') ==> p.toEnd)
  }

  lemma {:induction false} WrittenStart(p: Pattern)
    ensures p.items != [] ==> |Written(p)| > 0 && Written(p)[0] == p.items[0].c
    ensures p.items != [] && |Written(p)| == 1 ==> |p.items| == 1 && p.items[0].One? && !p.toEnd
    ensures p.items == [] ==> Written(p) == if p.toEnd then "$" else ""
    decreases |p.items|
  {
    if p.items != [] {
      WrittenStart(Pattern(p.items[1..], p.toEnd));
    }
  }

  lemma {:induction false} OneMoreItem(item: Item, rest: Pattern)
    ensures var p := Pattern([item] + rest.items, rest.toEnd);
            && Written(p) == WrittenItem(item) + Written(rest)
            && (Canonical(p) <==> Canonical(rest) && (item.One? && rest.items != [] ==> rest.items[0].c != '*')
                                  && (rest.items == [] && item == One('$') ==> rest.toEnd))
  {
    var p := Pattern([item] + rest.items, rest.toEnd);
    assert p.items[1..] == rest.items;
    if Canonical(p) {
      forall k | 0 <= k < |rest.items| - 1 && rest.items[k].One? ensures rest.items[k + 1].c != '*' {
        assert p.items[k + 1] == rest.items[k] && p.items[k + 2] == rest.items[k + 1];
      }
    }
  }

  /** Reading a pattern loses nothing, and finds every star and the final `$`. */
  lemma {:induction false} ReadAndWrite(re: string)
    ensures Written(Parse(re)) == re && Canonical(Parse(re))
    decreases |re|
  {
    if re == "" || re == "$" {
    } else if |re| >= 2 && re[1] == '*' {
      ReadAndWrite(re[2..]);
      OneMoreItem(Star(re[0]), Parse(re[2..]));
      assert re == [re[0], '*'] + re[2..];
    } else {
      ReadAndWrite(re[1..]);
      OneMoreItem(One(re[0]), Parse(re[1..]));
      WrittenStart(Parse(re[1..]));
      assert re == [re[0]] + re[1..];
    }
  }

  /** What is written reads back as what it was. */
  lemma {:induction false} WriteAndRead(p: Pattern)
    requires Canonical(p)
    ensures Parse(Written(p)) == p
    decreases |p.items|
  {
    if p.items != [] {
      var item, rest := p.items[0], Pattern(p.items[1..], p.toEnd);
      assert p == Pattern([item] + rest.items, rest.toEnd);
      OneMoreItem(item, rest);
      WriteAndRead(rest);
      ReadsOne(item, rest);
    }
  }

  lemma {:induction false} ReadsOne(item: Item, rest: Pattern)
    requires item.One? && rest.items != [] ==> rest.items[0].c != '*'
    requires rest.items == [] && item == One('$') ==> rest.toEnd
    requires Parse(Written(rest)) == rest
    ensures Parse(WrittenItem(item) + Written(rest)) == Pattern([item] + rest.items, rest.toEnd)
  {
    var re := WrittenItem(item) + Written(rest);
    WrittenStart(rest);
    match item
    case One(c) => assert re[1..] == Written(rest);
    case Star(c) => assert re[2..] == Written(rest) && re[1] == '*';
  }

  /** text[i..j] is a word of the pattern, and reaches the end of the text if it must. */
  ghost predicate MatchesSpan(p: Pattern, text: string, i: nat, j: nat)
    requires i <= j <= |text|
  {
    (p.toEnd ==> j == |text|) && InLanguage(p.items, text[i..j])
  }

  /** The pattern matches at the beginning of the text. */
  ghost predicate MatchesHere(p: Pattern, text: string) {
    exists j: nat :: j <= |text| && MatchesSpan(p, text, 0, j)
  }

  /** The meaning of a whole pattern on a whole text. */
  ghost predicate Matches(re: string, text: string) {
    if re != "" && re[0] == '^' then
      MatchesHere(Parse(re[1..]), text)
    else
      exists i: nat, j: nat :: i <= j <= |text| && MatchesSpan(Parse(re), text, i, j)
  }

  lemma {:induction false} EmptyLanguage(w: string)
    ensures InLanguage([], w) <==> w == ""
  {
    if w == "" {
      assert Splits([], []) && Concat([]) == w;
    }
  }

  /** A word of a nonempty list is a word of its first item followed by a word of the others. */
  lemma {:induction false} ConsLanguage(item: Item, rest: seq<Item>, w: string)
    ensures InLanguage([item] + rest, w)
       <==> exists k: nat :: k <= |w| && Accepts(item, w[..k]) && InLanguage(rest, w[k..])
  {
    if InLanguage([item] + rest, w) {
      var ws :| Splits([item] + rest, ws) && Concat(ws) == w;
      var k := |ws[0]|;
      assert w[..k] == ws[0] && w[k..] == Concat(ws[1..]);
      assert Splits(rest, ws[1..]) by {
        forall i | 0 <= i < |ws[1..]| ensures Accepts(rest[i], ws[1..][i]) {
          assert ws[1..][i] == ws[i + 1] && ([item] + rest)[i + 1] == rest[i];
        }
      }
    }
    if k: nat :| k <= |w| && Accepts(item, w[..k]) && InLanguage(rest, w[k..]) {
      var tail :| Splits(rest, tail) && Concat(tail) == w[k..];
      var ws := [w[..k]] + tail;
      assert ws[1..] == tail;
      assert Concat(ws) == w;
      assert Splits([item] + rest, ws);
    }
  }

  /** A pattern that starts with a single character consumes one fitting character. */
  lemma {:induction false} HereOne(c: char, rest: Pattern, text: string)
    ensures MatchesHere(Pattern([One(c)] + rest.items, rest.toEnd), text)
       <==> text != "" && Fits(c, text[0]) && MatchesHere(rest, text[1..])
  {
    var p := Pattern([One(c)] + rest.items, rest.toEnd);
    if MatchesHere(p, text) {
      var j: nat :| j <= |text| && MatchesSpan(p, text, 0, j);
      OneTaken(c, rest, text, j);
    }
    if text != "" && Fits(c, text[0]) && MatchesHere(rest, text[1..]) {
      var j: nat :| j <= |text[1..]| && MatchesSpan(rest, text[1..], 0, j);
      OneGiven(c, rest, text, j);
    }
  }

  lemma {:induction false} OneTaken(c: char, rest: Pattern, text: string, j: nat)
    requires j <= |text| && MatchesSpan(Pattern([One(c)] + rest.items, rest.toEnd), text, 0, j)
    ensures j > 0 && Fits(c, text[0]) && MatchesSpan(rest, text[1..], 0, j - 1)
  {
    var w := text[0..j];
    ConsLanguage(One(c), rest.items, w);
    var k: nat :| k <= |w| && Accepts(One(c), w[..k]) && InLanguage(rest.items, w[k..]);
    assert k == 1 && w[1..] == text[1..][0..j - 1];
  }

  lemma {:induction false} OneGiven(c: char, rest: Pattern, text: string, j: nat)
    requires text != "" && Fits(c, text[0]) && j <= |text[1..]| && MatchesSpan(rest, text[1..], 0, j)
    ensures MatchesSpan(Pattern([One(c)] + rest.items, rest.toEnd), text, 0, j + 1)
  {
    var w := text[0..j + 1];
    ConsLanguage(One(c), rest.items, w);
    assert w[1..] == text[1..][0..j] && Accepts(One(c), w[..1]);
  }

  /** A pattern that starts with a star skips some run of fitting characters. */
  lemma {:induction false} HereStar(c: char, rest: Pattern, text: string)
    ensures MatchesHere(Pattern([Star(c)] + rest.items, rest.toEnd), text)
       <==> exists k: nat :: k <= |text| && Accepts(Star(c), text[..k]) && MatchesHere(rest, text[k..])
  {
    var p := Pattern([Star(c)] + rest.items, rest.toEnd);
    if MatchesHere(p, text) {
      var j: nat :| j <= |text| && MatchesSpan(p, text, 0, j);
      ConsLanguage(Star(c), rest.items, text[0..j]);
      var k: nat :| k <= j && Accepts(Star(c), text[0..j][..k]) && InLanguage(rest.items, text[0..j][k..]);
      assert text[0..j][..k] == text[..k] && text[0..j][k..] == text[k..][0..j - k];
      assert MatchesSpan(rest, text[k..], 0, j - k);
    }
    if k: nat :| k <= |text| && Accepts(Star(c), text[..k]) && MatchesHere(rest, text[k..]) {
      var j: nat :| j <= |text[k..]| && MatchesSpan(rest, text[k..], 0, j);
      ConsLanguage(Star(c), rest.items, text[0..j + k]);
      assert text[0..j + k][k..] == text[k..][0..j] && text[0..j + k][..k] == text[..k];
      assert MatchesSpan(p, text, 0, j + k);
    }
  }

  lemma {:induction false} HereNoItems(toEnd: bool, text: string)
    ensures MatchesHere(Pattern([], toEnd), text) <==> (toEnd ==> text == "")
  {
    var p := Pattern([], toEnd);
    forall j: nat | j <= |text| ensures MatchesSpan(p, text, 0, j) <==> (toEnd ==> j == |text|) && j == 0 {
      EmptyLanguage(text[0..j]);
    }
    assert MatchesSpan(p, text, 0, 0) <==> (toEnd ==> text == "");
  }

  /** Matching from position i on is matching the suffix that starts there. */
  lemma {:induction false} SpanOfSuffix(p: Pattern, text: string, i: nat)
    requires i <= |text|
    ensures MatchesHere(p, text[i..])
       <==> exists j: nat :: i <= j <= |text| && MatchesSpan(p, text, i, j)
  {
    if MatchesHere(p, text[i..]) {
      var j: nat :| j <= |text[i..]| && MatchesSpan(p, text[i..], 0, j);
      assert text[i..][0..j] == text[i..i + j];
      assert MatchesSpan(p, text, i, i + j);
    }
    if j: nat :| i <= j <= |text| && MatchesSpan(p, text, i, j) {
      assert text[i..][0..j - i] == text[i..j];
      assert MatchesSpan(p, text[i..], 0, j - i);
    }
  }

  method Match(re: CString, text: CString) returns (found: bool)
    ensures found <==> Matches(re, text)
  {
    if re != "" && re[0] == '^' {
      found := MatchHere(re[1..], text);
      return;
    }
    var t := 0;
    while true
      invariant t <= |text|
      invariant forall i: nat :: i < t ==> !MatchesHere(Parse(re), text[i..])
      decreases |text| - t
    {
      var here := MatchHere(re, text[t..]);
      SpanOfSuffix(Parse(re), text, t);
      if here {
        return true;
      }
      if t == |text| {
        break;
      }
      t := t + 1;
    }
    forall i: nat, j: nat | i <= j <= |text| ensures !MatchesSpan(Parse(re), text, i, j) {
      SpanOfSuffix(Parse(re), text, i);
    }
    return false;
  }

  method MatchHere(re: CString, text: CString) returns (found: bool)
    ensures found <==> MatchesHere(Parse(re), text)
    decreases |re|, 0
  {
    if re == "" {
      HereNoItems(false, text);
      return true;
    }
    if |re| >= 2 && re[1] == '*' {
      found := MatchStar(re[0], re[2..], text);
      HereStar(re[0], Parse(re[2..]), text);
      return;
    }
    if re == "$" {
      HereNoItems(true, text);
      return text == "";
    }
    HereOne(re[0], Parse(re[1..]), text);
    if text != "" && (re[0] == '.' || re[0] == text[0]) {
      found := MatchHere(re[1..], text[1..]);
      return;
    }
    return false;
  }

  method MatchStar(c: char, re: CString, text: CString) returns (found: bool)
    ensures found <==>
            exists k: nat :: k <= |text| && Accepts(Star(c), text[..k]) && MatchesHere(Parse(re), text[k..])
    decreases |re|, 1
  {
    var t := 0;
    while true
      invariant t <= |text|
      invariant Accepts(Star(c), text[..t])
      invariant forall k: nat :: k < t ==> !MatchesHere(Parse(re), text[k..])
      decreases |text| - t
    {
      var here := MatchHere(re, text[t..]);
      if here {
        return true;
      }
      if t == |text| {
        break;
      }
      if !(text[t] == c || c == '.') {
        forall k: nat | t < k <= |text| ensures !Accepts(Star(c), text[..k]) {
          assert text[..k][t] == text[t];
        }
        break;
      }
      t := t + 1;
    }
    return false;
  }
}
