/**
 The shell's command parser: recursive descent over the input line, then a pass that
 cuts the line into strings in place by writing NULs after the words.

 The parser is proved to accept exactly the lines that have a derivation, and to return
 the command of the only one; what the in-place pass may destroy is then a question about
 derivations.
 */
module Shell {
  import opened Common
  import opened ShellGrammar
  import opened ShellMeaning
  import opened ShellUnique

  // ------------------------------------------------------------------
  // Tokens.

  datatype Token = EndOfLine | Symbol(c: char) | AppendSign | WordToken

  /** The part of gettoken that recognises one token at s, which is not a blank. */
  function TokenAt(t: string, s: nat): Token {
    var c := At(t, s);
    if c == NUL then EndOfLine
    else if c == '>' && At(t, s + 1) == '>' then AppendSign
    else if IsSymbol(c) then Symbol(c)
    else WordToken
  }

  method SkipBlanks(t: string, s0: nat) returns (s: nat)
    requires s0 <= |t|
    ensures Blank(t, s0, s) && (s < |t| ==> !IsSpace(t[s]))
    ensures Boundary(t, s0) ==> Boundary(t, s)
  {
    s := s0;
    while s < |t| && IsSpace(t[s])
      invariant Blank(t, s0, s)
      invariant s > s0 ==> IsSpace(t[s - 1])
    {
      s := s + 1;
    }
  }

  /** gettoken: the token after any blanks, its span, and the position after it and the blanks behind it. */
  method GetToken(t: string, s0: nat) returns (tok: Token, w: Span, s: nat)
    requires s0 <= |t| && NUL !in t && Boundary(t, s0)
    ensures Blank(t, s0, w.start) && w.start <= w.end <= s <= |t| && Blank(t, w.end, s)
    ensures s < |t| ==> !IsSpace(t[s])
    ensures w.start < |t| ==> !IsSpace(t[w.start])
    ensures tok == TokenAt(t, w.start)
    ensures tok.EndOfLine? <==> w.start == |t|
    ensures tok.WordToken? ==> IsWord(t, w)
    ensures tok.Symbol? ==> w.end == w.start + 1
    ensures tok.AppendSign? ==> w.end == w.start + 2
    ensures Boundary(t, s) && Boundary(t, w.end)
  {
    s := SkipBlanks(t, s0);
    var q := s;
    if s == |t| {
      tok := EndOfLine;
    } else if t[s] in "|();&<" {
      tok := Symbol(t[s]);
      s := s + 1;
    } else if t[s] == '>' {
      tok := Symbol('>');
      s := s + 1;
      if s < |t| && t[s] == '>' {
        tok := AppendSign;
        s := s + 1;
      }
    } else {
      tok := WordToken;
      assert t[s] != NUL;
      while s < |t| && !IsSpace(t[s]) && !IsSymbol(t[s])
        invariant q <= s <= |t| && AllWord(t, q, s)
        decreases |t| - s
      {
        assert t[s] in t;
        s := s + 1;
      }
    }
    w := Span(q, s);
    s := SkipBlanks(t, s);
  }

  method Peek(t: string, s0: nat, toks: string) returns (s: nat, yes: bool)
    requires s0 <= |t| && Boundary(t, s0) && NUL !in toks
    ensures Blank(t, s0, s) && (s < |t| ==> !IsSpace(t[s])) && Boundary(t, s)
    ensures yes <==> At(t, s) in toks
  {
    s := SkipBlanks(t, s0);
    yes := s < |t| && t[s] in toks;
  }

  // ------------------------------------------------------------------
  // The parser.  A result that is not ok stands for the shell's panic.

  /** gettoken where the next token is known to be this one-character symbol. */
  method TakeSymbol(t: string, s0: nat, c: char) returns (s: nat)
    requires s0 <= |t| && NUL !in t && Boundary(t, s0) && At(t, s0) == c && c in "|&;()"
    ensures s0 < s <= |t| && Boundary(t, s) && SymbolAt(t, s0, c) && Blank(t, s0 + 1, s)
    ensures s < |t| ==> !IsSpace(t[s])
  {
    var tok, w;
    tok, w, s := GetToken(t, s0);
    assert w.start == s0;
  }

  /** One redirection, at whose operator the cursor stands. */
  method ParseRedir(t: string, s0: nat) returns (ok: bool, item: Item, s: nat)
    requires s0 <= |t| && NUL !in t && Boundary(t, s0) && At(t, s0) in "<>"
    ensures s0 < s <= |t| && Boundary(t, s) && (s < |t| ==> !IsSpace(t[s]))
    ensures ok ==> item.Redirect? && ItemsAt(t, [item], s0, s)
    ensures !ok ==> forall other :: !ItemAt(t, other, s0)
  {
    var tok, w, s1 := GetToken(t, s0);
    assert w.start == s0;
    var file, w2;
    file, w2, s := GetToken(t, s1);
    var kind := if tok.AppendSign? then Append else if tok == Symbol('<') then In else Out;
    item := Redirect(s0, kind, w2);
    ok := file.WordToken?;
    BlankAppend(t, w.end, s1, w2.start);
    if ok {
      assert ItemAt(t, item, s0);
    } else {
      forall other ensures !ItemAt(t, other, s0) {
        MissingFile(t, s0, w2.start, other);
      }
    }
  }

  /** parseredirs: as many redirections as follow. */
  method ParseRedirs(t: string, s0: nat) returns (ok: bool, redirs: seq<Item>, s: nat)
    requires s0 <= |t| && NUL !in t && Boundary(t, s0)
    ensures s0 <= s && AtToken(t, s)
    ensures ok ==> ItemsAt(t, redirs, s0, s) && OnlyRedirects(redirs) && At(t, s) !in "<>"
    ensures !ok ==> NoItems(t, s0)
  {
    redirs := [];
    var more;
    s, more := Peek(t, s0, "<>");
    while more
      invariant s0 <= s && AtToken(t, s)
      invariant ItemsAt(t, redirs, s0, s) && OnlyRedirects(redirs)
      invariant more <==> At(t, s) in "<>"
      decreases |t| - s
    {
      var item, s1;
      ok, item, s1 := ParseRedir(t, s);
      if !ok {
        StuckItems(t, redirs, s, s0);
        return false, [], s1;
      }
      ItemsAppend(t, redirs, [item], redirs + [item], s0, s, s1);
      redirs := redirs + [item];
      s, more := PeekAfter(t, s1, "<>");
    }
    ok := true;
  }

  /** What a parsing method leaves behind: a derivation of the stretch it has read. */
  ghost predicate Parsed(t: string, s0: nat, s: nat, cmd: Cmd, tree: Tree) {
    tree in Derivations(t, s0, s) && cmd == Command(tree)
  }

  lemma {:induction false} PipeParsed(t: string, s0: nat, l: Cmd, lt: Tree, bar: nat, s1: nat, r: Cmd, rt: Tree, s: nat)
    requires Parsed(t, s0, bar, l, lt) && (lt.Simple? || lt.Block?) && SymbolAt(t, bar, '|')
    requires Blank(t, bar + 1, s1) && Parsed(t, s1, s, r, rt) && (rt.Simple? || rt.Block? || rt.PipeTree?)
    ensures Parsed(t, s0, s, Pipe(l, r), PipeTree(lt, bar, rt))
  {
    DerivesFromBlank(t, rt, bar + 1, s1, s);
  }

  lemma {:induction false} ListParsed(t: string, s0: nat, l: Cmd, lt: Tree, semi: nat, s1: nat, r: Cmd, rt: Tree, s: nat)
    requires Parsed(t, s0, semi, l, lt) && !lt.ListTree? && SymbolAt(t, semi, ';')
    requires Blank(t, semi + 1, s1) && Parsed(t, s1, s, r, rt)
    ensures Parsed(t, s0, s, List(l, r), ListTree(lt, semi, rt))
  {
    DerivesFromBlank(t, rt, semi + 1, s1, s);
  }

  lemma {:induction false} BackParsed(t: string, s0: nat, c: Cmd, ct: Tree, amp: nat, s: nat)
    requires Parsed(t, s0, amp, c, ct) && !ct.ListTree? && SymbolAt(t, amp, '&') && Blank(t, amp + 1, s)
    ensures Parsed(t, s0, s, Back(c), BackTree(ct, amp))
  {
  }

  method ParseLine(t: string, s0: nat) returns (ok: bool, cmd: Cmd, s: nat, ghost tree: Tree)
    requires s0 <= |t| && NUL !in t && Boundary(t, s0)
    ensures s0 <= s && AtToken(t, s)
    ensures ok ==> Parsed(t, s0, s, cmd, tree) && GreedyLine(t, tree, s)
    ensures !ok ==> NoLine(t, s0)
    decreases |t| - s0, 4
  {
    ok, cmd, s, tree := ParsePipe(t, s0);
    if !ok {
      NoLineStart(t, s0);
      return;
    }
    cmd, s, tree := ParseBackground(t, s0, s, cmd, tree);
    var semi;
    s, semi := PeekAfter(t, s, ";");
    if semi {
      var s1 := TakeSymbol(t, s, ';');
      var right, s2;
      ghost var tree2;
      ok, right, s2, tree2 := ParseLine(t, s1);
      if ok {
        ListParsed(t, s0, cmd, tree, s, s1, right, tree2, s2);
      } else {
        NoLineRest(t, s0, tree, s, s1);
      }
      cmd, tree, s := List(cmd, right), ListTree(tree, s, tree2), s2;
    }
  }

  /** The loop of parseline over trailing `&`. */
  method ParseBackground(t: string, ghost s0: nat, s1: nat, c: Cmd, ghost tree1: Tree)
    returns (cmd: Cmd, s: nat, ghost tree: Tree)
    requires s0 <= s1 && NUL !in t && AtToken(t, s1) && Parsed(t, s0, s1, c, tree1) && !tree1.ListTree?
    requires GreedyJob(t, tree1, s1)
    ensures s1 <= s && AtToken(t, s) && Parsed(t, s0, s, cmd, tree) && !tree.ListTree?
    ensures GreedyJob(t, tree, s) && At(t, s) != '&'
  {
    cmd, tree := c, tree1;
    var more;
    s, more := PeekAfter(t, s1, "&");
    while more
      invariant s1 <= s && AtToken(t, s) && (more <==> At(t, s) in "&")
      invariant Parsed(t, s0, s, cmd, tree) && !tree.ListTree? && GreedyJob(t, tree, s)
      decreases |t| - s
    {
      var s2 := TakeSymbol(t, s, '&');
      BackParsed(t, s0, cmd, tree, s, s2);
      cmd, tree := Back(cmd), BackTree(tree, s);
      s, more := PeekAfter(t, s2, "&");
    }
  }

  /** peek where the blanks are known to be skipped already. */
  method PeekAfter(t: string, s0: nat, toks: string) returns (s: nat, yes: bool)
    requires s0 <= |t| && Boundary(t, s0) && NUL !in toks && (s0 < |t| ==> !IsSpace(t[s0]))
    ensures s == s0 && (yes <==> At(t, s) in toks)
  {
    s, yes := Peek(t, s0, toks);
  }

  method ParsePipe(t: string, s0: nat) returns (ok: bool, cmd: Cmd, s: nat, ghost tree: Tree)
    requires s0 <= |t| && NUL !in t && Boundary(t, s0)
    ensures s0 <= s && AtToken(t, s)
    ensures ok ==> Parsed(t, s0, s, cmd, tree) && IsPipe(tree) && GreedyPipe(t, tree, s)
    ensures !ok ==> NoPipe(t, s0)
    decreases |t| - s0, 3
  {
    ok, cmd, s, tree := ParseExec(t, s0);
    if !ok {
      NoPipeStart(t, s0);
      return;
    }
    var bar;
    s, bar := PeekAfter(t, s, "|");
    if bar {
      var s1 := TakeSymbol(t, s, '|');
      var right, s2;
      ghost var tree2;
      ok, right, s2, tree2 := ParsePipe(t, s1);
      if ok {
        PipeParsed(t, s0, cmd, tree, s, s1, right, tree2, s2);
      } else {
        NoPipeRest(t, s0, tree, s, s1);
      }
      cmd, tree, s := Pipe(cmd, right), PipeTree(tree, s, tree2), s2;
    }
  }

  method ParseBlock(t: string, s0: nat) returns (ok: bool, cmd: Cmd, s: nat, ghost tree: Tree)
    requires AtToken(t, s0) && NUL !in t && At(t, s0) == '('
    ensures s0 <= s && AtToken(t, s)
    ensures ok ==> Parsed(t, s0, s, cmd, tree) && tree.Block? && GreedyExec(t, tree, s)
    ensures ok && OperatorBefore(t, s0).None? ==> SpellsExec(t, cmd, s0, s)
    ensures !ok ==> NoExec(t, s0)
    decreases |t| - s0, 1
  {
    var s1 := TakeSymbol(t, s0, '(');
    ghost var body;
    ok, cmd, s, body := ParseLine(t, s1);
    tree := body;
    if !ok {
      NoBlock(t, s0, s1);
      return;
    }
    var close, closing := false, s;
    s, close := PeekAfter(t, s, ")");
    if !close {
      NoClose(t, s0, s1, body, s);
      return false, cmd, s, tree;
    }
    var s2 := TakeSymbol(t, s, ')');
    var redirs;
    ok, redirs, s := ParseRedirs(t, s2);
    if ok {
      BlockParsed(t, s0, s1, cmd, body, closing, s2, redirs, s);
      ExecReads(t, Block(s0, body, closing, redirs), s0, s);
    } else {
      NoClose(t, s0, s1, body, closing);
    }
    cmd, tree := Wrapped(cmd, redirs), Block(s0, body, closing, redirs);
  }

  lemma {:induction false} BlockParsed(t: string, open: nat, s1: nat, c: Cmd, body: Tree, close: nat, s2: nat, redirs: seq<Item>, s: nat)
    requires SymbolAt(t, open, '(') && Blank(t, open + 1, s1) && Parsed(t, s1, close, c, body)
    requires SymbolAt(t, close, ')') && Blank(t, close + 1, s2) && ItemsAt(t, redirs, s2, s) && OnlyRedirects(redirs)
    ensures Parsed(t, open, s, Wrapped(c, redirs), Block(open, body, close, redirs))
  {
    DerivesFromBlank(t, body, open + 1, s1, close);
    ItemsFromBlank(t, redirs, close + 1, s2, s);
    BlockDerives(t, open, body, close, redirs, s);
  }

  lemma {:induction false} BlockDerives(t: string, open: nat, body: Tree, close: nat, redirs: seq<Item>, s: nat)
    requires SymbolAt(t, open, '(') && body in Derivations(t, open + 1, close) && SymbolAt(t, close, ')')
    requires OnlyRedirects(redirs) && redirs in ItemLists(t, close + 1, s)
    ensures Block(open, body, close, redirs) in Derivations(t, open, s)
  {
    assert Blank(t, open, open);
  }

  method ParseExec(t: string, s0: nat) returns (ok: bool, cmd: Cmd, s: nat, ghost tree: Tree)
    requires s0 <= |t| && NUL !in t && Boundary(t, s0)
    ensures s0 <= s && AtToken(t, s)
    ensures ok ==> Parsed(t, s0, s, cmd, tree) && IsExec(tree) && GreedyExec(t, tree, s)
    ensures ok && OperatorBefore(t, s0).None? ==> SpellsExec(t, cmd, s0, s)
    ensures !ok ==> NoExec(t, s0)
    decreases |t| - s0, 2
  {
    var block, s1;
    s1, block := Peek(t, s0, "(");
    if block {
      ok, cmd, s, tree := ParseBlock(t, s1);
      if ok {
        DerivesFromBlank(t, tree, s0, s1, s);
        ExecReads(t, tree, s0, s);
      } else {
        NoExecFromToken(t, s0, s1);
      }
      return;
    }
    var args, items;
    ok, args, items, s := ParseWords(t, s1);
    cmd, tree := Wrapped(Exec(args), items), Simple(items);
    if ok {
      ItemsFromBlank(t, items, s0, s1, s);
      ExecReads(t, tree, s0, s);
    } else {
      NoSimpleExec(t, s0, s1);
    }
  }

  /** What a simple command or block was read from spells it, unless a redirection operator stands in front. */
  lemma {:induction false} ExecReads(t: string, tree: Tree, lo: nat, hi: nat)
    requires tree in Derivations(t, lo, hi) && (tree.Simple? || tree.Block?) && lo <= |t|
    ensures lo <= hi <= |t| && (OperatorBefore(t, lo).None? ==> SpellsExec(t, Command(tree), lo, hi))
  {
    DerivesInside(t, tree, lo, hi);
    if OperatorBefore(t, lo).None? {
      ExecIsSpelled(t, tree, lo, hi);
    }
  }

  /** parseexec for a command that is no block: words and redirections in any order. */
  method ParseWords(t: string, s0: nat) returns (ok: bool, args: seq<Span>, items: seq<Item>, s: nat)
    requires AtToken(t, s0) && NUL !in t
    ensures s0 <= s && AtToken(t, s)
    ensures ok ==> ItemsAt(t, items, s0, s) && args == Args(items) && |args| < MAXARGS && EndsExec(t, s)
    ensures !ok ==> NoSimple(t, s0)
  {
    args := [];
    ok, items, s := ParseRedirs(t, s0);
    if !ok {
      return;
    }
    NoArgs(items);
    var stop;
    s, stop := PeekAfter(t, s, "|)&;");
    while !stop
      invariant ok && s0 <= s && AtToken(t, s)
      invariant ItemsAt(t, items, s0, s) && args == Args(items) && |args| < MAXARGS
      invariant At(t, s) !in "<>" && (stop <==> At(t, s) in "|)&;")
      decreases |t| - s
    {
      var tok, w, s2 := GetToken(t, s);
      assert w.start == s;
      if tok.EndOfLine? {
        break;
      }
      assert !EndsExec(t, s);
      if !tok.WordToken? {
        ParenIsNoItem(t, s);
        StuckItems(t, items, s, s0);
        return false, args, items, s;
      }
      assert ItemAt(t, Word(w), s);
      args := args + [w];
      if |args| >= MAXARGS {
        TooManyArgs(t, items, s, w, s0);
        return false, args, items, s;
      }
      var redirs, s3;
      ok, redirs, s3 := ParseRedirs(t, s2);
      if !ok {
        StuckAfterWord(t, items, s, w, s2, s0);
        return false, args, items, s3;
      }
      OneMoreArg(t, items, w, redirs, s0, s, s2, s3);
      items := items + [Word(w)] + redirs;
      s, stop := PeekAfter(t, s3, "|)&;");
    }
  }

  lemma {:induction false} OneMoreArg(t: string, items: seq<Item>, w: Span, redirs: seq<Item>, lo: nat, s: nat, s2: nat, s3: nat)
    requires ItemsAt(t, items, lo, s) && IsWord(t, w) && Blank(t, s, w.start) && Blank(t, w.end, s2)
    requires ItemsAt(t, redirs, s2, s3) && OnlyRedirects(redirs)
    ensures ItemsAt(t, items + [Word(w)] + redirs, lo, s3)
    ensures Args(items + [Word(w)] + redirs) == Args(items) + [w]
  {
    assert ItemsAt(t, [Word(w)], s, s2);
    ItemsAppend(t, items, [Word(w)], items + [Word(w)], lo, s, s2);
    ItemsAppend(t, items + [Word(w)], redirs, items + [Word(w)] + redirs, lo, s2, s3);
    ArgsAppend(items, [Word(w)]);
    ArgsAppend(items + [Word(w)], redirs);
    NoArgs(redirs);
    assert Args([Word(w)]) == [w];
  }

  // ------------------------------------------------------------------
  // The strings of a command.

  /** Every argument and file name of a command, counted. */
  function Strings(c: Cmd): multiset<Span> {
    match c
    case Exec(args) => multiset(args)
    case Redir(sub, file, _) => Strings(sub) + multiset{file}
    case Pipe(l, r) => Strings(l) + Strings(r)
    case List(l, r) => Strings(l) + Strings(r)
    case Back(sub) => Strings(sub)
  }

  function ItemStrings(items: seq<Item>): multiset<Span> {
    if items == [] then multiset{} else multiset{items[0].w} + ItemStrings(items[1..])
  }

  function RedirectStrings(items: seq<Item>): multiset<Span> {
    if items == [] then multiset{}
    else (if items[0].Word? then multiset{} else multiset{items[0].w}) + RedirectStrings(items[1..])
  }

  /** Different words of the line between lo and hi, none of them twice. */
  ghost predicate Laid(t: string, bag: multiset<Span>, lo: nat, hi: nat) {
    forall w :: w in bag ==> bag[w] == 1 && IsWord(t, w) && lo <= w.start && w.end <= hi
  }

  lemma {:induction false} LaidSum(t: string, a: multiset<Span>, b: multiset<Span>, lo: nat, mid: nat, mid': nat, hi: nat)
    requires Laid(t, a, lo, mid) && Laid(t, b, mid', hi) && lo <= mid <= mid' <= hi
    ensures Laid(t, a + b, lo, hi)
  {
    forall w | w in a + b ensures (a + b)[w] == 1 && IsWord(t, w) && lo <= w.start && w.end <= hi {
      assert w in a ==> w.end <= mid;
      assert w in b ==> mid' <= w.start && w.start < w.end;
    }
  }

  lemma {:induction false} ItemsLaid(t: string, items: seq<Item>, lo: nat, hi: nat)
    requires ItemsAt(t, items, lo, hi)
    ensures lo <= hi && Laid(t, ItemStrings(items), lo, hi)
    decreases items
  {
    if items != [] {
      var w := items[0].w;
      ItemsLaid(t, items[1..], w.end, hi);
      assert Laid(t, multiset{w}, lo, w.end);
      LaidSum(t, multiset{w}, ItemStrings(items[1..]), lo, w.end, w.end, hi);
    }
  }

  lemma {:induction false} WrappedStrings(c: Cmd, items: seq<Item>)
    ensures Strings(Wrapped(c, items)) == Strings(c) + RedirectStrings(items)
    decreases items
  {
    if items != [] {
      WrappedStrings(if items[0].Word? then c else Redir(c, items[0].w, items[0].kind), items[1..]);
    }
  }

  lemma {:induction false} ArgsAndRedirects(items: seq<Item>)
    ensures multiset(Args(items)) + RedirectStrings(items) == ItemStrings(items)
    decreases items
  {
    if items != [] {
      ArgsAndRedirects(items[1..]);
    }
  }

  lemma {:induction false} OnlyRedirectStrings(items: seq<Item>)
    requires OnlyRedirects(items)
    ensures RedirectStrings(items) == ItemStrings(items)
    decreases items
  {
    if items != [] {
      OnlyRedirectStrings(items[1..]);
    }
  }

  lemma {:induction false} SimpleLaid(t: string, items: seq<Item>, lo: nat, hi: nat)
    requires ItemsAt(t, items, lo, hi)
    ensures lo <= hi <= |t| && Laid(t, Strings(Wrapped(Exec(Args(items)), items)), lo, hi)
  {
    ItemsLaid(t, items, lo, hi);
    ItemsEnd(t, items, lo, hi);
    WrappedStrings(Exec(Args(items)), items);
    ArgsAndRedirects(items);
  }

  lemma {:induction false} BlockLaid(t: string, c: Cmd, redirs: seq<Item>, lo: nat, close: nat, hi: nat)
    requires lo <= close && Laid(t, Strings(c), lo, close) && OnlyRedirects(redirs) && ItemsAt(t, redirs, close + 1, hi)
    ensures lo <= hi <= |t| && Laid(t, Strings(Wrapped(c, redirs)), lo, hi)
  {
    ItemsLaid(t, redirs, close + 1, hi);
    ItemsEnd(t, redirs, close + 1, hi);
    WrappedStrings(c, redirs);
    OnlyRedirectStrings(redirs);
    LaidSum(t, Strings(c), ItemStrings(redirs), lo, close, close + 1, hi);
  }

  lemma {:induction false} LaidWider(t: string, a: multiset<Span>, lo: nat, lo': nat, hi: nat, hi': nat)
    requires Laid(t, a, lo', hi) && lo <= lo' && hi <= hi'
    ensures Laid(t, a, lo, hi')
  {
  }

  /** The strings of a derived command are words of the line, each used once. */
  lemma {:induction false} CommandLaid(t: string, tree: Tree, lo: nat, hi: nat)
    requires tree in Derivations(t, lo, hi)
    ensures lo <= hi <= |t| && Laid(t, Strings(Command(tree)), lo, hi)
    decreases tree, 2
  {
    match tree
    case Simple(items) => SimpleLaid(t, items, lo, hi);
    case Block(_, _, _, _) => BlockCommandLaid(t, tree, lo, hi);
    case PipeTree(_, _, _) => PipeCommandLaid(t, tree, lo, hi);
    case BackTree(_, _) => BackCommandLaid(t, tree, lo, hi);
    case ListTree(_, _, _) => ListCommandLaid(t, tree, lo, hi);
  }

  lemma {:induction false} PipeCommandLaid(t: string, tree: Tree, lo: nat, hi: nat)
    requires tree.PipeTree? && tree in Derivations(t, lo, hi)
    ensures lo <= hi <= |t| && Laid(t, Strings(Command(tree)), lo, hi)
    decreases tree, 1
  {
    BothLaid(t, tree, tree.left, tree.right, lo, tree.bar, hi);
  }

  lemma {:induction false} ListCommandLaid(t: string, tree: Tree, lo: nat, hi: nat)
    requires tree.ListTree? && tree in Derivations(t, lo, hi)
    ensures lo <= hi <= |t| && Laid(t, Strings(Command(tree)), lo, hi)
    decreases tree, 1
  {
    BothLaid(t, tree, tree.left, tree.right, lo, tree.semi, hi);
  }

  lemma {:induction false} BothLaid(t: string, tree: Tree, l: Tree, r: Tree, lo: nat, mid: nat, hi: nat)
    requires (tree.PipeTree? || tree.ListTree?) && tree.left == l && tree.right == r
    requires l in Derivations(t, lo, mid) && r in Derivations(t, mid + 1, hi)
    ensures lo <= hi <= |t| && Laid(t, Strings(Command(l)) + Strings(Command(r)), lo, hi)
    decreases tree, 0
  {
    CommandLaid(t, l, lo, mid);
    CommandLaid(t, r, mid + 1, hi);
    LaidSum(t, Strings(Command(l)), Strings(Command(r)), lo, mid, mid + 1, hi);
  }

  lemma {:induction false} BlockCommandLaid(t: string, tree: Tree, lo: nat, hi: nat)
    requires tree.Block? && tree in Derivations(t, lo, hi)
    ensures lo <= hi <= |t| && Laid(t, Strings(Command(tree)), lo, hi)
    decreases tree, 1
  {
    var body := Command(tree.body);
    CommandLaid(t, tree.body, tree.open + 1, tree.close);
    LaidWider(t, Strings(body), lo, tree.open + 1, tree.close, tree.close);
    BlockLaid(t, body, tree.redirs, lo, tree.close, hi);
  }

  lemma {:induction false} BackCommandLaid(t: string, tree: Tree, lo: nat, hi: nat)
    requires tree.BackTree? && tree in Derivations(t, lo, hi)
    ensures lo <= hi <= |t| && Laid(t, Strings(Command(tree)), lo, hi)
    decreases tree, 1
  {
    CommandLaid(t, tree.tree, lo, tree.amp);
    LaidWider(t, Strings(Command(tree.tree)), lo, lo, tree.amp, hi);
  }

  lemma {:induction false} ItemsEnd(t: string, items: seq<Item>, lo: nat, hi: nat)
    requires ItemsAt(t, items, lo, hi)
    ensures hi <= |t|
    decreases items
  {
    if items != [] {
      ItemsEnd(t, items[1..], items[0].w.end, hi);
    }
  }

  // ------------------------------------------------------------------
  // Cutting the line into strings.

  /** A NUL is to be written at position i. */
  ghost predicate IsEnd(c: Cmd, i: nat) {
    exists w :: w in Strings(c) && w.end == i
  }

  /** The NUL-terminated string that starts at position i. */
  function CStringAt(b: seq<char>, i: nat): string
    decreases |b| - i
  {
    if i < |b| && b[i] != NUL then [b[i]] + CStringAt(b, i + 1) else ""
  }

  lemma {:induction false} ReadsBack(b: seq<char>, t: string, lo: nat, hi: nat)
    requires lo <= hi <= |t| && hi < |b| && b[hi] == NUL
    requires forall i :: lo <= i < hi ==> b[i] == t[i] && t[i] != NUL
    ensures CStringAt(b, lo) == t[lo..hi]
    decreases hi - lo
  {
    if lo < hi {
      ReadsBack(b, t, lo + 1, hi);
    }
  }

  /** One of the first n arguments ends at position k. */
  predicate ArgEnds(args: seq<Span>, n: nat, k: nat)
    requires n <= |args|
  {
    exists j :: 0 <= j < n && args[j].end == k
  }

  lemma ArgsAreStrings(args: seq<Span>)
    ensures forall k: nat :: IsEnd(Exec(args), k) <==> ArgEnds(args, |args|, k)
  {
    forall k: nat | ArgEnds(args, |args|, k) ensures IsEnd(Exec(args), k) {
      var j :| 0 <= j < |args| && args[j].end == k;
      assert args[j] in Strings(Exec(args));
    }
  }

  method TerminateArgs(buf: array<char>, args: seq<Span>)
    requires forall w :: w in Strings(Exec(args)) ==> w.end < buf.Length
    modifies buf
    ensures forall k: nat :: k < buf.Length ==> buf[k] == if ArgEnds(args, |args|, k) then NUL else old(buf[k])
  {
    for i := 0 to |args|
      invariant forall k: nat :: k < buf.Length ==> buf[k] == if ArgEnds(args, i, k) then NUL else old(buf[k])
    {
      assert args[i] in Strings(Exec(args));
      buf[args[i].end] := NUL;
    }
  }

  method NulTerminate(buf: array<char>, c: Cmd)
    requires forall w :: w in Strings(c) ==> w.end < buf.Length
    modifies buf
    ensures forall i :: 0 <= i < buf.Length ==> buf[i] == if IsEnd(c, i) then NUL else old(buf[i])
    decreases c
  {
    match c
    case Exec(args) =>
      TerminateArgs(buf, args);
      assert forall k: nat :: IsEnd(c, k) <==> ArgEnds(args, |args|, k) by { ArgsAreStrings(args); }
    case Redir(sub, file, _) =>
      assert file in Strings(c);
      NulTerminate(buf, sub);
      buf[file.end] := NUL;
      assert forall k: nat :: IsEnd(c, k) <==> IsEnd(sub, k) || file.end == k;
    case Pipe(l, r) =>
      NulTerminate(buf, l);
      NulTerminate(buf, r);
      assert forall k: nat :: IsEnd(c, k) <==> IsEnd(l, k) || IsEnd(r, k);
    case List(l, r) =>
      NulTerminate(buf, l);
      NulTerminate(buf, r);
      assert forall k: nat :: IsEnd(c, k) <==> IsEnd(l, k) || IsEnd(r, k);
    case Back(sub) =>
      NulTerminate(buf, sub);
      assert forall k: nat :: IsEnd(c, k) <==> IsEnd(sub, k);
  }

  /** No terminator falls inside a string, so each reads back as its own word. */
  lemma {:induction false} NoStringIsCut(t: string, c: Cmd, w: Span, i: nat)
    requires Laid(t, Strings(c), 0, |t|) && w in Strings(c) && w.start <= i < w.end
    ensures !IsEnd(c, i)
  {
    if v :| v in Strings(c) && v.end == i {
      WordsApart(t, v, w);
    }
  }

  /** All strings of the command, each once, neither overlap nor touch, and read back whole. */
  ghost predicate WellCut(t: string, b: seq<char>, c: Cmd) {
    && (forall w :: w in Strings(c) ==>
          Strings(c)[w] == 1 && w.start < w.end <= |t| && CStringAt(b, w.start) == t[w.start..w.end])
    && forall v, w :: v in Strings(c) && w in Strings(c) && v != w ==> v.end < w.start || w.end < v.start
  }

  /**
   parsecmd: a line without a derivation is a syntax error and left alone; for every other
   line there is exactly one derivation, and the result is its command, which the characters
   of the line spell, with every argument and file name readable in place as exactly the
   word it was on the line.
   */
  method ParseCmd(buf: array<char>) returns (r: Option<Cmd>, ghost t: string, ghost tree: Tree)
    requires NUL in buf[..]
    modifies buf
    ensures |t| < buf.Length && t == old(buf[..])[..|t|] && NUL !in t && old(buf[..])[|t|] == NUL
    ensures r.None? ==> buf[..] == old(buf[..])
    ensures r.None? ==> forall other :: !Derives(t, other, 0, |t|)
    ensures r.Some? ==> Derives(t, tree, 0, |t|) && r.value == Command(tree)
    ensures r.Some? ==> forall other :: Derives(t, other, 0, |t|) ==> other == tree
    ensures r.Some? ==> SpellsLine(t, r.value, 0, |t|)
    ensures r.Some? ==> WellCut(t, buf[..], r.value)
  {
    var es := 0;
    while buf[es] != NUL
      invariant es < buf.Length && NUL !in buf[..es]
      decreases buf.Length - es
    {
      assert NUL in buf[..] && buf[..] == buf[..es + 1] + buf[es + 1..];
      es := es + 1;
    }
    var line := buf[..es];
    t := line;
    var ok, cmd, s;
    ok, cmd, s, tree := ParseLine(line, 0);
    forall other | Derives(t, other, 0, es) ensures ok && s == es && other == tree {
      OnlyDerivation(t, ok, tree, s, other);
    }
    if !ok || s != es {
      return None, t, tree;
    }
    CommandLaid(t, tree, 0, es);
    LineIsSpelled(t, tree, 0, es);
    Cut(buf, cmd, t);
    return Some(cmd), t, tree;
  }

  /** Whatever derives the whole line is what the parser found. */
  lemma {:induction false} OnlyDerivation(t: string, ok: bool, tree: Tree, s: nat, other: Tree)
    requires ok ==> tree in Derivations(t, 0, s) && GreedyLine(t, tree, s)
    requires !ok ==> NoLine(t, 0)
    requires Derives(t, other, 0, |t|)
    ensures ok && s == |t| && other == tree
  {
    assert EndsLine(t, |t|) && other in Derivations(t, 0, |t|);
    if ok {
      LineUnique(t, tree, s, other, |t|, 0);
    }
  }

  method Cut(buf: array<char>, cmd: Cmd, ghost t: string)
    requires |t| < buf.Length && t == buf[..|t|] && buf[|t|] == NUL && Laid(t, Strings(cmd), 0, |t|)
    modifies buf
    ensures WellCut(t, buf[..], cmd)
  {
    ghost var n := |t|;
    NulTerminate(buf, cmd);
    forall w | w in Strings(cmd) ensures CStringAt(buf[..], w.start) == t[w.start..w.end] {
      assert IsWord(t, w);
      StringsSurvive(buf[..], old(buf[..]), t, cmd, w);
    }
    forall v, w | v in Strings(cmd) && w in Strings(cmd) && v != w ensures v.end < w.start || w.end < v.start {
      WordsApart(t, v, w);
    }
  }

  lemma {:induction false} StringsSurvive(b: seq<char>, b0: seq<char>, t: string, c: Cmd, w: Span)
    requires Laid(t, Strings(c), 0, |t|) && w in Strings(c) && |t| < |b| == |b0| && t == b0[..|t|]
    requires forall i :: 0 <= i < |b| ==> b[i] == if IsEnd(c, i) then NUL else b0[i]
    ensures CStringAt(b, w.start) == t[w.start..w.end]
  {
    assert IsEnd(c, w.end);
    forall i | w.start <= i < w.end ensures b[i] == t[i] && t[i] != NUL {
      NoStringIsCut(t, c, w, i);
    }
    ReadsBack(b, t, w.start, w.end);
  }
}
