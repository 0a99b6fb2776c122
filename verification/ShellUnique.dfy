/**
 Derivations are unique.  Two derivations from the same position are the same, if one of
 them ends where the grammar allows an end and the other cannot be carried on.
 */
module ShellUnique {
  import opened Common
  import opened ShellGrammar

  // ------------------------------------------------------------------
  // Where a stretch may end: at the end of the line or before one of these symbols.

  predicate Ends(t: string, e: nat, symbols: string) {
    AtToken(t, e) && (e == |t| || t[e] in symbols)
  }

  predicate EndsExec(t: string, e: nat) { Ends(t, e, "|&;)") }
  predicate EndsPipe(t: string, e: nat) { Ends(t, e, "&;)") }
  predicate EndsLine(t: string, e: nat) { Ends(t, e, ")") }

  predicate IsExec(tree: Tree) { tree.Simple? || tree.Block? }
  predicate IsPipe(tree: Tree) { IsExec(tree) || tree.PipeTree? }

  lemma SameToken(t: string, lo: nat, a: nat, b: nat)
    requires Blank(t, lo, a) && Blank(t, lo, b) && (a < |t| ==> !IsSpace(t[a])) && (b < |t| ==> !IsSpace(t[b]))
    ensures a == b
  {
  }

  // ------------------------------------------------------------------
  // Words and redirections.

  lemma {:induction false} WordUnique(t: string, lo: nat, v: Span, w: Span)
    requires IsWord(t, v) && IsWord(t, w) && Blank(t, lo, v.start) && Blank(t, lo, w.start)
    ensures v == w
  {
    SameToken(t, lo, v.start, w.start);
    if v != w {
      WordsApart(t, v, w);
    }
  }

  lemma {:induction false} ItemUnique(t: string, a: Item, b: Item, lo: nat)
    requires ItemAt(t, a, lo) && ItemAt(t, b, lo)
    ensures a == b
  {
    var i, j := if a.Word? then a.w.start else a.op, if b.Word? then b.w.start else b.op;
    SameToken(t, lo, i, j);
    if a.Word? {
      WordUnique(t, lo, a.w, b.w);
    } else {
      WordUnique(t, a.op + OpLength(a.kind), a.w, b.w);
    }
  }

  /** An item is the same seen from the token it starts with. */
  lemma {:induction false} ItemFromToken(t: string, item: Item, lo: nat, s: nat)
    requires ItemAt(t, item, lo) && Blank(t, lo, s) && AtToken(t, s)
    ensures ItemAt(t, item, s) && (if item.Word? then item.w.start else item.op) == s
  {
    SameToken(t, lo, if item.Word? then item.w.start else item.op, s);
  }

  lemma {:induction false} ItemsFromToken(t: string, items: seq<Item>, lo: nat, s: nat, e: nat)
    requires items in ItemLists(t, lo, e) && Blank(t, lo, s) && AtToken(t, s) && AtToken(t, e)
    ensures items in ItemLists(t, s, e)
  {
    if items == [] {
      SameToken(t, lo, s, e);
    } else {
      ItemFromToken(t, items[0], lo, s);
    }
  }

  lemma {:induction false} NoItemAtEnd(t: string, item: Item, lo: nat, e: nat)
    requires Blank(t, lo, e) && EndsExec(t, e)
    ensures !ItemAt(t, item, lo)
  {
    if ItemAt(t, item, lo) {
      ItemFromToken(t, item, lo, e);
    }
  }

  /** A list of items that cannot end at s goes on there. */
  lemma {:induction false} ItemsPrefix(t: string, a: seq<Item>, s: nat, b: seq<Item>, e: nat, lo: nat) returns (rest: seq<Item>)
    requires a in ItemLists(t, lo, s) && b in ItemLists(t, lo, e) && AtToken(t, s) && !EndsExec(t, s) && EndsExec(t, e)
    ensures b == a + rest && rest != [] && rest in ItemLists(t, s, e)
    decreases a
  {
    if a == [] {
      rest := b;
      GoesOn(t, b, lo, s, e);
    } else {
      SameFirst(t, a, s, b, e, lo);
      rest := ItemsPrefix(t, a[1..], s, b[1..], e, a[0].w.end);
      ConsAppend(a, rest, b);
    }
  }

  lemma ConsAppend(a: seq<Item>, rest: seq<Item>, b: seq<Item>)
    requires a != [] && b != [] && a[0] == b[0] && b[1..] == a[1..] + rest
    ensures b == a + rest
  {
    assert b == [b[0]] + b[1..] && a == [a[0]] + a[1..];
  }

  lemma {:induction false} GoesOn(t: string, b: seq<Item>, lo: nat, s: nat, e: nat)
    requires b in ItemLists(t, lo, e) && Blank(t, lo, s) && AtToken(t, s) && !EndsExec(t, s) && EndsExec(t, e)
    ensures b != [] && b in ItemLists(t, s, e)
  {
    if b == [] {
      SameToken(t, lo, s, e);
    }
    ItemsFromToken(t, b, lo, s, e);
  }

  /** Two lists of items that start together start with the same item. */
  lemma {:induction false} SameFirst(t: string, a: seq<Item>, s: nat, b: seq<Item>, e: nat, lo: nat)
    requires a != [] && a in ItemLists(t, lo, s) && b in ItemLists(t, lo, e) && EndsExec(t, e)
    ensures b != [] && b[0] == a[0]
    ensures a[1..] in ItemLists(t, a[0].w.end, s) && b[1..] in ItemLists(t, a[0].w.end, e)
  {
    if b == [] {
      NoItemAtEnd(t, a[0], lo, e);
    }
    ItemUnique(t, a[0], b[0], lo);
  }

  /** None of these items can stand at s. */
  predicate NoneAt(t: string, items: seq<Item>, s: nat) {
    forall i :: 0 <= i < |items| ==> !ItemAt(t, items[i], s)
  }

  lemma {:induction false} ItemsUnique(t: string, a: seq<Item>, s: nat, b: seq<Item>, e: nat, lo: nat)
    requires a in ItemLists(t, lo, s) && b in ItemLists(t, lo, e) && AtToken(t, s) && NoneAt(t, b, s) && EndsExec(t, e)
    ensures a == b && s == e
    decreases a
  {
    if a == [] {
      if b == [] {
        SameToken(t, lo, s, e);
      } else {
        ItemFromToken(t, b[0], lo, s);
      }
    } else {
      SameFirst(t, a, s, b, e, lo);
      ItemsUnique(t, a[1..], s, b[1..], e, a[0].w.end);
    }
  }

  lemma {:induction false} NoneAtEnd(t: string, items: seq<Item>, s: nat)
    requires EndsExec(t, s)
    ensures NoneAt(t, items, s)
  {
    forall i | 0 <= i < |items| ensures !ItemAt(t, items[i], s) {
      NoItemAtEnd(t, items[i], s, s);
    }
  }

  lemma {:induction false} NoRedirectAt(t: string, items: seq<Item>, s: nat)
    requires AtToken(t, s) && At(t, s) !in "<>" && OnlyRedirects(items)
    ensures NoneAt(t, items, s)
  {
    forall i | 0 <= i < |items| ensures !ItemAt(t, items[i], s) {
      if ItemAt(t, items[i], s) {
        ItemFromToken(t, items[i], s, s);
      }
    }
  }

  // ------------------------------------------------------------------
  // Commands.  The first tree of each pair is one that the parser could not carry on; the
  // second ends where it may.

  predicate GreedyExec(t: string, tree: Tree, s: nat) {
    AtToken(t, s) && (tree.Simple? ==> EndsExec(t, s)) && (tree.Block? ==> At(t, s) !in "<>")
  }

  predicate GreedyPipe(t: string, tree: Tree, s: nat)
    decreases tree
  {
    if tree.PipeTree? then GreedyPipe(t, tree.right, s) else GreedyExec(t, tree, s) && At(t, s) != '|'
  }

  predicate GreedyJob(t: string, tree: Tree, s: nat) {
    AtToken(t, s) && (IsPipe(tree) ==> GreedyPipe(t, tree, s))
  }

  predicate GreedyLine(t: string, tree: Tree, s: nat)
    decreases tree
  {
    if tree.ListTree? then GreedyLine(t, tree.right, s) else GreedyJob(t, tree, s) && At(t, s) !in "&;"
  }

  lemma {:induction false} SimpleUnique(t: string, a: Tree, s: nat, b: Tree, e: nat, lo: nat)
    requires a.Simple? && b.Simple? && a in Derivations(t, lo, s) && b in Derivations(t, lo, e) && EndsExec(t, s) && EndsExec(t, e)
    ensures a == b && s == e
  {
    NoneAtEnd(t, b.items, s);
    ItemsUnique(t, a.items, s, b.items, e, lo);
  }

  /** What starts with a parenthesis is a block, and nothing else is. */
  lemma {:induction false} BlockStart(t: string, tree: Tree, lo: nat, s: nat, e: nat)
    requires IsExec(tree) && tree in Derivations(t, lo, e) && EndsExec(t, e) && Blank(t, lo, s) && AtToken(t, s)
    ensures tree.Block? <==> At(t, s) == '('
    ensures tree.Block? ==> tree.open == s
  {
    if tree.Block? {
      SameToken(t, lo, tree.open, s);
    } else if tree.items == [] {
      SameToken(t, lo, s, e);
    } else {
      ItemFromToken(t, tree.items[0], lo, s);
    }
  }

  lemma {:induction false} ExecUnique(t: string, a: Tree, s: nat, b: Tree, e: nat, lo: nat)
    requires IsExec(a) && IsExec(b) && a in Derivations(t, lo, s) && b in Derivations(t, lo, e)
    requires GreedyExec(t, a, s) && EndsExec(t, e)
    ensures a == b && s == e
    decreases b, a, 1
  {
    if a.Simple? {
      if b.Simple? {
        SimpleUnique(t, a, s, b, e, lo);
      } else {
        BlockStart(t, a, lo, b.open, s);
      }
    } else {
      BlockStart(t, b, lo, a.open, e);
      BlockUnique(t, a, s, b, e, lo);
    }
  }

  lemma {:induction false} BlockUnique(t: string, a: Tree, s: nat, b: Tree, e: nat, lo: nat)
    requires a.Block? && b.Block? && a in Derivations(t, lo, s) && b in Derivations(t, lo, e) && a.open == b.open
    requires AtToken(t, s) && At(t, s) !in "<>" && EndsExec(t, e)
    ensures a == b && s == e
    decreases b, a, 0
  {
    BodyEnds(t, a, lo, s);
    BodyEnds(t, b, lo, e);
    LineUnique(t, a.body, a.close, b.body, b.close, a.open + 1);
    NoRedirectAt(t, b.redirs, s);
    ItemsUnique(t, a.redirs, s, b.redirs, e, a.close + 1);
  }

  lemma {:induction false} BodyEnds(t: string, a: Tree, lo: nat, s: nat)
    requires a.Block? && a in Derivations(t, lo, s)
    ensures a.body in Derivations(t, a.open + 1, a.close) && EndsLine(t, a.close) && GreedyLine(t, a.body, a.close)
  {
    SymbolIsToken(t, a.close);
    CloseIsGreedy(t, a.body, a.open + 1, a.close);
  }

  lemma SymbolIsToken(t: string, i: nat)
    requires i < |t| && IsSymbol(t[i])
    ensures AtToken(t, i)
  {
  }

  /** A stretch that ends where it may cannot be carried on. */
  lemma {:induction false} EndIsGreedy(t: string, tree: Tree, lo: nat, e: nat)
    requires IsPipe(tree) && tree in Derivations(t, lo, e) && EndsPipe(t, e)
    ensures GreedyPipe(t, tree, e)
    decreases tree
  {
    if tree.PipeTree? {
      EndIsGreedy(t, tree.right, tree.bar + 1, e);
    }
  }

  lemma {:induction false} CloseIsGreedy(t: string, tree: Tree, lo: nat, e: nat)
    requires tree in Derivations(t, lo, e) && EndsLine(t, e)
    ensures GreedyLine(t, tree, e)
    decreases tree
  {
    if tree.ListTree? {
      CloseIsGreedy(t, tree.right, tree.semi + 1, e);
    } else if IsPipe(tree) {
      EndIsGreedy(t, tree, lo, e);
    }
  }

  lemma {:induction false} PipeParts(t: string, b: Tree, lo: nat, e: nat)
    requires b.PipeTree? && b in Derivations(t, lo, e)
    ensures IsExec(b.left) && b.left in Derivations(t, lo, b.bar) && EndsExec(t, b.bar) && t[b.bar] == '|'
    ensures IsPipe(b.right) && b.right in Derivations(t, b.bar + 1, e)
  {
    SymbolIsToken(t, b.bar);
  }

  lemma {:induction false} PipeUnique(t: string, a: Tree, s: nat, b: Tree, e: nat, lo: nat)
    requires IsPipe(a) && IsPipe(b) && a in Derivations(t, lo, s) && b in Derivations(t, lo, e)
    requires GreedyPipe(t, a, s) && EndsPipe(t, e)
    ensures a == b && s == e
    decreases b, a, 3
  {
    if a.PipeTree? && b.PipeTree? {
      PipeParts(t, a, lo, s);
      PipeParts(t, b, lo, e);
      BothPipes(t, a, s, b, e, lo);
    } else if a.PipeTree? {
      PipeParts(t, a, lo, s);
      ExecUnique(t, a.left, a.bar, b, e, lo);
    } else if b.PipeTree? {
      PipeParts(t, b, lo, e);
      ExecUnique(t, a, s, b.left, b.bar, lo);
    } else {
      ExecUnique(t, a, s, b, e, lo);
    }
  }

  lemma EndsAreGreedy(t: string, tree: Tree, e: nat)
    requires EndsExec(t, e)
    ensures GreedyExec(t, tree, e)
  {
  }

  lemma {:induction false} BothPipes(t: string, a: Tree, s: nat, b: Tree, e: nat, lo: nat)
    requires a.PipeTree? && IsExec(a.left) && a.left in Derivations(t, lo, a.bar) && EndsExec(t, a.bar)
    requires b.PipeTree? && IsExec(b.left) && b.left in Derivations(t, lo, b.bar) && EndsExec(t, b.bar)
    requires IsPipe(a.right) && a.right in Derivations(t, a.bar + 1, s) && GreedyPipe(t, a.right, s)
    requires IsPipe(b.right) && b.right in Derivations(t, b.bar + 1, e) && EndsPipe(t, e)
    ensures a == b && s == e
    decreases b, a, 2
  {
    EndsAreGreedy(t, a.left, a.bar);
    ExecUnique(t, a.left, a.bar, b.left, b.bar, lo);
    PipeUnique(t, a.right, s, b.right, e, a.bar + 1);
  }

  /** Of two jobs that start together, one is the other with more `&` behind it. */
  lemma {:induction false} JobsNest(t: string, a: Tree, s: nat, b: Tree, e: nat, lo: nat)
    requires !a.ListTree? && !b.ListTree? && a in Derivations(t, lo, s) && b in Derivations(t, lo, e)
    requires GreedyJob(t, a, s) && EndsPipe(t, e)
    ensures e == s ==> a == b
    ensures e < s ==> At(t, e) == '&' && !IsPipe(a)
    ensures e > s ==> At(t, s) == '&' && !IsPipe(b)
    decreases b, a, 4
  {
    if IsPipe(a) && IsPipe(b) {
      PipeUnique(t, a, s, b, e, lo);
    } else if IsPipe(a) {
      JobsNest(t, a, s, b.tree, b.amp, lo);
    } else if IsPipe(b) {
      InnerIsGreedy(t, a, lo, s);
      JobsNest(t, a.tree, a.amp, b, e, lo);
    } else {
      InnerIsGreedy(t, a, lo, s);
      JobsNest(t, a.tree, a.amp, b.tree, b.amp, lo);
      AfterAmp(t, a.amp, s, b.amp);
      AfterAmp(t, b.amp, e, a.amp);
      if a.amp < b.amp {
        JobsNest(t, a, s, b.tree, b.amp, lo);
      } else if b.amp < a.amp {
        JobsNest(t, a.tree, a.amp, b, e, lo);
      } else {
        SameToken(t, a.amp + 1, s, e);
      }
    }
  }

  lemma {:induction false} InnerIsGreedy(t: string, a: Tree, lo: nat, s: nat)
    requires a.BackTree? && a in Derivations(t, lo, s)
    ensures EndsPipe(t, a.amp) && GreedyJob(t, a.tree, a.amp) && a.amp < s
  {
    SymbolIsToken(t, a.amp);
    if IsPipe(a.tree) {
      EndIsGreedy(t, a.tree, lo, a.amp);
    }
  }

  /** The token after an ampersand is not behind the next one. */
  lemma AfterAmp(t: string, amp: nat, s: nat, other: nat)
    requires Blank(t, amp + 1, s) && SymbolAt(t, other, '&')
    ensures amp < other ==> s <= other
  {
  }

  lemma {:induction false} LineUnique(t: string, a: Tree, s: nat, b: Tree, e: nat, lo: nat)
    requires a in Derivations(t, lo, s) && b in Derivations(t, lo, e) && GreedyLine(t, a, s) && EndsLine(t, e)
    ensures a == b && s == e
    decreases b, a, 5
  {
    var (a1, s1) := if a.ListTree? then (a.left, a.semi) else (a, s);
    var (b1, e1) := if b.ListTree? then (b.left, b.semi) else (b, e);
    if a.ListTree? {
      SemiIsGreedy(t, a, lo, s);
    }
    JobsNest(t, a1, s1, b1, e1, lo);
    if a.ListTree? && b.ListTree? {
      LineUnique(t, a.right, s, b.right, e, a.semi + 1);
    }
  }

  lemma {:induction false} SemiIsGreedy(t: string, a: Tree, lo: nat, s: nat)
    requires a.ListTree? && a in Derivations(t, lo, s)
    ensures EndsPipe(t, a.semi) && GreedyJob(t, a.left, a.semi)
  {
    SymbolIsToken(t, a.semi);
    if IsPipe(a.left) {
      EndIsGreedy(t, a.left, lo, a.semi);
    }
  }

  // ------------------------------------------------------------------
  // Dead ends: positions from which nothing can be derived.

  ghost predicate NoItems(t: string, lo: nat) {
    forall items: seq<Item>, e: nat :: EndsExec(t, e) ==> !ItemsAt(t, items, lo, e)
  }

  /** No simple command with few enough arguments. */
  ghost predicate NoSimple(t: string, lo: nat) {
    forall items: seq<Item>, e: nat :: EndsExec(t, e) && ItemsAt(t, items, lo, e) ==> |Args(items)| >= MAXARGS
  }

  ghost predicate NoExec(t: string, lo: nat) {
    forall b: Tree, e: nat :: IsExec(b) && EndsExec(t, e) ==> b !in Derivations(t, lo, e)
  }

  ghost predicate NoPipe(t: string, lo: nat) {
    forall b: Tree, e: nat :: IsPipe(b) && EndsPipe(t, e) ==> b !in Derivations(t, lo, e)
  }

  ghost predicate NoLine(t: string, lo: nat) {
    forall b: Tree, e: nat :: EndsLine(t, e) ==> b !in Derivations(t, lo, e)
  }

  lemma {:induction false} MissingFile(t: string, s: nat, f: nat, item: Item)
    requires AtToken(t, s) && At(t, s) in "<>" && AtToken(t, f) && !IsWordChar(At(t, f))
    requires Blank(t, s + (if At(t, s) == '>' && At(t, s + 1) == '>' then 2 else 1), f)
    ensures !ItemAt(t, item, s)
  {
    if ItemAt(t, item, s) {
      ItemFromToken(t, item, s, s);
      assert item.Redirect?;
      SameToken(t, s + OpLength(item.kind), item.w.start, f);
    }
  }

  lemma {:induction false} ParenIsNoItem(t: string, s: nat)
    requires AtToken(t, s) && At(t, s) == '('
    ensures forall item :: !ItemAt(t, item, s)
  {
    forall item ensures !ItemAt(t, item, s) {
      if ItemAt(t, item, s) {
        ItemFromToken(t, item, s, s);
      }
    }
  }

  lemma {:induction false} StuckItems(t: string, a: seq<Item>, s: nat, lo: nat)
    requires ItemsAt(t, a, lo, s) && AtToken(t, s) && !EndsExec(t, s) && forall item :: !ItemAt(t, item, s)
    ensures NoItems(t, lo)
  {
    forall b: seq<Item>, e: nat | EndsExec(t, e) ensures !ItemsAt(t, b, lo, e) {
      if ItemsAt(t, b, lo, e) {
        var rest := ItemsPrefix(t, a, s, b, e, lo);
      }
    }
  }

  lemma {:induction false} StuckAfterWord(t: string, a: seq<Item>, s: nat, w: Span, s2: nat, lo: nat)
    requires ItemsAt(t, a, lo, s) && AtToken(t, s) && !EndsExec(t, s)
    requires ItemAt(t, Word(w), s) && Blank(t, w.end, s2) && AtToken(t, s2) && NoItems(t, s2)
    ensures NoItems(t, lo)
  {
    forall b: seq<Item>, e: nat | EndsExec(t, e) ensures !ItemsAt(t, b, lo, e) {
      if ItemsAt(t, b, lo, e) {
        var rest := ItemsPrefix(t, a, s, b, e, lo);
        ItemUnique(t, rest[0], Word(w), s);
        ItemsFromToken(t, rest[1..], w.end, s2, e);
      }
    }
  }

  lemma {:induction false} TooManyArgs(t: string, a: seq<Item>, s: nat, w: Span, lo: nat)
    requires ItemsAt(t, a, lo, s) && AtToken(t, s) && !EndsExec(t, s) && ItemAt(t, Word(w), s)
    requires |Args(a)| + 1 >= MAXARGS
    ensures NoSimple(t, lo)
  {
    forall b: seq<Item>, e: nat | EndsExec(t, e) && ItemsAt(t, b, lo, e) ensures |Args(b)| >= MAXARGS {
      var rest := ItemsPrefix(t, a, s, b, e, lo);
      ItemUnique(t, rest[0], Word(w), s);
      ArgsAppend(a, rest);
    }
  }

  /** A derivation is the same seen from the token it starts with. */
  lemma {:induction false} DerivesFromToken(t: string, tree: Tree, lo: nat, s: nat, e: nat)
    requires tree in Derivations(t, lo, e) && Blank(t, lo, s) && AtToken(t, s) && AtToken(t, e)
    ensures tree in Derivations(t, s, e)
    decreases tree
  {
    match tree
    case Simple(items) => ItemsFromToken(t, items, lo, s, e);
    case Block(open, _, _, _) => SameToken(t, lo, open, s);
    case PipeTree(l, bar, _) => SymbolIsToken(t, bar); DerivesFromToken(t, l, lo, s, bar);
    case BackTree(b, amp) => SymbolIsToken(t, amp); DerivesFromToken(t, b, lo, s, amp);
    case ListTree(l, semi, _) => SymbolIsToken(t, semi); DerivesFromToken(t, l, lo, s, semi);
  }

  lemma {:induction false} NoExecFromToken(t: string, lo: nat, s: nat)
    requires Blank(t, lo, s) && AtToken(t, s) && NoExec(t, s)
    ensures NoExec(t, lo)
  {
    forall b: Tree, e: nat | IsExec(b) && EndsExec(t, e) ensures b !in Derivations(t, lo, e) {
      if b in Derivations(t, lo, e) {
        DerivesFromToken(t, b, lo, s, e);
      }
    }
  }

  lemma {:induction false} NoSimpleExec(t: string, lo: nat, s: nat)
    requires Blank(t, lo, s) && AtToken(t, s) && At(t, s) != '(' && NoSimple(t, s)
    ensures NoExec(t, lo)
  {
    forall b: Tree, e: nat | IsExec(b) && EndsExec(t, e) ensures b !in Derivations(t, lo, e) {
      if b in Derivations(t, lo, e) {
        BlockStart(t, b, lo, s, e);
        ItemsFromToken(t, b.items, lo, s, e);
      }
    }
  }

  /** What a block at s would have to look like */
  lemma {:induction false} BlockParts(t: string, b: Tree, s: nat, s1: nat, e: nat)
    requires IsExec(b) && b in Derivations(t, s, e) && EndsExec(t, e)
    requires AtToken(t, s) && At(t, s) == '(' && Blank(t, s + 1, s1) && AtToken(t, s1)
    ensures b.Block? && b.body in Derivations(t, s1, b.close) && EndsLine(t, b.close) && SymbolAt(t, b.close, ')')
    ensures ItemsAt(t, b.redirs, b.close + 1, e)
  {
    BlockStart(t, b, s, s, e);
    BodyEnds(t, b, s, e);
    DerivesFromToken(t, b.body, s + 1, s1, b.close);
  }

  lemma {:induction false} NoBlock(t: string, s: nat, s1: nat)
    requires AtToken(t, s) && At(t, s) == '(' && Blank(t, s + 1, s1) && AtToken(t, s1) && NoLine(t, s1)
    ensures NoExec(t, s)
  {
    forall b: Tree, e: nat | IsExec(b) && EndsExec(t, e) ensures b !in Derivations(t, s, e) {
      if b in Derivations(t, s, e) {
        BlockParts(t, b, s, s1, e);
      }
    }
  }

  lemma {:induction false} NoClose(t: string, s: nat, s1: nat, body: Tree, close: nat)
    requires AtToken(t, s) && At(t, s) == '(' && Blank(t, s + 1, s1) && AtToken(t, s1)
    requires body in Derivations(t, s1, close) && GreedyLine(t, body, close)
    requires At(t, close) == ')' ==> exists s2 :: Blank(t, close + 1, s2) && AtToken(t, s2) && NoItems(t, s2)
    ensures NoExec(t, s)
  {
    forall b: Tree, e: nat | IsExec(b) && EndsExec(t, e) ensures b !in Derivations(t, s, e) {
      if b in Derivations(t, s, e) {
        BlockParts(t, b, s, s1, e);
        LineUnique(t, body, close, b.body, b.close, s1);
        var s2 :| Blank(t, close + 1, s2) && AtToken(t, s2) && NoItems(t, s2);
        ItemsFromToken(t, b.redirs, close + 1, s2, e);
      }
    }
  }

  lemma {:induction false} NoPipeStart(t: string, lo: nat)
    requires NoExec(t, lo)
    ensures NoPipe(t, lo)
  {
    forall b: Tree, e: nat | IsPipe(b) && EndsPipe(t, e) ensures b !in Derivations(t, lo, e) {
      assert EndsExec(t, e) && At(t, e) != '|';
      if b in Derivations(t, lo, e) && b.PipeTree? {
        PipeParts(t, b, lo, e);
      }
    }
  }

  lemma {:induction false} NoPipeRest(t: string, lo: nat, a: Tree, s: nat, s1: nat)
    requires IsExec(a) && a in Derivations(t, lo, s) && AtToken(t, s) && At(t, s) == '|'
    requires Blank(t, s + 1, s1) && AtToken(t, s1) && NoPipe(t, s1)
    ensures NoPipe(t, lo)
  {
    forall b: Tree, e: nat | IsPipe(b) && EndsPipe(t, e) ensures b !in Derivations(t, lo, e) {
      assert EndsExec(t, e) && At(t, e) != '|';
      if b in Derivations(t, lo, e) {
        if b.PipeTree? {
          PipeParts(t, b, lo, e);
          ExecUnique(t, a, s, b.left, b.bar, lo);
          DerivesFromToken(t, b.right, s + 1, s1, e);
        } else {
          ExecUnique(t, a, s, b, e, lo);
        }
      }
    }
  }

  /** Every derivation starts with one of a pipeline. */
  lemma {:induction false} FirstPipe(t: string, b: Tree, lo: nat, e: nat) returns (p: Tree, q: nat)
    requires b in Derivations(t, lo, e) && EndsPipe(t, e)
    ensures IsPipe(p) && EndsPipe(t, q) && p in Derivations(t, lo, q)
    decreases b
  {
    if b.BackTree? {
      SymbolIsToken(t, b.amp);
      p, q := FirstPipe(t, b.tree, lo, b.amp);
    } else if b.ListTree? {
      SymbolIsToken(t, b.semi);
      p, q := FirstPipe(t, b.left, lo, b.semi);
    } else {
      p, q := b, e;
    }
  }

  lemma {:induction false} NoLineStart(t: string, lo: nat)
    requires NoPipe(t, lo)
    ensures NoLine(t, lo)
  {
    forall b: Tree, e: nat | EndsLine(t, e) ensures b !in Derivations(t, lo, e) {
      if b in Derivations(t, lo, e) {
        var p, q := FirstPipe(t, b, lo, e);
      }
    }
  }

  lemma {:induction false} NoLineRest(t: string, lo: nat, a: Tree, s: nat, s1: nat)
    requires !a.ListTree? && a in Derivations(t, lo, s) && GreedyJob(t, a, s) && At(t, s) == ';'
    requires Blank(t, s + 1, s1) && AtToken(t, s1) && NoLine(t, s1)
    ensures NoLine(t, lo)
  {
    forall b: Tree, e: nat | EndsLine(t, e) ensures b !in Derivations(t, lo, e) {
      if b in Derivations(t, lo, e) {
        if b.ListTree? {
          SymbolIsToken(t, b.semi);
          JobsNest(t, a, s, b.left, b.semi, lo);
          DerivesFromToken(t, b.right, s + 1, s1, e);
        } else {
          JobsNest(t, a, s, b, e, lo);
        }
      }
    }
  }
}
