/**
 The shell's grammar.  A `Tree` is a derivation of a stretch of the line, with the
 position of every word and operator.
 */
module ShellGrammar {

  const MAXARGS: nat := 10
  const NUL: char := '\0'

  /** The characters from `start` up to but not including `end`. */
  datatype Span = Span(start: nat, end: nat)

  datatype Kind = In | Out | Append

  datatype Cmd =
    | Exec(args: seq<Span>)
    | Redir(cmd: Cmd, file: Span, kind: Kind)
    | Pipe(left: Cmd, right: Cmd)
    | List(left: Cmd, right: Cmd)
    | Back(cmd: Cmd)

  // ------------------------------------------------------------------
  // Characters.

  predicate IsSpace(c: char) { c in " \t\r\n\U{000B}" }
  predicate IsSymbol(c: char) { c in "<|>&;()" }
  predicate IsWordChar(c: char) { c != NUL && !IsSpace(c) && !IsSymbol(c) }

  /** The character at a position of a line, which ends in a NUL. */
  function At(t: string, i: nat): char {
    if i < |t| then t[i] else NUL
  }

  predicate Blank(t: string, lo: nat, hi: nat) {
    lo <= hi <= |t| && forall i :: lo <= i < hi ==> IsSpace(t[i])
  }

  predicate AllWord(t: string, lo: nat, hi: nat) {
    lo <= hi <= |t| && forall i :: lo <= i < hi ==> IsWordChar(t[i])
  }

  /** No word runs across this position. */
  predicate Boundary(t: string, i: nat) {
    i == 0 || i > |t| || !IsWordChar(At(t, i - 1)) || !IsWordChar(At(t, i))
  }

  /** A word: a run of word characters that cannot be extended on either side. */
  predicate IsWord(t: string, w: Span) {
    w.start < w.end && AllWord(t, w.start, w.end) && Boundary(t, w.start) && Boundary(t, w.end)
  }

  lemma NoBoundaryInside(t: string, w: Span, i: nat)
    requires IsWord(t, w) && Boundary(t, i)
    ensures i <= w.start || w.end <= i
  {
  }

  /** Two different words neither overlap nor touch. */
  lemma WordsApart(t: string, v: Span, w: Span)
    requires IsWord(t, v) && IsWord(t, w) && v != w
    ensures v.end < w.start || w.end < v.start
  {
    NoBoundaryInside(t, v, w.start);
    NoBoundaryInside(t, v, w.end);
    NoBoundaryInside(t, w, v.start);
    NoBoundaryInside(t, w, v.end);
    assert IsWordChar(t[v.start]) && IsWordChar(t[v.end - 1]);
    assert IsWordChar(t[w.start]) && IsWordChar(t[w.end - 1]);
  }

  // ------------------------------------------------------------------
  // The grammar.

  datatype Item = Word(w: Span) | Redirect(op: nat, kind: Kind, w: Span)

  datatype Tree =
    | Simple(items: seq<Item>)
    | Block(open: nat, body: Tree, close: nat, redirs: seq<Item>)
    | PipeTree(left: Tree, bar: nat, right: Tree)
    | BackTree(tree: Tree, amp: nat)
    | ListTree(left: Tree, semi: nat, right: Tree)

  function OpLength(k: Kind): nat { if k.Append? then 2 else 1 }

  predicate OperatorAt(t: string, op: nat, k: Kind) {
    match k
    case In => At(t, op) == '<'
    case Out => At(t, op) == '>' && At(t, op + 1) != '>'
    case Append => At(t, op) == '>' && At(t, op + 1) == '>'
  }

  /** One word or redirection from lo on, after blanks. */
  predicate ItemAt(t: string, item: Item, lo: nat) {
    && IsWord(t, item.w)
    && match item
       case Word(w) => Blank(t, lo, w.start)
       case Redirect(op, k, w) => Blank(t, lo, op) && OperatorAt(t, op, k) && Blank(t, op + OpLength(k), w.start)
  }

  /** The items fill the line from lo to hi, with only blanks between them. */
  predicate ItemsAt(t: string, items: seq<Item>, lo: nat, hi: nat)
    decreases items
  {
    if items == [] then Blank(t, lo, hi)
    else ItemAt(t, items[0], lo) && ItemsAt(t, items[1..], items[0].w.end, hi)
  }

  predicate SymbolAt(t: string, i: nat, c: char) {
    i < |t| && t[i] == c
  }

  predicate OnlyRedirects(items: seq<Item>) {
    forall i :: 0 <= i < |items| ==> items[i].Redirect?
  }

  function Args(items: seq<Item>): seq<Span> {
    if items == [] then []
    else (if items[0].Word? then [items[0].w] else []) + Args(items[1..])
  }

  /** The tree derives the stretch of the line from lo to hi. */
  predicate Derives(t: string, tree: Tree, lo: nat, hi: nat)
    decreases tree
  {
    match tree
    case Simple(items) => ItemsAt(t, items, lo, hi) && |Args(items)| < MAXARGS
    case Block(open, body, close, redirs) =>
      && Blank(t, lo, open) && SymbolAt(t, open, '(')
      && Derives(t, body, open + 1, close) && SymbolAt(t, close, ')')
      && OnlyRedirects(redirs) && ItemsAt(t, redirs, close + 1, hi)
    case PipeTree(l, bar, r) =>
      (l.Simple? || l.Block?) && (r.Simple? || r.Block? || r.PipeTree?)
      && Derives(t, l, lo, bar) && SymbolAt(t, bar, '|') && Derives(t, r, bar + 1, hi)
    case BackTree(b, amp) =>
      !b.ListTree? && Derives(t, b, lo, amp) && SymbolAt(t, amp, '&') && Blank(t, amp + 1, hi)
    case ListTree(l, semi, r) =>
      !l.ListTree? && Derives(t, l, lo, semi) && SymbolAt(t, semi, ';') && Derives(t, r, semi + 1, hi)
  }

  /** Redirections wrap the command in the order they are written. */
  function Wrapped(c: Cmd, items: seq<Item>): Cmd
    decreases items
  {
    if items == [] then c
    else Wrapped(if items[0].Word? then c else Redir(c, items[0].w, items[0].kind), items[1..])
  }

  /** The command a derivation stands for. */
  function Command(tree: Tree): Cmd {
    match tree
    case Simple(items) => Wrapped(Exec(Args(items)), items)
    case Block(_, body, _, redirs) => Wrapped(Command(body), redirs)
    case PipeTree(l, _, r) => Pipe(Command(l), Command(r))
    case BackTree(b, _) => Back(Command(b))
    case ListTree(l, _, r) => List(Command(l), Command(r))
  }

  // ------------------------------------------------------------------
  // Putting stretches together.

  lemma {:induction false} BlankAppend(t: string, lo: nat, mid: nat, hi: nat)
    requires Blank(t, lo, mid) && Blank(t, mid, hi)
    ensures Blank(t, lo, hi)
  {
  }

  ghost function ItemLists(t: string, lo: nat, hi: nat): iset<seq<Item>> {
    iset items | ItemsAt(t, items, lo, hi)
  }

  lemma {:induction false} ItemsFromBlank(t: string, items: seq<Item>, lo: nat, mid: nat, hi: nat)
    requires Blank(t, lo, mid) && items in ItemLists(t, mid, hi)
    ensures items in ItemLists(t, lo, hi)
  {
    if items == [] {
      BlankAppend(t, lo, mid, hi);
    }
  }

  lemma {:induction false} ItemsAppend(t: string, a: seq<Item>, b: seq<Item>, ab: seq<Item>, lo: nat, mid: nat, hi: nat)
    requires a in ItemLists(t, lo, mid) && b in ItemLists(t, mid, hi) && ab == a + b
    ensures ab in ItemLists(t, lo, hi)
    decreases a
  {
    if a == [] {
      assert ab == b;
      ItemsFromBlank(t, b, lo, mid, hi);
    } else {
      assert ab[0] == a[0] && ab[1..] == a[1..] + b;
      ItemsAppend(t, a[1..], b, ab[1..], a[0].w.end, mid, hi);
    }
  }

  lemma {:induction false} ArgsAppend(a: seq<Item>, b: seq<Item>)
    ensures Args(a + b) == Args(a) + Args(b)
  {
    if a == [] {
      assert a + b == b;
    } else {
      ArgsAppend(a[1..], b);
      assert (a + b)[1..] == a[1..] + b;
    }
  }

  lemma {:induction false} NoArgs(items: seq<Item>)
    requires OnlyRedirects(items)
    ensures Args(items) == []
  {
    if items != [] {
      NoArgs(items[1..]);
    }
  }

  ghost function Derivations(t: string, lo: nat, hi: nat): iset<Tree> {
    iset tree | Derives(t, tree, lo, hi)
  }

  /** The cursor stands at a token or at the end of the line. */
  predicate AtToken(t: string, s: nat) {
    s <= |t| && Boundary(t, s) && (s < |t| ==> !IsSpace(t[s]))
  }

  lemma {:induction false} DerivesFromBlank(t: string, tree: Tree, lo: nat, mid: nat, hi: nat)
    requires Blank(t, lo, mid) && Derives(t, tree, mid, hi)
    ensures Derives(t, tree, lo, hi)
    decreases tree
  {
    match tree
    case Simple(items) => ItemsFromBlank(t, items, lo, mid, hi);
    case Block(open, _, _, _) => BlankAppend(t, lo, mid, open);
    case PipeTree(l, bar, _) => DerivesFromBlank(t, l, lo, mid, bar);
    case BackTree(b, amp) => DerivesFromBlank(t, b, lo, mid, amp);
    case ListTree(l, semi, _) => DerivesFromBlank(t, l, lo, mid, semi);
  }
}
