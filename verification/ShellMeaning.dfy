/**
 What a command of the shell says about the line it came from, in terms of the characters
 of the line alone.

 `SpellsLine` is a second grammar, of commands and not of derivations.  It knows nothing of
 the order in which the parser builds a command: a stretch without parentheses and
 separators spells a simple command whose arguments are all its words that follow no `<`
 or `>`, and whose redirections, from the inside out, are the other words in the order of
 the line, each of the kind that the characters in front of it say.
 */
module ShellMeaning {
  import opened Common
  import opened ShellGrammar

  // ------------------------------------------------------------------
  // What the characters say.

  /** The redirection operator that ends at position i, but for blanks. */
  function OperatorBefore(t: string, i: nat): Option<Kind>
    requires i <= |t|
  {
    if i == 0 then None
    else if IsSpace(t[i - 1]) then OperatorBefore(t, i - 1)
    else if t[i - 1] == '<' then Some(In)
    else if t[i - 1] == '>' then (if i > 1 && t[i - 2] == '>' then Some(Append) else Some(Out))
    else None
  }

  /** No parenthesis and no separator of commands. */
  predicate Plain(t: string, lo: nat, hi: nat) {
    lo <= hi <= |t| && forall i :: lo <= i < hi ==> t[i] !in "|&;()"
  }

  ghost predicate WordIn(t: string, w: Span, lo: nat, hi: nat) {
    IsWord(t, w) && lo <= w.start && w.end <= hi
  }

  /** The words from lo to hi that follow no redirection operator, in order. */
  ghost predicate AreArgs(t: string, args: seq<Span>, lo: nat, hi: nat) {
    && (forall i, j :: 0 <= i < j < |args| ==> args[i].end < args[j].start)
    && forall w :: w in args <==> WordIn(t, w, lo, hi) && OperatorBefore(t, w.start).None?
  }

  /** A word and the redirection it is the file of. */
  datatype File = File(w: Span, kind: Kind)

  /** The words from lo to hi that follow a redirection operator, in order, each with its kind. */
  ghost predicate AreFiles(t: string, files: seq<File>, lo: nat, hi: nat) {
    && (forall i, j :: 0 <= i < j < |files| ==> files[i].w.end < files[j].w.start)
    && forall f :: f in files <==> WordIn(t, f.w, lo, hi) && OperatorBefore(t, f.w.start) == Some(f.kind)
  }

  /** c is `inner` with these files redirected, the last one outermost. */
  predicate Redirected(c: Cmd, inner: Cmd, files: seq<File>)
    decreases files
  {
    if files == [] then c == inner
    else
      var last := |files| - 1;
      c.Redir? && c.file == files[last].w && c.kind == files[last].kind && Redirected(c.cmd, inner, files[..last])
  }

  // ------------------------------------------------------------------
  // Which commands a stretch of the line spells.

  ghost predicate SpellsSimple(t: string, c: Cmd, lo: nat, hi: nat) {
    && Plain(t, lo, hi)
    && exists args, files :: AreArgs(t, args, lo, hi) && AreFiles(t, files, lo, hi) && Redirected(c, Exec(args), files)
  }

  /** Redirections behind a closing parenthesis, and no words. */
  ghost predicate SpellsRedirections(t: string, c: Cmd, inner: Cmd, lo: nat, hi: nat) {
    && Plain(t, lo, hi) && AreArgs(t, [], lo, hi)
    && exists files :: AreFiles(t, files, lo, hi) && Redirected(c, inner, files)
  }

  ghost predicate SpellsExec(t: string, c: Cmd, lo: nat, hi: nat)
    requires lo <= hi
    decreases hi - lo, 1
  {
    || SpellsSimple(t, c, lo, hi)
    || exists open: nat, close: nat, inner :: SpellsBlock(t, c, open, inner, close, lo, hi)
  }

  /** A list of commands in parentheses, with redirections behind it. */
  ghost predicate SpellsBlock(t: string, c: Cmd, open: nat, inner: Cmd, close: nat, lo: nat, hi: nat)
    requires lo <= hi
    decreases hi - lo, 0
  {
    && Blank(t, lo, open) && SymbolAt(t, open, '(') && open < close < hi && SymbolAt(t, close, ')')
    && SpellsLine(t, inner, open + 1, close) && SpellsRedirections(t, c, inner, close + 1, hi)
  }

  ghost predicate SpellsPipe(t: string, c: Cmd, lo: nat, hi: nat)
    requires lo <= hi
    decreases hi - lo, 3
  {
    SpellsExec(t, c, lo, hi) || exists bar: nat :: PipedAt(t, c, bar, lo, hi)
  }

  ghost predicate PipedAt(t: string, c: Cmd, bar: nat, lo: nat, hi: nat)
    requires lo <= hi
    decreases hi - lo, 2
  {
    && c.Pipe? && lo <= bar < hi && SymbolAt(t, bar, '|')
    && SpellsExec(t, c.left, lo, bar) && SpellsPipe(t, c.right, bar + 1, hi)
  }

  ghost predicate SpellsJob(t: string, c: Cmd, lo: nat, hi: nat)
    requires lo <= hi
    decreases hi - lo, 5
  {
    SpellsPipe(t, c, lo, hi) || exists amp: nat :: BackedAt(t, c, amp, lo, hi)
  }

  ghost predicate BackedAt(t: string, c: Cmd, amp: nat, lo: nat, hi: nat)
    requires lo <= hi
    decreases hi - lo, 4
  {
    c.Back? && lo <= amp < hi && SymbolAt(t, amp, '&') && SpellsJob(t, c.cmd, lo, amp) && Blank(t, amp + 1, hi)
  }

  ghost predicate SpellsLine(t: string, c: Cmd, lo: nat, hi: nat)
    requires lo <= hi
    decreases hi - lo, 7
  {
    SpellsJob(t, c, lo, hi) || exists semi: nat :: ListedAt(t, c, semi, lo, hi)
  }

  ghost predicate ListedAt(t: string, c: Cmd, semi: nat, lo: nat, hi: nat)
    requires lo <= hi
    decreases hi - lo, 6
  {
    && c.List? && lo <= semi < hi && SymbolAt(t, semi, ';')
    && SpellsJob(t, c.left, lo, semi) && SpellsLine(t, c.right, semi + 1, hi)
  }

  // ------------------------------------------------------------------
  // Items.

  lemma {:induction false} BlankKeepsOperator(t: string, lo: nat, i: nat)
    requires Blank(t, lo, i)
    ensures OperatorBefore(t, i) == OperatorBefore(t, lo)
    decreases i
  {
    if lo < i {
      BlankKeepsOperator(t, lo, i - 1);
    }
  }

  /** The files of the redirections among the items. */
  function Files(items: seq<Item>): seq<File> {
    if items == [] then []
    else (if items[0].Word? then [] else [File(items[0].w, items[0].kind)]) + Files(items[1..])
  }

  lemma NoOperatorBefore(t: string, i: nat)
    requires 0 < i <= |t| && OperatorBefore(t, i).None?
    ensures t[i - 1] != '<' && t[i - 1] != '>'
  {
  }

  /** The operator of a redirection is what stands in front of its file. */
  lemma {:induction false} RedirectOperator(t: string, item: Item, lo: nat)
    requires lo <= |t| && OperatorBefore(t, lo).None? && ItemAt(t, item, lo) && item.Redirect?
    ensures OperatorBefore(t, item.w.start) == Some(item.kind)
  {
    var op, k := item.op, item.kind;
    BlankKeepsOperator(t, lo, op);
    BlankKeepsOperator(t, op + OpLength(k), item.w.start);
    if op > 0 {
      NoOperatorBefore(t, op);
    }
  }

  /** What stands in front of the word of an item. */
  lemma {:induction false} ItemOperator(t: string, item: Item, lo: nat)
    requires lo <= |t| && OperatorBefore(t, lo).None? && ItemAt(t, item, lo)
    ensures lo <= item.w.start < item.w.end <= |t| && OperatorBefore(t, item.w.end).None?
    ensures OperatorBefore(t, item.w.start) == if item.Word? then None else Some(item.kind)
  {
    assert IsWordChar(t[item.w.end - 1]);
    match item
    case Word(w) => BlankKeepsOperator(t, lo, w.start);
    case Redirect(_, _, _) => RedirectOperator(t, item, lo);
  }

  lemma {:induction false} ItemChars(t: string, item: Item, lo: nat)
    requires lo <= |t| && ItemAt(t, item, lo)
    ensures Plain(t, lo, item.w.end) && forall i :: lo <= i < item.w.start ==> !IsWordChar(t[i])
  {
  }

  lemma {:induction false} ItemsPlain(t: string, items: seq<Item>, lo: nat, hi: nat)
    requires lo <= |t| && OperatorBefore(t, lo).None? && ItemsAt(t, items, lo, hi)
    ensures Plain(t, lo, hi)
    decreases items
  {
    if items != [] {
      ItemOperator(t, items[0], lo);
      ItemChars(t, items[0], lo);
      ItemsPlain(t, items[1..], items[0].w.end, hi);
    }
  }

  /** Every word of the stretch is that of an item, of the sort that the characters in front of it say. */
  lemma {:induction false} WordIsItem(t: string, items: seq<Item>, lo: nat, hi: nat, w: Span)
    requires lo <= |t| && OperatorBefore(t, lo).None? && ItemsAt(t, items, lo, hi) && WordIn(t, w, lo, hi)
    ensures OperatorBefore(t, w.start).None? ==> w in Args(items)
    ensures OperatorBefore(t, w.start).Some? ==> File(w, OperatorBefore(t, w.start).value) in Files(items)
    decreases items
  {
    assert IsWordChar(t[w.start]);
    if items != [] {
      var v := items[0].w;
      ItemOperator(t, items[0], lo);
      ItemChars(t, items[0], lo);
      if w != v {
        WordsApart(t, v, w);
        WordIsItem(t, items[1..], v.end, hi, w);
      }
    }
  }

  lemma {:induction false} ArgIsWord(t: string, items: seq<Item>, lo: nat, hi: nat, w: Span)
    requires lo <= |t| && OperatorBefore(t, lo).None? && ItemsAt(t, items, lo, hi) && w in Args(items)
    ensures WordIn(t, w, lo, hi) && OperatorBefore(t, w.start).None?
    decreases items
  {
    ItemOperator(t, items[0], lo);
    ItemsPlain(t, items[1..], items[0].w.end, hi);
    if !(items[0].Word? && w == items[0].w) {
      ArgIsWord(t, items[1..], items[0].w.end, hi, w);
    }
  }

  lemma {:induction false} FileIsWord(t: string, items: seq<Item>, lo: nat, hi: nat, f: File)
    requires lo <= |t| && OperatorBefore(t, lo).None? && ItemsAt(t, items, lo, hi) && f in Files(items)
    ensures WordIn(t, f.w, lo, hi) && OperatorBefore(t, f.w.start) == Some(f.kind)
    decreases items
  {
    ItemOperator(t, items[0], lo);
    ItemsPlain(t, items[1..], items[0].w.end, hi);
    if !(items[0].Redirect? && f == File(items[0].w, items[0].kind)) {
      FileIsWord(t, items[1..], items[0].w.end, hi, f);
    }
  }

  lemma {:induction false} ArgsAscend(t: string, items: seq<Item>, lo: nat, hi: nat, i: nat, j: nat)
    requires lo <= |t| && OperatorBefore(t, lo).None? && ItemsAt(t, items, lo, hi) && i < j < |Args(items)|
    ensures Args(items)[i].end < Args(items)[j].start
    decreases items
  {
    var rest, v := Args(items[1..]), items[0].w;
    ItemOperator(t, items[0], lo);
    if items[0].Redirect? {
      ArgsAscend(t, items[1..], v.end, hi, i, j);
    } else if i > 0 {
      ArgsAscend(t, items[1..], v.end, hi, i - 1, j - 1);
    } else {
      assert Args(items)[j] == rest[j - 1];
      ArgIsWord(t, items[1..], v.end, hi, rest[j - 1]);
      WordsApart(t, v, rest[j - 1]);
    }
  }

  lemma {:induction false} FilesAscend(t: string, items: seq<Item>, lo: nat, hi: nat, i: nat, j: nat)
    requires lo <= |t| && OperatorBefore(t, lo).None? && ItemsAt(t, items, lo, hi) && i < j < |Files(items)|
    ensures Files(items)[i].w.end < Files(items)[j].w.start
    decreases items
  {
    var rest, v := Files(items[1..]), items[0].w;
    ItemOperator(t, items[0], lo);
    if items[0].Word? {
      FilesAscend(t, items[1..], v.end, hi, i, j);
    } else if i > 0 {
      FilesAscend(t, items[1..], v.end, hi, i - 1, j - 1);
    } else {
      assert Files(items)[j] == rest[j - 1];
      FileIsWord(t, items[1..], v.end, hi, rest[j - 1]);
      WordsApart(t, v, rest[j - 1].w);
    }
  }

  lemma {:induction false} ItemsAreArgs(t: string, items: seq<Item>, lo: nat, hi: nat)
    requires lo <= |t| && OperatorBefore(t, lo).None? && ItemsAt(t, items, lo, hi)
    ensures AreArgs(t, Args(items), lo, hi)
  {
    forall i, j | 0 <= i < j < |Args(items)| ensures Args(items)[i].end < Args(items)[j].start {
      ArgsAscend(t, items, lo, hi, i, j);
    }
    forall w ensures w in Args(items) <==> WordIn(t, w, lo, hi) && OperatorBefore(t, w.start).None? {
      if w in Args(items) {
        ArgIsWord(t, items, lo, hi, w);
      } else if WordIn(t, w, lo, hi) {
        WordIsItem(t, items, lo, hi, w);
      }
    }
  }

  lemma {:induction false} ItemsAreFiles(t: string, items: seq<Item>, lo: nat, hi: nat)
    requires lo <= |t| && OperatorBefore(t, lo).None? && ItemsAt(t, items, lo, hi)
    ensures AreFiles(t, Files(items), lo, hi)
  {
    forall i, j | 0 <= i < j < |Files(items)| ensures Files(items)[i].w.end < Files(items)[j].w.start {
      FilesAscend(t, items, lo, hi, i, j);
    }
    forall f ensures f in Files(items) <==> WordIn(t, f.w, lo, hi) && OperatorBefore(t, f.w.start) == Some(f.kind) {
      if f in Files(items) {
        FileIsWord(t, items, lo, hi, f);
      } else if WordIn(t, f.w, lo, hi) {
        WordIsItem(t, items, lo, hi, f.w);
      }
    }
  }

  // ------------------------------------------------------------------
  // Redirections.

  lemma {:induction false} OneMoreInside(c: Cmd, inner: Cmd, f: File, files: seq<File>)
    requires Redirected(c, Redir(inner, f.w, f.kind), files)
    ensures Redirected(c, inner, [f] + files)
    decreases files
  {
    var all := [f] + files;
    var last := |all| - 1;
    if files == [] {
      assert all[..last] == [];
    } else {
      OneMoreInside(c.cmd, inner, f, files[..|files| - 1]);
      assert all[..last] == [f] + files[..|files| - 1] && all[last] == files[|files| - 1];
    }
  }

  /** The redirections that wrap a command are the files of the items, the last one outermost. */
  lemma {:induction false} WrappedIsRedirected(c: Cmd, items: seq<Item>)
    ensures Redirected(Wrapped(c, items), c, Files(items))
    decreases items
  {
    if items != [] {
      if items[0].Word? {
        WrappedIsRedirected(c, items[1..]);
        assert Files(items) == Files(items[1..]);
      } else {
        WrappedIsRedirected(Redir(c, items[0].w, items[0].kind), items[1..]);
        OneMoreInside(Wrapped(c, items), c, File(items[0].w, items[0].kind), Files(items[1..]));
      }
    }
  }

  lemma {:induction false} SimpleIsSpelled(t: string, items: seq<Item>, lo: nat, hi: nat)
    requires lo <= |t| && OperatorBefore(t, lo).None? && ItemsAt(t, items, lo, hi)
    ensures SpellsSimple(t, Wrapped(Exec(Args(items)), items), lo, hi)
  {
    ItemsPlain(t, items, lo, hi);
    ItemsAreArgs(t, items, lo, hi);
    ItemsAreFiles(t, items, lo, hi);
    WrappedIsRedirected(Exec(Args(items)), items);
  }

  lemma {:induction false} RedirectionsAreSpelled(t: string, inner: Cmd, items: seq<Item>, lo: nat, hi: nat)
    requires lo <= |t| && OperatorBefore(t, lo).None? && ItemsAt(t, items, lo, hi) && OnlyRedirects(items)
    ensures SpellsRedirections(t, Wrapped(inner, items), inner, lo, hi)
  {
    ItemsPlain(t, items, lo, hi);
    ItemsAreArgs(t, items, lo, hi);
    NoArgs(items);
    ItemsAreFiles(t, items, lo, hi);
    WrappedIsRedirected(inner, items);
  }

  // ------------------------------------------------------------------
  // Derivations.

  lemma {:induction false} DerivesInside(t: string, tree: Tree, lo: nat, hi: nat)
    requires tree in Derivations(t, lo, hi)
    ensures lo <= hi <= |t|
    decreases tree
  {
    match tree
    case Simple(items) => ItemsInside(t, items, lo, hi);
    case Block(open, body, close, redirs) =>
      assert body in Derivations(t, open + 1, close);
      DerivesInside(t, body, open + 1, close);
      ItemsInside(t, redirs, close + 1, hi);
    case PipeTree(l, bar, r) =>
      assert l in Derivations(t, lo, bar) && r in Derivations(t, bar + 1, hi);
      DerivesInside(t, l, lo, bar);
      DerivesInside(t, r, bar + 1, hi);
    case BackTree(b, amp) =>
      assert b in Derivations(t, lo, amp);
      DerivesInside(t, b, lo, amp);
    case ListTree(l, semi, r) =>
      assert l in Derivations(t, lo, semi) && r in Derivations(t, semi + 1, hi);
      DerivesInside(t, l, lo, semi);
      DerivesInside(t, r, semi + 1, hi);
  }

  lemma {:induction false} ItemsInside(t: string, items: seq<Item>, lo: nat, hi: nat)
    requires ItemsAt(t, items, lo, hi)
    ensures lo <= hi <= |t|
    decreases items
  {
    if items != [] {
      ItemsInside(t, items[1..], items[0].w.end, hi);
    }
  }

  lemma {:induction false} ExecIsSpelled(t: string, tree: Tree, lo: nat, hi: nat)
    requires tree in Derivations(t, lo, hi) && (tree.Simple? || tree.Block?) && lo <= |t| && OperatorBefore(t, lo).None?
    ensures lo <= hi <= |t| && SpellsExec(t, Command(tree), lo, hi)
    decreases tree, 1
  {
    DerivesInside(t, tree, lo, hi);
    if tree.Simple? {
      SimpleIsSpelled(t, tree.items, lo, hi);
    } else {
      BlockIsSpelled(t, tree, lo, hi);
    }
  }

  lemma {:induction false} BlockIsSpelled(t: string, tree: Tree, lo: nat, hi: nat)
    requires tree in Derivations(t, lo, hi) && tree.Block? && lo <= hi
    ensures SpellsBlock(t, Command(tree), tree.open, Command(tree.body), tree.close, lo, hi)
    decreases tree, 0
  {
    assert tree.body in Derivations(t, tree.open + 1, tree.close);
    LineIsSpelled(t, tree.body, tree.open + 1, tree.close);
    BlockEndIsSpelled(t, Command(tree.body), tree.close, tree.redirs, hi);
  }

  lemma {:induction false} BlockEndIsSpelled(t: string, inner: Cmd, close: nat, redirs: seq<Item>, hi: nat)
    requires SymbolAt(t, close, ')') && redirs in ItemLists(t, close + 1, hi) && OnlyRedirects(redirs)
    ensures close < hi && SpellsRedirections(t, Wrapped(inner, redirs), inner, close + 1, hi)
  {
    ItemsInside(t, redirs, close + 1, hi);
    RedirectionsAreSpelled(t, inner, redirs, close + 1, hi);
  }

  lemma {:induction false} PipeParts(t: string, tree: Tree, lo: nat, hi: nat)
    requires tree in Derivations(t, lo, hi) && tree.PipeTree?
    ensures tree.left in Derivations(t, lo, tree.bar) && tree.right in Derivations(t, tree.bar + 1, hi)
    ensures (tree.left.Simple? || tree.left.Block?) && (tree.right.Simple? || tree.right.Block? || tree.right.PipeTree?)
    ensures SymbolAt(t, tree.bar, '|') && OperatorBefore(t, tree.bar + 1).None?
  {
  }

  lemma {:induction false} ListParts(t: string, tree: Tree, lo: nat, hi: nat)
    requires tree in Derivations(t, lo, hi) && tree.ListTree?
    ensures tree.left in Derivations(t, lo, tree.semi) && tree.right in Derivations(t, tree.semi + 1, hi)
    ensures !tree.left.ListTree? && SymbolAt(t, tree.semi, ';') && OperatorBefore(t, tree.semi + 1).None?
  {
  }

  lemma {:induction false} PipeIsSpelled(t: string, tree: Tree, lo: nat, hi: nat)
    requires tree in Derivations(t, lo, hi) && (tree.Simple? || tree.Block? || tree.PipeTree?)
    requires lo <= |t| && OperatorBefore(t, lo).None?
    ensures lo <= hi <= |t| && SpellsPipe(t, Command(tree), lo, hi)
    decreases tree, 2
  {
    if tree.PipeTree? {
      PipeParts(t, tree, lo, hi);
      ExecIsSpelled(t, tree.left, lo, tree.bar);
      PipeIsSpelled(t, tree.right, tree.bar + 1, hi);
      assert PipedAt(t, Command(tree), tree.bar, lo, hi);
    } else {
      ExecIsSpelled(t, tree, lo, hi);
    }
  }

  lemma {:induction false} JobIsSpelled(t: string, tree: Tree, lo: nat, hi: nat)
    requires tree in Derivations(t, lo, hi) && !tree.ListTree? && lo <= |t| && OperatorBefore(t, lo).None?
    ensures lo <= hi <= |t| && SpellsJob(t, Command(tree), lo, hi)
    decreases tree, 3
  {
    if tree.BackTree? {
      assert tree.tree in Derivations(t, lo, tree.amp);
      JobIsSpelled(t, tree.tree, lo, tree.amp);
      assert BackedAt(t, Command(tree), tree.amp, lo, hi);
    } else {
      PipeIsSpelled(t, tree, lo, hi);
    }
  }

  /** The command of a derivation is spelled by the stretch it derives. */
  lemma {:induction false} LineIsSpelled(t: string, tree: Tree, lo: nat, hi: nat)
    requires tree in Derivations(t, lo, hi) && lo <= |t| && OperatorBefore(t, lo).None?
    ensures lo <= hi <= |t| && SpellsLine(t, Command(tree), lo, hi)
    decreases tree, 4
  {
    if tree.ListTree? {
      ListParts(t, tree, lo, hi);
      JobIsSpelled(t, tree.left, lo, tree.semi);
      LineIsSpelled(t, tree.right, tree.semi + 1, hi);
      assert ListedAt(t, Command(tree), tree.semi, lo, hi);
    } else {
      JobIsSpelled(t, tree, lo, hi);
    }
  }
}
