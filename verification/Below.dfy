/**
 * Everything below a graph, spelled out kind by kind without the branch view: which nodes there
 * are, where they stand and which of them share the scope of the root.
 */
module Below {
  import opened FieldGraph
  import opened Conditions
  import opened DraftRules
  import opened Rename
  import opened RenameMeaning
  import opened Walk

  /** A node with its authored surroundings; `shared` says that only layouts lie above it. */
  datatype Entry = Entry(
    node: Node, index: nat, selectors: seq<Selector>, path: seq<string>, definition: string, shared: bool)

  datatype Around = Around(selectors: seq<Selector>, path: seq<string>, definition: string, shared: bool)

  /** Nodes that store nothing under their own name add nothing to a path. */
  function PathOf(n: Node, a: Around): seq<string> {
    if n.name == "" then a.path
    else if !n.namedTab && (n.kind == Tabs || n.kind == Row || n.kind == Ui || n.kind == Collapsible) then a.path
    else a.path + [n.name]
  }

  function EntryOf(n: Node, i: nat, a: Around): Entry {
    Entry(n, i, a.selectors, PathOf(n, a), a.definition, a.shared)
  }

  /** What surrounds the one child list of an object, an array or a layout. */
  function InList(n: Node, boundary: Boundary, a: Around): Around {
    Around(a.selectors + [Selector(boundary, "", "", "")], PathOf(n, a), a.definition,
           a.shared && boundary == Layout)
  }

  function InBlock(n: Node, slug: string, referenced: bool, a: Around): Around {
    Around(a.selectors + [Selector(BlockCase, "", "", slug)],
           PathOf(n, a) + (if slug != "" then [slug] else []),
           if referenced then slug else a.definition, false)
  }

  function InCase(n: Node, key: string, tag: string, slug: string, referenced: bool, a: Around): Around {
    Around(a.selectors + [Selector(EmbeddedCaseBoundary, key, tag, slug)],
           PathOf(n, a) + [key, tag] + (if slug != "" then [slug] else []),
           if referenced then slug else a.definition, false)
  }

  /** The nodes of `fs`, the first of them at position `i`, each followed by what is below it. */
  function Entries(fs: seq<Node>, i: nat, a: Around): seq<Entry>
    decreases fs
  {
    if fs == [] then [] else [EntryOf(fs[0], i, a)] + Under(fs[0], a) + Entries(fs[1..], i + 1, a)
  }

  function Under(n: Node, a: Around): seq<Entry>
    decreases n
  {
    (match n.kind
     case Group => Entries(n.fields, 0, InList(n, if n.namedTab then NamedTabBoundary else StoredObject, a))
     case Array => Entries(n.fields, 0, InList(n, if n.namedTab then NamedTabBoundary else RepeatedArray, a))
     case Row => Entries(n.fields, 0, InList(n, if n.namedTab then NamedTabBoundary else Layout, a))
     case Collapsible => Entries(n.fields, 0, InList(n, if n.namedTab then NamedTabBoundary else Layout, a))
     case Tabs => Entries(n.fields, 0, InList(n, if n.namedTab then NamedTabBoundary else Layout, a))
     case Blocks => UnderBlocks(n, n.blocks, a)
     case ScalarKind(_) => []
     case Relationship => []
     case Upload => []
     case Ui => []
     case Join => []
     case Virtual => []
     case Plugin => [])
    + UnderTrees(n, n.trees, a)
  }

  function UnderBlocks(n: Node, bs: seq<Block>, a: Around): seq<Entry>
    decreases bs
  {
    if bs == [] then []
    else Entries(bs[0].fields, 0, InBlock(n, bs[0].slug, n.blockReferences != [], a)) + UnderBlocks(n, bs[1..], a)
  }

  function UnderTrees(n: Node, ts: seq<EmbeddedTree>, a: Around): seq<Entry>
    decreases ts
  {
    if ts == [] then [] else UnderCases(n, ts[0].key, ts[0].cases, a) + UnderTrees(n, ts[1..], a)
  }

  function UnderCases(n: Node, key: string, cs: seq<EmbeddedCase>, a: Around): seq<Entry>
    decreases cs
  {
    if cs == [] then []
    else UnderTypes(n, key, cs[0].tag, cs[0].references != [], cs[0].types, a) + UnderCases(n, key, cs[1..], a)
  }

  function UnderTypes(n: Node, key: string, tag: string, referenced: bool, bs: seq<Block>, a: Around): seq<Entry>
    decreases bs
  {
    if bs == [] then []
    else
      Entries(bs[0].fields, 0, InCase(n, key, tag, bs[0].slug, referenced, a))
      + UnderTypes(n, key, tag, referenced, bs[1..], a)
  }

  // ------------------------------------------------------------ the branch view

  /** What surrounds a branch's fields. */
  function InBranch(n: Node, b: Branch, a: Around): Around {
    Around(a.selectors + [b.selector],
           PathOf(n, a)
           + (if b.selector.boundary == EmbeddedCaseBoundary then [b.selector.tree, b.selector.tag] else [])
           + (if b.selector.slug != "" then [b.selector.slug] else []),
           if b.referenced then b.selector.slug else a.definition, a.shared && b.selector.boundary == Layout)
  }

  function UnderBranches(n: Node, bs: seq<Branch>, a: Around): seq<Entry> {
    if bs == [] then [] else Entries(bs[0].fields, 0, InBranch(n, bs[0], a)) + UnderBranches(n, bs[1..], a)
  }

  lemma {:induction false} UnderBranchesJoin(n: Node, bs: seq<Branch>, cs: seq<Branch>, a: Around)
    ensures UnderBranches(n, bs + cs, a) == UnderBranches(n, bs, a) + UnderBranches(n, cs, a)
  {
    hide Entries;
    if bs == [] {
      assert bs + cs == cs;
    } else {
      assert (bs + cs)[1..] == bs[1..] + cs;
      UnderBranchesJoin(n, bs[1..], cs, a);
    }
  }

  function BlockList(bs: seq<Block>, referenced: bool): seq<Branch> {
    seq(|bs|, i requires 0 <= i < |bs| => Branch(Selector(BlockCase, "", "", bs[i].slug), bs[i].slug, referenced,
                                                 bs[i].fields))
  }

  lemma {:induction false} BlockListIsUnder(n: Node, bs: seq<Block>, a: Around)
    ensures UnderBranches(n, BlockList(bs, n.blockReferences != []), a) == UnderBlocks(n, bs, a)
  {
    hide Entries;
    if bs != [] {
      var referenced := n.blockReferences != [];
      assert BlockList(bs, referenced)[1..] == BlockList(bs[1..], referenced);
      BlockListIsUnder(n, bs[1..], a);
      BlockContext(n, bs[0], referenced, a);
    }
  }

  lemma BlockContext(n: Node, b: Block, referenced: bool, a: Around)
    ensures InBranch(n, Branch(Selector(BlockCase, "", "", b.slug), b.slug, referenced, b.fields), a)
            == InBlock(n, b.slug, referenced, a)
  {
  }

  lemma {:induction false} TypesAreUnder(n: Node, key: string, c: EmbeddedCase, a: Around)
    ensures UnderBranches(n, TypeBranches(key, c), a)
            == UnderTypes(n, key, c.tag, c.references != [], c.types, a)
    decreases |c.types|
  {
    hide Entries;
    if c.types != [] {
      var rest := c.(types := c.types[1..]);
      assert TypeBranches(key, c)[1..] == TypeBranches(key, rest);
      TypesAreUnder(n, key, rest, a);
      TypeContext(n, key, c, c.types[0], a);
    }
  }

  lemma TypeContext(n: Node, key: string, c: EmbeddedCase, b: Block, a: Around)
    ensures InBranch(n, TypeBranch(key, c, b), a) == InCase(n, key, c.tag, b.slug, c.references != [], a)
  {
  }

  lemma {:induction false} CasesAreUnder(n: Node, key: string, cs: seq<EmbeddedCase>, a: Around)
    ensures UnderBranches(n, CaseBranches(key, cs), a) == UnderCases(n, key, cs, a)
  {
    hide UnderTypes, TypeBranches;
    if cs != [] {
      TypesAreUnder(n, key, cs[0], a);
      CasesAreUnder(n, key, cs[1..], a);
      UnderBranchesJoin(n, TypeBranches(key, cs[0]), CaseBranches(key, cs[1..]), a);
    }
  }

  lemma {:induction false} TreesAreUnder(n: Node, ts: seq<EmbeddedTree>, a: Around)
    ensures UnderBranches(n, TreeBranches(ts), a) == UnderTrees(n, ts, a)
  {
    hide UnderCases, CaseBranches;
    if ts != [] {
      CasesAreUnder(n, ts[0].key, ts[0].cases, a);
      TreesAreUnder(n, ts[1..], a);
      UnderBranchesJoin(n, CaseBranches(ts[0].key, ts[0].cases), TreeBranches(ts[1..]), a);
    }
  }

  lemma OneBranch(n: Node, b: Branch, a: Around)
    ensures UnderBranches(n, [b], a) == Entries(b.fields, 0, InBranch(n, b, a))
  {
    assert [b][1..] == [];
  }

  /** The branches of a node are its child lists, one for each, with their boundary, slug and sharing. */
  lemma BranchesAreUnder(n: Node, a: Around)
    ensures UnderBranches(n, Branches(n), a) == Under(n, a)
  {
    UnderBranchesJoin(n, OwnBranches(n), TreeBranches(n.trees), a);
    TreesAreUnder(n, n.trees, a);
    OwnListed(n);
    if n.kind == Blocks {
      BlockListIsUnder(n, n.blocks, a);
    } else if n.kind == Group || n.kind == Array || n.kind == Row || n.kind == Collapsible || n.kind == Tabs {
      OneBranch(n, OwnBranches(n)[0], a);
      ListContext(n, OwnBranches(n)[0], a);
    }
    hide Entries, UnderBlocks, UnderTrees, UnderBranches;
  }

  lemma ListContext(n: Node, b: Branch, a: Around)
    requires b.selector.boundary != EmbeddedCaseBoundary && b.selector == Selector(b.selector.boundary, "", "", "")
    requires !b.referenced
    ensures InBranch(n, b, a) == InList(n, b.selector.boundary, a)
  {
    assert PathOf(n, a) + [] + [] == PathOf(n, a);
  }

  /** Exactly one branch for the child list of each of the five kinds that have one, one for each block. */
  lemma OwnListed(n: Node)
    ensures n.kind == Group ==> OwnBranches(n) == [ListBranch(n, StoredObject)]
    ensures n.kind == Array ==> OwnBranches(n) == [ListBranch(n, RepeatedArray)]
    ensures (n.kind == Row || n.kind == Collapsible || n.kind == Tabs) ==> OwnBranches(n) == [ListBranch(n, Layout)]
    ensures n.kind == Blocks ==> OwnBranches(n) == BlockList(n.blocks, n.blockReferences != [])
    ensures n.kind in {Relationship, Upload, Ui, Join, Virtual, Plugin} || n.kind.ScalarKind? ==> OwnBranches(n) == []
  {
  }

  /** The branch of a child list: a named tab is an object of its own, whatever its kind. */
  function ListBranch(n: Node, boundary: Boundary): Branch {
    Branch(Selector(if n.namedTab then NamedTabBoundary else boundary, "", "", ""), "", false, n.fields)
  }

  // -------------------------------------------------------------------- the walk

  function Visits(es: seq<Entry>): seq<Visit> {
    seq(|es|, j requires 0 <= j < |es| =>
      Visit(es[j].node, es[j].selectors, es[j].index, es[j].path, es[j].definition))
  }

  function Seen(visits: seq<(Place, Visit)>): seq<Visit> {
    seq(|visits|, j requires 0 <= j < |visits| => visits[j].1)
  }

  function ContextOf(a: Around): Context {
    Context(a.selectors, a.path, a.definition)
  }

  lemma JoinSeen(xs: seq<(Place, Visit)>, ys: seq<(Place, Visit)>, es: seq<Entry>, fs: seq<Entry>)
    requires Seen(xs) == Visits(es) && Seen(ys) == Visits(fs)
    ensures Seen(xs + ys) == Visits(es + fs)
  {
    assert |xs| == |Seen(xs)| == |Visits(es)| == |es| && |ys| == |Seen(ys)| == |Visits(fs)| == |fs|;
    forall j | 0 <= j < |xs + ys| ensures Seen(xs + ys)[j] == Visits(es + fs)[j] {
      if j < |xs| {
        assert Seen(xs + ys)[j] == Seen(xs)[j] && Visits(es + fs)[j] == Visits(es)[j];
      } else {
        assert Seen(xs + ys)[j] == Seen(ys)[j - |xs|] && Visits(es + fs)[j] == Visits(fs)[j - |xs|];
      }
    }
  }

  lemma {:induction false} WalkSeesFields(fs: seq<Node>, i: nat, at: Place, a: Around)
    requires i <= |fs|
    ensures Seen(WalkFields(fs, i, at, ContextOf(a))) == Visits(Entries(fs[i..], i, a))
    decreases FieldsSize(fs), 2, |fs| - i
  {
    hide WalkNode, Under, FieldsSize, NodeSize, Seen, Visits, EntryOf;
    if i == |fs| {
      NothingSeen();
    } else {
      NodeSizeAt(fs, i);
      assert fs[i..][1..] == fs[i + 1..];
      WalkSeesNode(fs[i], i, at + [i], a);
      WalkSeesFields(fs, i + 1, at, a);
      JoinSeen(WalkNode(fs[i], i, at + [i], ContextOf(a)), WalkFields(fs, i + 1, at, ContextOf(a)),
               [EntryOf(fs[i], i, a)] + Under(fs[i], a), Entries(fs[i + 1..], i + 1, a));
    }
  }

  lemma NothingSeen()
    ensures Seen([]) == Visits([])
  {
  }

  lemma {:induction false} WalkSeesNode(n: Node, i: nat, at: Place, a: Around)
    ensures Seen(WalkNode(n, i, at, ContextOf(a))) == Visits([EntryOf(n, i, a)] + Under(n, a))
    decreases NodeSize(n), 1, 0
  {
    WalkSeesBranches(n, 0, at, a);
    BranchesAreUnder(n, a);
    PlacedAsWritten(n, a);
    hide WalkBranches, Under, NodeSize, Branches, UnderBranches, PathOf, Placed;
    assert Branches(n)[0..] == Branches(n);
    var visit := (at, Visit(n, a.selectors, i, Placed(ContextOf(a), n), a.definition));
    assert Seen([visit]) == Visits([EntryOf(n, i, a)]);
    JoinSeen([visit], WalkBranches(n, 0, at, ContextOf(a)), [EntryOf(n, i, a)], Under(n, a));
  }

  lemma PlacedAsWritten(n: Node, a: Around)
    ensures Placed(ContextOf(a), n) == PathOf(n, a)
  {
  }

  lemma {:induction false} WalkSeesBranches(n: Node, k: nat, at: Place, a: Around)
    requires k <= |Branches(n)|
    ensures Seen(WalkBranches(n, k, at, ContextOf(a))) == Visits(UnderBranches(n, Branches(n)[k..], a))
    decreases NodeSize(n), 0, |Branches(n)| - k
  {
    hide WalkFields, Entries, NodeSize, FieldsSize, Branches, Seen, Visits, PathOf, Placed;
    if k == |Branches(n)| {
      NothingSeen();
    } else {
      BranchAt(n, k);
      var b := Branches(n)[k];
      PlacedAsWritten(n, a);
      assert Branches(n)[k..][1..] == Branches(n)[k + 1..];
      assert Inside(ContextOf(a), n, b) == ContextOf(InBranch(n, b, a));
      WalkSeesFields(b.fields, 0, at + [k], InBranch(n, b, a));
      assert b.fields[0..] == b.fields;
      WalkSeesBranches(n, k + 1, at, a);
      JoinSeen(WalkFields(b.fields, 0, at + [k], ContextOf(InBranch(n, b, a))),
               WalkBranches(n, k + 1, at, ContextOf(a)),
               Entries(b.fields, 0, InBranch(n, b, a)), UnderBranches(n, Branches(n)[k + 1..], a));
    }
  }

  const Top := Around([], [], "", true)

  /** A walk visits exactly the nodes below the graph, in order, each with its surroundings. */
  lemma WalkVisitsEverythingBelow(fs: seq<Node>)
    ensures Seen(WalkFields(fs, 0, [], Root)) == Visits(Entries(fs, 0, Top))
  {
    WalkSeesFields(fs, 0, [], Top);
    assert fs[0..] == fs;
  }

  // ------------------------------------------------------------------ the rename

  /** Rewriting left the node where it was and changed its condition and what is below it only. */
  predicate Rewritten(e: Entry, f: Entry, r: Renaming) {
    && f.index == e.index && f.selectors == e.selectors && f.path == e.path
    && f.definition == e.definition && f.shared == e.shared
    && f.node.visibleWhen == RewriteCondition(e.node.visibleWhen, e.shared, r).0
    && f.node.(visibleWhen := e.node.visibleWhen, fields := e.node.fields, blocks := e.node.blocks,
               trees := e.node.trees) == e.node
  }

  predicate AllRewritten(es: seq<Entry>, fs: seq<Entry>, r: Renaming) {
    |es| == |fs| && forall j | 0 <= j < |es| :: Rewritten(es[j], fs[j], r)
  }

  lemma AllRewrittenJoin(es: seq<Entry>, fs: seq<Entry>, more: seq<Entry>, others: seq<Entry>, r: Renaming)
    requires AllRewritten(es, fs, r) && AllRewritten(more, others, r)
    ensures AllRewritten(es + more, fs + others, r)
  {
    hide Rewritten;
  }

  lemma {:induction false} FieldsRewritten(fs: seq<Node>, i: nat, r: Renaming, a: Around)
    requires WellFormed(fs) && RewriteFields(fs, a.shared, r).Ok?
    ensures AllRewritten(Entries(fs, i, a), Entries(RewriteFields(fs, a.shared, r).value.0, i, a), r)
    decreases FieldsSize(fs), 2, 0
  {
    hide WellFormedNode, RewriteNode, Under, EntryOf, AllRewritten;
    if fs == [] {
      NothingRewritten(r);
    } else {
      NodeRewritten(fs[0], i, r, a);
      FieldsRewritten(fs[1..], i + 1, r, a);
      var out := RewriteFields(fs, a.shared, r).value.0;
      var m := RewriteNode(fs[0], a.shared, r).value.0;
      assert out[0] == m && out[1..] == RewriteFields(fs[1..], a.shared, r).value.0;
      AllRewrittenJoin([EntryOf(fs[0], i, a)] + Under(fs[0], a), [EntryOf(m, i, a)] + Under(m, a),
                       Entries(fs[1..], i + 1, a), Entries(out[1..], i + 1, a), r);
    }
  }

  lemma NothingRewritten(r: Renaming)
    ensures AllRewritten([], [], r)
  {
  }

  lemma {:induction false} NodeRewritten(n: Node, i: nat, r: Renaming, a: Around)
    requires WellFormedNode(n) && RewriteNode(n, a.shared, r).Ok?
    ensures var m := RewriteNode(n, a.shared, r).value.0;
            AllRewritten([EntryOf(n, i, a)] + Under(n, a), [EntryOf(m, i, a)] + Under(m, a), r)
    decreases NodeSize(n), 1, 0
  {
    hide Branches, RewriteNode, Under, UnderBranches, WellFormedNode, RewriteCondition, NodeSize, FieldsSize,
      NodeBlocked, AllRewritten;
    RewriteNodeOutcome(n, a.shared, r);
    var m := RewriteNode(n, a.shared, r).value.0;
    BranchesAreUnder(n, a);
    BranchesAreUnder(m, a);
    BranchesRewritten(n, m, 0, r, a);
    assert Branches(n)[0..] == Branches(n) && Branches(m)[0..] == Branches(m);
    OneRewritten(n, m, i, r, a);
    AllRewrittenJoin([EntryOf(n, i, a)], [EntryOf(m, i, a)], Under(n, a), Under(m, a), r);
  }

  lemma OneRewritten(n: Node, m: Node, i: nat, r: Renaming, a: Around)
    requires m.(visibleWhen := n.visibleWhen, fields := n.fields, blocks := n.blocks, trees := n.trees) == n
    requires m.visibleWhen == RewriteCondition(n.visibleWhen, a.shared, r).0
    ensures AllRewritten([EntryOf(n, i, a)], [EntryOf(m, i, a)], r)
  {
    hide RewriteCondition;
    assert m.name == n.name && m.kind == n.kind && m.namedTab == n.namedTab;
  }

  lemma {:induction false} BranchesRewritten(n: Node, m: Node, k: nat, r: Renaming, a: Around)
    requires WellFormedNode(n) && Progress(n, m, |Branches(n)|, a.shared, r) && !NodeBlocked(n, a.shared, r)
    requires k <= |Branches(n)|
    ensures AllRewritten(UnderBranches(n, Branches(n)[k..], a), UnderBranches(m, Branches(m)[k..], a), r)
    decreases NodeSize(n), 0, |Branches(n)| - k
  {
    hide RewriteCondition, RewriteFields, AllRewritten, NodeSize, FieldsSize, Entries, WellFormed, Blocked, Needs,
      Branches, DistinctSelectors;
    if k == |Branches(n)| {
      NothingRewritten(r);
    } else {
      BranchAt(n, k);
      var b, c := Branches(n)[k], Branches(m)[k];
      assert Branches(n)[k..][1..] == Branches(n)[k + 1..] && Branches(m)[k..][1..] == Branches(m)[k + 1..];
      assert c == b.(fields := RewrittenFields(b, a.shared, r));
      assert m.name == n.name && m.kind == n.kind && m.namedTab == n.namedTab;
      assert InBranch(m, c, a) == InBranch(n, b, a);
      RewriteFieldsOutcome(b.fields, SharesScope(b, a.shared), r);
      FieldsRewritten(b.fields, 0, r, InBranch(n, b, a));
      BranchesRewritten(n, m, k + 1, r, a);
      AllRewrittenJoin(Entries(b.fields, 0, InBranch(n, b, a)), Entries(c.fields, 0, InBranch(n, b, a)),
                       UnderBranches(n, Branches(n)[k + 1..], a), UnderBranches(m, Branches(m)[k + 1..], a), r);
    }
  }

  /** No comparison of the condition, at any depth, starts with `name` in a scope the rename applies to. */
  predicate Forgets(c: Condition, shared: bool, name: string, root: bool) {
    && (root && c.reference.scope == RootScope ==> Head(c.reference.path) != name)
    && (shared && c.reference.scope == SiblingScope ==> Head(c.reference.path) != name)
    && forall i | 0 <= i < |c.conditions| :: Forgets(c.conditions[i], shared, name, root)
  }

  lemma {:induction false} RewrittenForgets(c: Condition, shared: bool, r: Renaming)
    requires Proper(r)
    ensures Forgets(RewriteCondition(c, shared, r).0, shared, r.name, r.root)
    decreases c
  {
    hide RewritePath, Follows, Head;
    var d := RewriteCondition(c, shared, r).0;
    RewrittenHead(c.reference.path, r);
    forall i | 0 <= i < |d.conditions| ensures Forgets(d.conditions[i], shared, r.name, r.root) {
      ConditionsAt(c.conditions, shared, r, i);
      RewrittenForgets(c.conditions[i], shared, r);
    }
  }

  lemma RewrittenHead(path: string, r: Renaming)
    requires Proper(r)
    ensures Head(RewritePath(path, r)) != r.name && (!Follows(path, r.name) ==> Head(path) != r.name)
  {
    RewrittenPath(path, r);
  }

  /**
   * After a successful rename of a stored child, every node below the draft stands where it stood,
   * only conditions have changed, and no reference that the rename applies to, however deep and in
   * whatever list, array, block or embedded case, starts with the old name.
   */
  lemma RenameReachesEverythingBelow(fs: seq<Node>, r: Renaming)
    requires ValidateDraft(fs).Ok? && WellFormed(fs) && r.name != r.replacement
    requires RenameDraft(fs, r).Ok? && !Flattened(fs[IndexOf(fs, r.name).value].kind)
    ensures var next, out := Entries(Next(fs, IndexOf(fs, r.name).value, r), 0, Top),
                             Entries(RenameDraft(fs, r).value, 0, Top);
            && AllRewritten(next, out, r)
            && forall j | 0 <= j < |out| :: Forgets(out[j].node.visibleWhen, out[j].shared, r.name, r.root)
  {
    hide WellFormed, RewriteFields, ValidName, Admissible, ClaimedNames, Entries, RewriteCondition, Forgets;
    var i := IndexOf(fs, r.name).value;
    var next := Next(fs, i, r);
    ValidateDraftMeaning(fs);
    AdmissibleAt(fs, i);
    ValidNameHasNoDot(r.name);
    ValidNameHasNoDot(r.replacement);
    WellFormedNext(fs, i, r);
    FieldsRewritten(next, 0, r, Top);
    var before, after := Entries(next, 0, Top), Entries(RenameDraft(fs, r).value, 0, Top);
    forall j | 0 <= j < |after| ensures Forgets(after[j].node.visibleWhen, after[j].shared, r.name, r.root) {
      assert Rewritten(before[j], after[j], r);
      RewrittenForgets(before[j].node.visibleWhen, before[j].shared, r);
    }
  }
}
