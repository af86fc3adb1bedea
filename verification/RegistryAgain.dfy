/** Declared twice is declared once: an equal declaration is accepted as the definition it was before. */
module RegistryAgain {
  import opened Wrappers
  import opened FieldGraph
  import opened BlockRegistry
  import opened RegistryInvariant
  import opened RegistryFaithful
  import opened RegistrySuccess

  /** What every binding keeps. */
  predicate Sane(r: Registry) {
    Invariant(r) && Sincere(r)
  }

  /** A state with at least the definitions of `q`, in whatever way they came about. */
  predicate Later(q: Registry, t: Registry) {
    Sane(t) && t.sources == q.sources && Within(q.blocks, t.blocks)
  }

  lemma LaterOn(q: Registry, t: Registry, u: Registry)
    requires Later(q, t) && Keeps(t, u) && Sincere(u)
    ensures Later(q, u)
  {
    hide Invariant, Sincere;
  }

  lemma EarlierToo(q: Registry, p: Registry, t: Registry)
    requires Keeps(q, p) && Later(p, t)
    ensures Later(q, t)
  {
    hide Invariant, Sincere;
  }

  lemma {:induction false} SlugsOfRendered(authored: seq<Block>, bound: seq<Block>)
    requires RendersBlocks(authored, bound)
    ensures |authored| == |bound| && forall i | 0 <= i < |authored| :: bound[i].slug == authored[i].slug
    decreases |authored|
  {
    hide Renders;
    if authored != [] {
      SlugsOfRendered(authored[1..], bound[1..]);
      assert forall i | 1 <= i < |authored| :: authored[i] == authored[1..][i - 1] && bound[i] == bound[1..][i - 1];
    }
  }

  /** The memo holds what binding the list again would give. */
  lemma MemoAgrees(q: Registry, t: Registry, authored: seq<Block>, bound: seq<Block>)
    requires Later(q, t) && authored in t.inline && RendersBlocks(authored, bound) && Interned(bound, q.blocks)
    ensures t.inline[authored] == bound
  {
    var memo := t.inline[authored];
    assert RendersBlocks(authored, memo) && Interned(memo, t.blocks);
    SlugsOfRendered(authored, memo);
    SlugsOfRendered(authored, bound);
    hide Invariant, Sincere, RendersBlocks;
    forall i | 0 <= i < |authored| ensures memo[i] == bound[i] {
      assert memo[i].slug == bound[i].slug;
    }
  }

  /** A list of unused slugs was not memoized. */
  lemma NotMemoized(r: Registry, authored: seq<Block>)
    requires Sane(r) && authored != [] && Unused(r, BlockSlugs(authored), BlockNames(authored))
    ensures authored !in r.inline
  {
    if authored in r.inline {
      SlugsOfRendered(authored, r.inline[authored]);
    }
  }

  lemma {:induction false} DeclareAgain(r: Registry, authored: seq<Block>, depth: nat, room: int, t: Registry)
    requires authored != [] && Sane(r) && PlainBlocks(authored, room) && depth + room <= MAXIMUM_NESTING
    requires Unused(r, BlockSlugs(authored), BlockNames(authored)) && Later(Declare(r, authored, depth).0, t)
    ensures Declare(t, authored, depth).1 == Declare(r, authored, depth).1
    decreases BlocksSize(authored), 2
  {
    NotMemoized(r, authored);
    ApartFromNothing(authored);
    DeclareBinds(r, authored, {}, depth, room);
    DeclareKeeps(r, authored, depth);
    DeclareFaithful(r, authored, depth);
    var (q, out) := Declare(r, authored, depth);
    if authored in t.inline {
      hide Invariant, Sincere, RendersBlocks, Interned, DeclareEach;
      MemoAgrees(q, t, authored, out.value);
    } else {
      DeclareEachKeeps(r, authored, {}, depth);
      MemoApart(DeclareEach(r, authored, {}, depth).0, q, t);
      hide Invariant, Sincere, DeclareEach, Interned, RendersBlocks, Later;
      DeclareEachAgain(r, authored, {}, depth, room, t);
    }
  }

  lemma MemoApart(p: Registry, q: Registry, t: Registry)
    requires Later(q, t) && q.blocks == p.blocks && q.sources == p.sources
    ensures Later(p, t)
  {
    hide Invariant, Sincere;
  }

  lemma {:induction false} DeclareEachAgain(r: Registry, bs: seq<Block>, seen: set<string>, depth: nat, room: int,
                                            t: Registry)
    requires Sane(r) && PlainBlocks(bs, room) && depth + room <= MAXIMUM_NESTING && BlockSlugs(bs) !! seen
    requires Unused(r, BlockSlugs(bs), BlockNames(bs)) && Later(DeclareEach(r, bs, seen, depth).0, t)
    ensures DeclareEach(t, bs, seen, depth).1 == DeclareEach(r, bs, seen, depth).1
    decreases BlocksSize(bs), 1
  {
    if bs != [] {
      var b := bs[0];
      var xs, ns := {b.slug} + SlugsIn(b.fields), {TypeName(b)} + NamesIn(b.fields);
      var ys, ms := BlockSlugs(bs[1..]), BlockNames(bs[1..]);
      UnusedParts(r, xs, ns, ys, ms);
      assert ys !! seen + {b.slug} && b.slug !in seen;
      hide DeclareOne, Unused, Took, PlainBlock, SlugsIn, NamesIn, BlockSlugs, BlockNames, Apart, TypeName, Invariant,
        Sincere, Later, Extends;
      OneBinds(r, b, seen, depth, room);
      DeclareOneKeeps(r, b, seen, depth);
      DeclareOneFaithful(r, b, seen, depth);
      var q := DeclareOne(r, b, seen, depth).0;
      StillUnused(r, q, xs, ns, ys, ms);
      DeclareEachKeeps(q, bs[1..], seen + {b.slug}, depth);
      DeclareBinds(q, bs[1..], seen + {b.slug}, depth, room);
      var p := DeclareEach(q, bs[1..], seen + {b.slug}, depth).0;
      EarlierToo(q, p, t);
      OneAgain(r, b, seen, depth, room, t);
      SaneOf(p, t);
      DeclareOneKeeps(t, b, seen, depth);
      DeclareOneFaithful(t, b, seen, depth);
      var u := DeclareOne(t, b, seen, depth).0;
      LaterOn(p, t, u);
      DeclareEachAgain(q, bs[1..], seen + {b.slug}, depth, room, u);
    }
  }

  lemma SaneOf(q: Registry, t: Registry)
    requires Later(q, t)
    ensures Invariant(t) && Sincere(t)
  {
  }

  lemma {:induction false} OneAgain(r: Registry, b: Block, seen: set<string>, depth: nat, room: int, t: Registry)
    requires Sane(r) && PlainBlock(b, room) && depth + room <= MAXIMUM_NESTING && b.slug !in seen
    requires Unused(r, {b.slug} + SlugsIn(b.fields), {TypeName(b)} + NamesIn(b.fields))
    requires Later(DeclareOne(r, b, seen, depth).0, t)
    ensures DeclareOne(t, b, seen, depth).1 == DeclareOne(r, b, seen, depth).1
    decreases FieldsSize(b.fields) + 1, 0
  {
    hide DeclareOne, BindFields, SlugsIn, NamesIn, Plain, ValidTypeName, ValidSlug, TypeName, Invariant, Sincere,
      Unused, Extends, Took, Later, Within, Named;
    UnusedParts(r, {b.slug}, {TypeName(b)}, SlugsIn(b.fields), NamesIn(b.fields));
    OneBinds(r, b, seen, depth, room);
    FieldsBind(r, b.fields, depth + 1, room - 1);
    DeclareOneKeeps(r, b, seen, depth);
    OneExtends(r, b, seen, depth);
    StillNamed(r, b, seen, depth);
    var (q, out) := DeclareOne(r, b, seen, depth);
    var (r1, fields) := BindFields(r, b.fields, depth + 1);
    MemoWithin(r1, q, t);
    FieldsAgain(r, b.fields, depth + 1, room - 1, t);
    SaneOf(q, t);
    BindFieldsKeeps(t, b.fields, depth + 1);
    var t1 := BindFields(t, b.fields, depth + 1).0;
    LaterHas(q, t, t1, b.slug);
    EqualIsAccepted(t, b, seen, depth);
  }

  lemma LaterHas(q: Registry, t: Registry, t1: Registry, slug: string)
    requires Later(q, t) && Keeps(t, t1) && slug in q.blocks
    ensures slug in t1.blocks && t1.blocks[slug] == q.blocks[slug]
  {
    hide Invariant, Sincere;
  }

  /** A declaration that binds to the definition of its slug is that definition. */
  lemma EqualIsAccepted(t: Registry, b: Block, seen: set<string>, depth: nat)
    requires ValidSlug(b.slug) && b.slug !in seen
    requires var (t1, fields) := BindFields(t, b.fields, depth + 1);
             fields.Ok? && b.slug in t1.blocks && t1.blocks[b.slug] == Named(b).(fields := fields.value)
    ensures DeclareOne(t, b, seen, depth).1 == Ok(Named(b).(fields := BindFields(t, b.fields, depth + 1).1.value))
  {
    hide BindFields, Definition, ClaimName, ValidSlug, TypeName;
  }

  /** An accepted declaration is its full name with its bound fields. */
  lemma StillNamed(r: Registry, b: Block, seen: set<string>, depth: nat)
    requires DeclareOne(r, b, seen, depth).1.Ok?
    ensures var fields := BindFields(r, b.fields, depth + 1).1;
            fields.Ok? && DeclareOne(r, b, seen, depth).1.value == Named(b).(fields := fields.value)
  {
    hide BindFields, Definition, ClaimName, ValidSlug, TypeName;
  }

  /** An accepted declaration is found, bound as a central one, or recorded. */
  lemma OneShape(r: Registry, b: Block, seen: set<string>, depth: nat)
    requires DeclareOne(r, b, seen, depth).1.Ok?
    ensures var r1 := BindFields(r, b.fields, depth + 1).0;
            var q := DeclareOne(r, b, seen, depth).0;
            || q == r1
            || q == Definition(r1, b.slug).0
            || (b.slug !in r1.blocks && q.blocks.Keys == r1.blocks.Keys + {b.slug}
                && q.sources == r1.sources && forall s | s in r1.blocks :: q.blocks[s] == r1.blocks[s])
  {
    hide Definition, ClaimName, ValidSlug, TypeName, BindFields;
    var (r1, fields) := BindFields(r, b.fields, depth + 1);
    if fields.Ok? { ClaimLeavesBlocks(r1, Named(b).(fields := fields.value)); }
  }

  lemma OneExtends(r: Registry, b: Block, seen: set<string>, depth: nat)
    requires DeclareOne(r, b, seen, depth).1.Ok? && Invariant(r)
    ensures var r1 := BindFields(r, b.fields, depth + 1).0;
            var q := DeclareOne(r, b, seen, depth).0;
            Within(r1.blocks, q.blocks) && q.sources == r1.sources
  {
    hide BindFields, Invariant, Definition, DeclareOne, NamesWithin;
    OneShape(r, b, seen, depth);
    BindFieldsKeeps(r, b.fields, depth + 1);
    DefinitionKeeps(BindFields(r, b.fields, depth + 1).0, b.slug);
  }

  lemma ClaimLeavesBlocks(r: Registry, b: Block)
    ensures ClaimName(r, b).Ok? ==>
              ClaimName(r, b).value.blocks == r.blocks && ClaimName(r, b).value.sources == r.sources
  {
  }

  lemma MemoWithin(p: Registry, q: Registry, t: Registry)
    requires Later(q, t) && Within(p.blocks, q.blocks) && q.sources == p.sources
    ensures Later(p, t)
  {
    hide Invariant, Sincere;
  }

  lemma {:induction false} FieldsAgain(r: Registry, fs: seq<Node>, depth: nat, room: int, t: Registry)
    requires Sane(r) && Plain(fs, room) && depth + room <= MAXIMUM_NESTING && Unused(r, SlugsIn(fs), NamesIn(fs))
    requires Later(BindFields(r, fs, depth).0, t)
    ensures BindFields(t, fs, depth).1 == BindFields(r, fs, depth).1
    decreases FieldsSize(fs), 3
  {
    hide Sane, Later, Plain, Unused, BindEach;
    if depth <= MAXIMUM_NESTING { EachAgain(r, fs, depth, room, t); }
  }

  lemma {:induction false} EachAgain(r: Registry, fs: seq<Node>, depth: nat, room: int, t: Registry)
    requires Sane(r) && Plain(fs, room) && depth + room <= MAXIMUM_NESTING && Unused(r, SlugsIn(fs), NamesIn(fs))
    requires Later(BindEach(r, fs, depth).0, t)
    ensures BindEach(t, fs, depth).1 == BindEach(r, fs, depth).1
    decreases FieldsSize(fs), 2
  {
    if fs != [] {
      var n := fs[0];
      UnusedParts(r, NodeSlugs(n), NodeNames(n), SlugsIn(fs[1..]), NamesIn(fs[1..]));
      hide BindNode, Unused, Took, NodeSlugs, NodeNames, PlainNode, Apart, Invariant, Sincere, Later, Extends;
      NodeBinds(r, n, depth, room);
      BindNodeKeeps(r, n, depth);
      NodeFaithful(r, n, depth);
      var q := BindNode(r, n, depth).0;
      StillUnused(r, q, NodeSlugs(n), NodeNames(n), SlugsIn(fs[1..]), NamesIn(fs[1..]));
      EachBind(q, fs[1..], depth, room);
      BindEachKeeps(q, fs[1..], depth);
      var p := BindEach(q, fs[1..], depth).0;
      EarlierToo(q, p, t);
      NodeAgain(r, n, depth, room, t);
      SaneOf(p, t);
      BindNodeKeeps(t, n, depth);
      NodeFaithful(t, n, depth);
      LaterOn(p, t, BindNode(t, n, depth).0);
      EachAgain(q, fs[1..], depth, room, BindNode(t, n, depth).0);
    }
  }

  lemma {:induction false} ChildrenAgain(r: Registry, fs: seq<Node>, depth: nat, room: int, t: Registry)
    requires Sane(r) && (fs == [] || Plain(fs, room - 1)) && depth + room <= MAXIMUM_NESTING
    requires Unused(r, SlugsIn(fs), NamesIn(fs)) && Later(BindChildren(r, fs, depth).0, t)
    ensures BindChildren(t, fs, depth).1 == BindChildren(r, fs, depth).1
    decreases FieldsSize(fs), 4
  {
    hide Sane, Later, Plain, Unused, BindFields;
    if fs != [] { FieldsAgain(r, fs, depth + 1, room - 1, t); }
  }

  lemma {:induction false} SelectAgain(r: Registry, bs: seq<Block>, bound: bool, depth: nat, room: int, t: Registry)
    requires Sane(r) && PlainBlocks(bs, room) && depth + room <= MAXIMUM_NESTING
    requires Unused(r, BlockSlugs(bs), BlockNames(bs)) && Later(SelectBlocks(r, bs, [], bound, depth).0, t)
    ensures SelectBlocks(t, bs, [], bound, depth).1 == SelectBlocks(r, bs, [], bound, depth).1
    decreases BlocksSize(bs), 3
  {
    hide Sane, Later, PlainBlocks, Unused, Declare;
    if bs != [] { DeclareAgain(r, bs, depth, room, t); }
  }

  lemma {:induction false} NodeAgain(r: Registry, n: Node, depth: nat, room: int, t: Registry)
    requires Sane(r) && PlainNode(n, room) && depth + room <= MAXIMUM_NESTING && depth <= MAXIMUM_NESTING
    requires Unused(r, NodeSlugs(n), NodeNames(n)) && Later(BindNode(r, n, depth).0, t)
    ensures BindNode(t, n, depth).1 == BindNode(r, n, depth).1
    decreases NodeSize(n), 1
  {
    hide SelectBlocks, BindChildren, BindTrees, Unused, Took, PlainBlocks, PlainTrees, Plain, Assembled, Apart,
      SlugsIn, NamesIn, BlockSlugs, BlockNames, TreeSlugs, TreeNames, Invariant, Sincere, Later, Extends;
    var xs, ns := BlockSlugs(n.blocks), BlockNames(n.blocks);
    var ys, ms := SlugsIn(n.fields), NamesIn(n.fields);
    var zs, os := TreeSlugs(n.trees), TreeNames(n.trees);
    UnusedParts(r, xs + ys, ns + ms, zs, os);
    UnusedParts(r, xs, ns, ys, ms);
    SelectBinds(r, n.blocks, n.referencesBound, depth, room);
    SelectKeeps(r, n.blocks, [], n.referencesBound, depth);
    SelectFaithful(r, n.blocks, [], n.referencesBound, depth);
    var r1 := SelectBlocks(r, n.blocks, [], n.referencesBound, depth).0;
    StillUnused(r, r1, xs, ns, ys, ms);
    ChildrenBind(r1, n.fields, depth, room);
    BindChildrenKeeps(r1, n.fields, depth);
    ChildrenFaithful(r1, n.fields, depth);
    var r2 := BindChildren(r1, n.fields, depth).0;
    TookBoth(r, r1, r2, xs, ns, ys, ms);
    StillUnused(r, r2, xs + ys, ns + ms, zs, os);
    TreesBind(r2, n.trees, depth, room);
    BindTreesKeeps(r2, n.trees, depth);
    var r3 := BindTrees(r2, n.trees, depth).0;
    EarlierToo(r2, r3, t);
    EarlierToo(r1, r2, t);
    SelectAgain(r, n.blocks, n.referencesBound, depth, room, t);
    SaneOf(r3, t);
    SelectKeeps(t, n.blocks, [], n.referencesBound, depth);
    SelectFaithful(t, n.blocks, [], n.referencesBound, depth);
    var t1 := SelectBlocks(t, n.blocks, [], n.referencesBound, depth).0;
    LaterOn(r2, t, t1);
    LaterOn(r3, t, t1);
    ChildrenAgain(r1, n.fields, depth, room, t1);
    BindChildrenKeeps(t1, n.fields, depth);
    ChildrenFaithful(t1, n.fields, depth);
    LaterOn(r3, t1, BindChildren(t1, n.fields, depth).0);
    TreesAgain(r2, n.trees, depth, room, BindChildren(t1, n.fields, depth).0);
  }

  lemma {:induction false} TreesAgain(r: Registry, ts: seq<EmbeddedTree>, depth: nat, room: int, t: Registry)
    requires Sane(r) && PlainTrees(ts, room) && depth + room <= MAXIMUM_NESTING
    requires Unused(r, TreeSlugs(ts), TreeNames(ts)) && Later(BindTrees(r, ts, depth).0, t)
    ensures BindTrees(t, ts, depth).1 == BindTrees(r, ts, depth).1
    decreases TreesSize(ts), 0
  {
    if ts != [] {
      var cs := ts[0].cases;
      var xs, ns, ys, ms := CaseSlugs(cs), CaseNames(cs), TreeSlugs(ts[1..]), TreeNames(ts[1..]);
      UnusedParts(r, xs, ns, ys, ms);
      hide BindCases, Unused, Took, PlainCases, CaseSlugs, CaseNames, Apart, Invariant, Sincere, Later, Extends;
      CasesBind(r, cs, depth, room);
      BindCasesKeeps(r, cs, depth);
      CasesFaithful(r, cs, depth);
      var q := BindCases(r, cs, depth).0;
      StillUnused(r, q, xs, ns, ys, ms);
      TreesBind(q, ts[1..], depth, room);
      BindTreesKeeps(q, ts[1..], depth);
      var p := BindTrees(q, ts[1..], depth).0;
      EarlierToo(q, p, t);
      CasesAgain(r, cs, depth, room, t);
      SaneOf(p, t);
      BindCasesKeeps(t, cs, depth);
      CasesFaithful(t, cs, depth);
      LaterOn(p, t, BindCases(t, cs, depth).0);
      TreesAgain(q, ts[1..], depth, room, BindCases(t, cs, depth).0);
    }
  }

  lemma {:induction false} CasesAgain(r: Registry, cs: seq<EmbeddedCase>, depth: nat, room: int, t: Registry)
    requires Sane(r) && PlainCases(cs, room) && depth + room <= MAXIMUM_NESTING
    requires Unused(r, CaseSlugs(cs), CaseNames(cs)) && Later(BindCases(r, cs, depth).0, t)
    ensures BindCases(t, cs, depth).1 == BindCases(r, cs, depth).1
    decreases CasesSize(cs), 0
  {
    if cs != [] {
      var c := cs[0];
      var xs, ns, ys, ms := BlockSlugs(c.types), BlockNames(c.types), CaseSlugs(cs[1..]), CaseNames(cs[1..]);
      UnusedParts(r, xs, ns, ys, ms);
      hide SelectBlocks, Unused, Took, PlainBlocks, BlockSlugs, BlockNames, Apart, Invariant, Sincere, Later, Extends;
      SelectBinds(r, c.types, c.referencesBound, depth, room);
      SelectKeeps(r, c.types, [], c.referencesBound, depth);
      SelectFaithful(r, c.types, [], c.referencesBound, depth);
      var q := SelectBlocks(r, c.types, [], c.referencesBound, depth).0;
      StillUnused(r, q, xs, ns, ys, ms);
      CasesBind(q, cs[1..], depth, room);
      BindCasesKeeps(q, cs[1..], depth);
      var p := BindCases(q, cs[1..], depth).0;
      EarlierToo(q, p, t);
      SelectAgain(r, c.types, c.referencesBound, depth, room, t);
      SaneOf(p, t);
      SelectKeeps(t, c.types, [], c.referencesBound, depth);
      SelectFaithful(t, c.types, [], c.referencesBound, depth);
      LaterOn(p, t, SelectBlocks(t, c.types, [], c.referencesBound, depth).0);
      CasesAgain(q, cs[1..], depth, room, SelectBlocks(t, c.types, [], c.referencesBound, depth).0);
    }
  }

  /**
   * A graph of inline declarations that was bound once binds again in every later state, also where
   * its lists are not memoized, and gives the same bound graph: a declaration equal to an earlier
   * one is no conflict.
   */
  lemma EqualDeclarationsAreShared(r: Registry, fs: seq<Node>, t: Registry)
    requires Invariant(r) && Sincere(r) && Plain(fs, 48) && Unused(r, SlugsIn(fs), NamesIn(fs))
    requires Invariant(t) && Sincere(t) && t.sources == r.sources && Within(Bind(r, fs).0.blocks, t.blocks)
    ensures Bind(r, fs).1.Ok? && Bind(t, fs).1 == Bind(r, fs).1
  {
    hide Invariant, Sincere, Plain, Unused, BindFields;
    FieldsBind(r, fs, 0, MAXIMUM_NESTING);
    FieldsAgain(r, fs, 0, MAXIMUM_NESTING, t);
  }
}
