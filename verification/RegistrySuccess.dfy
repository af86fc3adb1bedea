/** Configurations without conflicts bind. */
module RegistrySuccess {
  import opened FieldGraph
  import opened BlockRegistry

  // ------------------------------------------------------ what a graph declares

  /** The slugs declared inline, at any depth. */
  function SlugsIn(fs: seq<Node>): set<string>
    decreases fs
  {
    if fs == [] then {} else NodeSlugs(fs[0]) + SlugsIn(fs[1..])
  }

  function NodeSlugs(n: Node): set<string>
    decreases n
  {
    BlockSlugs(n.blocks) + SlugsIn(n.fields) + TreeSlugs(n.trees)
  }

  function BlockSlugs(bs: seq<Block>): set<string>
    decreases bs
  {
    if bs == [] then {} else {bs[0].slug} + SlugsIn(bs[0].fields) + BlockSlugs(bs[1..])
  }

  function TreeSlugs(ts: seq<EmbeddedTree>): set<string>
    decreases ts
  {
    if ts == [] then {} else CaseSlugs(ts[0].cases) + TreeSlugs(ts[1..])
  }

  function CaseSlugs(cs: seq<EmbeddedCase>): set<string>
    decreases cs
  {
    if cs == [] then {} else BlockSlugs(cs[0].types) + CaseSlugs(cs[1..])
  }

  /** The type names that these declarations claim. */
  function NamesIn(fs: seq<Node>): set<string>
    decreases fs
  {
    if fs == [] then {} else NodeNames(fs[0]) + NamesIn(fs[1..])
  }

  function NodeNames(n: Node): set<string>
    decreases n
  {
    BlockNames(n.blocks) + NamesIn(n.fields) + TreeNames(n.trees)
  }

  function BlockNames(bs: seq<Block>): set<string>
    decreases bs
  {
    if bs == [] then {} else {TypeName(bs[0])} + NamesIn(bs[0].fields) + BlockNames(bs[1..])
  }

  function TreeNames(ts: seq<EmbeddedTree>): set<string>
    decreases ts
  {
    if ts == [] then {} else CaseNames(ts[0].cases) + TreeNames(ts[1..])
  }

  function CaseNames(cs: seq<EmbeddedCase>): set<string>
    decreases cs
  {
    if cs == [] then {} else BlockNames(cs[0].types) + CaseNames(cs[1..])
  }

  predicate Apart(xs: set<string>, ys: set<string>, ns: set<string>, ms: set<string>) {
    xs !! ys && ns !! ms
  }

  /**
   * Inline declarations only, with valid names, every slug and every type name declared once, and
   * lists nested no deeper than `room` levels.
   */
  predicate Plain(fs: seq<Node>, room: int)
    decreases fs
  {
    room >= 0 &&
    (fs == [] ||
     (&& PlainNode(fs[0], room) && Plain(fs[1..], room)
      && Apart(NodeSlugs(fs[0]), SlugsIn(fs[1..]), NodeNames(fs[0]), NamesIn(fs[1..]))))
  }

  predicate PlainNode(n: Node, room: int)
    decreases n
  {
    && n.blockReferences == []
    && PlainBlocks(n.blocks, room) && PlainTrees(n.trees, room) && (n.fields == [] || Plain(n.fields, room - 1))
    && Apart(BlockSlugs(n.blocks), SlugsIn(n.fields), BlockNames(n.blocks), NamesIn(n.fields))
    && Apart(BlockSlugs(n.blocks) + SlugsIn(n.fields), TreeSlugs(n.trees),
             BlockNames(n.blocks) + NamesIn(n.fields), TreeNames(n.trees))
  }

  predicate PlainBlocks(bs: seq<Block>, room: int)
    decreases bs
  {
    bs == [] ||
    (&& PlainBlock(bs[0], room) && PlainBlocks(bs[1..], room)
     && Apart({bs[0].slug} + SlugsIn(bs[0].fields), BlockSlugs(bs[1..]),
              {TypeName(bs[0])} + NamesIn(bs[0].fields), BlockNames(bs[1..])))
  }

  predicate PlainBlock(b: Block, room: int)
    decreases b
  {
    && ValidSlug(b.slug) && ValidTypeName(TypeName(b)) && Plain(b.fields, room - 1)
    && Apart({b.slug}, SlugsIn(b.fields), {TypeName(b)}, NamesIn(b.fields))
  }

  predicate PlainTrees(ts: seq<EmbeddedTree>, room: int)
    decreases ts
  {
    ts == [] ||
    (&& PlainCases(ts[0].cases, room) && PlainTrees(ts[1..], room)
     && Apart(CaseSlugs(ts[0].cases), TreeSlugs(ts[1..]), CaseNames(ts[0].cases), TreeNames(ts[1..])))
  }

  predicate PlainCases(cs: seq<EmbeddedCase>, room: int)
    decreases cs
  {
    cs == [] ||
    (&& cs[0].references == []
     && PlainBlocks(cs[0].types, room) && PlainCases(cs[1..], room)
     && Apart(BlockSlugs(cs[0].types), CaseSlugs(cs[1..]), BlockNames(cs[0].types), CaseNames(cs[1..])))
  }

  // --------------------------------------------------------------- binding it

  /** Nothing registered or bound so far has one of these slugs or type names. */
  predicate Unused(r: Registry, slugs: set<string>, names: set<string>) {
    slugs !! r.blocks.Keys + r.sources.Keys && names !! r.names.Keys
  }

  /** The step took no other slug or name. */
  predicate Took(r: Registry, q: Registry, slugs: set<string>, names: set<string>) {
    && q.sources == r.sources
    && q.blocks.Keys <= r.blocks.Keys + slugs && q.names.Keys <= r.names.Keys + names
  }

  lemma TookBoth(r: Registry, q: Registry, t: Registry, xs: set<string>, ns: set<string>,
                 ys: set<string>, ms: set<string>)
    requires Took(r, q, xs, ns) && Took(q, t, ys, ms)
    ensures Took(r, t, xs + ys, ns + ms)
  {
  }

  /** What is apart from what was taken is unused still. */
  lemma StillUnused(r: Registry, q: Registry, xs: set<string>, ns: set<string>, ys: set<string>, ms: set<string>)
    requires Took(r, q, xs, ns) && Unused(r, ys, ms) && Apart(xs, ys, ns, ms)
    ensures Unused(q, ys, ms)
  {
  }

  lemma TookNothing(r: Registry, xs: set<string>, ns: set<string>)
    ensures Took(r, r, xs, ns)
  {
  }

  lemma {:induction false} FieldsBind(r: Registry, fs: seq<Node>, depth: nat, room: int)
    requires Plain(fs, room) && depth + room <= MAXIMUM_NESTING && Unused(r, SlugsIn(fs), NamesIn(fs))
    ensures var (q, out) := BindFields(r, fs, depth); out.Ok? && Took(r, q, SlugsIn(fs), NamesIn(fs))
    decreases FieldsSize(fs), 3
  {
    hide BindEach, Unused, Took, SlugsIn, NamesIn;
    EachBind(r, fs, depth, room);
  }

  lemma {:induction false} EachBind(r: Registry, fs: seq<Node>, depth: nat, room: int)
    requires Plain(fs, room) && depth + room <= MAXIMUM_NESTING && Unused(r, SlugsIn(fs), NamesIn(fs))
    ensures var (q, out) := BindEach(r, fs, depth); out.Ok? && Took(r, q, SlugsIn(fs), NamesIn(fs))
    decreases FieldsSize(fs), 2
  {
    TookNothing(r, SlugsIn(fs), NamesIn(fs));
    if fs != [] {
      UnusedParts(r, NodeSlugs(fs[0]), NodeNames(fs[0]), SlugsIn(fs[1..]), NamesIn(fs[1..]));
      hide BindNode, Unused, Took, NodeSlugs, NodeNames, PlainNode, Apart;
      NodeBinds(r, fs[0], depth, room);
      var q := BindNode(r, fs[0], depth).0;
      StillUnused(r, q, NodeSlugs(fs[0]), NodeNames(fs[0]), SlugsIn(fs[1..]), NamesIn(fs[1..]));
      EachBind(q, fs[1..], depth, room);
      TookBoth(r, q, BindEach(q, fs[1..], depth).0, NodeSlugs(fs[0]), NodeNames(fs[0]), SlugsIn(fs[1..]),
               NamesIn(fs[1..]));
    }
  }

  lemma UnusedParts(r: Registry, xs: set<string>, ns: set<string>, ys: set<string>, ms: set<string>)
    requires Unused(r, xs + ys, ns + ms)
    ensures Unused(r, xs, ns) && Unused(r, ys, ms)
  {
  }

  lemma {:induction false} NodeBinds(r: Registry, n: Node, depth: nat, room: int)
    requires PlainNode(n, room) && depth + room <= MAXIMUM_NESTING && Unused(r, NodeSlugs(n), NodeNames(n))
    ensures var (q, out) := BindNode(r, n, depth); out.Ok? && Took(r, q, NodeSlugs(n), NodeNames(n))
    decreases NodeSize(n), 1
  {
    hide SelectBlocks, BindFields, BindTrees, Unused, Took, PlainBlocks, PlainTrees, Plain, Assembled, Apart,
      SlugsIn, NamesIn, BlockSlugs, BlockNames, TreeSlugs, TreeNames;
    var xs, ns := BlockSlugs(n.blocks), BlockNames(n.blocks);
    var ys, ms := SlugsIn(n.fields), NamesIn(n.fields);
    var zs, os := TreeSlugs(n.trees), TreeNames(n.trees);
    UnusedParts(r, xs + ys, ns + ms, zs, os);
    UnusedParts(r, xs, ns, ys, ms);
    SelectBinds(r, n.blocks, n.referencesBound, depth, room);
    var r1 := SelectBlocks(r, n.blocks, [], n.referencesBound, depth).0;
    StillUnused(r, r1, xs, ns, ys, ms);
    ChildrenBind(r1, n.fields, depth, room);
    var r2 := BindChildren(r1, n.fields, depth).0;
    TookBoth(r, r1, r2, xs, ns, ys, ms);
    StillUnused(r, r2, xs + ys, ns + ms, zs, os);
    TreesBind(r2, n.trees, depth, room);
    TookBoth(r, r2, BindTrees(r2, n.trees, depth).0, xs + ys, ns + ms, zs, os);
  }

  lemma {:induction false} ChildrenBind(r: Registry, fs: seq<Node>, depth: nat, room: int)
    requires (fs == [] || Plain(fs, room - 1)) && depth + room <= MAXIMUM_NESTING
    requires Unused(r, SlugsIn(fs), NamesIn(fs))
    ensures var (q, out) := BindChildren(r, fs, depth); out.Ok? && Took(r, q, SlugsIn(fs), NamesIn(fs))
    decreases FieldsSize(fs), 4
  {
    TookNothing(r, SlugsIn(fs), NamesIn(fs));
    hide BindFields, Unused, Took, SlugsIn, NamesIn, Plain;
    if fs != [] { FieldsBind(r, fs, depth + 1, room - 1); }
  }

  lemma {:induction false} SelectBinds(r: Registry, bs: seq<Block>, bound: bool, depth: nat, room: int)
    requires PlainBlocks(bs, room) && depth + room <= MAXIMUM_NESTING && Unused(r, BlockSlugs(bs), BlockNames(bs))
    ensures var (q, out) := SelectBlocks(r, bs, [], bound, depth);
            out.Ok? && Took(r, q, BlockSlugs(bs), BlockNames(bs))
    decreases BlocksSize(bs), 3
  {
    TookNothing(r, BlockSlugs(bs), BlockNames(bs));
    if bs != [] && bs !in r.inline {
      ApartFromNothing(bs);
      hide DeclareEach, BlockSlugs, BlockNames, PlainBlocks, Unused;
      DeclareBinds(r, bs, {}, depth, room);
    }
  }

  lemma ApartFromNothing(bs: seq<Block>)
    ensures BlockSlugs(bs) !! {}
  {
  }

  lemma {:induction false} DeclareBinds(r: Registry, bs: seq<Block>, seen: set<string>, depth: nat, room: int)
    requires PlainBlocks(bs, room) && depth + room <= MAXIMUM_NESTING && Unused(r, BlockSlugs(bs), BlockNames(bs))
    requires BlockSlugs(bs) !! seen
    ensures var (q, out) := DeclareEach(r, bs, seen, depth); out.Ok? && Took(r, q, BlockSlugs(bs), BlockNames(bs))
    decreases BlocksSize(bs), 1
  {
    TookNothing(r, BlockSlugs(bs), BlockNames(bs));
    if bs != [] {
      var b := bs[0];
      var xs, ns := {b.slug} + SlugsIn(b.fields), {TypeName(b)} + NamesIn(b.fields);
      var ys, ms := BlockSlugs(bs[1..]), BlockNames(bs[1..]);
      UnusedParts(r, xs, ns, ys, ms);
      assert ys !! seen + {b.slug};
      assert b.slug !in seen;
      hide DeclareOne, Unused, Took, PlainBlock, SlugsIn, NamesIn, BlockSlugs, BlockNames, Apart, TypeName;
      OneBinds(r, b, seen, depth, room);
      var q := DeclareOne(r, b, seen, depth).0;
      StillUnused(r, q, xs, ns, ys, ms);
      DeclareBinds(q, bs[1..], seen + {b.slug}, depth, room);
      TookBoth(r, q, DeclareEach(q, bs[1..], seen + {b.slug}, depth).0, xs, ns, ys, ms);
      JoinedSets(bs);
    }
  }

  lemma JoinedSets(bs: seq<Block>)
    requires bs != []
    ensures BlockSlugs(bs) == {bs[0].slug} + SlugsIn(bs[0].fields) + BlockSlugs(bs[1..])
    ensures BlockNames(bs) == {TypeName(bs[0])} + NamesIn(bs[0].fields) + BlockNames(bs[1..])
  {
  }

  lemma {:induction false} OneBinds(r: Registry, b: Block, seen: set<string>, depth: nat, room: int)
    requires PlainBlock(b, room) && depth + room <= MAXIMUM_NESTING && b.slug !in seen
    requires Unused(r, {b.slug} + SlugsIn(b.fields), {TypeName(b)} + NamesIn(b.fields))
    ensures var (q, out) := DeclareOne(r, b, seen, depth);
            out.Ok? && Took(r, q, {b.slug} + SlugsIn(b.fields), {TypeName(b)} + NamesIn(b.fields))
    decreases FieldsSize(b.fields) + 1, 0
  {
    hide BindFields, SlugsIn, NamesIn, Plain, ValidSlug, ValidTypeName, TypeName;
    UnusedParts(r, {b.slug}, {TypeName(b)}, SlugsIn(b.fields), NamesIn(b.fields));
    FieldsBind(r, b.fields, depth + 1, room - 1);
    var r1 := BindFields(r, b.fields, depth + 1).0;
    StillUnused(r, r1, SlugsIn(b.fields), NamesIn(b.fields), {b.slug}, {TypeName(b)});
    assert b.slug in {b.slug} && TypeName(b) in {TypeName(b)};
  }

  lemma {:induction false} TreesBind(r: Registry, ts: seq<EmbeddedTree>, depth: nat, room: int)
    requires PlainTrees(ts, room) && depth + room <= MAXIMUM_NESTING && Unused(r, TreeSlugs(ts), TreeNames(ts))
    ensures var (q, out) := BindTrees(r, ts, depth); out.Ok? && Took(r, q, TreeSlugs(ts), TreeNames(ts))
    decreases TreesSize(ts), 0
  {
    TookNothing(r, TreeSlugs(ts), TreeNames(ts));
    if ts != [] {
      var xs, ns := CaseSlugs(ts[0].cases), CaseNames(ts[0].cases);
      var ys, ms := TreeSlugs(ts[1..]), TreeNames(ts[1..]);
      UnusedParts(r, xs, ns, ys, ms);
      hide BindCases, Unused, Took, PlainCases, CaseSlugs, CaseNames, Apart;
      CasesBind(r, ts[0].cases, depth, room);
      var q := BindCases(r, ts[0].cases, depth).0;
      StillUnused(r, q, xs, ns, ys, ms);
      TreesBind(q, ts[1..], depth, room);
      TookBoth(r, q, BindTrees(q, ts[1..], depth).0, xs, ns, ys, ms);
    }
  }

  lemma {:induction false} CasesBind(r: Registry, cs: seq<EmbeddedCase>, depth: nat, room: int)
    requires PlainCases(cs, room) && depth + room <= MAXIMUM_NESTING && Unused(r, CaseSlugs(cs), CaseNames(cs))
    ensures var (q, out) := BindCases(r, cs, depth); out.Ok? && Took(r, q, CaseSlugs(cs), CaseNames(cs))
    decreases CasesSize(cs), 0
  {
    TookNothing(r, CaseSlugs(cs), CaseNames(cs));
    if cs != [] {
      var c := cs[0];
      var xs, ns := BlockSlugs(c.types), BlockNames(c.types);
      var ys, ms := CaseSlugs(cs[1..]), CaseNames(cs[1..]);
      UnusedParts(r, xs, ns, ys, ms);
      hide SelectBlocks, Unused, Took, PlainBlocks, BlockSlugs, BlockNames, Apart;
      SelectBinds(r, c.types, c.referencesBound, depth, room);
      var q := SelectBlocks(r, c.types, [], c.referencesBound, depth).0;
      StillUnused(r, q, xs, ns, ys, ms);
      CasesBind(q, cs[1..], depth, room);
      TookBoth(r, q, BindCases(q, cs[1..], depth).0, xs, ns, ys, ms);
    }
  }

  /**
   * In any registry, binding succeeds for a graph that declares its blocks inline, each slug and
   * type name once and none of them taken, with valid names and no more than 48 nested levels.
   */
  lemma PlainGraphsBind(r: Registry, fs: seq<Node>)
    requires Plain(fs, 48)
    requires forall s | s in SlugsIn(fs) :: s !in r.blocks && s !in r.sources
    requires forall t | t in NamesIn(fs) :: t !in r.names
    ensures Bind(r, fs).1.Ok?
  {
    hide BindFields, Plain, SlugsIn, NamesIn;
    assert Unused(r, SlugsIn(fs), NamesIn(fs));
    FieldsBind(r, fs, 0, MAXIMUM_NESTING);
  }
}
