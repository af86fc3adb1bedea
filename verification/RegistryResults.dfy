/** Configurations that bind are closed and acyclic, with one definition per slug. */
module RegistryResults {
  import opened FieldGraph
  import opened BlockRegistry
  import opened RegistryInvariant

  /** No binding is in progress and every central declaration is bound. */
  predicate Complete(r: Registry) {
    Invariant(r) && r.stack == [] && r.sources.Keys <= r.blocks.Keys
  }

  lemma {:induction false} RegisterKeeps(r: Registry, blocks: seq<Block>)
    requires Invariant(r) && r.blocks == map[] && r.stack == []
    ensures var out := Register(r, blocks);
            out.Ok? ==> Invariant(out.value) && out.value.blocks == map[] && out.value.stack == []
    decreases |blocks|
  {
    hide ValidSlug, ValidTypeName, Settled, Height, Refs, TypeName;
    if blocks != [] {
      var b := Named(blocks[0]);
      if ValidSlug(b.slug) && b.slug !in r.sources && ClaimName(r, b).Ok? {
        var q := ClaimName(r, b).value.(sources := r.sources[b.slug := b], order := r.order + [b.slug]);
        ClaimKeepsNames(r, b);
        RegisterOne(r, b, q.names);
        RegisterKeeps(q, blocks[1..]);
      }
    }
  }

  lemma RegisterOne(r: Registry, b: Block, names: map<string, string>)
    requires Invariant(r) && r.blocks == map[] && b.slug !in r.sources
    requires WellNamed(r.blocks, names) && WellNamed(r.sources, names) && NamedIn(b, names)
    ensures Invariant(r.(sources := r.sources[b.slug := b], order := r.order + [b.slug], names := names))
  {
    hide ValidSlug, ValidTypeName, Settled, Height, Refs, SameKeys, Closed, Topological, Shallow, Memoized, Members;
    AppendSlug(r.order, b.slug);
    var sources := r.sources[b.slug := b];
    assert sources.Keys == r.sources.Keys + {b.slug};
    assert forall s | s in sources ::
             if s == b.slug then sources[s] == b else s in r.sources && sources[s] == r.sources[s];
  }

  lemma {:induction false} BindAllKeeps(r: Registry, slugs: seq<string>)
    requires Invariant(r)
    ensures var out := BindAll(r, slugs);
            out.Ok? ==> Keeps(r, out.value) && forall s | s in slugs :: s in out.value.blocks
    decreases |slugs|
  {
    hide Invariant, Extends, Definition;
    KeepsItself(r);
    if slugs != [] {
      DefinitionKeeps(r, slugs[0]);
      var (r1, b) := Definition(r, slugs[0]);
      if b.Ok? {
        BindAllKeeps(r1, slugs[1..]);
        var out := BindAll(r1, slugs[1..]);
        if out.Ok? {
          KeepsTransitive(r, r1, out.value);
          Kept(r1, out.value);
        }
      }
    }
  }

  /** A constructed registry is complete: every central declaration is bound. */
  lemma NewIsComplete(blocks: seq<Block>)
    requires New(blocks).Ok?
    ensures Complete(New(blocks).value)
  {
    assert Invariant(Empty) by { hide Settled, Height, Refs; assert Members([]) == {}; }
    hide ValidSlug, ValidTypeName, Settled, Height, Refs, SameKeys, Closed, Topological, Shallow, Memoized, Open,
      WellNamed, Register, BindAll, NamesWithin;
    RegisterKeeps(Empty, blocks);
    var r := Register(Empty, blocks).value;
    BindAllKeeps(r, r.order);
  }

  /** Binding a resource, even unsuccessfully, keeps the registry complete and only adds to it. */
  lemma BindKeeps(r: Registry, fs: seq<Node>)
    requires Complete(r)
    ensures var (q, out) := Bind(r, fs);
            && Complete(q) && Extends(r, q)
            && (out.Ok? ==> Settled(out.value, q.blocks) && Height(out.value) <= 48)
  {
    hide Invariant, Settled, Height, BindFields;
    BindFieldsKeeps(r, fs, 0);
  }

  predicate AllSettled(resources: seq<seq<Node>>, defs: Definitions) {
    forall i | 0 <= i < |resources| :: Settled(resources[i], defs) && Height(resources[i]) <= MAXIMUM_NESTING
  }

  lemma {:induction false} BindResourcesKeeps(r: Registry, resources: seq<seq<Node>>)
    requires Complete(r)
    ensures var out := BindResources(r, resources);
            out.Ok? ==>
              && Complete(out.value.0) && Extends(r, out.value.0)
              && |out.value.1| == |resources| && AllSettled(out.value.1, out.value.0.blocks)
    decreases |resources|
  {
    hide Invariant, Settled, Height, Bind;
    if resources != [] {
      BindKeeps(r, resources[0]);
      var (r1, first) := Bind(r, resources[0]);
      if first.Ok? {
        BindResourcesKeeps(r1, resources[1..]);
        var rest := BindResources(r1, resources[1..]);
        if rest.Ok? {
          SettledGrows(first.value, r1.blocks, rest.value.0.blocks);
        }
      }
    }
  }

  /**
   * A configuration that binds is closed: every resource and every definition places only interned
   * definitions, each equal to the one definition of its slug, and each definition refers only to
   * definitions that were bound strictly before it.
   */
  lemma ConfigIsClosed(blocks: seq<Block>, resources: seq<seq<Node>>)
    requires BindConfig(blocks, resources).Ok?
    ensures var (r, bound) := BindConfig(blocks, resources).value;
            && Complete(r) && |bound| == |resources|
            && AllSettled(bound, r.blocks)
            && Closed(r.blocks) && Topological(r.bound, r.blocks)
  {
    NewIsComplete(blocks);
    hide New, Settled, Height, BindResources, Closed, Topological, Ordered, Open, WellNamed, Shallow;
    BindResourcesKeeps(New(blocks).value, resources);
  }

  // ------------------------------------------------------ one definition per slug

  /** The definitions placed in the fields' containers. */
  function Placed(fs: seq<Node>): set<Block> {
    if fs == [] then {} else
    (set b | b in fs[0].blocks) + Placed(fs[0].fields) + PlacedInTrees(fs[0].trees) + Placed(fs[1..])
  }

  function PlacedInTrees(ts: seq<EmbeddedTree>): set<Block> {
    if ts == [] then {} else PlacedInCases(ts[0].cases) + PlacedInTrees(ts[1..])
  }

  function PlacedInCases(cs: seq<EmbeddedCase>): set<Block> {
    if cs == [] then {} else (set b | b in cs[0].types) + PlacedInCases(cs[1..])
  }

  predicate Definitive(placed: set<Block>, defs: Definitions) {
    forall b | b in placed :: b.slug in defs && b == defs[b.slug]
  }

  lemma SelectsDefinitive(blocks: seq<Block>, slugs: seq<string>, bound: bool, defs: Definitions)
    requires Selects(blocks, slugs, bound, defs) && forall s | s in defs :: defs[s].slug == s
    ensures Definitive((set b | b in blocks), defs)
  {
  }

  lemma {:induction false} PlacedDefinitive(fs: seq<Node>, defs: Definitions)
    requires Settled(fs, defs) && forall s | s in defs :: defs[s].slug == s
    ensures Definitive(Placed(fs), defs)
    decreases fs
  {
    if fs != [] {
      var n := fs[0];
      SelectsDefinitive(n.blocks, n.blockReferences, n.referencesBound, defs);
      PlacedDefinitive(n.fields, defs);
      TreesDefinitive(n.trees, defs);
      PlacedDefinitive(fs[1..], defs);
    }
  }

  lemma {:induction false} TreesDefinitive(ts: seq<EmbeddedTree>, defs: Definitions)
    requires SettledTrees(ts, defs) && forall s | s in defs :: defs[s].slug == s
    ensures Definitive(PlacedInTrees(ts), defs)
  {
    if ts != [] {
      CasesDefinitive(ts[0].cases, defs);
      TreesDefinitive(ts[1..], defs);
    }
  }

  lemma {:induction false} CasesDefinitive(cs: seq<EmbeddedCase>, defs: Definitions)
    requires SettledCases(cs, defs) && forall s | s in defs :: defs[s].slug == s
    ensures Definitive(PlacedInCases(cs), defs)
  {
    if cs != [] {
      SelectsDefinitive(cs[0].types, cs[0].references, cs[0].referencesBound, defs);
      CasesDefinitive(cs[1..], defs);
    }
  }

  /**
   * One definition per slug: two placements with one slug, in any resource or inside any
   * definition of a bound configuration, are equal.
   */
  lemma PlacementsAgree(r: Registry, fs: seq<Node>, gs: seq<Node>, b: Block, c: Block)
    requires Invariant(r) && Settled(fs, r.blocks) && Settled(gs, r.blocks)
    requires b in Placed(fs) && c in Placed(gs) && b.slug == c.slug
    ensures b == c && b.slug in r.blocks && Settled(b.fields, r.blocks)
  {
    hide Settled, Topological, Placed, ValidSlug, ValidTypeName, Height;
    PlacedDefinitive(fs, r.blocks);
    PlacedDefinitive(gs, r.blocks);
  }

  /** Distinct slugs have distinct generated type names. */
  lemma TypeNamesDistinct(r: Registry, s: string, t: string)
    requires Invariant(r) && s in r.blocks && t in r.blocks && s != t
    ensures r.blocks[s].typeName != r.blocks[t].typeName
  {
    hide Closed, Topological, ValidSlug, ValidTypeName;
  }

  // --------------------------------------------------------------- no cycles

  function Position(bound: seq<string>, slug: string): (k: nat)
    requires slug in bound
    ensures k < |bound| && bound[k] == slug
  {
    if bound[0] == slug then 0 else 1 + Position(bound[1..], slug)
  }

  /** Each slug of the path refers to the next one. */
  predicate ReferencePath(defs: Definitions, path: seq<string>) {
    forall i | 0 <= i < |path| - 1 :: path[i] in defs && path[i + 1] in Refs(defs[path[i]].fields)
  }

  lemma ReferenceDescends(bound: seq<string>, defs: Definitions, s: string, t: string)
    requires SameKeys(bound, defs) && Topological(bound, defs) && s in defs && t in Refs(defs[s].fields)
    ensures t in defs && Position(bound, t) < Position(bound, s)
  {
    hide Refs;
    assert s in Members(bound);
    var k := Position(bound, s);
    assert t in Members(bound[..k]);
    assert t in Members(bound);
  }

  lemma {:induction false} PathDescends(r: Registry, path: seq<string>)
    requires Invariant(r) && |path| >= 2 && ReferencePath(r.blocks, path)
    ensures path[0] in r.blocks && path[|path| - 1] in r.blocks
    ensures Position(r.bound, path[|path| - 1]) < Position(r.bound, path[0])
  {
    hide Refs, Closed, Topological, WellNamed, Shallow, Memoized, Ordered, Open;
    ReferenceDescends(r.bound, r.blocks, path[0], path[1]);
    if |path| > 2 {
      assert forall i | 0 <= i < |path| - 1 :: path[1..][i] == path[i + 1];
      PathDescends(r, path[1..]);
    }
  }

  /** No definition reaches itself by references. */
  lemma NoReferenceCycle(r: Registry, path: seq<string>)
    requires Invariant(r) && |path| >= 2 && ReferencePath(r.blocks, path)
    ensures path[0] != path[|path| - 1]
  {
    hide Invariant, Position;
    PathDescends(r, path);
  }
}
