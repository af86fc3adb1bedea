/** Binding an already bound graph against the definitions of its registry changes nothing. */
module RegistryRebind {
  import opened Wrappers
  import opened FieldGraph
  import opened BlockRegistry
  import opened RegistryInvariant
  import opened RegistryResults

  /** No chain of references from the fields runs through more than `room` definitions. */
  predicate Fits(fs: seq<Node>, defs: Definitions, room: nat)
    decreases room
  {
    forall s | s in Refs(fs) :: s in defs && room > 0 && Fits(defs[s].fields, defs, room - 1)
  }

  /** Bound definitions with the order in which they were bound. */
  predicate Base(bound: seq<string>, defs: Definitions) {
    && SameKeys(bound, defs) && Topological(bound, defs) && Closed(defs) && Shallow(defs)
    && forall s | s in defs :: defs[s].slug == s
  }

  /** A registry whose sources are those definitions and that has bound only them. */
  predicate Over(q: Registry, defs: Definitions) {
    q.sources == defs && Within(q.blocks, defs)
  }

  /** Everything being bound comes at position `k` or later. */
  predicate StackFrom(stack: seq<string>, bound: seq<string>, k: nat) {
    forall s | s in stack :: s in bound && Position(bound, s) >= k
  }

  /** A step that only bound more of the given definitions. */
  predicate Grew(q: Registry, q': Registry, defs: Definitions) {
    && Over(q', defs) && Framed(q, q') && Within(q.blocks, q'.blocks)
    && q'.names == q.names && q'.order == q.order
  }

  lemma PositionAt(bound: seq<string>, k: nat)
    requires k < |bound| && Distinct(bound)
    ensures Position(bound, bound[k]) == k
  {
    var i := Position(bound, bound[k]);
  }

  lemma {:induction false} RebindDefinition(q: Registry, bound: seq<string>, defs: Definitions, slug: string, room: nat)
    requires Base(bound, defs) && Over(q, defs) && slug in bound && slug in defs
    requires StackFrom(q.stack, bound, Position(bound, slug) + 1)
    requires room > 0 && |q.stack| + room <= MAXIMUM_STACK && Fits(defs[slug].fields, defs, room - 1)
    ensures var (q', b) := Definition(q, slug); Grew(q, q', defs) && b == Ok(defs[slug]) && slug in q'.blocks
    decreases Position(bound, slug) + 1, 0, 0
  {
    hide Refs, Base, Settled, Height, Fits, BindFields, StackFrom, Position;
    DefinitionShape(bound, defs, slug);
    NotOnStack(q.stack, bound, slug);
    if slug !in q.blocks {
      RoomShrinks(q, slug);
      var pushed := q.(stack := q.stack + [slug]);
      RebindFields(pushed, bound, defs, Position(bound, slug), defs[slug].fields, 0, room - 1);
      assert defs[slug].(fields := defs[slug].fields) == defs[slug];
    }
  }

  lemma NotOnStack(stack: seq<string>, bound: seq<string>, slug: string)
    requires slug in bound && StackFrom(stack, bound, Position(bound, slug) + 1)
    ensures slug !in stack && StackFrom(stack + [slug], bound, Position(bound, slug))
  {
  }

  lemma DefinitionShape(bound: seq<string>, defs: Definitions, slug: string)
    requires Base(bound, defs) && slug in bound && slug in defs
    ensures Settled(defs[slug].fields, defs) && Height(defs[slug].fields) <= MAXIMUM_NESTING
    ensures Refs(defs[slug].fields) <= Members(bound[..Position(bound, slug)])
    ensures defs[slug].slug == slug
  {
    hide Refs, Settled, Height;
  }

  /** The room that a set of references has. */
  predicate RefsFit(refs: set<string>, defs: Definitions, room: nat) {
    forall s | s in refs :: s in defs && room > 0 && Fits(defs[s].fields, defs, room - 1)
  }

  lemma {:induction false} RebindReferences(q: Registry, bound: seq<string>, defs: Definitions, k: nat,
                                            slugs: seq<string>, seen: set<string>, room: nat)
    requires Base(bound, defs) && Over(q, defs) && k <= |bound| && StackFrom(q.stack, bound, k)
    requires Distinct(slugs) && Members(slugs) !! seen && Members(slugs) <= Members(bound[..k])
    requires |q.stack| + room <= MAXIMUM_STACK && RefsFit(Members(slugs), defs, room)
    ensures var (q', out) := References(q, slugs, seen);
            && Grew(q, q', defs)
            && out.Ok? && |out.value| == |slugs| && forall i | 0 <= i < |slugs| :: out.value[i] == defs[slugs[i]]
    decreases k, 0, |slugs| + 1
  {
    hide Refs, Topological, Closed, Shallow, Fits, Definition, BindFields;
    if slugs != [] {
      var slug := slugs[0];
      assert slug in Members(slugs) && Members(slugs[1..]) <= Members(slugs) - {slug};
      var j := IndexBelow(bound, k, slug);
      PositionAt(bound, j);
      RebindDefinition(q, bound, defs, slug, room);
      var q1 := Definition(q, slug).0;
      RebindReferences(q1, bound, defs, k, slugs[1..], seen + {slug}, room);
    }
  }

  lemma IndexBelow(bound: seq<string>, k: nat, slug: string) returns (j: nat)
    requires k <= |bound| && slug in Members(bound[..k])
    ensures j < k && bound[j] == slug
  {
    j :| 0 <= j < k && bound[..k][j] == slug;
  }

  lemma {:induction false} RebindSelect(q: Registry, bound: seq<string>, defs: Definitions, k: nat, blocks: seq<Block>,
                                        slugs: seq<string>, flag: bool, depth: nat, room: nat)
    requires Base(bound, defs) && Over(q, defs) && k <= |bound| && StackFrom(q.stack, bound, k)
    requires Selects(blocks, slugs, flag, defs) && Members(slugs) <= Members(bound[..k])
    requires |q.stack| + room <= MAXIMUM_STACK && RefsFit(Members(slugs), defs, room)
    ensures var (q', out) := SelectBlocks(q, blocks, slugs, flag, depth);
            Grew(q, q', defs) && out == Ok(blocks) && SelectedSlugs(blocks, slugs) == slugs
    decreases k, 0, |slugs| + 2
  {
    hide Base, Fits, References, Declare, Members, StackFrom, RefsFit;
    if slugs != [] {
      RebindReferences(q, bound, defs, k, slugs, {}, room);
      assert References(q, slugs, {}).1.value == blocks;
    }
  }

  lemma {:induction false} RebindFields(q: Registry, bound: seq<string>, defs: Definitions, k: nat,
                                        fs: seq<Node>, depth: nat, room: nat)
    requires Base(bound, defs) && Over(q, defs) && k <= |bound| && StackFrom(q.stack, bound, k)
    requires Settled(fs, defs) && Refs(fs) <= Members(bound[..k]) && Height(fs) + depth <= MAXIMUM_NESTING
    requires |q.stack| + room <= MAXIMUM_STACK && Fits(fs, defs, room)
    ensures var (q', out) := BindFields(q, fs, depth); Grew(q, q', defs) && out == Ok(fs)
    decreases k, FieldsSize(fs) + 1, 3
  {
    hide Base, Settled, Height, BindEach, Refs;
    assert RefsFit(Refs(fs), defs, room);
    RebindEach(q, bound, defs, k, fs, depth, room);
  }

  lemma {:induction false} RebindEach(q: Registry, bound: seq<string>, defs: Definitions, k: nat,
                                      fs: seq<Node>, depth: nat, room: nat)
    requires Base(bound, defs) && Over(q, defs) && k <= |bound| && StackFrom(q.stack, bound, k)
    requires Settled(fs, defs) && Refs(fs) <= Members(bound[..k]) && Height(fs) + depth <= MAXIMUM_NESTING
    requires |q.stack| + room <= MAXIMUM_STACK && RefsFit(Refs(fs), defs, room)
    ensures var (q', out) := BindEach(q, fs, depth); Grew(q, q', defs) && out == Ok(fs)
    decreases k, FieldsSize(fs) + 1, 2
  {
    hide Base, BindNode, SettledNode, NodeRefs, ChildHeight, Fits, Members, StackFrom;
    if fs != [] {
      RebindNode(q, bound, defs, k, fs[0], depth, room);
      var q1 := BindNode(q, fs[0], depth).0;
      RebindEach(q1, bound, defs, k, fs[1..], depth, room);
      assert [fs[0]] + fs[1..] == fs;
    }
  }

  lemma {:induction false} RebindNode(q: Registry, bound: seq<string>, defs: Definitions, k: nat,
                                      n: Node, depth: nat, room: nat)
    requires Base(bound, defs) && Over(q, defs) && k <= |bound| && StackFrom(q.stack, bound, k)
    requires SettledNode(n, defs) && NodeRefs(n) <= Members(bound[..k])
    requires ChildHeight(n.fields) + depth <= MAXIMUM_NESTING
    requires |q.stack| + room <= MAXIMUM_STACK && RefsFit(NodeRefs(n), defs, room)
    ensures var (q', out) := BindNode(q, n, depth); Grew(q, q', defs) && out == Ok(n)
    decreases k, NodeSize(n) + 1, 1
  {
    hide Base, Settled, SettledTrees, Refs, TreeRefs, Height, Fits, Members, StackFrom,
      SelectBlocks, BindFields, BindTrees;
    RebindSelect(q, bound, defs, k, n.blocks, n.blockReferences, n.referencesBound, depth, room);
    var q1 := SelectBlocks(q, n.blocks, n.blockReferences, n.referencesBound, depth).0;
    if n.fields != [] {
      RebindChildren(q1, bound, defs, k, n.fields, depth, room);
    }
    var q2 := BindChildren(q1, n.fields, depth).0;
    RebindTrees(q2, bound, defs, k, n.trees, depth, room);
    assert Assembled(n, n.blocks, n.fields, n.trees) == n;
  }

  lemma {:induction false} RebindChildren(q: Registry, bound: seq<string>, defs: Definitions, k: nat,
                                          fs: seq<Node>, depth: nat, room: nat)
    requires Base(bound, defs) && Over(q, defs) && k <= |bound| && StackFrom(q.stack, bound, k)
    requires Settled(fs, defs) && Refs(fs) <= Members(bound[..k]) && 1 + Height(fs) + depth <= MAXIMUM_NESTING
    requires |q.stack| + room <= MAXIMUM_STACK && RefsFit(Refs(fs), defs, room)
    ensures var (q', out) := BindFields(q, fs, depth + 1); Grew(q, q', defs) && out == Ok(fs)
    decreases k, FieldsSize(fs) + 1, 4
  {
    hide Base, Settled, Refs, Height, Members, StackFrom;
    assert Fits(fs, defs, room);
    RebindFields(q, bound, defs, k, fs, depth + 1, room);
  }

  lemma {:induction false} RebindTrees(q: Registry, bound: seq<string>, defs: Definitions, k: nat,
                                       ts: seq<EmbeddedTree>, depth: nat, room: nat)
    requires Base(bound, defs) && Over(q, defs) && k <= |bound| && StackFrom(q.stack, bound, k)
    requires SettledTrees(ts, defs) && TreeRefs(ts) <= Members(bound[..k])
    requires |q.stack| + room <= MAXIMUM_STACK && RefsFit(TreeRefs(ts), defs, room)
    ensures var (q', out) := BindTrees(q, ts, depth); Grew(q, q', defs) && out == Ok(ts)
    decreases k, TreesSize(ts) + 1, 0
  {
    hide Base, SettledCases, CaseRefs, Fits, Members, StackFrom, BindCases;
    if ts != [] {
      RebindCases(q, bound, defs, k, ts[0].cases, depth, room);
      var q1 := BindCases(q, ts[0].cases, depth).0;
      RebindTrees(q1, bound, defs, k, ts[1..], depth, room);
      assert [ts[0].(cases := ts[0].cases)] + ts[1..] == ts;
    }
  }

  lemma {:induction false} RebindCases(q: Registry, bound: seq<string>, defs: Definitions, k: nat,
                                       cs: seq<EmbeddedCase>, depth: nat, room: nat)
    requires Base(bound, defs) && Over(q, defs) && k <= |bound| && StackFrom(q.stack, bound, k)
    requires SettledCases(cs, defs) && CaseRefs(cs) <= Members(bound[..k])
    requires |q.stack| + room <= MAXIMUM_STACK && RefsFit(CaseRefs(cs), defs, room)
    ensures var (q', out) := BindCases(q, cs, depth); Grew(q, q', defs) && out == Ok(cs)
    decreases k, CasesSize(cs) + 1, 0
  {
    hide Base, Fits, Members, StackFrom, SelectBlocks;
    if cs != [] {
      var c := cs[0];
      RebindSelect(q, bound, defs, k, c.types, c.references, c.referencesBound, depth, room);
      var q1 := SelectBlocks(q, c.types, c.references, c.referencesBound, depth).0;
      RebindCases(q1, bound, defs, k, cs[1..], depth, room);
      assert [c.(types := c.types)] + cs[1..] == cs;
    }
  }

  // ---------------------------------------------------------- a fresh registry

  function Restricted(defs: Definitions, slugs: seq<string>): Definitions {
    map s | s in Members(slugs) && s in defs :: defs[s]
  }

  /** The state after registering `done`, with nothing bound. */
  predicate Registered(q: Registry, done: seq<string>, defs: Definitions) {
    && q.sources == Restricted(defs, done) && q.order == done
    && q.blocks == map[] && q.stack == [] && q.bound == [] && q.inline == map[]
    && forall t | t in q.names :: q.names[t] in defs && defs[q.names[t]].typeName == t
  }

  function InOrder(defs: Definitions, slugs: seq<string>): seq<Block>
    requires forall s | s in slugs :: s in defs
  {
    seq(|slugs|, i requires 0 <= i < |slugs| => defs[slugs[i]])
  }

  lemma ClaimAgain(q: Registry, done: seq<string>, defs: Definitions, names: map<string, string>, slug: string)
    requires WellNamed(defs, names) && slug in defs && Registered(q, done, defs)
    ensures Named(defs[slug]) == defs[slug] && ClaimName(q, defs[slug]).Ok?
            && ValidSlug(slug) && defs[slug].slug == slug
  {
    var t := defs[slug].typeName;
    assert ValidTypeName(t);
    if t in q.names { assert names[t] == q.names[t]; }
  }

  lemma RestrictedGrows(defs: Definitions, done: seq<string>, slug: string)
    requires slug in defs
    ensures Restricted(defs, done + [slug]) == Restricted(defs, done)[slug := defs[slug]]
  {
    assert Members(done + [slug]) == Members(done) + {slug};
  }

  /** The state after registering one definition more. */
  function RegisteredOne(q: Registry, b: Block): Registry {
    q.(names := q.names[b.typeName := b.slug], sources := q.sources[b.slug := b], order := q.order + [b.slug])
  }

  lemma RegisteredMore(q: Registry, done: seq<string>, defs: Definitions, names: map<string, string>, slug: string)
    requires WellNamed(defs, names) && slug in defs && Registered(q, done, defs)
    ensures Registered(RegisteredOne(q, defs[slug]), done + [slug], defs)
  {
    hide Restricted, ValidSlug, ValidTypeName;
    RestrictedGrows(defs, done, slug);
  }

  /** Registration of a definition whose slug and names are free, then of the others. */
  lemma RegisterStep(q: Registry, blocks: seq<Block>)
    requires blocks != [] && Named(blocks[0]) == blocks[0] && ValidSlug(blocks[0].slug)
    requires blocks[0].slug !in q.sources && ClaimName(q, blocks[0]).Ok?
    ensures Register(q, blocks) == Register(RegisteredOne(q, blocks[0]), blocks[1..])
  {
    hide ValidSlug, ValidTypeName;
  }

  lemma NextInOrder(defs: Definitions, done: seq<string>, rest: seq<string>)
    requires rest != [] && Distinct(done + rest) && forall s | s in done + rest :: s in defs
    ensures rest[0] in defs && rest[0] !in done && (done + [rest[0]]) + rest[1..] == done + rest
    ensures forall s | s in rest :: s in done + rest
    ensures InOrder(defs, rest)[0] == defs[rest[0]] && InOrder(defs, rest)[1..] == InOrder(defs, rest[1..])
  {
    assert (done + rest)[|done|] == rest[0];
    assert forall i | 0 <= i < |done| :: (done + rest)[i] == done[i];
    assert forall s | s in rest :: s in done + rest;
  }

  /** Registering interned definitions again succeeds and changes none of them. */
  lemma {:induction false} RegisterAgain(q: Registry, done: seq<string>, rest: seq<string>, defs: Definitions,
                                         names: map<string, string>)
    requires WellNamed(defs, names) && Distinct(done + rest) && forall s | s in done + rest :: s in defs
    requires Registered(q, done, defs)
    ensures forall s | s in rest :: s in done + rest
    ensures var out := Register(q, InOrder(defs, rest)); out.Ok? && Registered(out.value, done + rest, defs)
    decreases |rest|
  {
    if rest == [] {
      assert done + rest == done;
    } else {
      var slug := rest[0];
      NextInOrder(defs, done, rest);
      ClaimAgain(q, done, defs, names, slug);
      RegisteredMore(q, done, defs, names, slug);
      SlugIsFree(q, done, defs, slug);
      hide Register, Registered, WellNamed, Named, ClaimName, ValidSlug, InOrder, Distinct, RegisteredOne;
      RegisterStep(q, InOrder(defs, rest));
      RegisterAgain(RegisteredOne(q, defs[slug]), done + [slug], rest[1..], defs, names);
    }
  }

  lemma SlugIsFree(q: Registry, done: seq<string>, defs: Definitions, slug: string)
    requires Registered(q, done, defs) && slug !in done
    ensures slug !in q.sources
  {
  }

  /** Binding the registered definitions again binds each to itself. */
  lemma {:induction false} BindAllAgain(q: Registry, bound: seq<string>, defs: Definitions, slugs: seq<string>)
    requires Base(bound, defs) && Over(q, defs) && q.stack == [] && forall s | s in slugs :: s in defs
    requires forall s | s in defs :: Fits(defs[s].fields, defs, MAXIMUM_STACK - 1)
    ensures var out := BindAll(q, slugs);
            out.Ok? && Grew(q, out.value, defs) && forall s | s in slugs :: s in out.value.blocks
    decreases |slugs|
  {
    hide Topological, Closed, Shallow, Fits, Definition, Position, Distinct;
    if slugs != [] {
      assert slugs[0] in Members(bound);
      RebindDefinition(q, bound, defs, slugs[0], MAXIMUM_STACK);
      BindAllAgain(Definition(q, slugs[0]).0, bound, defs, slugs[1..]);
    }
  }

  lemma CompleteBase(r: Registry)
    requires Complete(r)
    ensures Base(r.bound, r.blocks) && WellNamed(r.blocks, r.names)
    ensures Distinct(r.order) && forall s | s in r.order :: s in r.blocks
    ensures forall s | s in r.blocks :: s in r.order
  {
    hide Distinct, Closed, Topological, Shallow, ValidSlug, ValidTypeName;
    assert forall s | s in r.order :: s in Members(r.order);
    assert forall s | s in Members(r.order) :: s in r.order;
  }

  /** A fresh registry built from the interned definitions interns exactly those, in that order. */
  lemma NewAgain(r: Registry)
    requires Complete(r)
    requires forall s | s in r.blocks :: Fits(r.blocks[s].fields, r.blocks, MAXIMUM_STACK - 1)
    ensures forall s | s in r.order :: s in r.blocks
    ensures var again := New(BlockRegistry.Definitions(r));
            && again.Ok? && again.value.stack == [] && Over(again.value, r.blocks)
            && again.value.blocks == r.blocks && again.value.order == r.order
  {
    CompleteBase(r);
    RegisterAll(r);
    hide Complete, Base, Fits, Definition, Register, WellNamed, Distinct;
    BindAllAgain(Register(Empty, BlockRegistry.Definitions(r)).value, r.bound, r.blocks, r.order);
  }

  lemma RestrictedBounds(defs: Definitions, order: seq<string>)
    requires forall s | s in defs :: s in order
    ensures Restricted(defs, []) == map[] && Restricted(defs, order) == defs
  {
  }

  lemma DefinitionsInOrder(r: Registry)
    requires forall s | s in r.order :: s in r.blocks
    ensures BlockRegistry.Definitions(r) == InOrder(r.blocks, r.order)
  {
  }

  lemma RegisterAll(r: Registry)
    requires WellNamed(r.blocks, r.names) && Distinct(r.order) && forall s | s in r.order :: s in r.blocks
    requires forall s | s in r.blocks :: s in r.order
    ensures var q := Register(Empty, BlockRegistry.Definitions(r));
            q.Ok? && q.value.sources == r.blocks && q.value.order == r.order
            && q.value.blocks == map[] && q.value.stack == []
  {
    hide WellNamed, Distinct, Register, Restricted, BlockRegistry.Definitions, InOrder;
    assert [] + r.order == r.order;
    RestrictedBounds(r.blocks, r.order);
    DefinitionsInOrder(r);
    RegisterAgain(Empty, [], r.order, r.blocks, r.names);
  }

  /**
   * Binding is idempotent: a graph bound by one registry, bound again by a fresh registry built
   * from the first one's definitions, comes back unchanged and interns the same definitions in the
   * same order, when no reference chain runs through more than 48 definitions.
   */
  lemma RebindIsIdentity(r: Registry, fs: seq<Node>)
    requires Complete(r) && Settled(fs, r.blocks) && Height(fs) <= 48
    requires Fits(fs, r.blocks, 48)
    requires forall s | s in r.blocks :: Fits(r.blocks[s].fields, r.blocks, 47)
    ensures forall s | s in r.order :: s in r.blocks
    ensures var again := New(BlockRegistry.Definitions(r));
            again.Ok? &&
            var (q, out) := Bind(again.value, fs);
            out == Ok(fs) && q.blocks == r.blocks && q.order == r.order
  {
    NewAgain(r);
    CompleteBase(r);
    hide Complete, New, Fits, Settled, Height, Base, WellNamed, BindFields;
    BindAgain(New(BlockRegistry.Definitions(r)).value, r, fs);
  }

  lemma BindAgain(q: Registry, r: Registry, fs: seq<Node>)
    requires Base(r.bound, r.blocks) && Over(q, r.blocks) && q.blocks == r.blocks && q.stack == []
    requires Settled(fs, r.blocks) && Height(fs) <= MAXIMUM_NESTING && Fits(fs, r.blocks, MAXIMUM_STACK)
    ensures var (q', out) := Bind(q, fs); out == Ok(fs) && q'.blocks == q.blocks && q'.order == q.order
  {
    SettledRefs(fs, r.blocks);
    AllBound(r.bound, r.blocks);
    hide Base, Fits, BindFields, Refs, Settled, Height, Position, Members;
    RebindFields(q, r.bound, r.blocks, |r.bound|, fs, 0, MAXIMUM_STACK);
  }

  lemma AllBound(bound: seq<string>, defs: Definitions)
    requires Base(bound, defs)
    ensures Members(bound[..|bound|]) == defs.Keys
  {
    hide Topological, Closed, Shallow;
    assert bound[..|bound|] == bound;
  }
}
