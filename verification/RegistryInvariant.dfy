/** What every binding keeps: closed, acyclic definitions, one per slug and type name. */
module RegistryInvariant {
  import opened FieldGraph
  import opened BlockRegistry

  type Definitions = map<string, Block>

  /** A container selects exactly the definitions that its slugs name in `defs`. */
  predicate Selects(blocks: seq<Block>, slugs: seq<string>, bound: bool, defs: Definitions) {
    && |blocks| == |slugs|
    && Distinct(slugs)
    && (slugs != [] ==> bound)
    && forall i | 0 <= i < |slugs| :: slugs[i] in defs && blocks[i] == defs[slugs[i]]
  }

  /** Every container placed in the fields, through nested fields and embedded cases, is settled. */
  predicate Settled(fs: seq<Node>, defs: Definitions) {
    fs == [] || (SettledNode(fs[0], defs) && Settled(fs[1..], defs))
  }

  predicate SettledNode(n: Node, defs: Definitions) {
    && Selects(n.blocks, n.blockReferences, n.referencesBound, defs)
    && Settled(n.fields, defs)
    && SettledTrees(n.trees, defs)
  }

  predicate SettledTrees(ts: seq<EmbeddedTree>, defs: Definitions) {
    ts == [] || (SettledCases(ts[0].cases, defs) && SettledTrees(ts[1..], defs))
  }

  predicate SettledCases(cs: seq<EmbeddedCase>, defs: Definitions) {
    cs == [] ||
    (Selects(cs[0].types, cs[0].references, cs[0].referencesBound, defs) && SettledCases(cs[1..], defs))
  }

  /** Nesting of ordinary field lists, which binding bounds. */
  function Height(fs: seq<Node>): nat
    decreases fs, 0
  {
    if fs == [] then 0
    else
      var here, rest := ChildHeight(fs[0].fields), Height(fs[1..]);
      if here > rest then here else rest
  }

  function ChildHeight(fs: seq<Node>): nat
    decreases fs, 1
  {
    if fs == [] then 0 else 1 + Height(fs)
  }

  /** The slugs that the fields' containers select, not looking inside the definitions. */
  function Refs(fs: seq<Node>): set<string> {
    if fs == [] then {} else NodeRefs(fs[0]) + Refs(fs[1..])
  }

  function NodeRefs(n: Node): set<string> {
    Members(n.blockReferences) + Refs(n.fields) + TreeRefs(n.trees)
  }

  function TreeRefs(ts: seq<EmbeddedTree>): set<string> {
    if ts == [] then {} else CaseRefs(ts[0].cases) + TreeRefs(ts[1..])
  }

  function CaseRefs(cs: seq<EmbeddedCase>): set<string> {
    if cs == [] then {} else Members(cs[0].references) + CaseRefs(cs[1..])
  }

  predicate Distinct(slugs: seq<string>) {
    forall i, j | 0 <= i < j < |slugs| :: slugs[i] != slugs[j]
  }

  predicate SameKeys(bound: seq<string>, defs: Definitions) {
    Distinct(bound) && Members(bound) == defs.Keys
  }

  /** Every placement inside a definition carries the definition of its slug. */
  predicate Closed(defs: Definitions) {
    forall s | s in defs :: Settled(defs[s].fields, defs)
  }

  /** Each definition refers only to slugs that were bound strictly before it. */
  predicate Topological(bound: seq<string>, defs: Definitions) {
    forall k | 0 <= k < |bound| :: bound[k] in defs && Refs(defs[bound[k]].fields) <= Members(bound[..k])
  }

  /** The definitions being bound are central and not bound yet. */
  predicate Open(stack: seq<string>, sources: Definitions, defs: Definitions) {
    forall s | s in stack :: s in sources && s !in defs
  }

  predicate WellNamed(defs: Definitions, names: map<string, string>) {
    forall s | s in defs ::
      && defs[s].slug == s && ValidSlug(s)
      && ValidTypeName(defs[s].typeName)
      && defs[s].typeName in names && names[defs[s].typeName] == s
  }

  predicate Shallow(defs: Definitions) {
    forall s | s in defs :: Height(defs[s].fields) <= MAXIMUM_NESTING
  }

  predicate Memoized(inline: map<seq<Block>, seq<Block>>, defs: Definitions) {
    forall authored | authored in inline :: authored != [] && Interned(inline[authored], defs)
  }

  predicate Interned(bound: seq<Block>, defs: Definitions) {
    bound != [] && Distinct(Slugs(bound)) &&
    forall i | 0 <= i < |bound| :: bound[i].slug in defs && bound[i] == defs[bound[i].slug]
  }

  predicate Ordered(order: seq<string>, sources: Definitions, defs: Definitions) {
    Distinct(order) && Members(order) == sources.Keys + defs.Keys
  }

  predicate Invariant(r: Registry) {
    && SameKeys(r.bound, r.blocks)
    && Closed(r.blocks)
    && Topological(r.bound, r.blocks)
    && Open(r.stack, r.sources, r.blocks)
    && WellNamed(r.blocks, r.names)
    && WellNamed(r.sources, r.names)
    && Shallow(r.blocks)
    && Memoized(r.inline, r.blocks)
    && Ordered(r.order, r.sources, r.blocks)
  }

  /** Bindings only add: no definition, name or position ever changes. */
  predicate Extends(before: Registry, after: Registry) {
    && Framed(before, after)
    && before.bound <= after.bound
    && before.order <= after.order
    && Within(before.blocks, after.blocks)
    && NamesWithin(before.names, after.names)
  }

  predicate NamesWithin(before: map<string, string>, after: map<string, string>) {
    forall t | t in before :: t in after && after[t] == before[t]
  }

  predicate Within(before: Definitions, after: Definitions) {
    forall s | s in before :: s in after && after[s] == before[s]
  }

  // -------------------------------------------------------------- monotonicity

  lemma {:induction false} SettledGrows(fs: seq<Node>, before: Definitions, after: Definitions)
    requires Settled(fs, before) && Within(before, after)
    ensures Settled(fs, after)
    decreases fs
  {
    if fs != [] {
      SettledGrows(fs[0].fields, before, after);
      TreesGrow(fs[0].trees, before, after);
      SettledGrows(fs[1..], before, after);
    }
  }

  lemma {:induction false} TreesGrow(ts: seq<EmbeddedTree>, before: Definitions, after: Definitions)
    requires SettledTrees(ts, before) && Within(before, after)
    ensures SettledTrees(ts, after)
  {
    if ts != [] {
      CasesGrow(ts[0].cases, before, after);
      TreesGrow(ts[1..], before, after);
    }
  }

  lemma {:induction false} CasesGrow(cs: seq<EmbeddedCase>, before: Definitions, after: Definitions)
    requires SettledCases(cs, before) && Within(before, after)
    ensures SettledCases(cs, after)
  {
    if cs != [] { CasesGrow(cs[1..], before, after); }
  }

  // ------------------------------------------------------------ registration

  lemma {:induction false} SettledRefs(fs: seq<Node>, defs: Definitions)
    requires Settled(fs, defs)
    ensures Refs(fs) <= defs.Keys
    decreases fs
  {
    if fs != [] {
      SettledRefs(fs[0].fields, defs);
      SettledTreeRefs(fs[0].trees, defs);
      SettledRefs(fs[1..], defs);
    }
  }

  lemma {:induction false} SettledTreeRefs(ts: seq<EmbeddedTree>, defs: Definitions)
    requires SettledTrees(ts, defs)
    ensures TreeRefs(ts) <= defs.Keys
  {
    if ts != [] {
      SettledCaseRefs(ts[0].cases, defs);
      SettledTreeRefs(ts[1..], defs);
    }
  }

  lemma {:induction false} SettledCaseRefs(cs: seq<EmbeddedCase>, defs: Definitions)
    requires SettledCases(cs, defs)
    ensures CaseRefs(cs) <= defs.Keys
  {
    if cs != [] { SettledCaseRefs(cs[1..], defs); }
  }

  lemma RecordKeepsClosed(defs: Definitions, b: Block)
    requires Closed(defs) && b.slug !in defs && Settled(b.fields, defs)
    ensures Closed(defs[b.slug := b])
  {
    hide Settled;
    var after := defs[b.slug := b];
    forall s | s in after ensures Settled(after[s].fields, after) {
      SettledGrows(after[s].fields, defs, after);
    }
  }

  lemma AppendSlug(slugs: seq<string>, slug: string)
    requires Distinct(slugs) && slug !in Members(slugs)
    ensures Distinct(slugs + [slug]) && Members(slugs + [slug]) == Members(slugs) + {slug}
  {
    assert forall i | 0 <= i < |slugs| :: slugs[i] in Members(slugs);
  }

  lemma RecordKeepsOrder(bound: seq<string>, defs: Definitions, b: Block)
    requires SameKeys(bound, defs) && Topological(bound, defs)
    requires b.slug !in defs && Settled(b.fields, defs)
    ensures Topological(bound + [b.slug], defs[b.slug := b])
  {
    SettledRefs(b.fields, defs);
    hide Settled, Refs, Distinct;
    var q, after := bound + [b.slug], defs[b.slug := b];
    forall k | 0 <= k < |q|
      ensures q[k] in after && Refs(after[q[k]].fields) <= Members(q[..k])
    {
      if k < |bound| {
        assert q[..k] == bound[..k] && q[k] == bound[k];
        assert bound[k] != b.slug;
      } else {
        assert q[..k] == bound && q[k] == b.slug;
      }
    }
  }

  predicate NamedIn(b: Block, names: map<string, string>) {
    ValidSlug(b.slug) && ValidTypeName(b.typeName) && b.typeName in names && names[b.typeName] == b.slug
  }

  lemma RecordKeepsRest(r: Registry, b: Block)
    requires WellNamed(r.blocks, r.names) && Shallow(r.blocks) && Memoized(r.inline, r.blocks)
    requires b.slug !in r.blocks && Height(b.fields) <= MAXIMUM_NESTING && NamedIn(b, r.names)
    ensures var q := Record(r, b); WellNamed(q.blocks, q.names) && Shallow(q.blocks) && Memoized(q.inline, q.blocks)
  {
    hide Height, ValidSlug, ValidTypeName;
    var q := Record(r, b);
    assert forall s | s in q.blocks ::
             if s == b.slug then q.blocks[s] == b else s in r.blocks && q.blocks[s] == r.blocks[s];
  }

  lemma RecordKeepsKeys(bound: seq<string>, defs: Definitions, b: Block)
    requires SameKeys(bound, defs) && b.slug !in defs
    ensures SameKeys(bound + [b.slug], defs[b.slug := b]) && Within(defs, defs[b.slug := b])
  {
    AppendSlug(bound, b.slug);
  }

  lemma RecordKeepsOpen(stack: seq<string>, sources: Definitions, defs: Definitions, b: Block)
    requires Open(stack, sources, defs) && b.slug !in stack
    ensures Open(stack, sources, defs[b.slug := b])
  {
  }

  lemma OrderKept(order: seq<string>, sources: Definitions, defs: Definitions, b: Block)
    requires Ordered(order, sources, defs)
    ensures b.slug in sources ==> Ordered(order, sources, defs[b.slug := b])
    ensures b.slug !in sources && b.slug !in defs ==> Ordered(order + [b.slug], sources, defs[b.slug := b])
  {
    assert defs[b.slug := b].Keys == defs.Keys + {b.slug};
    if b.slug !in sources && b.slug !in defs { AppendSlug(order, b.slug); }
  }

  /** Recording a settled, well-named definition keeps the invariant. */
  lemma RecordKeeps(r: Registry, b: Block)
    requires Invariant(r) && b.slug !in r.blocks && b.slug in r.sources && b.slug !in r.stack
    requires Settled(b.fields, r.blocks) && Height(b.fields) <= MAXIMUM_NESTING && NamedIn(b, r.names)
    ensures Keeps(r, Record(r, b))
  {
    hide Distinct, Closed, Topological, WellNamed, Shallow, Memoized, Settled, Height, SameKeys, Open, Ordered, Within,
      NamedIn;
    RecordKeepsClosed(r.blocks, b);
    RecordKeepsKeys(r.bound, r.blocks, b);
    RecordKeepsOrder(r.bound, r.blocks, b);
    RecordKeepsOpen(r.stack, r.sources, r.blocks, b);
    OrderKept(r.order, r.sources, r.blocks, b);
    RecordKeepsRest(r, b);
  }

  lemma ClaimKeepsNames(r: Registry, b: Block)
    requires ClaimName(r, b).Ok? && WellNamed(r.blocks, r.names) && WellNamed(r.sources, r.names) && ValidSlug(b.slug)
    ensures var names := ClaimName(r, b).value.names;
            && WellNamed(r.blocks, names) && WellNamed(r.sources, names) && NamedIn(b, names)
            && NamesWithin(r.names, names)
    ensures ClaimName(r, b).value == r.(names := ClaimName(r, b).value.names)
  {
    hide ValidSlug, ValidTypeName;
  }

  /** Interning a new inline definition claims its type name and appends it to the order. */
  lemma InternKeeps(r: Registry, b: Block)
    requires Invariant(r) && b.slug !in r.blocks && b.slug !in r.sources && ValidSlug(b.slug)
    requires Settled(b.fields, r.blocks) && Height(b.fields) <= MAXIMUM_NESTING
    requires ClaimName(r, b).Ok?
    ensures var q := Record(ClaimName(r, b).value, b); Keeps(r, q.(order := q.order + [b.slug]))
  {
    hide Distinct, Closed, Topological, WellNamed, Shallow, Memoized, Settled, Height, SameKeys, Open, Ordered, Within,
      NamedIn, NamesWithin, ClaimName;
    var c := ClaimName(r, b).value;
    ClaimKeepsNames(r, b);
    StackNames(r, b.slug);
    RecordKeepsClosed(r.blocks, b);
    RecordKeepsKeys(r.bound, r.blocks, b);
    RecordKeepsOrder(r.bound, r.blocks, b);
    RecordKeepsOpen(r.stack, r.sources, r.blocks, b);
    OrderKept(r.order, r.sources, r.blocks, b);
    RecordKeepsRest(c, b);
  }

  lemma StackNames(r: Registry, slug: string)
    requires Open(r.stack, r.sources, r.blocks) && slug !in r.sources
    ensures slug !in r.stack
  {
  }

  // ------------------------------------------------------- every step keeps it

  /** The obligation of a binding step, successful or not. */
  predicate Keeps(before: Registry, after: Registry) {
    Invariant(after) && Extends(before, after)
  }

  lemma KeepsTransitive(a: Registry, b: Registry, c: Registry)
    requires Keeps(a, b) && Keeps(b, c)
    ensures Keeps(a, c)
  {
    hide Invariant;
  }

  /** What later steps use of a step that kept the invariant. */
  lemma Kept(before: Registry, after: Registry)
    requires Keeps(before, after)
    ensures Invariant(after) && Framed(before, after) && Within(before.blocks, after.blocks)
  {
    hide Invariant;
  }

  lemma KeepsItself(r: Registry)
    requires Invariant(r)
    ensures Keeps(r, r)
  {
    hide Invariant;
  }

  lemma PushKeeps(r: Registry, slug: string)
    requires Invariant(r) && slug in r.sources && slug !in r.blocks
    ensures Invariant(r.(stack := r.stack + [slug]))
  {
    hide SameKeys, Closed, Topological, WellNamed, Shallow, Memoized, Ordered;
  }

  /** A definition on the stack is not bound before it leaves it. */
  lemma PopKeeps(r: Registry, slug: string, inner: Registry)
    requires Keeps(r.(stack := r.stack + [slug]), inner)
    ensures Keeps(r, inner.(stack := r.stack)) && slug !in inner.blocks && slug in inner.sources
  {
    hide SameKeys, Closed, Topological, WellNamed, Shallow, Memoized, Ordered, Within, NamesWithin;
    var pushed := r.stack + [slug];
    assert slug in pushed && forall s | s in r.stack :: s in pushed;
  }

  lemma {:induction false} DefinitionKeeps(r: Registry, slug: string)
    requires Invariant(r)
    ensures var (q, b) := Definition(r, slug);
            Keeps(r, q) && (b.Ok? ==> slug in q.blocks && b.value == q.blocks[slug])
    decreases Room(r), 0, 0
  {
    hide Invariant, Extends, BindFields, Settled, Height;
    KeepsItself(r);
    if slug in r.sources && slug !in r.blocks && slug !in r.stack && |r.stack| < MAXIMUM_STACK {
      RoomShrinks(r, slug);
      var pushed := r.(stack := r.stack + [slug]);
      PushKeeps(r, slug);
      BindFieldsKeeps(pushed, r.sources[slug].fields, 0);
      var (inner, fields) := BindFields(pushed, r.sources[slug].fields, 0);
      PopKeeps(r, slug, inner);
      var popped := inner.(stack := r.stack);
      if fields.Ok? {
        SourceName(popped, slug);
        RecordKeeps(popped, r.sources[slug].(fields := fields.value));
        KeepsTransitive(r, popped, Record(popped, r.sources[slug].(fields := fields.value)));
      }
    }
  }

  lemma SourceName(r: Registry, slug: string)
    requires Invariant(r) && slug in r.sources
    ensures r.sources[slug].slug == slug && NamedIn(r.sources[slug], r.names)
  {
    hide Closed, Topological, ValidSlug, ValidTypeName;
  }

  lemma {:induction false} ReferencesKeep(r: Registry, slugs: seq<string>, seen: set<string>)
    requires Invariant(r)
    ensures var (q, out) := References(r, slugs, seen);
            && Keeps(r, q)
            && (out.Ok? ==>
                  && Selects(out.value, slugs, true, q.blocks)
                  && forall i | 0 <= i < |slugs| :: slugs[i] !in seen)
    decreases Room(r), 0, |slugs| + 1
  {
    hide Invariant, Extends, Definition, Selects, Within, Room;
    KeepsItself(r);
    if slugs == [] {
      SelectsNothing(r.blocks);
    } else if slugs[0] !in seen {
      DefinitionKeeps(r, slugs[0]);
      var (r1, first) := Definition(r, slugs[0]);
      if first.Ok? {
        RoomFramed(r, r1);
        ReferencesKeep(r1, slugs[1..], seen + {slugs[0]});
        var (r2, rest) := References(r1, slugs[1..], seen + {slugs[0]});
        KeepsTransitive(r, r1, r2);
        Kept(r1, r2);
        WithinAt(r1.blocks, r2.blocks, slugs[0]);
        if rest.Ok? {
          assert [slugs[0]] + slugs[1..] == slugs;
          SelectsCons(first.value, slugs[0], rest.value, slugs[1..], r2.blocks);
        }
      }
    }
  }

  lemma SelectsNothing(defs: Definitions)
    ensures Selects([], [], true, defs)
  {
  }

  lemma SelectsCons(first: Block, slug: string, rest: seq<Block>, slugs: seq<string>, defs: Definitions)
    requires slug in defs && first == defs[slug] && Selects(rest, slugs, true, defs)
    requires forall i | 0 <= i < |slugs| :: slugs[i] != slug
    ensures Selects([first] + rest, [slug] + slugs, true, defs)
  {
  }

  lemma {:induction false} DeclareKeeps(r: Registry, authored: seq<Block>, depth: nat)
    requires Invariant(r) && authored != []
    ensures var (q, out) := Declare(r, authored, depth);
            Keeps(r, q) && (out.Ok? ==> Interned(out.value, q.blocks))
    decreases Room(r), BlocksSize(authored), 2
  {
    if authored in r.inline {
      hide Closed, Topological, WellNamed, Shallow, Ordered, SameKeys, Interned, Extends;
      KeepsItself(r);
    } else {
      DeclareEachKeeps(r, authored, {}, depth);
      var (r1, bound) := DeclareEach(r, authored, {}, depth);
      hide Invariant, Extends, Interned;
      if bound.Ok? { MemoKeeps(r, r1, authored, bound.value); }
    }
  }

  lemma MemoKeeps(r: Registry, r1: Registry, authored: seq<Block>, bound: seq<Block>)
    requires Keeps(r, r1) && authored != [] && Interned(bound, r1.blocks)
    ensures Keeps(r, r1.(inline := r1.inline[authored := bound]))
  {
    hide SameKeys, Closed, Topological, WellNamed, Shallow, Ordered, Interned, Within, NamesWithin;
  }

  lemma InternedCons(first: Block, rest: seq<Block>, defs: Definitions)
    requires first.slug in defs && first == defs[first.slug] && (rest != [] ==> Interned(rest, defs))
    requires forall i | 0 <= i < |rest| :: rest[i].slug != first.slug
    ensures Interned([first] + rest, defs)
  {
    var all := Slugs([first] + rest);
    assert forall i | 1 <= i < |all| :: all[i] == Slugs(rest)[i - 1];
  }

  lemma {:induction false} DeclareEachKeeps(r: Registry, authored: seq<Block>, seen: set<string>, depth: nat)
    requires Invariant(r)
    ensures var (q, out) := DeclareEach(r, authored, seen, depth);
            && Keeps(r, q)
            && (out.Ok? ==>
                && |out.value| == |authored| && (authored != [] ==> Interned(out.value, q.blocks))
                && forall i | 0 <= i < |authored| :: out.value[i].slug !in seen)
    decreases Room(r), BlocksSize(authored), 1
  {
    hide Invariant, Extends, DeclareOne, Interned, Within;
    KeepsItself(r);
    if authored != [] {
      DeclareOneKeeps(r, authored[0], seen, depth);
      var (r1, first) := DeclareOne(r, authored[0], seen, depth);
      if first.Ok? {
        DeclareEachKeeps(r1, authored[1..], seen + {authored[0].slug}, depth);
        var (r2, rest) := DeclareEach(r1, authored[1..], seen + {authored[0].slug}, depth);
        KeepsTransitive(r, r1, r2);
        Kept(r1, r2);
        WithinAt(r1.blocks, r2.blocks, authored[0].slug);
        if rest.Ok? { InternedCons(first.value, rest.value, r2.blocks); }
      }
    }
  }

  lemma WithinAt(before: Definitions, after: Definitions, s: string)
    requires Within(before, after) && s in before
    ensures s in after && after[s] == before[s]
  {
  }

  lemma {:induction false} DeclareOneKeeps(r: Registry, authored: Block, seen: set<string>, depth: nat)
    requires Invariant(r)
    ensures var (q, b) := DeclareOne(r, authored, seen, depth);
            && Keeps(r, q)
            && (b.Ok? ==>
                && b.value.slug == authored.slug && authored.slug !in seen
                && authored.slug in q.blocks && b.value == q.blocks[authored.slug])
    decreases Room(r), FieldsSize(authored.fields) + 1, 0
  {
    hide Invariant, BindFields, Definition, ClaimName, Settled, Height, Extends, ValidSlug;
    KeepsItself(r);
    if ValidSlug(authored.slug) && authored.slug !in seen {
      BindFieldsKeeps(r, authored.fields, depth + 1);
      var (r1, fields) := BindFields(r, authored.fields, depth + 1);
      if fields.Ok? {
        var b := Named(authored).(fields := fields.value);
        if b.slug !in r1.blocks {
          if b.slug in r1.sources {
            DefinitionKeeps(r1, b.slug);
            KeepsTransitive(r, r1, Definition(r1, b.slug).0);
          } else if ClaimName(r1, b).Ok? {
            InternKeeps(r1, b);
            KeepsTransitive(r, r1, DeclareOne(r, authored, seen, depth).0);
          }
        }
      }
    }
  }

  lemma {:induction false} BindFieldsKeeps(r: Registry, fs: seq<Node>, depth: nat)
    requires Invariant(r)
    ensures var (q, out) := BindFields(r, fs, depth);
            Keeps(r, q) && (out.Ok? ==> Settled(out.value, q.blocks) && Height(out.value) + depth <= MAXIMUM_NESTING)
    decreases Room(r), FieldsSize(fs), 3
  {
    hide Invariant, Extends, BindEach, Settled, Height;
    KeepsItself(r);
    if depth <= MAXIMUM_NESTING {
      BindEachKeeps(r, fs, depth);
    }
  }

  lemma {:induction false} BindEachKeeps(r: Registry, fs: seq<Node>, depth: nat)
    requires Invariant(r) && depth <= MAXIMUM_NESTING
    ensures var (q, out) := BindEach(r, fs, depth);
            Keeps(r, q) && (out.Ok? ==> Settled(out.value, q.blocks) && Height(out.value) + depth <= MAXIMUM_NESTING)
    decreases Room(r), FieldsSize(fs), 2
  {
    hide Invariant, Extends, BindNode, SettledNode;
    KeepsItself(r);
    if fs != [] {
      BindNodeKeeps(r, fs[0], depth);
      var (r1, first) := BindNode(r, fs[0], depth);
      if first.Ok? {
        BindEachKeeps(r1, fs[1..], depth);
        var (r2, rest) := BindEach(r1, fs[1..], depth);
        KeepsTransitive(r, r1, r2);
        Kept(r1, r2);
        if rest.Ok? {
          NodeGrows(first.value, r1.blocks, r2.blocks);
          assert ([first.value] + rest.value)[1..] == rest.value;
        }
      }
    }
  }

  lemma NodeGrows(n: Node, before: Definitions, after: Definitions)
    requires SettledNode(n, before) && Within(before, after)
    ensures SettledNode(n, after)
  {
    hide Settled, SettledTrees;
    SettledGrows(n.fields, before, after);
    TreesGrow(n.trees, before, after);
  }

  lemma {:induction false} SelectKeeps(r: Registry, authored: seq<Block>, references: seq<string>,
                                       bound: bool, depth: nat)
    requires Invariant(r)
    ensures var (q, out) := SelectBlocks(r, authored, references, bound, depth);
            && Keeps(r, q)
            && (out.Ok? ==>
                Selects(out.value, SelectedSlugs(out.value, references), bound || out.value != [], q.blocks))
    decreases Room(r), BlocksSize(authored), |references| + 3
  {
    hide Invariant, Extends, References, Declare;
    KeepsItself(r);
    if references != [] {
      if authored == [] || bound { ReferencesKeep(r, references, {}); }
    } else if authored != [] {
      DeclareKeeps(r, authored, depth);
    }
  }

  lemma AssembledSettled(n: Node, blocks: seq<Block>, fields: seq<Node>, trees: seq<EmbeddedTree>, defs: Definitions)
    requires Selects(blocks, SelectedSlugs(blocks, n.blockReferences), n.referencesBound || blocks != [], defs)
    requires Settled(fields, defs) && SettledTrees(trees, defs)
    ensures SettledNode(Assembled(n, blocks, fields, trees), defs)
  {
  }

  lemma SelectsGrow(blocks: seq<Block>, slugs: seq<string>, bound: bool, before: Definitions, after: Definitions)
    requires Selects(blocks, slugs, bound, before) && Within(before, after)
    ensures Selects(blocks, slugs, bound, after)
  {
  }

  lemma {:induction false} BindChildrenKeeps(r: Registry, fs: seq<Node>, depth: nat)
    requires Invariant(r) && depth <= MAXIMUM_NESTING
    ensures var (q, out) := BindChildren(r, fs, depth);
            && Keeps(r, q)
            && (out.Ok? ==> Settled(out.value, q.blocks) && ChildHeight(out.value) + depth <= MAXIMUM_NESTING)
    decreases Room(r), FieldsSize(fs), 4
  {
    assert Settled([], r.blocks);
    hide Invariant, Extends, BindFields, Settled, Height;
    KeepsItself(r);
    if fs != [] { BindFieldsKeeps(r, fs, depth + 1); }
  }

  lemma {:induction false} BindNodeKeeps(r: Registry, n: Node, depth: nat)
    requires Invariant(r) && depth <= MAXIMUM_NESTING
    ensures var (q, out) := BindNode(r, n, depth);
            && Keeps(r, q)
            && (out.Ok? ==>
                  && SettledNode(out.value, q.blocks)
                  && ChildHeight(out.value.fields) + depth <= MAXIMUM_NESTING)
    decreases Room(r), NodeSize(n), 1
  {
    hide Invariant, Extends, SelectBlocks, BindChildren, BindTrees, Settled, SettledTrees, ChildHeight, SelectedSlugs,
      Selects, SettledNode, Within;
    SelectKeeps(r, n.blocks, n.blockReferences, n.referencesBound, depth);
    var (r1, blocks) := SelectBlocks(r, n.blocks, n.blockReferences, n.referencesBound, depth);
    if blocks.Ok? {
      BindChildrenKeeps(r1, n.fields, depth);
      var (r2, fields) := BindChildren(r1, n.fields, depth);
      KeepsTransitive(r, r1, r2);
      if fields.Ok? {
        BindTreesKeeps(r2, n.trees, depth);
        var (r3, trees) := BindTrees(r2, n.trees, depth);
        KeepsTransitive(r, r2, r3);
        if trees.Ok? {
          KeepsTransitive(r1, r2, r3);
          Kept(r1, r3);
          Kept(r2, r3);
          SettledGrows(fields.value, r2.blocks, r3.blocks);
          SelectsGrow(blocks.value, SelectedSlugs(blocks.value, n.blockReferences),
                      n.referencesBound || blocks.value != [], r1.blocks, r3.blocks);
          AssembledSettled(n, blocks.value, fields.value, trees.value, r3.blocks);
        }
      }
    }
  }

  lemma {:induction false} BindTreesKeeps(r: Registry, ts: seq<EmbeddedTree>, depth: nat)
    requires Invariant(r)
    ensures var (q, out) := BindTrees(r, ts, depth); Keeps(r, q) && (out.Ok? ==> SettledTrees(out.value, q.blocks))
    decreases Room(r), TreesSize(ts), 0
  {
    hide Invariant, Extends, BindCases, SettledCases;
    KeepsItself(r);
    if ts != [] {
      BindCasesKeeps(r, ts[0].cases, depth);
      var (r1, cases) := BindCases(r, ts[0].cases, depth);
      if cases.Ok? {
        BindTreesKeeps(r1, ts[1..], depth);
        var (r2, rest) := BindTrees(r1, ts[1..], depth);
        KeepsTransitive(r, r1, r2);
        Kept(r1, r2);
        if rest.Ok? {
          CasesGrow(cases.value, r1.blocks, r2.blocks);
          assert ([ts[0].(cases := cases.value)] + rest.value)[1..] == rest.value;
        }
      }
    }
  }

  lemma {:induction false} BindCasesKeeps(r: Registry, cs: seq<EmbeddedCase>, depth: nat)
    requires Invariant(r)
    ensures var (q, out) := BindCases(r, cs, depth); Keeps(r, q) && (out.Ok? ==> SettledCases(out.value, q.blocks))
    decreases Room(r), CasesSize(cs), 0
  {
    hide Invariant, Extends, SelectBlocks, SelectedSlugs;
    KeepsItself(r);
    if cs != [] {
      var c := cs[0];
      SelectKeeps(r, c.types, c.references, c.referencesBound, depth);
      var (r1, types) := SelectBlocks(r, c.types, c.references, c.referencesBound, depth);
      if types.Ok? {
        BindCasesKeeps(r1, cs[1..], depth);
        var (r2, rest) := BindCases(r1, cs[1..], depth);
        KeepsTransitive(r, r1, r2);
        Kept(r1, r2);
        if rest.Ok? {
          var bound := c.(types := types.value, references := SelectedSlugs(types.value, c.references),
                          referencesBound := c.referencesBound || types.value != []);
          assert ([bound] + rest.value)[1..] == rest.value;
        }
      }
    }
  }
}
