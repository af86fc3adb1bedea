/** What binding makes of what was authored: every declaration keeps its own content, and conflicts are refused. */
module RegistryFaithful {
  import opened Separated
  import opened FieldGraph
  import opened BlockRegistry
  import opened RegistryInvariant
  import opened RegistryResults

  /** The authored fields, bound: the same nodes in the same order, with their containers filled in. */
  predicate Renders(fs: seq<Node>, gs: seq<Node>)
    decreases fs
  {
    |fs| == |gs| && (fs == [] || (RendersNode(fs[0], gs[0]) && Renders(fs[1..], gs[1..])))
  }

  predicate RendersNode(n: Node, m: Node)
    decreases n
  {
    && m.name == n.name && m.kind == n.kind && m.namedTab == n.namedTab
    && m.policies == n.policies && m.visibleWhen == n.visibleWhen
    && RendersContainer(n.blocks, n.blockReferences, n.referencesBound, m.blocks, m.blockReferences)
    && Renders(n.fields, m.fields)
    && RendersTrees(n.trees, m.trees)
  }

  /**
   * References are selected as authored, and never beside inline declarations of their own; without
   * references the inline declarations are, each with its own content, and their slugs become the
   * references.
   */
  predicate RendersContainer(authored: seq<Block>, references: seq<string>, bound: bool,
                             placed: seq<Block>, slugs: seq<string>)
    decreases authored, 1
  {
    if references != [] then slugs == references && |placed| == |references| && (authored == [] || bound)
    else
      && |slugs| == |placed| && (forall i | 0 <= i < |slugs| :: slugs[i] == placed[i].slug)
      && RendersBlocks(authored, placed)
  }

  predicate RendersBlocks(authored: seq<Block>, placed: seq<Block>)
    decreases authored, 0
  {
    |authored| == |placed|
    && (authored == [] || (RendersBlock(authored[0], placed[0]) && RendersBlocks(authored[1..], placed[1..])))
  }

  /** A definition with the content of its declaration: an absent type name is derived from the slug. */
  predicate RendersBlock(b: Block, d: Block)
    decreases b
  {
    && d.slug == b.slug && d.settings == b.settings
    && (if b.typeName != "" then d.typeName == b.typeName else Derived(Split(b.slug, '-'), d.typeName))
    && Renders(b.fields, d.fields)
  }

  /** The parts one after the other, each with its first letter raised. */
  predicate Derived(parts: seq<string>, name: string) {
    if parts == [] then name == ""
    else if parts[0] == "" then Derived(parts[1..], name)
    else
      && |name| >= |parts[0]| && name[1..|parts[0]|] == parts[0][1..]
      && name[0] == (if 'a' <= parts[0][0] <= 'z' then parts[0][0] - 'a' + 'A' else parts[0][0])
      && Derived(parts[1..], name[|parts[0]|..])
  }

  predicate RendersTrees(ts: seq<EmbeddedTree>, us: seq<EmbeddedTree>)
    decreases ts
  {
    |ts| == |us| &&
    (ts == [] ||
     (&& us[0].key == ts[0].key && us[0].settings == ts[0].settings
      && RendersCases(ts[0].cases, us[0].cases) && RendersTrees(ts[1..], us[1..])))
  }

  predicate RendersCases(cs: seq<EmbeddedCase>, ds: seq<EmbeddedCase>)
    decreases cs
  {
    |cs| == |ds| &&
    (cs == [] ||
     (&& ds[0].tag == cs[0].tag && ds[0].settings == cs[0].settings
      && RendersContainer(cs[0].types, cs[0].references, cs[0].referencesBound, ds[0].types, ds[0].references)
      && RendersCases(cs[1..], ds[1..])))
  }

  // ---------------------------------------------------- every step is faithful

  /** Memoized lists and central definitions have the content they were declared with. */
  predicate Faithful(r: Registry) {
    && (forall authored | authored in r.inline :: RendersBlocks(authored, r.inline[authored]))
    && (forall s | s in r.blocks && s in r.sources :: RendersBlock(r.sources[s], r.blocks[s]))
  }

  lemma {:induction false} CapitalizedIsDerived(parts: seq<string>)
    ensures Derived(parts, Capitalized(parts))
  {
    if parts != [] {
      CapitalizedIsDerived(parts[1..]);
      if parts[0] != "" {
        var name, rest := Capitalized(parts), Capitalized(parts[1..]);
        assert name == [Upper(parts[0][0])] + parts[0][1..] + rest;
        assert name[|parts[0]|..] == rest && name[1..|parts[0]|] == parts[0][1..];
      }
    }
  }

  /** A declaration under its full name, with bound fields, renders it. */
  lemma NamedRenders(b: Block, fields: seq<Node>)
    requires Renders(b.fields, fields)
    ensures RendersBlock(b, Named(b).(fields := fields))
  {
    hide Renders, Derived, Capitalized;
    CapitalizedIsDerived(Split(b.slug, '-'));
  }

  lemma SourceRenders(b: Block, fields: seq<Node>)
    requires b.typeName != "" && Renders(b.fields, fields)
    ensures RendersBlock(b, b.(fields := fields))
  {
    hide Renders, Derived;
  }

  /** Central declarations carry their full type name. */
  predicate FullyNamed(sources: Definitions) {
    forall s | s in sources :: sources[s].typeName != "" && sources[s].slug == s
  }

  /** What every step needs and keeps. */
  predicate Sincere(r: Registry) {
    Faithful(r) && FullyNamed(r.sources)
  }

  lemma {:induction false} DefinitionFaithful(r: Registry, slug: string)
    requires Sincere(r)
    ensures var (q, b) := Definition(r, slug);
            Sincere(q) && (b.Ok? ==> slug in r.sources)
    decreases Room(r), 0, 0
  {
    hide BindFields, Renders, RendersBlock, RendersBlocks;
    if slug in r.sources && slug !in r.blocks && slug !in r.stack && |r.stack| < MAXIMUM_STACK {
      RoomShrinks(r, slug);
      var pushed := r.(stack := r.stack + [slug]);
      FieldsFaithful(pushed, r.sources[slug].fields, 0);
      var (inner, fields) := BindFields(pushed, r.sources[slug].fields, 0);
      if fields.Ok? {
        SourceRenders(r.sources[slug], fields.value);
        RecordFaithful(inner.(stack := r.stack), r.sources[slug].(fields := fields.value));
      }
    }
  }

  lemma RecordFaithful(r: Registry, b: Block)
    requires Sincere(r) && (b.slug in r.sources ==> RendersBlock(r.sources[b.slug], b))
    ensures Sincere(Record(r, b))
  {
    hide RendersBlock, RendersBlocks;
  }

  lemma {:induction false} ReferencesFaithful(r: Registry, slugs: seq<string>, seen: set<string>)
    requires Sincere(r)
    ensures var (q, out) := References(r, slugs, seen);
            Sincere(q) && (out.Ok? ==> |out.value| == |slugs| && forall s | s in slugs :: s in r.sources)
    decreases Room(r), 0, |slugs| + 1
  {
    hide Sincere, Definition, Room;
    if slugs != [] && slugs[0] !in seen {
      DefinitionFaithful(r, slugs[0]);
      var (r1, first) := Definition(r, slugs[0]);
      if first.Ok? {
        RoomFramed(r, r1);
        ReferencesFaithful(r1, slugs[1..], seen + {slugs[0]});
      }
    }
  }

  lemma {:induction false} DeclareFaithful(r: Registry, authored: seq<Block>, depth: nat)
    requires Sincere(r) && authored != []
    ensures var (q, out) := Declare(r, authored, depth);
            Sincere(q) && (out.Ok? ==> RendersBlocks(authored, out.value))
    decreases Room(r), BlocksSize(authored), 2
  {
    hide RendersBlock, RendersBlocks, DeclareEach;
    if authored !in r.inline {
      DeclareEachFaithful(r, authored, {}, depth);
    }
  }

  lemma {:induction false} DeclareEachFaithful(r: Registry, authored: seq<Block>, seen: set<string>, depth: nat)
    requires Sincere(r)
    ensures var (q, out) := DeclareEach(r, authored, seen, depth);
            Sincere(q) && (out.Ok? ==> RendersBlocks(authored, out.value))
    decreases Room(r), BlocksSize(authored), 1
  {
    hide Sincere, DeclareOne, RendersBlock, Room;
    if authored != [] {
      DeclareOneFaithful(r, authored[0], seen, depth);
      var (r1, first) := DeclareOne(r, authored[0], seen, depth);
      if first.Ok? {
        RoomFramed(r, r1);
        DeclareEachFaithful(r1, authored[1..], seen + {authored[0].slug}, depth);
        var rest := DeclareEach(r1, authored[1..], seen + {authored[0].slug}, depth).1;
        if rest.Ok? { assert ([first.value] + rest.value)[1..] == rest.value; }
      }
    }
  }

  /** A declaration that is accepted has its own content, also where its slug was declared before. */
  lemma {:induction false} DeclareOneFaithful(r: Registry, authored: Block, seen: set<string>, depth: nat)
    requires Sincere(r)
    ensures var (q, b) := DeclareOne(r, authored, seen, depth);
            Sincere(q) && (b.Ok? ==> RendersBlock(authored, b.value))
    decreases Room(r), FieldsSize(authored.fields) + 1, 0
  {
    hide BindFields, Definition, Renders, RendersBlock, RendersBlocks, ValidSlug, Room;
    if ValidSlug(authored.slug) && authored.slug !in seen {
      FieldsFaithful(r, authored.fields, depth + 1);
      var (r1, fields) := BindFields(r, authored.fields, depth + 1);
      RoomFramed(r, r1);
      if fields.Ok? {
        var b := Named(authored).(fields := fields.value);
        NamedRenders(authored, fields.value);
        if b.slug !in r1.blocks {
          if b.slug in r1.sources {
            DefinitionFaithful(r1, b.slug);
          } else if ClaimName(r1, b).Ok? {
            RecordFaithful(ClaimName(r1, b).value, b);
          }
        }
      }
    }
  }

  lemma {:induction false} FieldsFaithful(r: Registry, fs: seq<Node>, depth: nat)
    requires Sincere(r)
    ensures var (q, out) := BindFields(r, fs, depth); Sincere(q) && (out.Ok? ==> Renders(fs, out.value))
    decreases Room(r), FieldsSize(fs), 3
  {
    hide Sincere, BindEach, Renders;
    if depth <= MAXIMUM_NESTING { EachFaithful(r, fs, depth); }
  }

  lemma {:induction false} EachFaithful(r: Registry, fs: seq<Node>, depth: nat)
    requires Sincere(r)
    ensures var (q, out) := BindEach(r, fs, depth); Sincere(q) && (out.Ok? ==> Renders(fs, out.value))
    decreases Room(r), FieldsSize(fs), 2
  {
    hide Sincere, BindNode, RendersNode, Room;
    if fs != [] {
      NodeFaithful(r, fs[0], depth);
      var (r1, first) := BindNode(r, fs[0], depth);
      if first.Ok? {
        RoomFramed(r, r1);
        EachFaithful(r1, fs[1..], depth);
        var rest := BindEach(r1, fs[1..], depth).1;
        if rest.Ok? { assert ([first.value] + rest.value)[1..] == rest.value; }
      }
    }
  }

  lemma {:induction false} SelectFaithful(r: Registry, authored: seq<Block>, references: seq<string>, bound: bool,
                                          depth: nat)
    requires Sincere(r)
    ensures var (q, out) := SelectBlocks(r, authored, references, bound, depth);
            && Sincere(q)
            && (out.Ok? ==>
                  RendersContainer(authored, references, bound, out.value, SelectedSlugs(out.value, references)))
    decreases Room(r), BlocksSize(authored), |references| + 3
  {
    hide Sincere, References, Declare, RendersBlock;
    if references != [] {
      ReferencesFaithful(r, references, {});
    } else if authored != [] {
      DeclareFaithful(r, authored, depth);
    }
  }

  lemma {:induction false} ChildrenFaithful(r: Registry, fs: seq<Node>, depth: nat)
    requires Sincere(r)
    ensures var (q, out) := BindChildren(r, fs, depth); Sincere(q) && (out.Ok? ==> Renders(fs, out.value))
    decreases Room(r), FieldsSize(fs), 4
  {
    hide Sincere, BindFields;
    if fs != [] { FieldsFaithful(r, fs, depth + 1); }
  }

  lemma {:induction false} NodeFaithful(r: Registry, n: Node, depth: nat)
    requires Sincere(r)
    ensures var (q, out) := BindNode(r, n, depth); Sincere(q) && (out.Ok? ==> RendersNode(n, out.value))
    decreases Room(r), NodeSize(n), 1
  {
    hide Sincere, SelectBlocks, BindChildren, BindTrees, SelectedSlugs, Renders, RendersTrees, RendersContainer, Room;
    SelectFaithful(r, n.blocks, n.blockReferences, n.referencesBound, depth);
    var (r1, blocks) := SelectBlocks(r, n.blocks, n.blockReferences, n.referencesBound, depth);
    RoomFramed(r, r1);
    if blocks.Ok? {
      ChildrenFaithful(r1, n.fields, depth);
      var (r2, fields) := BindChildren(r1, n.fields, depth);
      RoomFramed(r1, r2);
      if fields.Ok? { TreesFaithful(r2, n.trees, depth); }
    }
  }

  lemma {:induction false} TreesFaithful(r: Registry, ts: seq<EmbeddedTree>, depth: nat)
    requires Sincere(r)
    ensures var (q, out) := BindTrees(r, ts, depth); Sincere(q) && (out.Ok? ==> RendersTrees(ts, out.value))
    decreases Room(r), TreesSize(ts), 0
  {
    hide Sincere, BindCases, RendersCases, Room;
    if ts != [] {
      CasesFaithful(r, ts[0].cases, depth);
      var (r1, cases) := BindCases(r, ts[0].cases, depth);
      RoomFramed(r, r1);
      if cases.Ok? {
        TreesFaithful(r1, ts[1..], depth);
        var rest := BindTrees(r1, ts[1..], depth).1;
        if rest.Ok? { assert ([ts[0].(cases := cases.value)] + rest.value)[1..] == rest.value; }
      }
    }
  }

  lemma {:induction false} CasesFaithful(r: Registry, cs: seq<EmbeddedCase>, depth: nat)
    requires Sincere(r)
    ensures var (q, out) := BindCases(r, cs, depth); Sincere(q) && (out.Ok? ==> RendersCases(cs, out.value))
    decreases Room(r), CasesSize(cs), 0
  {
    hide Sincere, SelectBlocks, SelectedSlugs, RendersContainer, Room;
    if cs != [] {
      var c := cs[0];
      SelectFaithful(r, c.types, c.references, c.referencesBound, depth);
      var (r1, types) := SelectBlocks(r, c.types, c.references, c.referencesBound, depth);
      RoomFramed(r, r1);
      if types.Ok? {
        CasesFaithful(r1, cs[1..], depth);
        var rest := BindCases(r1, cs[1..], depth).1;
        if rest.Ok? {
          var bound := c.(types := types.value, references := SelectedSlugs(types.value, c.references),
                          referencesBound := c.referencesBound || types.value != []);
          assert ([bound] + rest.value)[1..] == rest.value;
        }
      }
    }
  }

  // ------------------------------------------------------------ declarations

  /** Every inline declaration of an authored graph, those inside declarations included. */
  function Declared(fs: seq<Node>): set<Block>
    decreases fs
  {
    if fs == [] then {} else DeclaredIn(fs[0]) + Declared(fs[1..])
  }

  function DeclaredIn(n: Node): set<Block>
    decreases n
  {
    (if n.blockReferences == [] then DeclaredBy(n.blocks) else {}) + Declared(n.fields) + DeclaredInTrees(n.trees)
  }

  function DeclaredBy(bs: seq<Block>): set<Block>
    decreases bs
  {
    if bs == [] then {} else {bs[0]} + Declared(bs[0].fields) + DeclaredBy(bs[1..])
  }

  function DeclaredInTrees(ts: seq<EmbeddedTree>): set<Block>
    decreases ts
  {
    if ts == [] then {} else DeclaredInCases(ts[0].cases) + DeclaredInTrees(ts[1..])
  }

  function DeclaredInCases(cs: seq<EmbeddedCase>): set<Block>
    decreases cs
  {
    if cs == [] then {}
    else (if cs[0].references == [] then DeclaredBy(cs[0].types) else {}) + DeclaredInCases(cs[1..])
  }

  /** The one definition of the declaration's slug has the declaration's content. */
  predicate Defined(a: Block, defs: Definitions) {
    a.slug in defs && RendersBlock(a, defs[a.slug])
  }

  predicate AllDefined(declared: set<Block>, defs: Definitions) {
    forall a | a in declared :: Defined(a, defs)
  }

  lemma AllDefinedJoin(xs: set<Block>, ys: set<Block>, zs: set<Block>, defs: Definitions)
    requires AllDefined(xs, defs) && AllDefined(ys, defs) && AllDefined(zs, defs)
    ensures AllDefined(xs + ys + zs, defs) && AllDefined(xs + ys, defs)
  {
    hide Defined;
  }

  lemma {:induction false} DeclaredAreDefined(fs: seq<Node>, gs: seq<Node>, defs: Definitions)
    requires Renders(fs, gs) && Settled(gs, defs) && Closed(defs)
    ensures AllDefined(Declared(fs), defs)
    decreases fs
  {
    hide Closed, AllDefined;
    if fs == [] {
      NothingDefined(defs);
    } else {
      NodeDeclarationsDefined(fs[0], gs[0], defs);
      DeclaredAreDefined(fs[1..], gs[1..], defs);
      AllDefinedJoin(DeclaredIn(fs[0]), Declared(fs[1..]), {}, defs) by { NothingDefined(defs); }
    }
  }

  lemma NothingDefined(defs: Definitions)
    ensures AllDefined({}, defs)
  {
  }

  lemma {:induction false} NodeDeclarationsDefined(n: Node, m: Node, defs: Definitions)
    requires RendersNode(n, m) && SettledNode(m, defs) && Closed(defs)
    ensures AllDefined(DeclaredIn(n), defs)
    decreases n
  {
    hide Closed, AllDefined, Renders, RendersContainer, Selects;
    NothingDefined(defs);
    if n.blockReferences == [] {
      ContainerDefined(n.blocks, n.referencesBound, m.blocks, m.blockReferences, m.referencesBound, defs);
    }
    DeclaredAreDefined(n.fields, m.fields, defs);
    TreeDeclarationsDefined(n.trees, m.trees, defs);
    AllDefinedJoin(if n.blockReferences == [] then DeclaredBy(n.blocks) else {}, Declared(n.fields),
                   DeclaredInTrees(n.trees), defs);
  }

  lemma ContainerDefined(authored: seq<Block>, authoredBound: bool, placed: seq<Block>, slugs: seq<string>,
                         bound: bool, defs: Definitions)
    requires RendersContainer(authored, [], authoredBound, placed, slugs) && Selects(placed, slugs, bound, defs)
    requires Closed(defs)
    ensures AllDefined(DeclaredBy(authored), defs)
    decreases authored, 1
  {
    hide AllDefined, Closed, Selects;
    assert placed[0..] == placed;
    DeclaredByDefined(authored, placed, slugs, bound, defs, 0);
  }

  lemma {:induction false} DeclaredByDefined(bs: seq<Block>, placed: seq<Block>, slugs: seq<string>, bound: bool,
                                             defs: Definitions, k: nat)
    requires k + |bs| == |placed| && RendersBlocks(bs, placed[k..]) && Selects(placed, slugs, bound, defs)
    requires Closed(defs) && forall i | 0 <= i < |slugs| :: slugs[i] == placed[i].slug
    ensures AllDefined(DeclaredBy(bs), defs)
    decreases bs, 0
  {
    hide AllDefined, Settled;
    NothingDefined(defs);
    if bs != [] {
      var b, d := bs[0], placed[k];
      assert placed[k..][0] == d && placed[k..][1..] == placed[k + 1..];
      assert slugs[k] == d.slug && d == defs[d.slug];
      DeclaredAreDefined(b.fields, d.fields, defs);
      DeclaredByDefined(bs[1..], placed, slugs, bound, defs, k + 1);
      OneDefined(b, defs);
      AllDefinedJoin({b}, Declared(b.fields), DeclaredBy(bs[1..]), defs);
    }
  }

  lemma OneDefined(b: Block, defs: Definitions)
    requires Defined(b, defs)
    ensures AllDefined({b}, defs)
  {
    hide Defined;
  }

  lemma {:induction false} TreeDeclarationsDefined(ts: seq<EmbeddedTree>, us: seq<EmbeddedTree>, defs: Definitions)
    requires RendersTrees(ts, us) && SettledTrees(us, defs) && Closed(defs)
    ensures AllDefined(DeclaredInTrees(ts), defs)
    decreases ts
  {
    hide Closed, AllDefined;
    NothingDefined(defs);
    if ts != [] {
      CaseDeclarationsDefined(ts[0].cases, us[0].cases, defs);
      TreeDeclarationsDefined(ts[1..], us[1..], defs);
      AllDefinedJoin(DeclaredInCases(ts[0].cases), DeclaredInTrees(ts[1..]), {}, defs);
    }
  }

  lemma {:induction false} CaseDeclarationsDefined(cs: seq<EmbeddedCase>, ds: seq<EmbeddedCase>, defs: Definitions)
    requires RendersCases(cs, ds) && SettledCases(ds, defs) && Closed(defs)
    ensures AllDefined(DeclaredInCases(cs), defs)
    decreases cs
  {
    hide Closed, AllDefined, Selects, RendersContainer;
    NothingDefined(defs);
    if cs != [] {
      if cs[0].references == [] {
        ContainerDefined(cs[0].types, cs[0].referencesBound, ds[0].types, ds[0].references, ds[0].referencesBound,
                         defs);
      }
      CaseDeclarationsDefined(cs[1..], ds[1..], defs);
      AllDefinedJoin(if cs[0].references == [] then DeclaredBy(cs[0].types) else {}, DeclaredInCases(cs[1..]), {},
                     defs);
    }
  }

  // ------------------------------------------------------------ configurations

  /** Registration takes the central declarations under their full names. */
  lemma {:induction false} RegisterTakes(r: Registry, blocks: seq<Block>)
    requires Register(r, blocks).Ok? && FullyNamed(r.sources)
    ensures var q := Register(r, blocks).value;
            && FullyNamed(q.sources) && q.inline == r.inline && q.blocks == r.blocks && Within(r.sources, q.sources)
            && forall i | 0 <= i < |blocks| ::
                 blocks[i].slug in q.sources && q.sources[blocks[i].slug] == Named(blocks[i])
    decreases |blocks|
  {
    hide ValidSlug, TypeName;
    if blocks != [] {
      var b := Named(blocks[0]);
      var claimed := ClaimName(r, b).value;
      var next := claimed.(sources := claimed.sources[b.slug := b], order := claimed.order + [b.slug]);
      RegisterTakes(next, blocks[1..]);
      assert next.sources[b.slug] == b;
      assert forall i | 1 <= i < |blocks| :: blocks[i] == blocks[1..][i - 1];
    }
  }

  lemma {:induction false} BindAllFaithful(r: Registry, slugs: seq<string>)
    requires Sincere(r) && BindAll(r, slugs).Ok?
    ensures Sincere(BindAll(r, slugs).value) && BindAll(r, slugs).value.sources == r.sources
    decreases |slugs|
  {
    hide Sincere, Definition;
    if slugs != [] {
      DefinitionFaithful(r, slugs[0]);
      BindAllFaithful(Definition(r, slugs[0]).0, slugs[1..]);
    }
  }

  lemma CentralRenders(b: Block, d: Block)
    requires Named(b).typeName != "" && RendersBlock(Named(b), d)
    ensures RendersBlock(b, d)
  {
    hide Renders, Derived, Capitalized;
    CapitalizedIsDerived(Split(b.slug, '-'));
  }

  /** A new registry defines every central declaration, and every declaration inside one, with its own content. */
  lemma NewIsFaithful(blocks: seq<Block>)
    requires New(blocks).Ok?
    ensures var r := New(blocks).value;
            && Sincere(r)
            && forall i | 0 <= i < |blocks| ::
                 Defined(blocks[i], r.blocks) && AllDefined(Declared(blocks[i].fields), r.blocks)
  {
    NewIsComplete(blocks);
    RegisterTakes(Empty, blocks);
    var registered, r := Register(Empty, blocks).value, New(blocks).value;
    assert Sincere(registered);
    BindAllFaithful(registered, registered.order);
    hide New, Register, BindAll, Renders, Settled, Topological, WellNamed, AllDefined, SameKeys, Shallow, Memoized,
      Ordered, Open;
    forall i | 0 <= i < |blocks|
      ensures Defined(blocks[i], r.blocks) && AllDefined(Declared(blocks[i].fields), r.blocks)
    {
      var b := blocks[i];
      assert r.sources[b.slug] == Named(b) && b.slug in r.blocks;
      CentralRenders(b, r.blocks[b.slug]);
      DeclaredAreDefined(b.fields, r.blocks[b.slug].fields, r.blocks);
    }
  }

  lemma {:induction false} BindResourcesFaithful(r: Registry, resources: seq<seq<Node>>)
    requires Sincere(r) && BindResources(r, resources).Ok?
    ensures var (q, bound) := BindResources(r, resources).value;
            Sincere(q) && |bound| == |resources| && forall i | 0 <= i < |bound| :: Renders(resources[i], bound[i])
    decreases |resources|
  {
    hide Sincere, BindFields, Renders;
    if resources != [] {
      FieldsFaithful(r, resources[0], 0);
      BindResourcesFaithful(Bind(r, resources[0]).0, resources[1..]);
      assert forall i | 1 <= i < |resources| :: resources[i] == resources[1..][i - 1];
    }
  }

  /** Everything that a configuration declares, centrally or inline, at any depth. */
  function AllDeclared(blocks: seq<Block>, resources: seq<seq<Node>>): set<Block> {
    (set b | b in blocks) + (set b, a | b in blocks && a in Declared(b.fields) :: a)
    + (set fs, a | fs in resources && a in Declared(fs) :: a)
  }

  lemma DefinedGrows(a: Block, before: Definitions, after: Definitions)
    requires Defined(a, before) && Within(before, after)
    ensures Defined(a, after)
  {
    hide RendersBlock;
  }

  lemma ConfigRenders(blocks: seq<Block>, resources: seq<seq<Node>>)
    requires BindConfig(blocks, resources).Ok?
    ensures var (r, bound) := BindConfig(blocks, resources).value;
            && |bound| == |resources| && (forall i | 0 <= i < |bound| :: Renders(resources[i], bound[i]))
            && Within(New(blocks).value.blocks, r.blocks)
  {
    NewIsFaithful(blocks);
    NewIsComplete(blocks);
    hide New, BindResources, Renders, Complete, Sincere, AllSettled;
    BindResourcesFaithful(New(blocks).value, resources);
    BindResourcesKeeps(New(blocks).value, resources);
  }

  lemma ResourceDeclarationsDefined(resources: seq<seq<Node>>, bound: seq<seq<Node>>, defs: Definitions, i: nat)
    requires i < |resources| == |bound| && Renders(resources[i], bound[i]) && AllSettled(bound, defs) && Closed(defs)
    ensures AllDefined(Declared(resources[i]), defs)
  {
    hide Renders, Settled, Closed, AllDefined, Declared;
    DeclaredAreDefined(resources[i], bound[i], defs);
  }

  /** Where a declaration stands: centrally, inside a central one, or in a resource. */
  lemma WhereDeclared(blocks: seq<Block>, resources: seq<seq<Node>>, a: Block)
    requires a in AllDeclared(blocks, resources)
    ensures || (exists i | 0 <= i < |blocks| :: blocks[i] == a || a in Declared(blocks[i].fields))
            || (exists i | 0 <= i < |resources| :: a in Declared(resources[i]))
  {
    hide Declared;
  }

  lemma DeclarationIsDefined(blocks: seq<Block>, resources: seq<seq<Node>>, a: Block)
    requires BindConfig(blocks, resources).Ok? && a in AllDeclared(blocks, resources)
    ensures Defined(a, BindConfig(blocks, resources).value.0.blocks)
  {
    NewIsFaithful(blocks);
    ConfigIsClosed(blocks, resources);
    ConfigRenders(blocks, resources);
    WhereDeclared(blocks, resources, a);
    hide New, BindConfig, Renders, AllSettled, Closed, Topological, Complete, Defined, Declared, AllDeclared, Sincere,
      Within;
    var (r, bound) := BindConfig(blocks, resources).value;
    if i :| 0 <= i < |blocks| && (blocks[i] == a || a in Declared(blocks[i].fields)) {
      DefinedGrows(a, New(blocks).value.blocks, r.blocks);
    } else {
      var i :| 0 <= i < |resources| && a in Declared(resources[i]);
      ResourceDeclarationsDefined(resources, bound, r.blocks, i);
    }
  }

  /**
   * A configuration that binds gives back each resource as authored, and the one definition of
   * every slug has the content of each of its declarations: slug, type name, settings and fields.
   */
  lemma ConfigIsFaithful(blocks: seq<Block>, resources: seq<seq<Node>>)
    requires BindConfig(blocks, resources).Ok?
    ensures var (r, bound) := BindConfig(blocks, resources).value;
            && |bound| == |resources| && (forall i | 0 <= i < |bound| :: Renders(resources[i], bound[i]))
            && AllDefined(AllDeclared(blocks, resources), r.blocks)
  {
    ConfigRenders(blocks, resources);
    hide New, BindConfig, Renders, Defined, AllDeclared, Within;
    forall a | a in AllDeclared(blocks, resources) ensures Defined(a, BindConfig(blocks, resources).value.0.blocks) {
      DeclarationIsDefined(blocks, resources, a);
    }
  }

  /** Two authored lists that one bound list renders: equal but for what binding fills in. */
  predicate Agree(fs: seq<Node>, gs: seq<Node>) {
    && |fs| == |gs|
    && forall i | 0 <= i < |fs| ::
         && fs[i].name == gs[i].name && fs[i].kind == gs[i].kind && fs[i].namedTab == gs[i].namedTab
         && fs[i].policies == gs[i].policies && fs[i].visibleWhen == gs[i].visibleWhen
  }

  lemma {:induction false} RenderedAgree(fs: seq<Node>, gs: seq<Node>, hs: seq<Node>)
    requires Renders(fs, hs) && Renders(gs, hs)
    ensures Agree(fs, gs)
    decreases |fs|
  {
    hide RendersContainer, RendersTrees;
    if fs != [] {
      RenderedAgree(fs[1..], gs[1..], hs[1..]);
      assert forall i | 1 <= i < |fs| :: fs[i] == fs[1..][i - 1] && gs[i] == gs[1..][i - 1];
    }
  }

  /**
   * Two declarations of one slug, wherever they stand, are never both accepted when they differ in
   * settings, in explicit type name or in the fields they list.
   */
  lemma ConflictsAreRefused(blocks: seq<Block>, resources: seq<seq<Node>>, a: Block, b: Block)
    requires a in AllDeclared(blocks, resources) && b in AllDeclared(blocks, resources) && a.slug == b.slug
    requires || a.settings != b.settings || (a.typeName != "" && b.typeName != "" && a.typeName != b.typeName)
             || !Agree(a.fields, b.fields)
    ensures BindConfig(blocks, resources).Err?
  {
    hide BindConfig, Renders, AllDeclared;
    if BindConfig(blocks, resources).Ok? {
      ConfigIsFaithful(blocks, resources);
      var d := BindConfig(blocks, resources).value.0.blocks[a.slug];
      assert RendersBlock(a, d) && RendersBlock(b, d);
      RenderedAgree(a.fields, b.fields, d.fields);
    }
  }
}
