/** Interning of block definitions: one bound definition per slug, in topological order. */
module BlockRegistry {
  import opened Wrappers
  import opened Separated
  import opened FieldGraph

  const MAXIMUM_STACK := 48
  const MAXIMUM_NESTING := 48

  datatype RegistryError =
    | InvalidBlockSlug | DuplicateBlockSlug | InvalidTypeName | TypeNameConflict | UnknownReference
    | ReferenceCycle | DepthExceeded | MixedDefinitions | DuplicateReference | DefinitionConflict

  /**
   * `bound` records the slugs in the order their definitions were bound; `order` lists central
   * slugs as registered and then inline ones as bound. `inline` memoizes authored lists.
   */
  datatype Registry = Registry(
    sources: map<string, Block>, blocks: map<string, Block>, names: map<string, string>,
    order: seq<string>, stack: seq<string>, inline: map<seq<Block>, seq<Block>>, bound: seq<string>)

  // ----------------------------------------------------------------- names

  predicate LowerOrDigit(c: char) {
    'a' <= c <= 'z' || '0' <= c <= '9'
  }

  predicate ValidSlug(s: string) {
    var parts := Split(s, '-');
    && parts[0] != "" && 'a' <= parts[0][0] <= 'z'
    && forall i | 0 <= i < |parts| :: parts[i] != "" && forall j | 0 <= j < |parts[i]| :: LowerOrDigit(parts[i][j])
  }

  predicate ValidTypeName(s: string) {
    s != "" && 'A' <= s[0] <= 'Z' &&
    forall i | 0 <= i < |s| :: LowerOrDigit(s[i]) || 'A' <= s[i] <= 'Z'
  }

  function Upper(c: char): char {
    if 'a' <= c <= 'z' then c - 'a' + 'A' else c
  }

  function Capitalized(parts: seq<string>): string {
    if parts == [] then ""
    else (if parts[0] == "" then "" else [Upper(parts[0][0])] + parts[0][1..]) + Capitalized(parts[1..])
  }

  /** The explicit type name, or one derived from the slug. */
  function TypeName(b: Block): string {
    if b.typeName != "" then b.typeName else Capitalized(Split(b.slug, '-'))
  }

  function Named(b: Block): Block {
    b.(typeName := TypeName(b))
  }

  function ClaimName(r: Registry, b: Block): Result<Registry, RegistryError> {
    if !ValidTypeName(b.typeName) then Err(InvalidTypeName)
    else if b.typeName in r.names && r.names[b.typeName] != b.slug then Err(TypeNameConflict)
    else Ok(r.(names := r.names[b.typeName := b.slug]))
  }

  function Slugs(bs: seq<Block>): seq<string> {
    seq(|bs|, i requires 0 <= i < |bs| => bs[i].slug)
  }

  // --------------------------------------------------------------- binding

  function Members(stack: seq<string>): set<string> {
    set s | s in stack
  }

  /** Central declarations that a nested binding may still enter. */
  function Room(r: Registry): nat {
    |r.sources.Keys - Members(r.stack)|
  }

  lemma RoomShrinks(r: Registry, slug: string)
    requires slug in r.sources && slug !in r.stack
    ensures Room(r.(stack := r.stack + [slug])) < Room(r)
  {
    var before, after := r.sources.Keys - Members(r.stack), r.sources.Keys - Members(r.stack + [slug]);
    assert Members(r.stack + [slug]) == Members(r.stack) + {slug};
    assert after == before - {slug};
  }

  type Step<T> = (Registry, Result<T, RegistryError>)

  /** Same sources, same stack: what every binding leaves as it found it, even on an error. */
  predicate Framed(before: Registry, after: Registry) {
    after.sources == before.sources && after.stack == before.stack
  }

  /** Binds a central definition on first use. */
  function Definition(r: Registry, slug: string): (out: Step<Block>)
    ensures Framed(r, out.0)
    decreases Room(r), 0, 0
  {
    if slug !in r.sources then (r, Err(UnknownReference))
    else if slug in r.blocks then (r, Ok(r.blocks[slug]))
    else if slug in r.stack then (r, Err(ReferenceCycle))
    else if |r.stack| >= MAXIMUM_STACK then (r, Err(DepthExceeded))
    else
      RoomShrinks(r, slug);
      var (inner, fields) := BindFields(r.(stack := r.stack + [slug]), r.sources[slug].fields, 0);
      var popped := inner.(stack := r.stack);
      if fields.Err? then (popped, Err(fields.error))
      else
        var b := r.sources[slug].(fields := fields.value);
        (Record(popped, b), Ok(b))
  }

  /** Installs a newly bound definition. */
  function Record(r: Registry, b: Block): Registry {
    r.(blocks := r.blocks[b.slug := b], bound := r.bound + [b.slug])
  }

  function References(r: Registry, slugs: seq<string>, seen: set<string>): (out: Step<seq<Block>>)
    ensures Framed(r, out.0)
    decreases Room(r), 0, |slugs| + 1
  {
    if slugs == [] then (r, Ok([]))
    else if slugs[0] in seen then (r, Err(DuplicateReference))
    else
      var (r1, first) := Definition(r, slugs[0]);
      if first.Err? then (r1, Err(first.error))
      else
        var (r2, rest) := References(r1, slugs[1..], seen + {slugs[0]});
        if rest.Err? then (r2, rest) else (r2, Ok([first.value] + rest.value))
  }

  /** Interns one container's inline declarations. */
  function Declare(r: Registry, authored: seq<Block>, depth: nat): (out: Step<seq<Block>>)
    requires authored != []
    ensures Framed(r, out.0)
    decreases Room(r), BlocksSize(authored), 2
  {
    if authored in r.inline then (r, Ok(r.inline[authored]))
    else
      var (r1, bound) := DeclareEach(r, authored, {}, depth);
      if bound.Err? then (r1, bound)
      else (r1.(inline := r1.inline[authored := bound.value]), bound)
  }

  function DeclareEach(r: Registry, authored: seq<Block>, seen: set<string>, depth: nat): (out: Step<seq<Block>>)
    ensures Framed(r, out.0)
    decreases Room(r), BlocksSize(authored), 1
  {
    if authored == [] then (r, Ok([]))
    else
      var (r1, first) := DeclareOne(r, authored[0], seen, depth);
      if first.Err? then (r1, Err(first.error))
      else
        var (r2, rest) := DeclareEach(r1, authored[1..], seen + {authored[0].slug}, depth);
        if rest.Err? then (r2, rest) else (r2, Ok([first.value] + rest.value))
  }

  /** A declaration is the earlier definition of its slug only when both bind to equal values. */
  function DeclareOne(r: Registry, authored: Block, seen: set<string>, depth: nat): (out: Step<Block>)
    ensures Framed(r, out.0)
    decreases Room(r), FieldsSize(authored.fields) + 1, 0
  {
    if !ValidSlug(authored.slug) || authored.slug in seen then (r, Err(InvalidBlockSlug))
    else
      var (r1, fields) := BindFields(r, authored.fields, depth + 1);
      if fields.Err? then (r1, Err(fields.error))
      else
        var b := Named(authored).(fields := fields.value);
        if b.slug in r1.blocks then
          (r1, if r1.blocks[b.slug] == b then Ok(b) else Err(DefinitionConflict))
        else if b.slug in r1.sources then
          var (r2, prior) := Definition(r1, b.slug);
          (r2, if prior.Err? then prior else if prior.value == b then prior else Err(DefinitionConflict))
        else
          var claimed := ClaimName(r1, b);
          if claimed.Err? then (r1, Err(claimed.error))
          else
            var r2 := Record(claimed.value, b);
            (r2.(order := r2.order + [b.slug]), Ok(b))
  }

  function BindFields(r: Registry, fs: seq<Node>, depth: nat): (out: Step<seq<Node>>)
    ensures Framed(r, out.0)
    decreases Room(r), FieldsSize(fs), 3
  {
    if depth > MAXIMUM_NESTING then (r, Err(DepthExceeded)) else BindEach(r, fs, depth)
  }

  function BindEach(r: Registry, fs: seq<Node>, depth: nat): (out: Step<seq<Node>>)
    ensures Framed(r, out.0)
    decreases Room(r), FieldsSize(fs), 2
  {
    if fs == [] then (r, Ok([]))
    else
      var (r1, first) := BindNode(r, fs[0], depth);
      if first.Err? then (r1, Err(first.error))
      else
        var (r2, rest) := BindEach(r1, fs[1..], depth);
        if rest.Err? then (r2, rest) else (r2, Ok([first.value] + rest.value))
  }

  function BindNode(r: Registry, n: Node, depth: nat): (out: Step<Node>)
    ensures Framed(r, out.0)
    decreases Room(r), NodeSize(n), 1
  {
    var (r1, blocks) := SelectBlocks(r, n.blocks, n.blockReferences, n.referencesBound, depth);
    if blocks.Err? then (r1, Err(blocks.error))
    else
      var (r2, fields) := BindChildren(r1, n.fields, depth);
      if fields.Err? then (r2, Err(fields.error))
      else
        var (r3, trees) := BindTrees(r2, n.trees, depth);
        if trees.Err? then (r3, Err(trees.error))
        else (r3, Ok(Assembled(n, blocks.value, fields.value, trees.value)))
  }

  function BindChildren(r: Registry, fs: seq<Node>, depth: nat): (out: Step<seq<Node>>)
    ensures Framed(r, out.0)
    decreases Room(r), FieldsSize(fs), 4
  {
    if fs == [] then (r, Ok([])) else BindFields(r, fs, depth + 1)
  }

  /** The bound node: its containers select by slug. */
  function Assembled(n: Node, blocks: seq<Block>, fields: seq<Node>, trees: seq<EmbeddedTree>): Node {
    n.(blocks := blocks, blockReferences := SelectedSlugs(blocks, n.blockReferences),
       referencesBound := n.referencesBound || blocks != [], fields := fields, trees := trees)
  }

  /** The definitions a container selects, by reference or from its inline declarations. */
  function SelectBlocks(r: Registry, authored: seq<Block>, references: seq<string>, referencesBound: bool, depth: nat):
    (out: Step<seq<Block>>)
    ensures Framed(r, out.0)
    decreases Room(r), BlocksSize(authored), |references| + 3
  {
    if references != [] then
      if authored != [] && !referencesBound then (r, Err(MixedDefinitions)) else References(r, references, {})
    else if authored != [] then Declare(r, authored, depth)
    else (r, Ok([]))
  }

  function SelectedSlugs(blocks: seq<Block>, references: seq<string>): seq<string> {
    if references != [] then references else Slugs(blocks)
  }

  function BindTrees(r: Registry, ts: seq<EmbeddedTree>, depth: nat): (out: Step<seq<EmbeddedTree>>)
    ensures Framed(r, out.0)
    decreases Room(r), TreesSize(ts), 0
  {
    if ts == [] then (r, Ok([]))
    else
      var (r1, cases) := BindCases(r, ts[0].cases, depth);
      if cases.Err? then (r1, Err(cases.error))
      else
        var (r2, rest) := BindTrees(r1, ts[1..], depth);
        if rest.Err? then (r2, rest) else (r2, Ok([ts[0].(cases := cases.value)] + rest.value))
  }

  function BindCases(r: Registry, cs: seq<EmbeddedCase>, depth: nat): (out: Step<seq<EmbeddedCase>>)
    ensures Framed(r, out.0)
    decreases Room(r), CasesSize(cs), 0
  {
    if cs == [] then (r, Ok([]))
    else
      var c := cs[0];
      var (r1, types) := SelectBlocks(r, c.types, c.references, c.referencesBound, depth);
      if types.Err? then (r1, Err(types.error))
      else
        var (r2, rest) := BindCases(r1, cs[1..], depth);
        if rest.Err? then (r2, rest)
        else
          var bound := c.(types := types.value, references := SelectedSlugs(types.value, c.references),
                          referencesBound := c.referencesBound || types.value != []);
          (r2, Ok([bound] + rest.value))
  }

  // ----------------------------------------------------------- construction

  const Empty := Registry(map[], map[], map[], [], [], map[], [])

  /** Registers the central declarations, without binding them. */
  function Register(r: Registry, blocks: seq<Block>): Result<Registry, RegistryError>
    decreases |blocks|
  {
    if blocks == [] then Ok(r)
    else
      var b := Named(blocks[0]);
      if !ValidSlug(b.slug) then Err(InvalidBlockSlug)
      else if b.slug in r.sources then Err(DuplicateBlockSlug)
      else
        var claimed :- ClaimName(r, b);
        Register(claimed.(sources := claimed.sources[b.slug := b], order := claimed.order + [b.slug]), blocks[1..])
  }

  function BindAll(r: Registry, slugs: seq<string>): Result<Registry, RegistryError>
    decreases |slugs|
  {
    if slugs == [] then Ok(r)
    else
      var (r1, b) := Definition(r, slugs[0]);
      if b.Err? then Err(b.error) else BindAll(r1, slugs[1..])
  }

  function New(blocks: seq<Block>): Result<Registry, RegistryError> {
    var r :- Register(Empty, blocks);
    BindAll(r, r.order)
  }

  /** The interned definitions, central registrations first. */
  function Definitions(r: Registry): seq<Block>
    requires forall s | s in r.order :: s in r.blocks
  {
    seq(|r.order|, i requires 0 <= i < |r.order| => r.blocks[r.order[i]])
  }

  function Bind(r: Registry, fs: seq<Node>): Step<seq<Node>> {
    BindFields(r, fs, 0)
  }

  /** Binds every resource of a configuration in one registry. */
  function BindResources(r: Registry, resources: seq<seq<Node>>): Result<(Registry, seq<seq<Node>>), RegistryError>
    decreases |resources|
  {
    if resources == [] then Ok((r, []))
    else
      var (r1, first) := Bind(r, resources[0]);
      if first.Err? then Err(first.error)
      else
        var (r2, rest) :- BindResources(r1, resources[1..]);
        Ok((r2, [first.value] + rest))
  }

  function BindConfig(blocks: seq<Block>, resources: seq<seq<Node>>):
    Result<(Registry, seq<seq<Node>>), RegistryError>
  {
    var r :- New(blocks);
    BindResources(r, resources)
  }

  lemma RoomFramed(before: Registry, after: Registry)
    requires Framed(before, after)
    ensures Room(after) == Room(before)
  {
  }
}
