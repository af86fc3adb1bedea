/** The registry as the mutable object that binds a configuration, refining its functions. */
module RegistryMachine {
  import opened Wrappers
  import opened FieldGraph
  import opened BlockRegistry

  /** The outcome of a loop that has already bound `done`. */
  function After<T>(done: seq<T>, rest: Step<seq<T>>): Step<seq<T>> {
    (rest.0, if rest.1.Ok? then Ok(done + rest.1.value) else rest.1)
  }

  lemma AfterNothing<T>(rest: Step<seq<T>>)
    ensures After([], rest) == rest
  {
    if rest.1.Ok? { assert [] + rest.1.value == rest.1.value; }
  }

  lemma AfterOne<T>(done: seq<T>, x: T, rest: Step<seq<T>>)
    ensures After(done, After([x], rest)) == After(done + [x], rest)
  {
    if rest.1.Ok? { assert done + ([x] + rest.1.value) == done + [x] + rest.1.value; }
  }

  class Interner {
    var sources: map<string, Block>
    var blocks: map<string, Block>
    var names: map<string, string>
    var order: seq<string>
    var stack: seq<string>
    var inline: map<seq<Block>, seq<Block>>
    ghost var bound: seq<string>

    ghost function State(): Registry
      reads this
    {
      Registry(sources, blocks, names, order, stack, inline, bound)
    }

    constructor ()
      ensures State() == Empty
    {
      sources, blocks, names, order, stack, inline, bound := map[], map[], map[], [], [], map[], [];
    }

    method Claim(b: Block) returns (error: Option<RegistryError>)
      modifies this`names
      ensures var claimed := ClaimName(old(State()), b);
              && error == (if claimed.Err? then Some(claimed.error) else None)
              && State() == (if claimed.Ok? then claimed.value else old(State()))
    {
      if !ValidTypeName(b.typeName) { return Some(InvalidTypeName); }
      if b.typeName in names && names[b.typeName] != b.slug { return Some(TypeNameConflict); }
      names := names[b.typeName := b.slug];
      error := None;
    }

    method Definition(slug: string) returns (out: Result<Block, RegistryError>)
      modifies this
      ensures (State(), out) == BlockRegistry.Definition(old(State()), slug)
      decreases Room(State()), 0, 0
    {
      hide BlockRegistry.BindFields, Room;
      if slug !in sources { return Err(UnknownReference); }
      if slug in blocks { return Ok(blocks[slug]); }
      if slug in stack { return Err(ReferenceCycle); }
      if |stack| >= MAXIMUM_STACK { return Err(DepthExceeded); }
      RoomShrinks(State(), slug);
      stack := stack + [slug];
      var fields := BindFields(sources[slug].fields, 0);
      stack := stack[..|stack| - 1];
      if fields.Err? { return Err(fields.error); }
      var b := sources[slug].(fields := fields.value);
      blocks := blocks[b.slug := b];
      bound := bound + [b.slug];
      return Ok(b);
    }

    method References(slugs: seq<string>) returns (out: Result<seq<Block>, RegistryError>)
      modifies this
      ensures (State(), out) == BlockRegistry.References(old(State()), slugs, {})
      decreases Room(State()), 0, |slugs| + 1
    {
      hide BlockRegistry.Definition, Room;
      var done, seen, i := [], {}, 0;
      AfterNothing(BlockRegistry.References(State(), slugs, {}));
      assert slugs[0..] == slugs;
      while i < |slugs|
        invariant i <= |slugs| && Framed(old(State()), State()) && Room(State()) == old(Room(State()))
        invariant After(done, BlockRegistry.References(State(), slugs[i..], seen)) ==
                  BlockRegistry.References(old(State()), slugs, {})
      {
        if slugs[i] in seen { return Err(DuplicateReference); }
        var b := Definition(slugs[i]);
        if b.Err? { return Err(b.error); }
        assert slugs[i..][1..] == slugs[i + 1..];
        AfterOne(done, b.value, BlockRegistry.References(State(), slugs[i + 1..], seen + {slugs[i]}));
        RoomFramed(old(State()), State());
        done, seen, i := done + [b.value], seen + {slugs[i]}, i + 1;
      }
      assert done + [] == done;
      return Ok(done);
    }

    method Declare(authored: seq<Block>, depth: nat) returns (out: Result<seq<Block>, RegistryError>)
      requires authored != []
      modifies this
      ensures (State(), out) == BlockRegistry.Declare(old(State()), authored, depth)
      decreases Room(State()), BlocksSize(authored), 2
    {
      hide BlockRegistry.DeclareOne, Room;
      if authored in inline { return Ok(inline[authored]); }
      var done, seen, i := [], {}, 0;
      AfterNothing(DeclareEach(State(), authored, {}, depth));
      assert authored[0..] == authored;
      while i < |authored|
        invariant i <= |authored| && Framed(old(State()), State()) && Room(State()) == old(Room(State()))
        invariant After(done, DeclareEach(State(), authored[i..], seen, depth)) ==
                  DeclareEach(old(State()), authored, {}, depth)
      {
        BlockSizeAt(authored, i);
        var b := DeclareOne(authored[i], seen, depth);
        if b.Err? { return Err(b.error); }
        assert authored[i..][1..] == authored[i + 1..];
        AfterOne(done, b.value, DeclareEach(State(), authored[i + 1..], seen + {authored[i].slug}, depth));
        RoomFramed(old(State()), State());
        done, seen, i := done + [b.value], seen + {authored[i].slug}, i + 1;
      }
      assert done + [] == done;
      inline := inline[authored := done];
      return Ok(done);
    }

    method DeclareOne(authored: Block, seen: set<string>, depth: nat) returns (out: Result<Block, RegistryError>)
      modifies this
      ensures (State(), out) == BlockRegistry.DeclareOne(old(State()), authored, seen, depth)
      decreases Room(State()), FieldsSize(authored.fields) + 1, 0
    {
      hide BlockRegistry.BindFields, BlockRegistry.Definition, Room;
      if !ValidSlug(authored.slug) || authored.slug in seen { return Err(InvalidBlockSlug); }
      var fields := BindFields(authored.fields, depth + 1);
      if fields.Err? { return Err(fields.error); }
      var b := Named(authored).(fields := fields.value);
      if b.slug in blocks { return if blocks[b.slug] == b then Ok(b) else Err(DefinitionConflict); }
      if b.slug in sources {
        RoomFramed(old(State()), State());
        var prior := Definition(b.slug);
        if prior.Err? { return prior; }
        return if prior.value == b then prior else Err(DefinitionConflict);
      }
      var conflict := Claim(b);
      if conflict.Some? { return Err(conflict.value); }
      blocks := blocks[b.slug := b];
      bound := bound + [b.slug];
      order := order + [b.slug];
      return Ok(b);
    }

    method BindFields(fs: seq<Node>, depth: nat) returns (out: Result<seq<Node>, RegistryError>)
      modifies this
      ensures (State(), out) == BlockRegistry.BindFields(old(State()), fs, depth)
      decreases Room(State()), FieldsSize(fs), 3
    {
      hide BlockRegistry.BindNode, Room;
      if depth > MAXIMUM_NESTING { return Err(DepthExceeded); }
      var done, i := [], 0;
      AfterNothing(BindEach(State(), fs, depth));
      assert fs[0..] == fs;
      while i < |fs|
        invariant i <= |fs| && Framed(old(State()), State()) && Room(State()) == old(Room(State()))
        invariant After(done, BindEach(State(), fs[i..], depth)) == BindEach(old(State()), fs, depth)
      {
        NodeSizeAt(fs, i);
        var n := BindNode(fs[i], depth);
        if n.Err? { return Err(n.error); }
        assert fs[i..][1..] == fs[i + 1..];
        AfterOne(done, n.value, BindEach(State(), fs[i + 1..], depth));
        RoomFramed(old(State()), State());
        done, i := done + [n.value], i + 1;
      }
      assert done + [] == done;
      return Ok(done);
    }

    method BindNode(n: Node, depth: nat) returns (out: Result<Node, RegistryError>)
      modifies this
      ensures (State(), out) == BlockRegistry.BindNode(old(State()), n, depth)
      decreases Room(State()), NodeSize(n), 1
    {
      hide BlockRegistry.SelectBlocks, BlockRegistry.BindFields, BlockRegistry.BindTrees, Room;
      var chosen := SelectBlocks(n.blocks, n.blockReferences, n.referencesBound, depth);
      if chosen.Err? { return Err(chosen.error); }
      RoomFramed(old(State()), State());
      var fields := Ok([]);
      if n.fields != [] {
        fields := BindFields(n.fields, depth + 1);
        if fields.Err? { return Err(fields.error); }
      }
      RoomFramed(old(State()), State());
      var trees := BindTrees(n.trees, depth);
      if trees.Err? { return Err(trees.error); }
      return Ok(Assembled(n, chosen.value, fields.value, trees.value));
    }

    method SelectBlocks(authored: seq<Block>, references: seq<string>, flag: bool, depth: nat)
      returns (out: Result<seq<Block>, RegistryError>)
      modifies this
      ensures (State(), out) == BlockRegistry.SelectBlocks(old(State()), authored, references, flag, depth)
      decreases Room(State()), BlocksSize(authored), |references| + 3
    {
      if references != [] {
        if authored != [] && !flag { return Err(MixedDefinitions); }
        out := References(references);
      } else if authored != [] {
        out := Declare(authored, depth);
      } else {
        out := Ok([]);
      }
    }

    method BindTrees(ts: seq<EmbeddedTree>, depth: nat) returns (out: Result<seq<EmbeddedTree>, RegistryError>)
      modifies this
      ensures (State(), out) == BlockRegistry.BindTrees(old(State()), ts, depth)
      decreases Room(State()), TreesSize(ts), 1
    {
      hide BlockRegistry.BindCases, Room;
      var done, i := [], 0;
      AfterNothing(BlockRegistry.BindTrees(State(), ts, depth));
      assert ts[0..] == ts;
      while i < |ts|
        invariant i <= |ts| && Framed(old(State()), State()) && Room(State()) == old(Room(State()))
        invariant After(done, BlockRegistry.BindTrees(State(), ts[i..], depth)) ==
                  BlockRegistry.BindTrees(old(State()), ts, depth)
      {
        TreeSizeAt(ts, i);
        var cases := BindCases(ts[i].cases, depth);
        if cases.Err? { return Err(cases.error); }
        assert ts[i..][1..] == ts[i + 1..];
        var t := ts[i].(cases := cases.value);
        AfterOne(done, t, BlockRegistry.BindTrees(State(), ts[i + 1..], depth));
        RoomFramed(old(State()), State());
        done, i := done + [t], i + 1;
      }
      assert done + [] == done;
      return Ok(done);
    }

    method BindCases(cs: seq<EmbeddedCase>, depth: nat) returns (out: Result<seq<EmbeddedCase>, RegistryError>)
      modifies this
      ensures (State(), out) == BlockRegistry.BindCases(old(State()), cs, depth)
      decreases Room(State()), CasesSize(cs), 1
    {
      hide BlockRegistry.SelectBlocks, Room;
      var done, i := [], 0;
      AfterNothing(BlockRegistry.BindCases(State(), cs, depth));
      assert cs[0..] == cs;
      while i < |cs|
        invariant i <= |cs| && Framed(old(State()), State()) && Room(State()) == old(Room(State()))
        invariant After(done, BlockRegistry.BindCases(State(), cs[i..], depth)) ==
                  BlockRegistry.BindCases(old(State()), cs, depth)
      {
        var c := cs[i];
        CaseSizeAt(cs, i);
        var types := SelectBlocks(c.types, c.references, c.referencesBound, depth);
        if types.Err? { return Err(types.error); }
        assert cs[i..][1..] == cs[i + 1..];
        var d := c.(types := types.value, references := SelectedSlugs(types.value, c.references),
                    referencesBound := c.referencesBound || types.value != []);
        AfterOne(done, d, BlockRegistry.BindCases(State(), cs[i + 1..], depth));
        RoomFramed(old(State()), State());
        done, i := done + [d], i + 1;
      }
      assert done + [] == done;
      return Ok(done);
    }

    /** Registers and binds the central declarations of a new registry. */
    method Initialize(declared: seq<Block>) returns (error: Option<RegistryError>)
      requires State() == Empty
      modifies this
      ensures var r := New(declared);
              (error.None? <==> r.Ok?) && (r.Ok? ==> State() == r.value) && (r.Err? ==> error == Some(r.error))
    {
      var i := 0;
      assert declared[0..] == declared;
      while i < |declared|
        invariant i <= |declared|
        invariant Register(State(), declared[i..]) == Register(Empty, declared)
      {
        var b := Named(declared[i]);
        if !ValidSlug(b.slug) { return Some(InvalidBlockSlug); }
        if b.slug in sources { return Some(DuplicateBlockSlug); }
        var conflict := Claim(b);
        if conflict.Some? { return conflict; }
        sources := sources[b.slug := b];
        order := order + [b.slug];
        assert declared[i..][1..] == declared[i + 1..];
        i := i + 1;
      }
      var central := order;
      assert central[0..] == central;
      i := 0;
      while i < |central|
        invariant i <= |central|
        invariant BindAll(State(), central[i..]) == New(declared)
      {
        var b := Definition(central[i]);
        if b.Err? { return Some(b.error); }
        assert central[i..][1..] == central[i + 1..];
        i := i + 1;
      }
      error := None;
    }
  }

  lemma {:induction false} TreeSizeAt(ts: seq<EmbeddedTree>, i: nat)
    requires i < |ts|
    ensures CasesSize(ts[i].cases) < TreesSize(ts)
  {
    if i > 0 { TreeSizeAt(ts[1..], i - 1); }
  }

  lemma {:induction false} CaseSizeAt(cs: seq<EmbeddedCase>, i: nat)
    requires i < |cs|
    ensures BlocksSize(cs[i].types) < CasesSize(cs)
  {
    if i > 0 { CaseSizeAt(cs[1..], i - 1); }
  }
}
