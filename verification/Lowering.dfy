/** Lowering a resource: its own bindings, then those of each block definition it reaches, once each. */
module Lowering {
  import opened Wrappers

  /** A placed block definition, with its resolved fields. */
  datatype Block = Block(slug: string, fields: seq<Field>)

  /** `placements` joins the field's own definitions and those of its embedded cases, in order. */
  datatype Field = Field(placements: seq<Block>, nested: seq<Field>)

  function FieldsSize(fields: seq<Field>): (n: nat)
    ensures fields != [] ==> n > BlocksSize(fields[0].placements)
    ensures fields != [] ==> n > FieldsSize(fields[0].nested) && n > FieldsSize(fields[1..])
  {
    if fields == [] then 0
    else 1 + BlocksSize(fields[0].placements) + FieldsSize(fields[0].nested) + FieldsSize(fields[1..])
  }

  function BlocksSize(blocks: seq<Block>): (n: nat)
    ensures blocks != [] ==> n > FieldsSize(blocks[0].fields) && n > BlocksSize(blocks[1..])
  {
    if blocks == [] then 0 else 1 + FieldsSize(blocks[0].fields) + BlocksSize(blocks[1..])
  }

  /** Every placement below these fields, in depth-first order, repetitions included. */
  function ExpandFields(fields: seq<Field>): seq<Block>
    decreases FieldsSize(fields)
  {
    if fields == [] then []
    else ExpandBlocks(fields[0].placements) + ExpandFields(fields[0].nested) + ExpandFields(fields[1..])
  }

  function ExpandBlocks(blocks: seq<Block>): seq<Block>
    decreases BlocksSize(blocks)
  {
    if blocks == [] then [] else [blocks[0]] + ExpandFields(blocks[0].fields) + ExpandBlocks(blocks[1..])
  }

  function Slugs(blocks: seq<Block>): set<string> {
    set b | b in blocks :: b.slug
  }

  /** The first meeting of each definition that is not placed yet. */
  function FirstMeetings(blocks: seq<Block>, placed: set<string>): seq<Block> {
    if blocks == [] then []
    else if blocks[0].slug in placed then FirstMeetings(blocks[1..], placed)
    else [blocks[0]] + FirstMeetings(blocks[1..], placed + {blocks[0].slug})
  }

  /** The walk itself: it does not descend again into a definition it has placed. */
  function WalkFields(fields: seq<Field>, placed: set<string>): (seq<Block>, set<string>)
    decreases FieldsSize(fields)
  {
    if fields == [] then ([], placed)
    else
      var (own, p) := WalkBlocks(fields[0].placements, placed);
      var (nested, q) := WalkFields(fields[0].nested, p);
      var (rest, r) := WalkFields(fields[1..], q);
      (own + nested + rest, r)
  }

  function WalkBlocks(blocks: seq<Block>, placed: set<string>): (seq<Block>, set<string>)
    decreases BlocksSize(blocks)
  {
    if blocks == [] then ([], placed)
    else if blocks[0].slug in placed then WalkBlocks(blocks[1..], placed)
    else
      var (inner, p) := WalkFields(blocks[0].fields, placed + {blocks[0].slug});
      var (rest, q) := WalkBlocks(blocks[1..], p);
      ([blocks[0]] + inner + rest, q)
  }

  /** One definition per slug, as binding guarantees. */
  predicate Uniform(blocks: seq<Block>) {
    forall a, b | a in blocks && b in blocks :: a.slug == b.slug ==> a == b
  }

  /** What is placed was walked to the end: nothing below it is still unplaced. */
  predicate Settled(blocks: seq<Block>, placed: set<string>) {
    forall b | b in blocks && b.slug in placed :: Slugs(ExpandFields(b.fields)) <= placed
  }

  lemma SlugsOfMore(blocks: seq<Block>)
    requires blocks != []
    ensures Slugs(blocks) == {blocks[0].slug} + Slugs(blocks[1..])
  {
    assert blocks == [blocks[0]] + blocks[1..];
  }

  lemma {:induction false} FirstMeetingsJoin(a: seq<Block>, b: seq<Block>, placed: set<string>)
    ensures FirstMeetings(a + b, placed) == FirstMeetings(a, placed) + FirstMeetings(b, placed + Slugs(a))
  {
    if a == [] {
      assert a + b == b && placed + Slugs(a) == placed;
    } else {
      SlugsOfMore(a);
      hide Slugs;
      assert (a + b)[1..] == a[1..] + b;
      if a[0].slug in placed {
        FirstMeetingsJoin(a[1..], b, placed);
        assert placed + Slugs(a) == placed + Slugs(a[1..]);
      } else {
        FirstMeetingsJoin(a[1..], b, placed + {a[0].slug});
        assert placed + Slugs(a) == placed + {a[0].slug} + Slugs(a[1..]);
      }
    }
  }

  lemma {:induction false} NothingNew(blocks: seq<Block>, placed: set<string>)
    requires Slugs(blocks) <= placed
    ensures FirstMeetings(blocks, placed) == []
  {
    if blocks != [] {
      assert blocks[0].slug in Slugs(blocks);
      assert Slugs(blocks[1..]) <= Slugs(blocks);
      NothingNew(blocks[1..], placed);
    }
  }

  /** What is below a placement is part of the expansion, and smaller than it. */
  lemma {:induction false} BelowFields(fields: seq<Field>, b: Block)
    requires b in ExpandFields(fields)
    ensures FieldsSize(b.fields) < FieldsSize(fields)
    ensures Slugs(ExpandFields(b.fields)) <= Slugs(ExpandFields(fields))
    decreases FieldsSize(fields)
  {
    var own, nested, rest :=
      ExpandBlocks(fields[0].placements), ExpandFields(fields[0].nested), ExpandFields(fields[1..]);
    if b in own {
      BelowBlocks(fields[0].placements, b);
    } else if b in nested {
      BelowFields(fields[0].nested, b);
    } else {
      BelowFields(fields[1..], b);
    }
    assert Slugs(own + nested + rest) == Slugs(own) + Slugs(nested) + Slugs(rest);
  }

  lemma {:induction false} BelowBlocks(blocks: seq<Block>, b: Block)
    requires b in ExpandBlocks(blocks)
    ensures FieldsSize(b.fields) < BlocksSize(blocks)
    ensures Slugs(ExpandFields(b.fields)) <= Slugs(ExpandBlocks(blocks))
    decreases BlocksSize(blocks)
  {
    var inner, rest := ExpandFields(blocks[0].fields), ExpandBlocks(blocks[1..]);
    if b in inner {
      BelowFields(blocks[0].fields, b);
    } else if b in rest {
      BelowBlocks(blocks[1..], b);
    }
    assert Slugs([blocks[0]] + inner + rest) == {blocks[0].slug} + Slugs(inner) + Slugs(rest);
  }

  lemma SlugsJoin(a: seq<Block>, b: seq<Block>)
    ensures Slugs(a + b) == Slugs(a) + Slugs(b)
  {
  }

  lemma Halves(a: seq<Block>, b: seq<Block>, placed: set<string>)
    requires Uniform(a + b) && Settled(a + b, placed)
    ensures Uniform(a) && Settled(a, placed) && Uniform(b) && Settled(b, placed)
  {
    assert forall x | x in a || x in b :: x in a + b;
  }

  /** Every definition met is met together with everything below it. */
  predicate Downward(blocks: seq<Block>) {
    forall b | b in blocks :: Slugs(ExpandFields(b.fields)) <= Slugs(blocks)
  }

  lemma FieldsAreDownward(fields: seq<Field>)
    ensures Downward(ExpandFields(fields))
  {
    forall b | b in ExpandFields(fields) ensures Slugs(ExpandFields(b.fields)) <= Slugs(ExpandFields(fields)) {
      BelowFields(fields, b);
    }
  }

  lemma BlocksAreDownward(blocks: seq<Block>)
    ensures Downward(ExpandBlocks(blocks))
  {
    forall b | b in ExpandBlocks(blocks) ensures Slugs(ExpandFields(b.fields)) <= Slugs(ExpandBlocks(blocks)) {
      BelowBlocks(blocks, b);
    }
  }

  /** Walking some of the expansion settles it for the rest. */
  lemma SettledAfter(walked: seq<Block>, rest: seq<Block>, placed: set<string>)
    requires Uniform(walked + rest) && Settled(rest, placed)
    requires Downward(walked)
    ensures Settled(rest, placed + Slugs(walked))
  {
    forall c | c in rest && c.slug in placed + Slugs(walked)
      ensures Slugs(ExpandFields(c.fields)) <= placed + Slugs(walked)
    {
      if c.slug !in placed {
        var b :| b in walked && b.slug == c.slug;
        assert b in walked + rest && c in walked + rest;
      }
    }
  }

  /** Opening a definition that is not placed: nothing below it has its slug, so all of it is settled. */
  lemma Opened(b: Block, rest: seq<Block>, placed: set<string>)
    requires Uniform([b] + ExpandFields(b.fields) + rest) && Settled([b] + ExpandFields(b.fields) + rest, placed)
    ensures Uniform(ExpandFields(b.fields)) && Settled(ExpandFields(b.fields), placed + {b.slug})
    ensures Downward([b] + ExpandFields(b.fields))
    ensures Slugs([b] + ExpandFields(b.fields)) == {b.slug} + Slugs(ExpandFields(b.fields))
  {
    var inner := ExpandFields(b.fields);
    var all := [b] + inner + rest;
    FieldsAreDownward(b.fields);
    assert forall x | x in inner :: x in all;
    assert b in all;
    forall c | c in inner ensures c.slug != b.slug { BelowFields(b.fields, c); }
  }

  /**
   * The walk yields the first meetings of the full expansion: skipping what is placed loses
   * nothing and repeats nothing.
   */
  lemma {:induction false} WalkIsFirstMeetings(fields: seq<Field>, placed: set<string>)
    requires Uniform(ExpandFields(fields)) && Settled(ExpandFields(fields), placed)
    ensures WalkFields(fields, placed)
            == (FirstMeetings(ExpandFields(fields), placed), placed + Slugs(ExpandFields(fields)))
    decreases FieldsSize(fields)
  {
    if fields == [] {
      assert placed + Slugs([]) == placed;
    } else {
      hide Uniform, Settled, Downward, Slugs, FirstMeetings, ExpandFields, ExpandBlocks;
      var own, nested, rest :=
        ExpandBlocks(fields[0].placements), ExpandFields(fields[0].nested), ExpandFields(fields[1..]);
      FieldsUnfold(fields);
      Halves(own, nested + rest, placed);
      BlocksAreDownward(fields[0].placements);
      FieldsAreDownward(fields[0].nested);
      WalkBlocksIsFirstMeetings(fields[0].placements, placed);
      SettledAfter(own, nested + rest, placed);
      Halves(nested, rest, placed + Slugs(own));
      WalkIsFirstMeetings(fields[0].nested, placed + Slugs(own));
      SettledAfter(nested, rest, placed + Slugs(own));
      WalkIsFirstMeetings(fields[1..], placed + Slugs(own) + Slugs(nested));
      Composed(own, nested, rest, placed);
    }
  }

  lemma FieldsUnfold(fields: seq<Field>)
    requires fields != []
    ensures ExpandFields(fields)
            == ExpandBlocks(fields[0].placements) + (ExpandFields(fields[0].nested) + ExpandFields(fields[1..]))
  {
  }

  lemma BlocksUnfold(blocks: seq<Block>)
    requires blocks != []
    ensures ExpandBlocks(blocks) == [blocks[0]] + ExpandFields(blocks[0].fields) + ExpandBlocks(blocks[1..])
  {
  }

  lemma Composed(a: seq<Block>, b: seq<Block>, c: seq<Block>, placed: set<string>)
    ensures FirstMeetings(a + (b + c), placed)
            == FirstMeetings(a, placed) + FirstMeetings(b, placed + Slugs(a))
               + FirstMeetings(c, placed + Slugs(a) + Slugs(b))
    ensures placed + Slugs(a + (b + c)) == placed + Slugs(a) + Slugs(b) + Slugs(c)
  {
    hide FirstMeetings, Slugs;
    FirstMeetingsJoin(a, b + c, placed);
    FirstMeetingsJoin(b, c, placed + Slugs(a));
    SlugsJoin(a, b + c);
    SlugsJoin(b, c);
  }

  lemma {:induction false} WalkBlocksIsFirstMeetings(blocks: seq<Block>, placed: set<string>)
    requires Uniform(ExpandBlocks(blocks)) && Settled(ExpandBlocks(blocks), placed)
    ensures WalkBlocks(blocks, placed)
            == (FirstMeetings(ExpandBlocks(blocks), placed), placed + Slugs(ExpandBlocks(blocks)))
    decreases BlocksSize(blocks)
  {
    if blocks == [] {
      assert placed + Slugs([]) == placed;
    } else {
      hide Uniform, Settled, Downward, Slugs, FirstMeetings, ExpandFields, ExpandBlocks;
      var b, inner, rest := blocks[0], ExpandFields(blocks[0].fields), ExpandBlocks(blocks[1..]);
      BlocksUnfold(blocks);
      Halves([b] + inner, rest, placed);
      Opened(b, rest, placed);
      SettledAfter([b] + inner, rest, placed);
      if b.slug in placed {
        AlreadyWalked(b, inner, rest, placed);
        WalkBlocksIsFirstMeetings(blocks[1..], placed);
      } else {
        WalkIsFirstMeetings(b.fields, placed + {b.slug});
        assert placed + Slugs([b] + inner) == placed + {b.slug} + Slugs(inner);
        WalkBlocksIsFirstMeetings(blocks[1..], placed + {b.slug} + Slugs(inner));
        NewlyWalked(b, inner, rest, placed);
      }
    }
  }

  lemma NewlyWalked(b: Block, inner: seq<Block>, rest: seq<Block>, placed: set<string>)
    requires b.slug !in placed
    ensures FirstMeetings([b] + inner + rest, placed)
            == [b] + FirstMeetings(inner, placed + {b.slug}) + FirstMeetings(rest, placed + {b.slug} + Slugs(inner))
    ensures placed + Slugs([b] + inner + rest) == placed + {b.slug} + Slugs(inner) + Slugs(rest)
  {
    hide FirstMeetings;
    FirstMeetingsJoin([b] + inner, rest, placed);
    FirstOfOne(b, inner, placed);
    SlugsJoin([b] + inner, rest);
    SlugsJoin([b], inner);
    assert Slugs([b]) == {b.slug};
    assert placed + Slugs([b] + inner) == placed + {b.slug} + Slugs(inner);
  }

  lemma FirstOfOne(b: Block, inner: seq<Block>, placed: set<string>)
    ensures FirstMeetings([b] + inner, placed)
            == if b.slug in placed then FirstMeetings(inner, placed) else [b] + FirstMeetings(inner, placed + {b.slug})
  {
    assert ([b] + inner)[1..] == inner;
  }

  lemma AlreadyWalked(b: Block, inner: seq<Block>, rest: seq<Block>, placed: set<string>)
    requires Settled([b] + inner + rest, placed) && b.slug in placed && inner == ExpandFields(b.fields)
    ensures placed + Slugs([b] + inner) == placed
    ensures FirstMeetings([b] + inner + rest, placed) == FirstMeetings(rest, placed)
    ensures placed + Slugs([b] + inner + rest) == placed + Slugs(rest)
  {
    hide FirstMeetings, ExpandFields;
    assert b in [b] + inner + rest;
    NothingNew(inner, placed);
    FirstMeetingsJoin([b] + inner, rest, placed);
    FirstOfOne(b, inner, placed);
    SlugsJoin([b] + inner, rest);
    assert Slugs([b] + inner) <= placed;
  }

  /** Each definition is listed once, and all of them are. */
  lemma {:induction false} MetOnce(blocks: seq<Block>, placed: set<string>)
    ensures var met := FirstMeetings(blocks, placed);
            && Slugs(met) == Slugs(blocks) - placed
            && (forall i, j | 0 <= i < j < |met| :: met[i].slug != met[j].slug)
            && forall b | b in met :: b in blocks
  {
    if blocks != [] {
      var b := blocks[0];
      assert blocks == [b] + blocks[1..];
      SlugsJoin([b], blocks[1..]);
      if b.slug in placed {
        MetOnce(blocks[1..], placed);
      } else {
        var rest := FirstMeetings(blocks[1..], placed + {b.slug});
        MetOnce(blocks[1..], placed + {b.slug});
        SlugsJoin([b], rest);
        forall j | 0 <= j < |rest| ensures rest[j].slug != b.slug { assert rest[j].slug in Slugs(rest); }
      }
    }
  }

  /** Where a slug is first placed. */
  function FirstPlace(blocks: seq<Block>, slug: string): nat {
    if blocks == [] || blocks[0].slug == slug then 0 else 1 + FirstPlace(blocks[1..], slug)
  }

  /** Definitions are met in the order of their first placements. */
  lemma {:induction false} MetInOrder(blocks: seq<Block>, placed: set<string>)
    ensures var met := FirstMeetings(blocks, placed);
            forall i, j | 0 <= i < j < |met| ::
              FirstPlace(blocks, met[i].slug) < FirstPlace(blocks, met[j].slug)
  {
    if blocks != [] {
      var here := if blocks[0].slug in placed then placed else placed + {blocks[0].slug};
      MetInOrder(blocks[1..], here);
      MetOnce(blocks[1..], here);
      var rest := FirstMeetings(blocks[1..], here);
      forall j | 0 <= j < |rest|
        ensures FirstPlace(blocks, rest[j].slug) == 1 + FirstPlace(blocks[1..], rest[j].slug)
      {
        assert rest[j].slug in Slugs(rest);
      }
    }
  }

  /** The definitions placed directly in these fields, through objects and arrays but not through other definitions. */
  function Placements(fields: seq<Field>): seq<Block>
    decreases FieldsSize(fields)
  {
    if fields == [] then [] else fields[0].placements + Placements(fields[0].nested) + Placements(fields[1..])
  }

  /** A chain of placements leading from these fields to its last definition. */
  predicate Leads(fields: seq<Field>, chain: seq<Block>)
    decreases |chain|
  {
    chain != [] && chain[0] in Placements(fields) && (|chain| > 1 ==> Leads(chain[0].fields, chain[1..]))
  }

  lemma LeadsFromMore(fields: seq<Field>, more: seq<Field>, chain: seq<Block>)
    requires Leads(fields, chain) && forall b | b in Placements(fields) :: b in Placements(more)
    ensures chain != [] && Leads(more, chain)
  {
  }

  lemma LeadsFromOne(fields: seq<Field>, chain: seq<Block>)
    requires chain != [] && chain[0] in Placements(fields) && (|chain| > 1 ==> Leads(chain[0].fields, chain[1..]))
    ensures Leads(fields, chain)
  {
  }

  lemma PlacementsUnfold(fields: seq<Field>)
    requires fields != []
    ensures forall b :: b in Placements(fields) <==>
              b in fields[0].placements || b in Placements(fields[0].nested) || b in Placements(fields[1..])
  {
  }

  lemma ExpandUnfold(fields: seq<Field>, b: Block)
    requires b in ExpandFields(fields)
    ensures fields != []
    ensures || b in ExpandBlocks(fields[0].placements) || b in ExpandFields(fields[0].nested)
            || b in ExpandFields(fields[1..])
  {
  }

  lemma {:induction false} ExpandedIsReached(fields: seq<Field>, b: Block) returns (chain: seq<Block>)
    requires b in ExpandFields(fields)
    ensures chain != [] && chain[|chain| - 1] == b && Leads(fields, chain)
    decreases FieldsSize(fields)
  {
    hide Leads, Placements, ExpandBlocks, ExpandFields, BlocksSize;
    ExpandUnfold(fields, b);
    PlacementsUnfold(fields);
    if b in ExpandBlocks(fields[0].placements) {
      chain := ExpandedBlockIsReached(fields[0].placements, b);
      LeadsFromOne(fields, chain);
    } else if b in ExpandFields(fields[0].nested) {
      chain := ExpandedIsReached(fields[0].nested, b);
      LeadsFromMore(fields[0].nested, fields, chain);
    } else {
      chain := ExpandedIsReached(fields[1..], b);
      LeadsFromMore(fields[1..], fields, chain);
    }
  }

  lemma {:induction false} ExpandedBlockIsReached(blocks: seq<Block>, b: Block) returns (chain: seq<Block>)
    requires b in ExpandBlocks(blocks)
    ensures chain != [] && chain[0] in blocks && chain[|chain| - 1] == b
    ensures |chain| > 1 ==> Leads(chain[0].fields, chain[1..])
    decreases BlocksSize(blocks)
  {
    hide Leads, Placements, ExpandFields, FieldsSize;
    if b == blocks[0] {
      chain := [b];
    } else if b in ExpandFields(blocks[0].fields) {
      var rest := ExpandedIsReached(blocks[0].fields, b);
      chain := [blocks[0]] + rest;
      assert chain[1..] == rest;
    } else {
      chain := ExpandedBlockIsReached(blocks[1..], b);
    }
  }

  lemma {:induction false} PlacedIsExpanded(fields: seq<Field>, b: Block)
    requires b in Placements(fields)
    ensures b in ExpandFields(fields) && forall c | c in ExpandFields(b.fields) :: c in ExpandFields(fields)
    decreases FieldsSize(fields)
  {
    if b in fields[0].placements {
      PlacedBlockIsExpanded(fields[0].placements, b);
    } else if b in Placements(fields[0].nested) {
      PlacedIsExpanded(fields[0].nested, b);
    } else {
      PlacedIsExpanded(fields[1..], b);
    }
  }

  lemma {:induction false} PlacedBlockIsExpanded(blocks: seq<Block>, b: Block)
    requires b in blocks
    ensures b in ExpandBlocks(blocks) && forall c | c in ExpandFields(b.fields) :: c in ExpandBlocks(blocks)
  {
    if b != blocks[0] {
      PlacedBlockIsExpanded(blocks[1..], b);
    }
  }

  lemma {:induction false} ReachedIsExpanded(fields: seq<Field>, chain: seq<Block>)
    requires Leads(fields, chain)
    ensures chain[|chain| - 1] in ExpandFields(fields)
    decreases |chain|
  {
    PlacedIsExpanded(fields, chain[0]);
    if |chain| > 1 {
      ReachedIsExpanded(chain[0].fields, chain[1..]);
    }
  }

  ghost predicate Reached(fields: seq<Field>, b: Block) {
    exists chain :: Leads(fields, chain) && chain[|chain| - 1] == b
  }

  lemma ExpandedIffReached(fields: seq<Field>, b: Block)
    ensures b in ExpandFields(fields) <==> Reached(fields, b)
  {
    hide ExpandFields;
    if b in ExpandFields(fields) {
      var chain := ExpandedIsReached(fields, b);
    }
    forall chain | Leads(fields, chain) && chain[|chain| - 1] == b ensures b in ExpandFields(fields) {
      ReachedIsExpanded(fields, chain);
    }
  }

  lemma MetIffExpanded(blocks: seq<Block>, b: Block)
    requires Uniform(blocks)
    ensures b in FirstMeetings(blocks, {}) <==> b in blocks
  {
    hide FirstMeetings;
    MetOnce(blocks, {});
    if b in blocks {
      assert b.slug in Slugs(blocks) && b.slug in Slugs(FirstMeetings(blocks, {}));
      var c :| c in FirstMeetings(blocks, {}) && c.slug == b.slug;
    }
  }

  /**
   * The walk of a resource lists exactly the definitions some chain of placements reaches,
   * each once, in the order a depth-first reading first meets them.
   */
  lemma WalkListsWhatIsReached(fields: seq<Field>, b: Block)
    requires Uniform(ExpandFields(fields))
    ensures var met := WalkFields(fields, {}).0;
            && met == FirstMeetings(ExpandFields(fields), {})
            && (b in met <==> Reached(fields, b))
            && (forall i, j | 0 <= i < j < |met| :: met[i].slug != met[j].slug)
            && forall i, j | 0 <= i < j < |met| ::
                 FirstPlace(ExpandFields(fields), met[i].slug) < FirstPlace(ExpandFields(fields), met[j].slug)
  {
    hide ExpandFields, FirstMeetings, WalkFields, Reached;
    assert Settled(ExpandFields(fields), {});
    WalkIsFirstMeetings(fields, {});
    MetOnce(ExpandFields(fields), {});
    MetInOrder(ExpandFields(fields), {});
    MetIffExpanded(ExpandFields(fields), b);
    ExpandedIffReached(fields, b);
  }

  /** What one occurrence of a bound field contributes at run time. */
  datatype Binding = Binding(occurrence: string, block: string)

  type Lower = Block -> Result<seq<Binding>, string>

  /** Lowering definitions one after the other, up to the first failure. */
  function LowerAll(blocks: seq<Block>, lower: Lower): Result<seq<Binding>, string> {
    if blocks == [] then Ok([])
    else
      var first := lower(blocks[0]);
      if first.Err? then Err(first.error)
      else
        var rest := LowerAll(blocks[1..], lower);
        if rest.Err? then rest else Ok(first.value + rest.value)
  }

  lemma {:induction false} LowerAllJoins(a: seq<Block>, b: seq<Block>, lower: Lower)
    ensures var first, rest := LowerAll(a, lower), LowerAll(b, lower);
            LowerAll(a + b, lower) == if first.Err? then first
                                      else if rest.Err? then rest
                                      else Ok(first.value + rest.value)
  {
    if a == [] {
      assert a + b == b;
      if LowerAll(b, lower).Ok? { assert [] + LowerAll(b, lower).value == LowerAll(b, lower).value; }
    } else {
      assert (a + b)[1..] == a[1..] + b;
      LowerAllJoins(a[1..], b, lower);
      var first, inner, rest := lower(a[0]), LowerAll(a[1..], lower), LowerAll(b, lower);
      if first.Ok? && inner.Ok? && rest.Ok? {
        assert first.value + (inner.value + rest.value) == first.value + inner.value + rest.value;
      }
    }
  }

  /** What a walk makes of the bindings gathered so far. */
  function Outcome(bindings: seq<Binding>, walk: (seq<Block>, set<string>), lower: Lower)
    : Result<(set<string>, seq<Binding>), string>
  {
    var lowered := LowerAll(walk.0, lower);
    if lowered.Err? then Err(lowered.error) else Ok((walk.1, bindings + lowered.value))
  }

  /** A walk in two parts: the second starts from the bindings the first left, unless that failed. */
  lemma OutcomeJoins(bindings: seq<Binding>, a: (seq<Block>, set<string>), b: (seq<Block>, set<string>), lower: Lower)
    ensures var first := Outcome(bindings, a, lower);
            && Outcome(bindings, (a.0 + b.0, b.1), lower)
               == (if first.Err? then first else Outcome(first.value.1, b, lower))
            && (first.Ok? ==> first.value.0 == a.1)
  {
    LowerAllJoins(a.0, b.0, lower);
    var first, rest := LowerAll(a.0, lower), LowerAll(b.0, lower);
    if first.Ok? && rest.Ok? {
      assert bindings + (first.value + rest.value) == bindings + first.value + rest.value;
    }
  }

  lemma OutcomeOfOne(bindings: seq<Binding>, b: Block, placed: set<string>,
                     rest: (seq<Block>, set<string>), lower: Lower)
    ensures Outcome(bindings, ([b] + rest.0, rest.1), lower)
            == if lower(b).Err? then Err(lower(b).error) else Outcome(bindings + lower(b).value, rest, lower)
  {
    OutcomeJoins(bindings, ([b], placed), rest, lower);
    assert [b][1..] == [] && LowerAll([], lower) == Ok([]);
    if lower(b).Ok? {
      assert lower(b).value + [] == lower(b).value;
      assert LowerAll([b], lower) == Ok(lower(b).value);
    }
  }

  lemma OutcomeOfNothing(fields: seq<Field>, bindings: seq<Binding>, placed: set<string>, lower: Lower)
    requires fields == []
    ensures Outcome(bindings, WalkFields(fields, placed), lower) == Ok((placed, bindings))
  {
    assert bindings + [] == bindings;
  }

  lemma OutcomeOfNoBlocks(blocks: seq<Block>, bindings: seq<Binding>, placed: set<string>, lower: Lower)
    requires blocks == []
    ensures Outcome(bindings, WalkBlocks(blocks, placed), lower) == Ok((placed, bindings))
  {
    assert bindings + [] == bindings;
  }

  /** Every placement of a slug is this table's definition of it. */
  predicate Conforms(blocks: seq<Block>, table: map<string, Block>) {
    forall b | b in blocks :: b.slug in table && table[b.slug] == b
  }

  lemma ConformsHalves(a: seq<Block>, b: seq<Block>, table: map<string, Block>)
    requires Conforms(a + b, table)
    ensures Conforms(a, table) && Conforms(b, table)
  {
    assert forall x | x in a || x in b :: x in a + b;
  }

  lemma WalkFieldsUnfold(fields: seq<Field>, placed: set<string>)
    requires fields != []
    ensures var own := WalkBlocks(fields[0].placements, placed);
            var nested := WalkFields(fields[0].nested, own.1);
            var after := WalkFields(fields[1..], nested.1);
            WalkFields(fields, placed) == (own.0 + (nested.0 + after.0), after.1)
  {
    hide WalkBlocks, FieldsSize;
    var own := WalkBlocks(fields[0].placements, placed);
    var nested := WalkFields(fields[0].nested, own.1);
    var after := WalkFields(fields[1..], nested.1);
    assert own.0 + nested.0 + after.0 == own.0 + (nested.0 + after.0);
  }

  lemma WalkBlocksUnfold(blocks: seq<Block>, placed: set<string>)
    requires blocks != [] && blocks[0].slug !in placed
    ensures var inner := WalkFields(blocks[0].fields, placed + {blocks[0].slug});
            var after := WalkBlocks(blocks[1..], inner.1);
            WalkBlocks(blocks, placed) == ([blocks[0]] + (inner.0 + after.0), after.1)
  {
    hide WalkFields, BlocksSize;
    var inner := WalkFields(blocks[0].fields, placed + {blocks[0].slug});
    var after := WalkBlocks(blocks[1..], inner.1);
    assert [blocks[0]] + inner.0 + after.0 == [blocks[0]] + (inner.0 + after.0);
  }

  lemma WalkBlocksSkip(blocks: seq<Block>, placed: set<string>)
    requires blocks != [] && blocks[0].slug in placed
    ensures WalkBlocks(blocks, placed) == WalkBlocks(blocks[1..], placed)
  {
  }

  /** One field of a walk. */
  lemma FieldsStep(fields: seq<Field>, i: nat, placed: set<string>, table: map<string, Block>)
    requires i < |fields| && Conforms(ExpandFields(fields[i..]), table)
    ensures var own := WalkBlocks(fields[i].placements, placed);
            var nested := WalkFields(fields[i].nested, own.1);
            var after := WalkFields(fields[i + 1..], nested.1);
            WalkFields(fields[i..], placed) == (own.0 + (nested.0 + after.0), after.1)
    ensures Conforms(ExpandBlocks(fields[i].placements), table) && Conforms(ExpandFields(fields[i].nested), table)
    ensures Conforms(ExpandFields(fields[i + 1..]), table)
    ensures BlocksSize(fields[i].placements) < FieldsSize(fields) && FieldsSize(fields[i].nested) < FieldsSize(fields)
  {
    hide Conforms, ExpandFields, ExpandBlocks, FieldsSize, BlocksSize, WalkBlocks, WalkFields;
    FieldsSuffix(fields, i);
    var rest := fields[i..];
    assert rest[0] == fields[i] && rest[1..] == fields[i + 1..];
    WalkFieldsUnfold(rest, placed);
    FieldsUnfold(rest);
    var own, nested, after := ExpandBlocks(rest[0].placements), ExpandFields(rest[0].nested), ExpandFields(rest[1..]);
    ConformsHalves(own, nested + after, table);
    ConformsHalves(nested, after, table);
  }

  lemma {:induction false} FieldsSuffix(fields: seq<Field>, i: nat)
    requires i <= |fields|
    ensures FieldsSize(fields[i..]) <= FieldsSize(fields)
    ensures i < |fields| ==> BlocksSize(fields[i].placements) < FieldsSize(fields)
                             && FieldsSize(fields[i].nested) < FieldsSize(fields)
  {
    if i == 0 {
      assert fields[0..] == fields;
    } else {
      assert fields[1..][i - 1..] == fields[i..];
      FieldsSuffix(fields[1..], i - 1);
    }
  }

  /** One placement of a walk: skipped where its definition is placed, opened otherwise. */
  lemma BlocksStep(blocks: seq<Block>, i: nat, placed: set<string>, table: map<string, Block>)
    requires i < |blocks| && Conforms(ExpandBlocks(blocks[i..]), table)
    ensures if blocks[i].slug in placed then WalkBlocks(blocks[i..], placed) == WalkBlocks(blocks[i + 1..], placed)
            else
              var inner := WalkFields(blocks[i].fields, placed + {blocks[i].slug});
              var after := WalkBlocks(blocks[i + 1..], inner.1);
              WalkBlocks(blocks[i..], placed) == ([blocks[i]] + (inner.0 + after.0), after.1)
    ensures blocks[i].slug in table && table[blocks[i].slug] == blocks[i]
    ensures Conforms(ExpandFields(blocks[i].fields), table) && Conforms(ExpandBlocks(blocks[i + 1..]), table)
    ensures FieldsSize(blocks[i].fields) < BlocksSize(blocks)
  {
    hide Conforms, ExpandFields, ExpandBlocks, FieldsSize, BlocksSize, WalkFields, WalkBlocks;
    BlocksSuffix(blocks, i);
    var rest := blocks[i..];
    assert rest[0] == blocks[i] && rest[1..] == blocks[i + 1..];
    if rest[0].slug in placed {
      WalkBlocksSkip(rest, placed);
    } else {
      WalkBlocksUnfold(rest, placed);
    }
    BlocksUnfold(rest);
    var inner := ExpandFields(rest[0].fields);
    ConformsHalves([rest[0]] + inner, ExpandBlocks(rest[1..]), table);
    ConformsHalves([rest[0]], inner, table);
    ConformsOne(rest[0], table);
  }

  lemma ConformsOne(b: Block, table: map<string, Block>)
    requires Conforms([b], table)
    ensures b.slug in table && table[b.slug] == b
  {
    assert b in [b];
  }

  lemma {:induction false} BlocksSuffix(blocks: seq<Block>, i: nat)
    requires i <= |blocks|
    ensures BlocksSize(blocks[i..]) <= BlocksSize(blocks)
    ensures i < |blocks| ==> FieldsSize(blocks[i].fields) < BlocksSize(blocks)
  {
    if i == 0 {
      assert blocks[0..] == blocks;
    } else {
      assert blocks[1..][i - 1..] == blocks[i..];
      BlocksSuffix(blocks[1..], i - 1);
    }
  }

  /** The lowering of one application: definitions are lowered on first use and kept. */
  class FieldBindings {
    const lower: Lower
    var definitions: map<string, seq<Binding>>
    var placed: set<string>
    var bindings: seq<Binding>

    /** What is kept is what lowering the definition again would give. */
    ghost predicate Valid(table: map<string, Block>)
      reads this`definitions
    {
      forall slug | slug in definitions :: slug in table && lower(table[slug]) == Ok(definitions[slug])
    }

    constructor (lower: Lower)
      ensures this.lower == lower && definitions == map[]
    {
      this.lower := lower;
      definitions, placed, bindings := map[], {}, [];
    }

    method Definition(b: Block, ghost table: map<string, Block>) returns (out: Result<seq<Binding>, string>)
      requires Valid(table) && b.slug in table && table[b.slug] == b
      modifies this`definitions
      ensures Valid(table) && out == lower(b)
    {
      if b.slug in definitions { return Ok(definitions[b.slug]); }
      out := lower(b);
      if out.Ok? { definitions := definitions[b.slug := out.value]; }
    }

    /** The outcome of a walk, read off the object. */
    ghost predicate Ends(outcome: Result<(set<string>, seq<Binding>), string>, failure: Option<string>)
      reads this
    {
      && failure == (if outcome.Err? then Some(outcome.error) else None)
      && (outcome.Ok? ==> outcome.value == (placed, bindings))
    }

    method Walk(fields: seq<Field>, ghost table: map<string, Block>) returns (failure: Option<string>)
      requires Valid(table) && Conforms(ExpandFields(fields), table)
      modifies this
      ensures Valid(table) && Ends(Outcome(old(bindings), WalkFields(fields, old(placed)), lower), failure)
      decreases FieldsSize(fields)
    {
      hide Valid, Conforms, ExpandFields, ExpandBlocks, FieldsSize, BlocksSize, WalkFields, WalkBlocks,
        LowerAll, Outcome;
      failure := None;
      var i := 0;
      assert fields[0..] == fields;
      while i < |fields|
        invariant i <= |fields| && Valid(table) && Conforms(ExpandFields(fields[i..]), table) && failure.None?
        invariant Outcome(bindings, WalkFields(fields[i..], placed), lower)
                  == Outcome(old(bindings), WalkFields(fields, old(placed)), lower)
      {
        FieldsStep(fields, i, placed, table);
        ghost var own := WalkBlocks(fields[i].placements, placed);
        ghost var nested := WalkFields(fields[i].nested, own.1);
        ghost var after := WalkFields(fields[i + 1..], nested.1);
        OutcomeJoins(bindings, own, (nested.0 + after.0, after.1), lower);
        failure := Place(fields[i].placements, table);
        if failure.Some? { return; }
        OutcomeJoins(bindings, nested, after, lower);
        failure := Walk(fields[i].nested, table);
        if failure.Some? { return; }
        i := i + 1;
      }
      OutcomeOfNothing(fields[i..], bindings, placed, lower);
    }

    method Place(blocks: seq<Block>, ghost table: map<string, Block>) returns (failure: Option<string>)
      requires Valid(table) && Conforms(ExpandBlocks(blocks), table)
      modifies this
      ensures Valid(table) && Ends(Outcome(old(bindings), WalkBlocks(blocks, old(placed)), lower), failure)
      decreases BlocksSize(blocks)
    {
      hide Valid, Conforms, ExpandFields, ExpandBlocks, FieldsSize, BlocksSize, WalkFields, WalkBlocks,
        LowerAll, Outcome;
      failure := None;
      var i := 0;
      assert blocks[0..] == blocks;
      while i < |blocks|
        invariant i <= |blocks| && Valid(table) && Conforms(ExpandBlocks(blocks[i..]), table) && failure.None?
        invariant Outcome(bindings, WalkBlocks(blocks[i..], placed), lower)
                  == Outcome(old(bindings), WalkBlocks(blocks, old(placed)), lower)
      {
        BlocksStep(blocks, i, placed, table);
        if blocks[i].slug in placed { i := i + 1; continue; }
        ghost var inner := WalkFields(blocks[i].fields, placed + {blocks[i].slug});
        ghost var after := WalkBlocks(blocks[i + 1..], inner.1);
        OutcomeOfOne(bindings, blocks[i], placed + {blocks[i].slug}, (inner.0 + after.0, after.1), lower);
        placed := placed + {blocks[i].slug};
        var definition := Definition(blocks[i], table);
        if definition.Err? { return Some(definition.error); }
        bindings := bindings + definition.value;
        OutcomeJoins(bindings, inner, after, lower);
        failure := Walk(blocks[i].fields, table);
        if failure.Some? { return; }
        i := i + 1;
      }
      OutcomeOfNoBlocks(blocks[i..], bindings, placed, lower);
    }

    /**
     * A resource's bindings: its own, then those of each definition it reaches, in the order
     * they are first met. What other resources had lowered before makes no difference.
     */
    method Resource(own: Result<seq<Binding>, string>, fields: seq<Field>, ghost table: map<string, Block>)
      returns (out: Result<seq<Binding>, string>)
      requires Valid(table) && Conforms(ExpandFields(fields), table)
      modifies this
      ensures Valid(table)
      ensures out == if own.Err? then own
                     else
                       var reached := LowerAll(FirstMeetings(ExpandFields(fields), {}), lower);
                       if reached.Err? then reached else Ok(own.value + reached.value)
    {
      hide Valid, ExpandFields, WalkFields, LowerAll, FirstMeetings;
      if own.Err? { return own; }
      WalkIsFirstMeetings(fields, {});
      placed, bindings := {}, own.value;
      var failure := Walk(fields, table);
      if failure.Some? { return Err(failure.value); }
      return Ok(bindings);
    }
  }
}
