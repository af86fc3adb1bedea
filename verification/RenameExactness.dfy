/**
 * Exactly which renames keep the meaning of a graph: every comparison, at every depth, is true of
 * the same documents, moved or not, if and only if a condition on its reference holds.
 */
module RenameExactness {
  import opened Separated
  import opened FieldGraph
  import opened Conditions
  import opened DraftRules
  import opened Rename
  import opened RenameMeaning

  /** A document, or the object around a field, with one leaf. */
  function Holding(path: seq<string>, leaf: Scalar): Value {
    if path == [] then Leaf(leaf) else Object(map[path[0] := Holding(path[1..], leaf)])
  }

  /** Only its own path leads to the leaf. */
  lemma {:induction false} HoldingReads(path: seq<string>, leaf: Scalar, other: seq<string>)
    ensures Lookup(Holding(path, leaf), path) == Leaf(leaf)
    ensures Lookup(Holding(path, leaf), other).Leaf? ==> other == path
    decreases |path|
  {
    if path != [] {
      HoldingReads(path[1..], leaf, if other != [] then other[1..] else []);
      if other != [] {
        LookupAbsent(other[1..]);
        assert other == [other[0]] + other[1..] && path == [path[0]] + path[1..];
      }
    } else if other != [] {
      LookupAbsent(other[1..]);
    }
  }

  /** An accepted comparison tells its first value from everything that is not a scalar. */
  lemma ComparesDiffer(c: Condition, other: Value)
    requires c.kind == Predicate && WellShaped(c) && !other.Leaf?
    ensures |c.values| > 0
    ensures Compare(c.operator, Leaf(c.values[0]), c.values) != Compare(c.operator, other, c.values)
  {
  }

  lemma RewrittenDiffers(path: string, r: Renaming)
    requires r.name != r.replacement && Follows(path, r.name)
    ensures Split(RewritePath(path, r), '.') != Split(path, '.')
  {
    var rest := path[|r.name|..];
    assert path == r.name + rest;
    JoinSplit(path, '.');
    JoinSplit(RewritePath(path, r), '.');
  }

  /**
   * Renaming a stored child moves its member in every document (`moved`), renaming a layout moves
   * nothing. `same` says that the scope is the one renamed in.
   */
  function After(v: Value, r: Renaming, moved: bool): Value {
    if moved then MoveKey(v, r) else v
  }

  /** The condition holds on the same documents, at the same places, before and after its rewriting. */
  ghost predicate HoldsAlike(c: Condition, same: bool, r: Renaming, moved: bool) {
    forall root, scope ::
      Visible(RewriteCondition(c, same, r).0, After(root, r, moved), After(scope, r, moved && same))
      == Visible(c, root, scope)
  }

  /** What a reference must meet to read the same. */
  predicate ReadsOn(ref: Reference, same: bool, r: Renaming, moved: bool) {
    if moved then SafeReference(ref, same, r) else !Affects(ref, same, r)
  }

  predicate Renames(r: Renaming, moved: bool) {
    r.name != r.replacement && (moved ==> Proper(r))
  }

  lemma RewrittenHolds(c: Condition, same: bool, r: Renaming)
    requires r.name != r.replacement && c.kind == Predicate && WellShaped(c)
    ensures HoldsAlike(c, same, r, false) <==> !Affects(c.reference, same, r)
  {
    hide Compare, WellShaped, Follows;
    var d := RewriteCondition(c, same, r).0;
    if Affects(c.reference, same, r) {
      var before, after := Split(c.reference.path, '.'), Split(d.reference.path, '.');
      RewrittenDiffers(c.reference.path, r);
      ComparesDiffer(c, Absent);
      var v := Holding(before, c.values[0]);
      HoldingReads(before, c.values[0], after);
      ComparesDiffer(c, Lookup(v, after));
      assert Read(c.reference, v, v) == Leaf(c.values[0]) && Read(d.reference, v, v) == Lookup(v, after);
      assert Visible(d, After(v, r, false), After(v, r, false)) != Visible(c, v, v);
    } else {
      assert d.reference == c.reference;
    }
  }

  /** The first member of a held path is gone once it was moved away or replaced. */
  lemma MovedAway(path: seq<string>, leaf: Scalar, r: Renaming)
    requires path != [] && r.name != r.replacement && (path[0] == r.name || path[0] == r.replacement)
    ensures Lookup(MoveKey(Holding(path, leaf), r), path) == Absent
  {
    LookupAbsent(path[1..]);
    assert Member(MoveKey(Holding(path, leaf), r), path[0]) == Absent;
  }

  lemma MovedHolds(c: Condition, same: bool, r: Renaming)
    requires Proper(r) && c.kind == Predicate && WellShaped(c)
    ensures HoldsAlike(c, same, r, true) <==> SafeReference(c.reference, same, r)
  {
    hide Compare, WellShaped, Follows, MoveKey;
    var d := RewriteCondition(c, same, r).0;
    if SafeReference(c.reference, same, r) {
      forall root, scope
        ensures Visible(d, After(root, r, true), After(scope, r, same)) == Visible(c, root, scope)
      {
        ReferenceKept(c.reference, same, r, root, scope);
      }
    } else {
      var path := Split(c.reference.path, '.');
      RewrittenPath(c.reference.path, r);
      ComparesDiffer(c, Absent);
      var v := Holding(path, c.values[0]);
      HoldingReads(path, c.values[0], path);
      MovedAway(path, c.values[0], r);
      assert d.reference == c.reference;
      assert Read(c.reference, v, v) == Leaf(c.values[0]);
      assert Read(d.reference, MoveKey(v, r), After(v, r, same)) == Absent;
      assert Visible(d, After(v, r, true), After(v, r, same)) != Visible(c, v, v);
    }
  }

  /** A comparison keeps its meaning exactly when its reference meets the condition. */
  lemma ComparisonHoldsAlike(c: Condition, same: bool, r: Renaming, moved: bool)
    requires Renames(r, moved) && c.kind == Predicate && WellShaped(c)
    ensures HoldsAlike(c, same, r, moved) <==> ReadsOn(c.reference, same, r, moved)
  {
    hide HoldsAlike, WellShaped, Affects, SafeReference;
    if moved { MovedHolds(c, same, r); } else { RewrittenHolds(c, same, r); }
  }

  /** Every comparison of the condition, at any depth, holds on the same documents. */
  ghost predicate ConditionUnshaken(c: Condition, same: bool, r: Renaming, moved: bool) {
    && (c.kind == Predicate ==> HoldsAlike(c, same, r, moved))
    && forall i | 0 <= i < |c.conditions| :: ConditionUnshaken(c.conditions[i], same, r, moved)
  }

  /** Every comparison of the graph, in any child branch, holds on the same documents. */
  ghost predicate Unshaken(fs: seq<Node>, same: bool, r: Renaming, moved: bool)
    decreases FieldsSize(fs), 2
  {
    fs == [] || (NodeUnshaken(fs[0], same, r, moved) && Unshaken(fs[1..], same, r, moved))
  }

  ghost predicate NodeUnshaken(n: Node, same: bool, r: Renaming, moved: bool)
    decreases NodeSize(n), 1
  {
    && ConditionUnshaken(n.visibleWhen, same, r, moved)
    && forall k | 0 <= k < |Branches(n)| ::
         BranchAt(n, k); Unshaken(Branches(n)[k].fields, SharesScope(Branches(n)[k], same), r, moved)
  }

  /** What the rename demands of the whole graph. */
  predicate SafeFor(fs: seq<Node>, same: bool, r: Renaming, moved: bool) {
    if moved then Safe(fs, same, r) else !Needs(fs, same, r)
  }

  predicate NodeSafeFor(n: Node, same: bool, r: Renaming, moved: bool) {
    if moved then SafeNode(n, same, r) else !NodeNeeds(n, same, r)
  }

  predicate ConditionSafeFor(c: Condition, same: bool, r: Renaming, moved: bool) {
    if moved then SafeCondition(c, same, r) else !ConditionNeeds(c, same, r)
  }

  /** The condition that no field states. */
  function Plain(): Condition {
    Condition(NoCondition, [], Reference(NoScope, ""), NoOperator, [], 0)
  }

  /** Every condition of the graph meets the declaration rules, or is the absent one. */
  predicate Declared(fs: seq<Node>)
    decreases FieldsSize(fs), 2
  {
    fs == [] || (NodeDeclared(fs[0]) && Declared(fs[1..]))
  }

  predicate NodeDeclared(n: Node)
    decreases NodeSize(n), 1
  {
    && (Sound(n.visibleWhen, MAXIMUM_DEPTH) || n.visibleWhen == Plain())
    && forall k | 0 <= k < |Branches(n)| :: BranchAt(n, k); Declared(Branches(n)[k].fields)
  }

  lemma {:induction false} SoundAt(cs: seq<Condition>, room: int, i: nat)
    requires AllSound(cs, room) && i < |cs|
    ensures Sound(cs[i], room)
    decreases i
  {
    if i > 0 { SoundAt(cs[1..], room, i - 1); }
  }

  lemma {:induction false} SoundUnshaken(c: Condition, room: int, same: bool, r: Renaming, moved: bool)
    requires Renames(r, moved) && Sound(c, room)
    ensures ConditionUnshaken(c, same, r, moved) <==> ConditionSafeFor(c, same, r, moved)
    decreases c
  {
    hide HoldsAlike, Follows, SafeReference;
    if c.kind == Predicate {
      ComparisonHoldsAlike(c, same, r, moved);
    }
    forall i | 0 <= i < |c.conditions|
      ensures ConditionUnshaken(c.conditions[i], same, r, moved)
              <==> ConditionSafeFor(c.conditions[i], same, r, moved)
    {
      SoundAt(c.conditions, room - 1, i);
      SoundUnshaken(c.conditions[i], room - 1, same, r, moved);
    }
  }

  /** All comparisons of a graph keep their meaning exactly when all its references are safe. */
  lemma {:induction false} FieldsUnshaken(fs: seq<Node>, same: bool, r: Renaming, moved: bool)
    requires Renames(r, moved) && Declared(fs)
    ensures Unshaken(fs, same, r, moved) <==> SafeFor(fs, same, r, moved)
    decreases FieldsSize(fs), 2
  {
    hide NodeUnshaken, NodeNeeds, SafeNode, NodeDeclared;
    if fs != [] {
      NodeUnshakenExactly(fs[0], same, r, moved);
      FieldsUnshaken(fs[1..], same, r, moved);
    }
  }

  lemma {:induction false} NodeUnshakenExactly(n: Node, same: bool, r: Renaming, moved: bool)
    requires Renames(r, moved) && NodeDeclared(n)
    ensures NodeUnshaken(n, same, r, moved) <==> NodeSafeFor(n, same, r, moved)
    decreases NodeSize(n), 1
  {
    hide Branches, Unshaken, Needs, Safe, Declared, ConditionUnshaken, ConditionNeeds, SafeCondition, Sound, NodeSize,
      FieldsSize;
    if n.visibleWhen == Plain() {
      PlainUnshaken(same, r, moved);
    } else {
      SoundUnshaken(n.visibleWhen, MAXIMUM_DEPTH, same, r, moved);
    }
    forall k | 0 <= k < |Branches(n)|
      ensures var b := Branches(n)[k]; var inner := SharesScope(b, same);
              Unshaken(b.fields, inner, r, moved) <==> SafeFor(b.fields, inner, r, moved)
    {
      BranchAt(n, k);
      FieldsUnshaken(Branches(n)[k].fields, SharesScope(Branches(n)[k], same), r, moved);
    }
  }

  lemma PlainUnshaken(same: bool, r: Renaming, moved: bool)
    ensures ConditionUnshaken(Plain(), same, r, moved) && ConditionSafeFor(Plain(), same, r, moved)
  {
  }

  /**
   * A successful rename of a stored child, at the root or only among its siblings, leaves every
   * comparison of the graph true of the same documents, once the member is moved in them, exactly
   * when every reference is safe; and then every condition keeps its value at every place.
   */
  lemma RenameExactly(fs: seq<Node>, r: Renaming)
    requires ValidateDraft(fs).Ok? && WellFormed(fs) && Declared(fs) && r.name != r.replacement
    requires RenameDraft(fs, r).Ok? && !Flattened(fs[IndexOf(fs, r.name).value].kind)
    ensures Unshaken(fs, true, r, true) <==> Safe(fs, true, r)
    ensures Safe(fs, true, r) ==>
              forall document: Value, payloads: Payloads ::
                Evaluate(RenameDraft(fs, r).value, MoveKey(document, r), MoveKey(document, r), payloads)
                == Evaluate(fs, document, document, payloads)
  {
    hide Evaluate, MoveKey, WellFormed, Safe, RewriteFields, ValidName, Admissible, ClaimedNames, Declared, Unshaken;
    var i := IndexOf(fs, r.name).value;
    ValidateDraftMeaning(fs);
    ValidateDraftMeaning(Next(fs, i, r));
    AdmissibleAt(fs, i);
    ValidNameHasNoDot(r.name);
    ValidNameHasNoDot(r.replacement);
    FieldsUnshaken(fs, true, r, true);
    if Safe(fs, true, r) {
      forall document: Value, payloads: Payloads
        ensures Evaluate(RenameDraft(fs, r).value, MoveKey(document, r), MoveKey(document, r), payloads)
                == Evaluate(fs, document, document, payloads)
      {
        RenameKeepsMeaning(fs, r, document, payloads);
      }
    }
  }
}
