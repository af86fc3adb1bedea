/** Renaming a layout: nothing stored moves, so a rewritten reference loses its field. */
module LayoutRename {
  import opened Wrappers
  import opened Separated
  import opened FieldGraph
  import opened Conditions
  import opened DraftRules
  import opened Rename
  import opened RenameMeaning
  import opened RenameExactness

  lemma {:induction false} LayoutBranchesKept(n: Node, r: Renaming, k: nat,
                                            root: Value, scope: Value, payloads: Payloads)
    requires WellFormedNode(n) && Flattened(n.kind) && k <= |Branches(n)|
    ensures Branches(Renamed(n, r)) == Branches(n)
    ensures EvaluateBranches(Renamed(n, r), k, root, scope, payloads) == EvaluateBranches(n, k, root, scope, payloads)
    decreases |Branches(n)| - k
  {
    hide Branches, EvaluateScopes, NodeSize, WellFormed;
    BranchesOfSame(n, Renamed(n, r));
    if k < |Branches(n)| {
      BranchKind(n, k);
      LayoutBranchesKept(n, r, k + 1, root, scope, payloads);
    }
  }

  lemma LayoutNodeKept(n: Node, r: Renaming, root: Value, scope: Value, payloads: Payloads)
    requires WellFormedNode(n) && Flattened(n.kind)
    ensures EvaluateNode(Renamed(n, r), root, scope, payloads) == EvaluateNode(n, root, scope, payloads)
  {
    hide Branches, EvaluateBranches, WellFormedNode, NodeSize;
    LayoutBranchesKept(n, r, 0, root, scope, payloads);
  }

  lemma {:induction false} LayoutFieldsKept(fs: seq<Node>, i: nat, r: Renaming,
                                          root: Value, scope: Value, payloads: Payloads)
    requires i < |fs| && WellFormed(fs) && Flattened(fs[i].kind)
    ensures Evaluate(Next(fs, i, r), root, scope, payloads) == Evaluate(fs, root, scope, payloads)
    decreases i
  {
    hide EvaluateNode, WellFormedNode;
    var next := Next(fs, i, r);
    if i == 0 {
      LayoutNodeKept(fs[0], r, root, scope, payloads);
      assert next[1..] == fs[1..];
    } else {
      LayoutFieldsKept(fs[1..], i - 1, r, root, scope, payloads);
      assert next[1..] == Next(fs[1..], i - 1, r);
    }
  }

  /**
   * Renaming a layout keeps every condition's meaning on the unmoved document as long as no
   * reference has to be rewritten; LayoutRenameReadsSame says what each rewritten one reads.
   */
  lemma LayoutRenameKeepsMeaning(fs: seq<Node>, r: Renaming, document: Value, payloads: Payloads)
    requires WellFormed(fs) && RenameDraft(fs, r).Ok? && r.name != r.replacement
    requires var i := IndexOf(fs, r.name).value; Flattened(fs[i].kind) && !Needs(Next(fs, i, r), true, r)
    ensures Evaluate(RenameDraft(fs, r).value, document, document, payloads) ==
            Evaluate(fs, document, document, payloads)
  {
    hide Evaluate, WellFormed, Needs, RewriteFields, ValidateDraft, NameAccepted;
    var i := IndexOf(fs, r.name).value;
    WellFormedNext(fs, i, r);
    RewriteFieldsOutcome(Next(fs, i, r), true, r);
    LayoutFieldsKept(fs, i, r, document, document, payloads);
  }

  // --------------------------------------------- exactly which renames keep it

  lemma {:induction false} NeedsNext(fs: seq<Node>, i: nat, r: Renaming)
    requires i < |fs|
    ensures Needs(Next(fs, i, r), true, r) <==> Needs(fs, true, r)
    decreases i
  {
    hide NodeNeeds;
    var next := Next(fs, i, r);
    if i == 0 {
      RenamedNeeds(fs[0], r);
      assert next[1..] == fs[1..];
    } else {
      NeedsNext(fs[1..], i - 1, r);
      assert next[1..] == Next(fs[1..], i - 1, r);
    }
  }

  lemma RenamedNeeds(n: Node, r: Renaming)
    ensures NodeNeeds(Renamed(n, r), true, r) <==> NodeNeeds(n, true, r)
  {
    hide Branches, Needs, ConditionNeeds;
    BranchesOfSame(n, Renamed(n, r));
  }

  /**
   * A rename of a layout leaves every comparison of the graph, at any depth, true of the same
   * documents exactly when no reference has to be rewritten; and then it changes nothing but the
   * layout's name, so every condition keeps its value everywhere.
   */
  lemma LayoutRenameExactly(fs: seq<Node>, r: Renaming)
    requires WellFormed(fs) && Declared(fs) && r.name != r.replacement && RenameDraft(fs, r).Ok?
    requires Flattened(fs[IndexOf(fs, r.name).value].kind)
    ensures Unshaken(fs, true, r, false) <==> !Needs(fs, true, r)
    ensures !Needs(fs, true, r) ==>
              var next := Next(fs, IndexOf(fs, r.name).value, r);
              && RenameDraft(fs, r) == Ok(next)
              && forall document: Value, payloads: Payloads ::
                   Evaluate(next, document, document, payloads) == Evaluate(fs, document, document, payloads)
  {
    hide Evaluate, WellFormed, Needs, RewriteFields, ValidateDraft, NameAccepted, Declared, Unshaken;
    var i := IndexOf(fs, r.name).value;
    var next := Next(fs, i, r);
    FieldsUnshaken(fs, true, r, false);
    NeedsNext(fs, i, r);
    WellFormedNext(fs, i, r);
    RewriteFieldsOutcome(next, true, r);
    if !Needs(fs, true, r) {
      forall document: Value, payloads: Payloads
        ensures Evaluate(next, document, document, payloads) == Evaluate(fs, document, document, payloads)
      {
        LayoutRenameKeepsMeaning(fs, r, document, payloads);
      }
    }
  }

  // ------------------------------------------------------- a lost reference

  function ShownBy(name: string): Condition {
    Condition(Predicate, [], Reference(SiblingScope, name), Equals, [Scalar(StringScalar, "")], 0)
  }

  function Field(name: string, condition: Condition): Node {
    Node(name, ScalarKind(Text), false, 0, condition, [], [], [], false, [])
  }

  function Wrapper(layout: string, name: string): Node {
    Node(layout, Collapsible, false, 0, Plain(), [Field(name, Plain())], [], [], false, [])
  }

  /** A field inside a collapsible, and another field beside it that a condition shows. */
  function Sample(layout: string, name: string, other: string, condition: Condition): seq<Node> {
    [Wrapper(layout, name), Field(other, condition)]
  }

  function Stored(name: string): Value {
    Object(map[name := Leaf(Scalar(StringScalar, ""))])
  }

  lemma LeafEvaluates(name: string, condition: Condition, v: Value, payloads: Payloads)
    ensures EvaluateNode(Field(name, condition), v, v, payloads) == [Outcome(0, Visible(condition, v, v))]
  {
    assert Branches(Field(name, condition)) == [];
  }

  lemma WrapperBranches(layout: string, name: string)
    ensures Branches(Wrapper(layout, name))
            == [Branch(Selector(Layout, "", "", ""), "", false, [Field(name, Plain())])]
  {
    assert TreeBranches([]) == [];
  }

  lemma SampleEvaluates(layout: string, name: string, other: string, condition: Condition, v: Value, payloads: Payloads)
    ensures Evaluate(Sample(layout, name, other, condition), v, v, payloads)
            == [Outcome(0, true), Outcome(0, true), Outcome(0, Visible(condition, v, v))]
  {
    hide Branches, NodeSize, FieldsSize;
    var fs, inner := Sample(layout, name, other, condition), Field(name, Plain());
    LeafEvaluates(name, Plain(), v, payloads);
    LeafEvaluates(other, condition, v, payloads);
    WrapperBranches(layout, name);
    assert fs[1..] == [fs[1]] && [fs[1]][1..] == [] && [inner][1..] == [] && [v][1..] == [];
    assert Evaluate([inner], v, v, payloads) == [Outcome(0, true)];
    assert EvaluateScopes([inner], v, [v], payloads) == [Outcome(0, true)];
    assert EvaluateBranches(fs[0], 1, v, v, payloads) == [];
    assert EvaluateBranches(fs[0], 0, v, v, payloads) == [Outcome(0, true)];
  }

  lemma SampleIsAccepted(name: string)
    requires ValidName(name) && |name| <= MAXIMUM_PATH
    ensures Accepted(Plain()) && Accepted(ShownBy(name))
  {
    ValidNameHasNoDot(name);
    SplitWhole(name, '.');
    assert WellShaped(ShownBy(name));
  }

  lemma SampleIsValid(layout: string, name: string, other: string, condition: Condition)
    requires ValidName(name) && ValidName(other) && name != other && Accepted(Plain()) && Accepted(condition)
    ensures ValidateDraft(Sample(layout, name, other, condition)).Ok?
  {
    hide Accepted, ValidName;
    var fs, inner := Sample(layout, name, other, condition), Field(name, Plain());
    assert fs[1..] == [fs[1]] && [fs[1]][1..] == [] && [inner][1..] == [];
    assert Scope([inner], {}) == Scope([], {} + {name});
    assert Scope([fs[1]], {name}) == Scope([], {name} + {other});
    assert {} + {name} == {name};
    assert Scope(fs, {}) == Scope([fs[1]], {name});
  }

  lemma LeafRewrites(name: string, condition: Condition, r: Renaming)
    ensures RewriteNode(Field(name, condition), true, r)
            == Ok((Field(name, RewriteCondition(condition, true, r).0), RewriteCondition(condition, true, r).1))
  {
    assert Branches(Field(name, condition)) == [];
  }

  lemma SampleConditionsRewrite(r: Renaming)
    ensures RewriteCondition(ShownBy(r.name), true, r) == (ShownBy(r.replacement), true)
    ensures RewriteCondition(Plain(), true, r) == (Plain(), false)
  {
    assert r.name[|r.name|..] == "" && r.replacement + "" == r.replacement;
  }

  lemma OneFieldRewrites(n: Node, r: Renaming)
    requires RewriteNode(n, true, r).Ok?
    ensures RewriteFields([n], true, r) == Ok(([RewriteNode(n, true, r).value.0], RewriteNode(n, true, r).value.1))
  {
    assert [n][1..] == [] && RewriteFields([], true, r) == Ok(([], false));
    assert [RewriteNode(n, true, r).value.0] + [] == [RewriteNode(n, true, r).value.0];
  }

  lemma WrapperRewrites(layout: string, r: Renaming)
    ensures RewriteNode(Wrapper(layout, r.name), true, r) == Ok((Wrapper(layout, r.name), false))
  {
    hide RewriteCondition, NodeSize, FieldsSize, Branches, RewriteFields;
    var n, inner := Wrapper(layout, r.name), Field(r.name, Plain());
    SampleConditionsRewrite(r);
    LeafRewrites(r.name, Plain(), r);
    WrapperBranches(layout, r.name);
    OneFieldRewrites(inner, r);
    assert RewriteBranches(n, n, 1, false, true, r) == Ok((n, false));
    assert RewriteBranches(n, n, 0, false, true, r) == Ok((n, false));
  }

  lemma SampleRewrites(layout: string, other: string, r: Renaming)
    ensures RewriteFields(Sample(layout, r.name, other, ShownBy(r.name)), true, r)
            == Ok((Sample(layout, r.name, other, ShownBy(r.replacement)), true))
  {
    hide RewriteNode, RewriteCondition, NodeSize, FieldsSize;
    var fs := Sample(layout, r.name, other, ShownBy(r.name));
    SampleConditionsRewrite(r);
    WrapperRewrites(layout, r);
    LeafRewrites(other, ShownBy(r.name), r);
    OneFieldRewrites(fs[1], r);
    assert fs[1..] == [fs[1]];
    var out := Sample(layout, r.name, other, ShownBy(r.replacement));
    assert [out[0]] + [out[1]] == out;
  }

  lemma SampleIsIndexed(name: string, other: string, condition: Condition)
    requires name != other
    ensures IndexOf(Sample(name, name, other, condition), name) == Ok(0)
  {
    var fs := Sample(name, name, other, condition);
    assert fs[1..] == [fs[1]] && [fs[1]][1..] == [];
    assert Count([fs[1]], name) == 0;
  }

  lemma SampleReads(name: string, path: string)
    requires '.' !in name && '.' !in path
    ensures Visible(ShownBy(path), Stored(name), Stored(name)) <==> path == name
  {
    SplitWhole(path, '.');
    assert [path][1..] == [];
    assert Lookup(Stored(name), [path]) == Member(Stored(name), path);
  }

  /**
   * A layout may share its name with a field inside it. Renaming the layout is then accepted,
   * rewrites the references to that field, and hides on a stored document what they showed.
   */
  lemma LayoutRenameLosesReferences(r: Renaming, other: string, payloads: Payloads)
    requires ValidName(r.name) && |r.name| <= MAXIMUM_PATH && ValidName(other) && other != r.name
    requires ValidName(r.replacement) && |r.replacement| <= MAXIMUM_PATH && r.replacement != r.name
    ensures var before := Sample(r.name, r.name, other, ShownBy(r.name));
            var after := Sample(r.replacement, r.name, other, ShownBy(r.replacement));
            var document := Stored(r.name);
            && ValidateDraft(before).Ok? && RenameDraft(before, r) == Ok(after)
            && Evaluate(before, document, document, payloads) == [Outcome(0, true), Outcome(0, true), Outcome(0, true)]
            && Evaluate(after, document, document, payloads) == [Outcome(0, true), Outcome(0, true), Outcome(0, false)]
  {
    hide Evaluate, RewriteFields, ValidateDraft, IndexOf, Visible, Accepted;
    var before, next := Sample(r.name, r.name, other, ShownBy(r.name)),
                        Sample(r.replacement, r.name, other, ShownBy(r.name));
    SampleIsAccepted(r.name);
    SampleIsValid(r.name, r.name, other, ShownBy(r.name));
    SampleIsValid(r.replacement, r.name, other, ShownBy(r.name));
    SampleIsIndexed(r.name, other, ShownBy(r.name));
    assert before[0 := before[0].(name := r.replacement)] == next;
    SampleRewrites(r.replacement, other, r);
    ValidNameHasNoDot(r.name);
    ValidNameHasNoDot(r.replacement);
    SampleReads(r.name, r.name);
    SampleReads(r.name, r.replacement);
    SampleEvaluates(r.name, r.name, other, ShownBy(r.name), Stored(r.name), payloads);
    SampleEvaluates(r.replacement, r.name, other, ShownBy(r.replacement), Stored(r.name), payloads);
  }
}
