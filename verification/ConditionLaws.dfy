/** What conditions promise their authors: boolean laws, comparisons, and which declarations are accepted. */
module ConditionLaws {
  import opened Separated
  import opened FieldGraph
  import opened Conditions

  // ------------------------------------------------------------- combination

  function AllOf(cs: seq<Condition>): Condition {
    Condition(All, cs, Reference(NoScope, ""), NoOperator, [], 0)
  }

  function AnyOf(cs: seq<Condition>): Condition {
    Condition(Any, cs, Reference(NoScope, ""), NoOperator, [], 0)
  }

  function NotOf(c: Condition): Condition {
    Condition(Not, [c], Reference(NoScope, ""), NoOperator, [], 0)
  }

  function Negations(cs: seq<Condition>): seq<Condition> {
    seq(|cs|, i requires 0 <= i < |cs| => NotOf(cs[i]))
  }

  /** How many of the conditions hold. */
  function Holding(cs: seq<Condition>, root: Value, scope: Value): nat {
    if cs == [] then 0 else (if Visible(cs[0], root, scope) then 1 else 0) + Holding(cs[1..], root, scope)
  }

  lemma {:induction false} HoldingCounts(cs: seq<Condition>, root: Value, scope: Value)
    ensures Holding(cs, root, scope) <= |cs|
    ensures Holding(cs, root, scope) == |cs| <==> forall i | 0 <= i < |cs| :: Visible(cs[i], root, scope)
    ensures Holding(cs, root, scope) > 0 <==> exists i | 0 <= i < |cs| :: Visible(cs[i], root, scope)
    decreases |cs|
  {
    hide Visible;
    if cs != [] {
      HoldingCounts(cs[1..], root, scope);
      assert forall i | 1 <= i < |cs| :: cs[i] == cs[1..][i - 1];
    }
  }

  lemma NotNegates(c: Condition, root: Value, scope: Value)
    ensures Visible(NotOf(c), root, scope) != Visible(c, root, scope)
  {
    assert NotOf(c).conditions[0] == c;
  }

  lemma AllCounts(cs: seq<Condition>, root: Value, scope: Value)
    ensures Visible(AllOf(cs), root, scope) <==> Holding(cs, root, scope) == |cs|
  {
    HoldingCounts(cs, root, scope);
    hide Holding;
  }

  lemma AnyCounts(cs: seq<Condition>, root: Value, scope: Value)
    ensures Visible(AnyOf(cs), root, scope) <==> Holding(cs, root, scope) > 0
  {
    HoldingCounts(cs, root, scope);
    hide Holding;
  }

  /** Of the negations those hold that do not hold themselves. */
  lemma {:induction false} NegationsCount(cs: seq<Condition>, root: Value, scope: Value)
    ensures Holding(Negations(cs), root, scope) == |cs| - Holding(cs, root, scope)
    decreases |cs|
  {
    hide Visible, NotOf;
    if cs != [] {
      NotNegates(cs[0], root, scope);
      assert Negations(cs)[1..] == Negations(cs[1..]);
      NegationsCount(cs[1..], root, scope);
    }
  }

  /**
   * All holds when every one of its conditions does, Any when at least one does, Not when its
   * condition does not; the negation of the one is the other of the negations.
   */
  lemma BooleanLaws(cs: seq<Condition>, c: Condition, root: Value, scope: Value)
    ensures Visible(AllOf(cs), root, scope) <==> Holding(cs, root, scope) == |cs|
    ensures Visible(AnyOf(cs), root, scope) <==> Holding(cs, root, scope) > 0
    ensures Visible(NotOf(c), root, scope) != Visible(c, root, scope)
    ensures Visible(NotOf(AllOf(cs)), root, scope) == Visible(AnyOf(Negations(cs)), root, scope)
    ensures Visible(NotOf(AnyOf(cs)), root, scope) == Visible(AllOf(Negations(cs)), root, scope)
  {
    hide Visible, Holding, NotOf, AllOf, AnyOf;
    HoldingCounts(cs, root, scope);
    AllCounts(cs, root, scope);
    AnyCounts(cs, root, scope);
    AllCounts(Negations(cs), root, scope);
    AnyCounts(Negations(cs), root, scope);
    NegationsCount(cs, root, scope);
    NotNegates(c, root, scope);
    NotNegates(AllOf(cs), root, scope);
    NotNegates(AnyOf(cs), root, scope);
  }

  // -------------------------------------------------------------- comparison

  function Comparing(ref: Reference, op: Operator, values: seq<Scalar>): Condition {
    Condition(Predicate, [], ref, op, values, 0)
  }

  /** A document that holds `leaf` at a path of names, and nothing else. */
  function Along(path: seq<string>, leaf: Value): Value {
    if path == [] then leaf else Object(map[path[0] := Along(path[1..], leaf)])
  }

  lemma {:induction false} AlongReads(path: seq<string>, leaf: Value)
    ensures Lookup(Along(path, leaf), path) == leaf
    decreases |path|
  {
    if path != [] { AlongReads(path[1..], leaf); }
  }

  /**
   * Equality holds exactly on the documents, or for siblings the scopes, that store that scalar at
   * the path; inequality is its negation, and one-of holds when one of the equalities does.
   */
  lemma ComparisonLaws(ref: Reference, v: Scalar, values: seq<Scalar>, root: Value, scope: Value)
    requires ref.scope != NoScope
    ensures Visible(Comparing(ref, NotEquals, [v]), root, scope) != Visible(Comparing(ref, Equals, [v]), root, scope)
    ensures Visible(Comparing(ref, OneOf, values), root, scope)
            <==> exists i | 0 <= i < |values| :: Visible(Comparing(ref, Equals, [values[i]]), root, scope)
    ensures var path := Split(ref.path, '.');
            && (ref.scope == RootScope ==>
                  && Visible(Comparing(ref, Equals, [v]), Along(path, Leaf(v)), scope)
                  && !Visible(Comparing(ref, Equals, [v]), Along(path, Absent), scope))
            && (ref.scope == SiblingScope ==>
                  && Visible(Comparing(ref, Equals, [v]), root, Along(path, Leaf(v)))
                  && !Visible(Comparing(ref, Equals, [v]), root, Along(path, Absent)))
  {
    var path := Split(ref.path, '.');
    AlongReads(path, Leaf(v));
    AlongReads(path, Absent);
  }

  // -------------------------------------------------------------- declaration

  /** Which declarations are well shaped, kind by kind. */
  lemma DeclarationRules(cs: seq<Condition>, ref: Reference, op: Operator, values: seq<Scalar>)
    ensures WellShaped(AllOf(cs)) <==> |cs| >= 2
    ensures WellShaped(AnyOf(cs)) <==> |cs| >= 2
    ensures WellShaped(Condition(Not, cs, Reference(NoScope, ""), NoOperator, [], 0)) <==> |cs| == 1
    ensures WellShaped(Comparing(ref, op, values)) <==>
              && ValidReference(ref)
              && ((op == OneOf && |values| >= 1) || ((op == Equals || op == NotEquals) && |values| == 1))
              && forall i, j | 0 <= i < j < |values| :: values[i] != values[j] && values[i].kind == values[j].kind
  {
    if forall i, j | 0 <= i < j < |values| :: values[i] != values[j] && values[i].kind == values[j].kind {
      assert forall i | 0 <= i < |values| :: values[i].kind == values[0].kind;
    }
  }

  /** What does not belong to a kind must be left out, and no operand may have failed to normalise. */
  lemma NothingBesides(c: Condition)
    requires WellShaped(c)
    ensures c.issues == 0 && c.kind != NoCondition
    ensures c.kind != Predicate ==> c.reference == Reference(NoScope, "") && c.operator == NoOperator && c.values == []
    ensures c.kind == Predicate ==> c.conditions == []
  {
  }

  /** A path is at most 64 names and 4096 characters; a name is a lower-case letter and letters, digits, `_`. */
  lemma ReferenceRules(scope: ReferenceScope, names: seq<string>)
    requires names != [] && forall i | 0 <= i < |names| :: '.' !in names[i]
    ensures ValidReference(Reference(scope, Separated.Join(names, '.'))) <==>
              && scope != NoScope && |names| <= 64 && |Separated.Join(names, '.')| <= 4096
              && forall i | 0 <= i < |names| ::
                   && names[i] != "" && 'a' <= names[i][0] && names[i][0] <= 'z'
                   && forall c | c in names[i] ::
                        ('a' <= c && c <= 'z') || ('A' <= c && c <= 'Z') || ('0' <= c && c <= '9') || c == '_'
  {
    SplitJoin(names, '.');
    hide Split, Separated.Join;
    forall i | 0 <= i < |names|
      ensures ValidName(names[i]) <==>
                && names[i] != "" && 'a' <= names[i][0] && names[i][0] <= 'z'
                && forall c | c in names[i] ::
                     ('a' <= c && c <= 'z') || ('A' <= c && c <= 'Z') || ('0' <= c && c <= '9') || c == '_'
    {
      NameRules(names[i]);
    }
  }

  lemma NameRules(s: string)
    ensures ValidName(s) <==>
              && s != "" && 'a' <= s[0] && s[0] <= 'z'
              && forall c | c in s ::
                   ('a' <= c && c <= 'z') || ('A' <= c && c <= 'Z') || ('0' <= c && c <= '9') || c == '_'
  {
    assert forall i | 0 <= i < |s| :: s[i] in s;
  }
}
