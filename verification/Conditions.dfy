/** Visibility conditions: when they are accepted, and what they mean on a document. */
module Conditions {
  import opened Separated
  import opened FieldGraph

  // ------------------------------------------------------------ validation

  const MAXIMUM_DEPTH := 32
  const MAXIMUM_NODES := 256
  const MAXIMUM_SEGMENTS := 64
  const MAXIMUM_PATH := 4096

  predicate NameCharacter(c: char) {
    'a' <= c <= 'z' || 'A' <= c <= 'Z' || '0' <= c <= '9' || c == '_'
  }

  predicate ValidName(s: string) {
    s != "" && 'a' <= s[0] <= 'z' && forall i | 0 <= i < |s| :: NameCharacter(s[i])
  }

  predicate ValidReference(r: Reference) {
    var segments := Split(r.path, '.');
    && r.scope != NoScope
    && |segments| <= MAXIMUM_SEGMENTS
    && |r.path| <= MAXIMUM_PATH
    && forall i | 0 <= i < |segments| :: ValidName(segments[i])
  }

  predicate UnsetPredicate(c: Condition) {
    c.reference == Reference(NoScope, "") && c.operator == NoOperator && c.values == []
  }

  predicate DistinctScalars(vs: seq<Scalar>) {
    forall i, j | 0 <= i < j < |vs| :: vs[i] != vs[j]
  }

  predicate OneKind(vs: seq<Scalar>) {
    forall i | 0 <= i < |vs| :: vs[i].kind == vs[0].kind
  }

  /** The declaration rules of one condition node, apart from its children. */
  predicate WellShaped(c: Condition) {
    c.issues == 0 &&
    match c.kind
    case NoCondition => false
    case All | Any => |c.conditions| >= 2 && UnsetPredicate(c)
    case Not => |c.conditions| == 1 && UnsetPredicate(c)
    case Predicate =>
      && |c.conditions| == 0
      && ValidReference(c.reference)
      && (match c.operator
          case NoOperator => false
          case Equals | NotEquals => |c.values| == 1
          case OneOf => |c.values| > 0)
      && DistinctScalars(c.values)
      && OneKind(c.values)
  }

  /** Walks the tree as the validator does: `nodes` counts every node met, limits stop a descent. */
  function Validate(c: Condition, depth: nat, nodes: nat): (bool, nat)
    decreases c, 0
  {
    if depth > MAXIMUM_DEPTH || nodes + 1 > MAXIMUM_NODES then (false, nodes + 1)
    else
      var (ok, count) := ValidateAll(c.conditions, depth + 1, nodes + 1);
      (WellShaped(c) && ok, count)
  }

  function ValidateAll(cs: seq<Condition>, depth: nat, nodes: nat): (bool, nat)
    decreases cs, 0
  {
    if cs == [] then (true, nodes)
    else
      var (first, count) := Validate(cs[0], depth, nodes);
      var (rest, total) := ValidateAll(cs[1..], depth, count);
      (first && rest, total)
  }

  predicate Accepted(c: Condition) {
    c.kind == NoCondition || Validate(c, 0, 0).0
  }

  function Nodes(c: Condition): (n: nat)
    ensures n >= 1
    decreases c, 0
  {
    1 + AllNodes(c.conditions)
  }

  function AllNodes(cs: seq<Condition>): nat
    decreases cs, 0
  {
    if cs == [] then 0 else Nodes(cs[0]) + AllNodes(cs[1..])
  }

  /** Every node of the tree is well shaped and none lies deeper than `room` levels. */
  predicate Sound(c: Condition, room: int)
    decreases c, 0
  {
    room >= 0 && WellShaped(c) && AllSound(c.conditions, room - 1)
  }

  predicate AllSound(cs: seq<Condition>, room: int)
    decreases cs, 0
  {
    cs != [] ==> Sound(cs[0], room) && AllSound(cs[1..], room)
  }

  lemma {:induction false} ValidateMeaning(c: Condition, depth: nat, nodes: nat)
    ensures var (ok, count) := Validate(c, depth, nodes);
            && count >= nodes
            && (ok ==> count == nodes + Nodes(c))
            && (ok <==> Sound(c, MAXIMUM_DEPTH - depth) && nodes + Nodes(c) <= MAXIMUM_NODES)
    decreases c, 0
  {
    if depth <= MAXIMUM_DEPTH && nodes < MAXIMUM_NODES {
      ValidateAllMeaning(c.conditions, depth + 1, nodes + 1);
    }
  }

  lemma {:induction false} ValidateAllMeaning(cs: seq<Condition>, depth: nat, nodes: nat)
    ensures var (ok, count) := ValidateAll(cs, depth, nodes);
            && count >= nodes
            && (ok ==> count == nodes + AllNodes(cs))
            && (ok <==> AllSound(cs, MAXIMUM_DEPTH - depth) &&
                        (cs != [] ==> nodes + AllNodes(cs) <= MAXIMUM_NODES))
    decreases cs, 0
  {
    if cs != [] {
      ValidateMeaning(cs[0], depth, nodes);
      ValidateAllMeaning(cs[1..], depth, Validate(cs[0], depth, nodes).1);
    }
  }

  // --------------------------------------------------------------- meaning

  datatype Value = Absent | Leaf(scalar: Scalar) | Object(members: map<string, Value>) | List(items: seq<Value>)

  function Member(v: Value, name: string): Value {
    if v.Object? && name in v.members then v.members[name] else Absent
  }

  /** The value at a path of member names, absent when a step leaves the stored objects. */
  function Lookup(v: Value, path: seq<string>): Value
    decreases |path|
  {
    if path == [] then v else Lookup(Member(v, path[0]), path[1..])
  }

  /**
   * A condition is accepted exactly when every node is well shaped, none lies more than 32
   * levels below the root, and there are at most 256 of them.
   */
  lemma AcceptedMeaning(c: Condition)
    ensures Accepted(c) <==>
            c.kind == NoCondition || (Sound(c, 32) && Nodes(c) <= 256)
  {
    ValidateMeaning(c, 0, 0);
  }

  /** A sibling reference starts at the enclosing object or row, any other at the document. */
  function Read(r: Reference, root: Value, scope: Value): Value {
    Lookup(if r.scope == SiblingScope then scope else root, Split(r.path, '.'))
  }

  predicate Compare(op: Operator, actual: Value, values: seq<Scalar>) {
    match op
    case NoOperator => false
    case Equals => |values| > 0 && actual == Leaf(values[0])
    case NotEquals => |values| > 0 && actual != Leaf(values[0])
    case OneOf => exists i | 0 <= i < |values| :: actual == Leaf(values[i])
  }

  /** An absent condition always shows its field. */
  predicate Visible(c: Condition, root: Value, scope: Value) {
    match c.kind
    case NoCondition => true
    case All => forall i | 0 <= i < |c.conditions| :: Visible(c.conditions[i], root, scope)
    case Any => exists i | 0 <= i < |c.conditions| :: Visible(c.conditions[i], root, scope)
    case Not => |c.conditions| > 0 && !Visible(c.conditions[0], root, scope)
    case Predicate => Compare(c.operator, Read(c.reference, root, scope), c.values)
  }

  /** Payloads of one embedded case inside a plugin value; plugin JSON is the plugin's own. */
  type Payloads = (Value, Selector) -> seq<Value>

  function Rows(v: Value): seq<Value> {
    if v.List? then v.items else []
  }

  const DISCRIMINATOR := "blockType"

  function CaseRows(rows: seq<Value>, slug: string): seq<Value> {
    if rows == [] then []
    else
      var rest := CaseRows(rows[1..], slug);
      if Member(rows[0], DISCRIMINATOR) == Leaf(Scalar(StringScalar, slug)) then [rows[0]] + rest else rest
  }

  /** The objects or rows that a branch's fields are stored in, beneath one scope object. */
  function BranchScopes(n: Node, s: Selector, scope: Value, payloads: Payloads): seq<Value> {
    var stored := Member(scope, n.name);
    match s.boundary
    case Layout => [scope]
    case StoredObject | NamedTabBoundary => [stored]
    case RepeatedArray => Rows(stored)
    case BlockCase => CaseRows(Rows(stored), s.slug)
    case EmbeddedCaseBoundary => payloads(stored, s)
    case _ => []
  }

  /** One placed field and whether its condition shows it. */
  datatype Outcome = Outcome(policies: nat, visible: bool)

  /** Every condition of the graph, evaluated at every place the document stores it. */
  function Evaluate(fs: seq<Node>, root: Value, scope: Value, payloads: Payloads): seq<Outcome>
    decreases FieldsSize(fs), 2, 0
  {
    if fs == [] then []
    else EvaluateNode(fs[0], root, scope, payloads) + Evaluate(fs[1..], root, scope, payloads)
  }

  function EvaluateNode(n: Node, root: Value, scope: Value, payloads: Payloads): seq<Outcome>
    decreases NodeSize(n), 1, 0
  {
    [Outcome(n.policies, Visible(n.visibleWhen, root, scope))] +
    EvaluateBranches(n, 0, root, scope, payloads)
  }

  function EvaluateBranches(n: Node, k: nat, root: Value, scope: Value, payloads: Payloads): seq<Outcome>
    requires k <= |Branches(n)|
    decreases NodeSize(n), 0, |Branches(n)| - k
  {
    if k == |Branches(n)| then []
    else
      var b := Branches(n)[k];
      BranchAt(n, k);
      EvaluateScopes(b.fields, root, BranchScopes(n, b.selector, scope, payloads), payloads) +
      EvaluateBranches(n, k + 1, root, scope, payloads)
  }

  function EvaluateScopes(fs: seq<Node>, root: Value, scopes: seq<Value>, payloads: Payloads): seq<Outcome>
    decreases FieldsSize(fs), 3, |scopes|
  {
    if scopes == [] then []
    else Evaluate(fs, root, scopes[0], payloads) + EvaluateScopes(fs, root, scopes[1..], payloads)
  }
}
