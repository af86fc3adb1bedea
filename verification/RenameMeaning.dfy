/** A rename keeps the meaning of every visibility condition, and exactly when it does. */
module RenameMeaning {
  import opened Wrappers
  import opened Separated
  import opened FieldGraph
  import opened Conditions
  import opened DraftRules
  import opened Rename

  /** The stored object after its member `r.name` moved to `r.replacement`. */
  function MoveKey(v: Value, r: Renaming): Value {
    if !v.Object? then v
    else
      var rest := v.members - {r.name, r.replacement};
      Object(if r.name in v.members then rest[r.replacement := v.members[r.name]] else rest)
  }

  predicate Proper(r: Renaming) {
    r.name != r.replacement && '.' !in r.name && '.' !in r.replacement
  }

  function Head(path: string): string {
    Split(path, '.')[0]
  }

  // ------------------------------------------------------- one reference

  lemma RewrittenPath(path: string, r: Renaming)
    requires Proper(r)
    ensures Follows(path, r.name) <==> Head(path) == r.name
    ensures Split(RewritePath(path, r), '.') ==
            if Head(path) == r.name then [r.replacement] + Split(path, '.')[1..] else Split(path, '.')
  {
    FirstPart(path, r.name, '.');
    if path == r.name {
      SplitWhole(path, '.');
      SplitWhole(r.replacement, '.');
      assert RewritePath(path, r) == r.replacement;
    } else if r.name + "." <= path {
      var rest := path[|r.name| + 1..];
      assert path[|r.name|..] == "." + rest;
      assert RewritePath(path, r) == r.replacement + ['.'] + rest;
      SplitFirst(r.replacement, rest, '.');
    }
  }

  /** A document whose only content is a leaf at `path`. */
  function Spike(path: seq<string>): Value {
    if path == [] then Leaf(Scalar(StringScalar, "")) else Object(map[path[0] := Spike(path[1..])])
  }

  lemma {:induction false} SpikeHolds(path: seq<string>)
    ensures Lookup(Spike(path), path) != Absent
    decreases |path|
  {
    if path != [] { SpikeHolds(path[1..]); }
  }

  lemma {:induction false} LookupAbsent(path: seq<string>)
    ensures Lookup(Absent, path) == Absent
    decreases |path|
  {
    if path != [] { LookupAbsent(path[1..]); }
  }

  /**
   * A rewritten reference reads the moved document as it read the old one, on every document,
   * exactly when it does not start with the replacement name.
   */
  lemma RewrittenReadsSame(path: string, r: Renaming)
    requires Proper(r)
    ensures (forall v: Value :: Lookup(MoveKey(v, r), Split(RewritePath(path, r), '.')) == Lookup(v, Split(path, '.')))
            <==> Head(path) != r.replacement
  {
    RewrittenPath(path, r);
    var segments := Split(path, '.');
    if Head(path) == r.replacement {
      var v := Spike(segments);
      SpikeHolds(segments);
      LookupAbsent(segments[1..]);
      assert Lookup(MoveKey(v, r), Split(RewritePath(path, r), '.')) != Lookup(v, segments);
    }
  }

  /**
   * A reference that is left alone reads the moved document as it read the old one exactly when
   * it starts with neither name.
   */
  lemma UntouchedReadsSame(path: string, r: Renaming)
    requires Proper(r)
    ensures (forall v: Value :: Lookup(MoveKey(v, r), Split(path, '.')) == Lookup(v, Split(path, '.')))
            <==> Head(path) != r.name && Head(path) != r.replacement
  {
    var segments := Split(path, '.');
    if Head(path) == r.name || Head(path) == r.replacement {
      var v := Spike(segments);
      SpikeHolds(segments);
      LookupAbsent(segments[1..]);
      assert Lookup(MoveKey(v, r), segments) != Lookup(v, segments);
    }
  }

  /**
   * Renaming a layout moves no stored member, yet its references are rewritten: the meaning is
   * kept exactly when no such reference starts with the layout's name.
   */
  lemma LayoutRenameReadsSame(path: string, r: Renaming)
    requires Proper(r)
    ensures (forall v: Value :: Lookup(v, Split(RewritePath(path, r), '.')) == Lookup(v, Split(path, '.')))
            <==> Head(path) != r.name
  {
    RewrittenPath(path, r);
    var segments := Split(path, '.');
    if Head(path) == r.name {
      var v := Spike(segments);
      SpikeHolds(segments);
      LookupAbsent(segments[1..]);
      assert Lookup(v, Split(RewritePath(path, r), '.')) != Lookup(v, segments);
    }
  }

  // ------------------------------------------------- conditions and nodes

  /** The reference starts with a name that the rename leaves meaningful. */
  predicate SafeReference(ref: Reference, same: bool, r: Renaming) {
    if ref.scope == SiblingScope then same ==> Head(ref.path) != r.replacement
    else Head(ref.path) != r.replacement && (InScope(ref.scope, same, r) || Head(ref.path) != r.name)
  }

  predicate SafeCondition(c: Condition, same: bool, r: Renaming) {
    && (c.kind == Predicate ==> SafeReference(c.reference, same, r))
    && forall i | 0 <= i < |c.conditions| :: SafeCondition(c.conditions[i], same, r)
  }

  predicate Safe(fs: seq<Node>, same: bool, r: Renaming)
    decreases FieldsSize(fs), 2
  {
    fs == [] || (SafeNode(fs[0], same, r) && Safe(fs[1..], same, r))
  }

  predicate SafeNode(n: Node, same: bool, r: Renaming)
    decreases NodeSize(n), 1
  {
    SafeCondition(n.visibleWhen, same, r) &&
    forall k | 0 <= k < |Branches(n)| ::
      BranchAt(n, k); Safe(Branches(n)[k].fields, SharesScope(Branches(n)[k], same), r)
  }

  lemma ReferenceKept(ref: Reference, same: bool, r: Renaming, root: Value, scope: Value)
    requires Proper(r) && SafeReference(ref, same, r)
    ensures Read(RewriteReference(ref, same, r), MoveKey(root, r), if same then MoveKey(scope, r) else scope) ==
            Read(ref, root, scope)
  {
    RewrittenPath(ref.path, r);
  }

  lemma {:induction false} ConditionKept(c: Condition, same: bool, r: Renaming, root: Value, scope: Value)
    requires Proper(r) && SafeCondition(c, same, r)
    ensures Visible(RewriteCondition(c, same, r).0, MoveKey(root, r), if same then MoveKey(scope, r) else scope) <==>
            Visible(c, root, scope)
    decreases c
  {
    hide Read, RewriteReference, MoveKey, SafeReference;
    var d := RewriteCondition(c, same, r).0;
    if c.kind == Predicate {
      ReferenceKept(c.reference, same, r, root, scope);
    } else {
      forall i | 0 <= i < |c.conditions|
        ensures d.conditions[i] == RewriteCondition(c.conditions[i], same, r).0
        ensures Visible(d.conditions[i], MoveKey(root, r), if same then MoveKey(scope, r) else scope) <==>
                Visible(c.conditions[i], root, scope)
      {
        ConditionsAt(c.conditions, same, r, i);
        ConditionKept(c.conditions[i], same, r, root, scope);
      }
    }
  }

  lemma {:induction false} ConditionsAt(cs: seq<Condition>, same: bool, r: Renaming, i: nat)
    requires i < |cs|
    ensures RewriteConditions(cs, same, r).0[i] == RewriteCondition(cs[i], same, r).0
    decreases |cs|
  {
    if i > 0 { ConditionsAt(cs[1..], same, r, i - 1); }
  }

  /** The node as the renamed draft holds it. */
  function Renamed(n: Node, r: Renaming): Node {
    n.(name := r.replacement)
  }

  predicate ClearNames(names: seq<string>, r: Renaming) {
    r.name !in names && r.replacement !in names
  }

  /** `n'` is `n`, or the renamed stored child of a scope that the rename applies to. */
  predicate Source(n: Node, n': Node, same: bool, r: Renaming) {
    if n' == n then same ==> ClearNames(NodeClaims(n), r)
    else same && !Flattened(n.kind) && n.name == r.name && n' == Renamed(n, r)
  }

  predicate Sources(fs: seq<Node>, next: seq<Node>, same: bool, r: Renaming) {
    |fs| == |next| && forall i | 0 <= i < |fs| :: Source(fs[i], next[i], same, r)
  }

  function Moved(v: Value, same: bool, r: Renaming): Value {
    if same then MoveKey(v, r) else v
  }

  /** Layout branches are exactly the children of flattened nodes. */
  lemma BranchKind(n: Node, k: nat)
    requires WellFormedNode(n) && k < |Branches(n)|
    ensures Branches(n)[k].selector.boundary == Layout <==> Flattened(n.kind)
    ensures Flattened(n.kind) ==> Branches(n)[k].fields == n.fields
  {
    assert TreeBranches([]) == [];
    hide TreeBranches, NodeSize, FieldsSize, WellFormed;
    BranchAt(n, k);
  }

  lemma MemberKept(n: Node, n': Node, same: bool, r: Renaming, scope: Value)
    requires Proper(r) && !Flattened(n.kind) && Source(n, n', same, r)
    ensures Member(Moved(scope, same, r), n'.name) == Member(scope, n.name)
  {
    assert n' == n && same ==> n.name == NodeClaims(n)[0];
  }

  /** The rename leaves the objects and rows of every branch where the document stores them. */
  lemma ScopesKept(n: Node, n': Node, k: nat, same: bool, r: Renaming, scope: Value, payloads: Payloads)
    requires Proper(r) && WellFormedNode(n) && Source(n, n', same, r) && k < |Branches(n)|
    ensures var b := Branches(n)[k]; var before := BranchScopes(n, b.selector, scope, payloads);
            BranchScopes(n', b.selector, Moved(scope, same, r), payloads) ==
              if SharesScope(b, same) then [MoveKey(scope, r)] else before
    ensures SharesScope(Branches(n)[k], same) ==> BranchScopes(n, Branches(n)[k].selector, scope, payloads) == [scope]
  {
    BranchKind(n, k);
    if !Flattened(n.kind) {
      MemberKept(n, n', same, r, scope);
    }
    hide Branches, Member, MoveKey, NodeClaims, WellFormedNode;
  }

  lemma {:induction false} FieldsKept(fs: seq<Node>, next: seq<Node>, same: bool, r: Renaming,
                                      root: Value, scope: Value, payloads: Payloads)
    requires Proper(r) && WellFormed(fs) && Safe(fs, same, r) && Sources(fs, next, same, r)
    requires RewriteFields(next, same, r).Ok?
    ensures Evaluate(RewriteFields(next, same, r).value.0, MoveKey(root, r), Moved(scope, same, r), payloads) ==
            Evaluate(fs, root, scope, payloads)
    decreases FieldsSize(fs), 2, 0
  {
    hide WellFormedNode, SafeNode, RewriteNode, EvaluateNode, Source, MoveKey, Moved;
    if fs != [] {
      NodeKept(fs[0], next[0], same, r, root, scope, payloads);
      assert forall i | 0 <= i < |fs| - 1 :: fs[1..][i] == fs[i + 1] && next[1..][i] == next[i + 1];
      FieldsKept(fs[1..], next[1..], same, r, root, scope, payloads);
      var out := RewriteFields(next, same, r).value.0;
      assert out[1..] == RewriteFields(next[1..], same, r).value.0;
    }
  }

  lemma SourceShape(n: Node, n': Node, same: bool, r: Renaming)
    requires WellFormedNode(n) && SafeNode(n, same, r) && Source(n, n', same, r)
    ensures Branches(n') == Branches(n) && WellFormedNode(n') && SafeNode(n', same, r)
  {
    hide Branches, WellFormed, Safe, SafeCondition, NodeClaims, NodeSize;
    BranchesOfSame(n, n');
  }

  lemma {:induction false} NodeKept(n: Node, n': Node, same: bool, r: Renaming,
                                    root: Value, scope: Value, payloads: Payloads)
    requires Proper(r) && WellFormedNode(n) && SafeNode(n, same, r) && Source(n, n', same, r)
    requires RewriteNode(n', same, r).Ok?
    ensures EvaluateNode(RewriteNode(n', same, r).value.0, MoveKey(root, r), Moved(scope, same, r), payloads) ==
            EvaluateNode(n, root, scope, payloads)
    decreases NodeSize(n), 1, 0
  {
    hide Branches, RewriteNode, RewriteBranches, WellFormedNode, EvaluateBranches, Visible, RewriteCondition,
      MoveKey, SafeCondition, NodeSize, FieldsSize;
    SourceShape(n, n', same, r);
    RewriteNodeOutcome(n', same, r);
    var m := RewriteNode(n', same, r).value.0;
    ConditionKept(n.visibleWhen, same, r, root, scope);
    BranchesKept(n, n', m, 0, same, r, root, scope, payloads);
  }

  lemma {:induction false} BranchesKept(n: Node, n': Node, m: Node, k: nat, same: bool, r: Renaming,
                                        root: Value, scope: Value, payloads: Payloads)
    requires Proper(r) && WellFormedNode(n) && SafeNode(n, same, r) && Source(n, n', same, r)
    requires Branches(n') == Branches(n) && Progress(n', m, |Branches(n)|, same, r)
    requires !NodeBlocked(n', same, r)
    requires k <= |Branches(n)|
    ensures EvaluateBranches(m, k, MoveKey(root, r), Moved(scope, same, r), payloads) ==
            EvaluateBranches(n, k, root, scope, payloads)
    decreases NodeSize(n), 0, |Branches(n)| - k
  {
    hide Branches, Visible, RewriteCondition, RewriteFields, MoveKey, Moved, SafeNode, NodeSize, FieldsSize,
      Evaluate, WellFormedNode, Source, NodeBlocked, BranchScopes, EvaluateScopes;
    if k < |Branches(n)| {
      BranchAt(n, k);
      BranchKept(n, n', m, k, same, r, root, scope, payloads);
      BranchesKept(n, n', m, k + 1, same, r, root, scope, payloads);
    }
  }

  lemma {:induction false} BranchKept(n: Node, n': Node, m: Node, k: nat, same: bool, r: Renaming,
                                      root: Value, scope: Value, payloads: Payloads)
    requires Proper(r) && WellFormedNode(n) && SafeNode(n, same, r) && Source(n, n', same, r)
    requires Branches(n') == Branches(n) && Progress(n', m, |Branches(n)|, same, r)
    requires !NodeBlocked(n', same, r)
    requires k < |Branches(n)|
    ensures var b, c := Branches(n)[k], Branches(m)[k];
            EvaluateScopes(c.fields, MoveKey(root, r),
                           BranchScopes(m, c.selector, Moved(scope, same, r), payloads), payloads) ==
            EvaluateScopes(b.fields, root, BranchScopes(n, b.selector, scope, payloads), payloads)
    decreases NodeSize(n), 0, 0
  {
    var b := Branches(n)[k];
    var inner := SharesScope(b, same);
    ScopesKept(n, n', k, same, r, scope, payloads);
    BranchSources(n, n', k, same, r);
    hide Branches, Visible, RewriteCondition, RewriteFields, MoveKey, SafeCondition, NodeSize, FieldsSize,
      Evaluate, Safe, WellFormed, Blocked, Needs, DistinctSelectors, Source, EvaluateScopes, Sources, Moved;
    BranchAt(n, k);
    BranchAt(n', k);
    RewriteFieldsOutcome(b.fields, inner, r);
    var scopes := BranchScopes(n, b.selector, scope, payloads);
    assert BranchScopes(m, b.selector, Moved(scope, same, r), payloads) ==
           BranchScopes(n', b.selector, Moved(scope, same, r), payloads);
    ScopeListKept(b.fields, inner, r, root, scopes, payloads);
  }

  /** A shared scope is a layout's, whose children claim the layout's own names. */
  lemma BranchSources(n: Node, n': Node, k: nat, same: bool, r: Renaming)
    requires k < |Branches(n)| && WellFormedNode(n) && Source(n, n', same, r)
    ensures var b := Branches(n)[k]; Sources(b.fields, b.fields, SharesScope(b, same), r)
  {
    hide Branches, WellFormedNode, ClaimedNames;
    BranchKind(n, k);
    if SharesScope(Branches(n)[k], same) {
      ClearFields(n.fields, r);
    }
  }

  lemma {:induction false} ClearFields(fs: seq<Node>, r: Renaming)
    requires ClearNames(ClaimedNames(fs), r)
    ensures forall i | 0 <= i < |fs| :: ClearNames(NodeClaims(fs[i]), r)
  {
    hide NodeClaims;
    if fs != [] {
      assert forall x | x in NodeClaims(fs[0]) :: x in ClaimedNames(fs);
      assert forall x | x in ClaimedNames(fs[1..]) :: x in ClaimedNames(fs);
      ClearFields(fs[1..], r);
      assert forall i | 1 <= i < |fs| :: fs[i] == fs[1..][i - 1];
    }
  }

  lemma {:induction false} ScopeListKept(fs: seq<Node>, inner: bool, r: Renaming, root: Value,
                                         scopes: seq<Value>, payloads: Payloads)
    requires Proper(r) && WellFormed(fs) && Safe(fs, inner, r) && Sources(fs, fs, inner, r)
    requires RewriteFields(fs, inner, r).Ok?
    requires inner ==> |scopes| == 1
    ensures EvaluateScopes(RewriteFields(fs, inner, r).value.0, MoveKey(root, r),
                           if inner then [MoveKey(scopes[0], r)] else scopes, payloads) ==
            EvaluateScopes(fs, root, scopes, payloads)
    decreases FieldsSize(fs), 3, |scopes|
  {
    if scopes != [] {
      FieldsKept(fs, fs, inner, r, root, scopes[0], payloads);
      if !inner { ScopeListKept(fs, inner, r, root, scopes[1..], payloads); }
    }
  }

  // ------------------------------------------------------------ resolution

  /** The node that claims `name` in a flattened scope. */
  function Claimant(fs: seq<Node>, name: string): Option<Node>
    decreases fs
  {
    if fs == [] then None
    else
      var n := fs[0];
      var here := if Flattened(n.kind) then Claimant(n.fields, name) else if n.name == name then Some(n) else None;
      if here.Some? then here else Claimant(fs[1..], name)
  }

  /** A path crosses stored objects only and ends at a stored value. */
  predicate PathResolves(path: seq<string>, fs: seq<Node>)
    decreases |path|
  {
    path != [] &&
    match Claimant(fs, path[0])
    case None => false
    case Some(n) =>
      if |path| == 1 then BoundaryOf(n) == StoredScalar || BoundaryOf(n) == StoredReference
      else (BoundaryOf(n) == StoredObject || BoundaryOf(n) == NamedTabBoundary) && PathResolves(path[1..], n.fields)
  }

  predicate ConditionResolves(c: Condition, root: seq<Node>, siblings: seq<Node>) {
    && (c.kind == Predicate ==>
          match c.reference.scope
          case NoScope => false
          case SiblingScope => PathResolves(Split(c.reference.path, '.'), siblings)
          case RootScope => PathResolves(Split(c.reference.path, '.'), root))
    && forall i | 0 <= i < |c.conditions| :: ConditionResolves(c.conditions[i], root, siblings)
  }

  /** Every reference of `fs` selects a field, siblings in `siblings` and document paths in `root`. */
  predicate Resolves(fs: seq<Node>, root: seq<Node>, siblings: seq<Node>)
    decreases FieldsSize(fs), 2
  {
    fs == [] || (NodeResolves(fs[0], root, siblings) && Resolves(fs[1..], root, siblings))
  }

  predicate NodeResolves(n: Node, root: seq<Node>, siblings: seq<Node>)
    decreases NodeSize(n), 1
  {
    ConditionResolves(n.visibleWhen, root, siblings) &&
    forall k | 0 <= k < |Branches(n)| ::
      BranchAt(n, k);
      var b := Branches(n)[k];
      Resolves(b.fields, root, if b.selector.boundary == Layout then siblings else b.fields)
  }

  lemma {:induction false} ClaimantClaims(fs: seq<Node>, name: string)
    requires Claimant(fs, name).Some?
    ensures name in ClaimedNames(fs)
    decreases fs
  {
    var n := fs[0];
    if Flattened(n.kind) && Claimant(n.fields, name).Some? {
      ClaimantClaims(n.fields, name);
    } else if Flattened(n.kind) || n.name != name {
      ClaimantClaims(fs[1..], name);
    }
  }

  lemma {:induction false} ConditionResolvesSafe(c: Condition, root: seq<Node>,
                                                 siblings: seq<Node>, same: bool, r: Renaming)
    requires r.root && r.replacement !in ClaimedNames(root) && (same ==> siblings == root)
    requires ConditionResolves(c, root, siblings)
    ensures SafeCondition(c, same, r)
  {
    hide ClaimedNames, Claimant;
    if c.kind == Predicate && (same || c.reference.scope == RootScope) {
      ClaimantClaims(root, Head(c.reference.path));
    }
    forall i | 0 <= i < |c.conditions| ensures SafeCondition(c.conditions[i], same, r) {
      ConditionResolvesSafe(c.conditions[i], root, siblings, same, r);
    }
  }

  lemma {:induction false} ResolvesSafe(fs: seq<Node>, root: seq<Node>, siblings: seq<Node>, same: bool, r: Renaming)
    requires r.root && r.replacement !in ClaimedNames(root) && (same ==> siblings == root)
    requires Resolves(fs, root, siblings)
    ensures Safe(fs, same, r)
    decreases FieldsSize(fs), 2
  {
    hide NodeResolves, SafeNode, ClaimedNames;
    if fs != [] {
      NodeResolvesSafe(fs[0], root, siblings, same, r);
      ResolvesSafe(fs[1..], root, siblings, same, r);
    }
  }

  lemma {:induction false} NodeResolvesSafe(n: Node, root: seq<Node>, siblings: seq<Node>, same: bool, r: Renaming)
    requires r.root && r.replacement !in ClaimedNames(root) && (same ==> siblings == root)
    requires NodeResolves(n, root, siblings)
    ensures SafeNode(n, same, r)
    decreases NodeSize(n), 1
  {
    hide Branches, Resolves, Safe, SafeCondition, ConditionResolves, ClaimedNames, NodeSize, FieldsSize;
    ConditionResolvesSafe(n.visibleWhen, root, siblings, same, r);
    forall k | 0 <= k < |Branches(n)|
      ensures Safe(Branches(n)[k].fields, SharesScope(Branches(n)[k], same), r)
    {
      BranchAt(n, k);
      var b := Branches(n)[k];
      ResolvesSafe(b.fields, root,
                   if b.selector.boundary == Layout then siblings else b.fields, SharesScope(b, same), r);
    }
  }

  // ---------------------------------------------------------- main results

  lemma {:induction false} ClaimsAt(fs: seq<Node>, i: nat) returns (before: seq<string>, after: seq<string>)
    requires i < |fs|
    ensures ClaimedNames(fs) == before + NodeClaims(fs[i]) + after
    ensures forall n: Node :: ClaimedNames(fs[i := n]) == before + NodeClaims(n) + after
    ensures forall j | 0 <= j < |fs| && j != i ::
              forall x | x in NodeClaims(fs[j]) :: x in before || x in after
  {
    hide NodeClaims;
    if i == 0 {
      before, after := [], ClaimedNames(fs[1..]);
      forall n: Node ensures ClaimedNames(fs[0 := n]) == before + NodeClaims(n) + after {
        assert fs[0 := n][1..] == fs[1..];
      }
      forall j, x | 1 <= j < |fs| && x in NodeClaims(fs[j]) ensures x in after {
        ClaimsInclude(fs[1..], j - 1, x);
      }
    } else {
      var inner, outer := ClaimsAt(fs[1..], i - 1);
      before, after := NodeClaims(fs[0]) + inner, outer;
      forall n: Node ensures ClaimedNames(fs[i := n]) == before + NodeClaims(n) + after {
        assert fs[i := n][1..] == fs[1..][i - 1 := n];
      }
      assert forall j | 1 <= j < |fs| :: fs[j] == fs[1..][j - 1];
    }
  }

  lemma {:induction false} ClaimsInclude(fs: seq<Node>, j: nat, x: string)
    requires j < |fs| && x in NodeClaims(fs[j])
    ensures x in ClaimedNames(fs)
  {
    hide NodeClaims;
    if j > 0 { ClaimsInclude(fs[1..], j - 1, x); }
  }

  /** The draft in which only the name has changed. */
  function Next(fs: seq<Node>, i: nat, r: Renaming): seq<Node>
    requires i < |fs|
  {
    fs[i := Renamed(fs[i], r)]
  }

  lemma OtherClaims(names: seq<string>, before: seq<string>, x: string, after: seq<string>)
    requires names == before + [x] + after && NoDuplicates(names)
    ensures x !in before && x !in after
  {
    assert names[|before|] == x;
    assert forall k | 0 <= k < |before| :: names[k] == before[k];
    assert forall k | 0 <= k < |after| :: names[|before| + 1 + k] == after[k];
  }

  lemma NextSources(fs: seq<Node>, i: nat, r: Renaming)
    requires i < |fs| && fs[i].name == r.name && !Flattened(fs[i].kind) && r.name != r.replacement
    requires NoDuplicates(ClaimedNames(fs)) && NoDuplicates(ClaimedNames(Next(fs, i, r)))
    ensures Sources(fs, Next(fs, i, r), true, r)
    ensures r.replacement !in ClaimedNames(fs)
  {
    hide ClaimedNames;
    var before, after := ClaimsAt(fs, i);
    assert NodeClaims(Renamed(fs[i], r)) == [r.replacement];
    OtherClaims(ClaimedNames(fs), before, r.name, after);
    OtherClaims(ClaimedNames(Next(fs, i, r)), before, r.replacement, after);
  }

  lemma {:induction false} AdmissibleAt(fs: seq<Node>, i: nat)
    requires Admissible(fs) && i < |fs|
    ensures NameAccepted(fs[i])
  {
    if i > 0 { AdmissibleAt(fs[1..], i - 1); }
  }

  lemma ValidNameHasNoDot(s: string)
    requires ValidName(s)
    ensures '.' !in s
  {
  }

  lemma MoveKeyToItself(v: Value, r: Renaming)
    requires r.name == r.replacement
    ensures MoveKey(v, r) == v
  {
    if v.Object? {
      assert MoveKey(v, r).members == v.members;
    }
  }

  /**
   * A successful rename of a stored child of a valid root draft keeps the value of every condition
   * on every document, whatever the depth of the field: the renamed graph on the key-renamed
   * document shows exactly what the old graph showed on the old one. `Safe` is the exact
   * reference condition of RewrittenReadsSame and UntouchedReadsSame, for every reference.
   */
  lemma RenameKeepsMeaning(fs: seq<Node>, r: Renaming, document: Value, payloads: Payloads)
    requires ValidateDraft(fs).Ok? && WellFormed(fs) && Safe(fs, true, r)
    requires RenameDraft(fs, r).Ok? && !Flattened(fs[IndexOf(fs, r.name).value].kind)
    ensures Evaluate(RenameDraft(fs, r).value, MoveKey(document, r), MoveKey(document, r), payloads) ==
            Evaluate(fs, document, document, payloads)
  {
    hide Evaluate, MoveKey, WellFormed, Safe, RewriteFields, ValidName, Admissible, ClaimedNames;
    if r.name == r.replacement {
      MoveKeyToItself(document, r);
    } else {
      var i := IndexOf(fs, r.name).value;
      var next := Next(fs, i, r);
      ValidateDraftMeaning(fs);
      ValidateDraftMeaning(next);
      AdmissibleAt(fs, i);
      ValidNameHasNoDot(r.name);
      ValidNameHasNoDot(r.replacement);
      NextSources(fs, i, r);
      FieldsKept(fs, next, true, r, document, document, payloads);
    }
  }

  /** `RenameRoot` needs only that the graph's references resolve. */
  lemma RenameRootKeepsMeaning(fs: seq<Node>, name: string, replacement: string, document: Value, payloads: Payloads)
    requires ValidateDraft(fs).Ok? && WellFormed(fs) && Resolves(fs, fs, fs)
    requires var r := Renaming(name, replacement, true);
             RenameDraft(fs, r).Ok? && !Flattened(fs[IndexOf(fs, name).value].kind)
    ensures var r := Renaming(name, replacement, true);
            Evaluate(RenameDraft(fs, r).value, MoveKey(document, r), MoveKey(document, r), payloads) ==
            Evaluate(fs, document, document, payloads)
  {
    hide Evaluate, MoveKey, WellFormed, Safe, RewriteFields, ValidName, Admissible, ClaimedNames, Resolves;
    var r := Renaming(name, replacement, true);
    if name == replacement {
      MoveKeyToItself(document, r);
    } else {
      var i := IndexOf(fs, name).value;
      ValidateDraftMeaning(fs);
      ValidateDraftMeaning(Next(fs, i, r));
      NextSources(fs, i, r);
      ResolvesSafe(fs, fs, fs, true, r);
      RenameKeepsMeaning(fs, r, document, payloads);
    }
  }

  /** A rename succeeds exactly when nothing blocks it; blocked means a needed rewrite is shared. */
  lemma RenameOutcome(fs: seq<Node>, r: Renaming)
    requires WellFormed(fs)
    ensures RenameDraft(fs, r).Ok? <==>
            && Count(fs, r.name) == 1
            && (r.name == r.replacement ||
                var next := Next(fs, FirstNamed(fs, r.name), r);
                && NameAccepted(next[FirstNamed(fs, r.name)])
                && ValidateDraft(next).Ok?
                && !Blocked(next, true, r))
  {
    hide WellFormed, Blocked, ValidateDraft, RewriteFields, NameAccepted;
    if Count(fs, r.name) == 1 {
      var i := FirstNamed(fs, r.name);
      WellFormedNext(fs, i, r);
      RewriteFieldsOutcome(Next(fs, i, r), true, r);
    }
  }

  lemma {:induction false} WellFormedNext(fs: seq<Node>, i: nat, r: Renaming)
    requires WellFormed(fs) && i < |fs|
    ensures WellFormed(Next(fs, i, r))
  {
    hide WellFormedNode;
    var next := Next(fs, i, r);
    if i == 0 {
      RenamedWellFormed(fs[0], r);
      assert next[1..] == fs[1..];
    } else {
      WellFormedNext(fs[1..], i - 1, r);
      assert next[1..] == Next(fs[1..], i - 1, r);
    }
  }

  lemma RenamedWellFormed(n: Node, r: Renaming)
    requires WellFormedNode(n)
    ensures WellFormedNode(Renamed(n, r))
  {
    hide Branches, WellFormed;
    BranchesOfSame(n, Renamed(n, r));
  }
}
