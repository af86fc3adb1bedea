/** Renaming a field with its references: the rewriting, and why it keeps every condition's meaning. */
module Rename {
  import opened Wrappers
  import opened FieldGraph
  import opened DraftRules

  /** `root` also rewrites the document references of every descendant. */
  datatype Renaming = Renaming(name: string, replacement: string, root: bool)

  // ------------------------------------------------------------- rewriting

  predicate Follows(path: string, name: string) {
    path == name || name + "." <= path
  }

  predicate InScope(s: ReferenceScope, same: bool, r: Renaming) {
    (same && s == SiblingScope) || (r.root && s == RootScope)
  }

  predicate Affects(ref: Reference, same: bool, r: Renaming) {
    InScope(ref.scope, same, r) && Follows(ref.path, r.name)
  }

  function RewritePath(path: string, r: Renaming): string {
    if Follows(path, r.name) then r.replacement + path[|r.name|..] else path
  }

  function RewriteReference(ref: Reference, same: bool, r: Renaming): Reference {
    if Affects(ref, same, r) then ref.(path := RewritePath(ref.path, r)) else ref
  }

  function RewriteCondition(c: Condition, same: bool, r: Renaming): (Condition, bool)
    decreases c, 0
  {
    var (children, changed) := RewriteConditions(c.conditions, same, r);
    (c.(conditions := children, reference := RewriteReference(c.reference, same, r)),
     changed || Affects(c.reference, same, r))
  }

  function RewriteConditions(cs: seq<Condition>, same: bool, r: Renaming): (out: (seq<Condition>, bool))
    ensures |out.0| == |cs|
    decreases cs, 0
  {
    if cs == [] then ([], false)
    else
      var (first, changed) := RewriteCondition(cs[0], same, r);
      var (rest, more) := RewriteConditions(cs[1..], same, r);
      ([first] + rest, changed || more)
  }

  type Rewritten = Result<(seq<Node>, bool), EditError>

  /** A layout branch shares the scope of its host, any other branch opens a scope of its own. */
  predicate SharesScope(b: Branch, same: bool) {
    same && b.selector.boundary == Layout
  }

  function RewriteFields(fs: seq<Node>, same: bool, r: Renaming): (out: Rewritten)
    ensures out.Ok? ==> |out.value.0| == |fs|
    decreases FieldsSize(fs), 2, 0
  {
    if fs == [] then Ok(([], false))
    else
      var (first, changed) :- RewriteNode(fs[0], same, r);
      var (rest, more) :- RewriteFields(fs[1..], same, r);
      Ok(([first] + rest, changed || more))
  }

  function RewriteNode(n: Node, same: bool, r: Renaming): Result<(Node, bool), EditError>
    decreases NodeSize(n), 1, 0
  {
    var (condition, changed) := RewriteCondition(n.visibleWhen, same, r);
    RewriteBranches(n, n.(visibleWhen := condition), 0, changed, same, r)
  }

  /** Rewrites branch `k` of `n` and the later ones into `f`, replacing only what changed. */
  function RewriteBranches(n: Node, f: Node, k: nat, changed: bool, same: bool, r: Renaming):
    Result<(Node, bool), EditError>
    requires k <= |Branches(n)|
    decreases NodeSize(n), 0, |Branches(n)| - k
  {
    if k == |Branches(n)| then Ok((f, changed))
    else
      var b := Branches(n)[k];
      BranchAt(n, k);
      var (children, rewritten) :- RewriteFields(b.fields, SharesScope(b, same), r);
      if rewritten then
        var g :- ReplaceBranch(f, b.selector, children);
        RewriteBranches(n, g, k + 1, true, same, r)
      else RewriteBranches(n, f, k + 1, changed, same, r)
  }

  /** Position of the only direct child called `name`. */
  function IndexOf(fs: seq<Node>, name: string): Result<nat, EditError> {
    if Count(fs, name) > 1 then Err(AmbiguousName(name))
    else if Count(fs, name) == 0 then Err(NotFound(name))
    else Ok(FirstNamed(fs, name))
  }

  function Count(fs: seq<Node>, name: string): nat {
    if fs == [] then 0 else (if fs[0].name == name then 1 else 0) + Count(fs[1..], name)
  }

  function FirstNamed(fs: seq<Node>, name: string): (i: nat)
    requires Count(fs, name) > 0
    ensures i < |fs| && fs[i].name == name
  {
    if fs[0].name == name then 0 else 1 + FirstNamed(fs[1..], name)
  }

  /** The draft content after `Rename` or `RenameRoot`. */
  function RenameDraft(fs: seq<Node>, r: Renaming): Result<seq<Node>, EditError> {
    var i :- IndexOf(fs, r.name);
    if r.name == r.replacement then Ok(fs)
    else
      var node := fs[i].(name := r.replacement);
      if !NameAccepted(node) then Err(InvalidName(r.replacement))
      else
        var next := fs[i := node];
        var _ :- ValidateDraft(next);
        var (rewritten, _) :- RewriteFields(next, true, r);
        Ok(rewritten)
  }

  // ----------------------------------------------------------- hypotheses

  /**
   * What the constructors guarantee (a named tab is a group, only plugin values own embedded
   * trees) and distinct branch selectors in every node.
   */
  predicate WellFormed(fs: seq<Node>)
    decreases FieldsSize(fs), 2
  {
    fs == [] || (WellFormedNode(fs[0]) && WellFormed(fs[1..]))
  }

  predicate WellFormedNode(n: Node)
    decreases NodeSize(n), 1
  {
    && (n.namedTab ==> n.kind == Group)
    && (n.trees != [] ==> n.kind == Plugin)
    && DistinctSelectors(Branches(n))
    && forall k | 0 <= k < |Branches(n)| :: BranchAt(n, k); WellFormed(Branches(n)[k].fields)
  }

  predicate ConditionNeeds(c: Condition, same: bool, r: Renaming) {
    Affects(c.reference, same, r) ||
    exists i | 0 <= i < |c.conditions| :: ConditionNeeds(c.conditions[i], same, r)
  }

  /** Some reference of the graph must be rewritten. */
  predicate Needs(fs: seq<Node>, same: bool, r: Renaming)
    decreases FieldsSize(fs), 2
  {
    fs != [] && (NodeNeeds(fs[0], same, r) || Needs(fs[1..], same, r))
  }

  predicate NodeNeeds(n: Node, same: bool, r: Renaming)
    decreases NodeSize(n), 1
  {
    ConditionNeeds(n.visibleWhen, same, r) ||
    exists k | 0 <= k < |Branches(n)| ::
      BranchAt(n, k); Needs(Branches(n)[k].fields, SharesScope(Branches(n)[k], same), r)
  }

  /** Some reference that must be rewritten lies inside a referenced, shared definition. */
  predicate Blocked(fs: seq<Node>, same: bool, r: Renaming)
    decreases FieldsSize(fs), 2
  {
    fs != [] && (NodeBlocked(fs[0], same, r) || Blocked(fs[1..], same, r))
  }

  predicate NodeBlocked(n: Node, same: bool, r: Renaming)
    decreases NodeSize(n), 1
  {
    exists k | 0 <= k < |Branches(n)| ::
      BranchAt(n, k);
      var b := Branches(n)[k];
      Blocked(b.fields, SharesScope(b, same), r) || (b.referenced && Needs(b.fields, SharesScope(b, same), r))
  }

  // --------------------------------------------------- what rewriting does

  lemma {:induction false} ConditionChanged(c: Condition, same: bool, r: Renaming)
    ensures RewriteCondition(c, same, r).1 <==> ConditionNeeds(c, same, r)
    ensures !ConditionNeeds(c, same, r) ==> RewriteCondition(c, same, r).0 == c
    decreases c, 0
  {
    ConditionsChanged(c.conditions, same, r);
  }

  lemma {:induction false} ConditionsChanged(cs: seq<Condition>, same: bool, r: Renaming)
    ensures var (out, changed) := RewriteConditions(cs, same, r);
            && (changed <==> exists i | 0 <= i < |cs| :: ConditionNeeds(cs[i], same, r))
            && (!changed ==> out == cs)
    decreases cs, 0
  {
    if cs != [] {
      ConditionChanged(cs[0], same, r);
      ConditionsChanged(cs[1..], same, r);
      assert forall i | 1 <= i < |cs| :: cs[i] == cs[1..][i - 1];
    }
  }

  /** The children that rewriting leaves in branch `b`. */
  function RewrittenFields(b: Branch, same: bool, r: Renaming): seq<Node> {
    var out := RewriteFields(b.fields, SharesScope(b, same), r);
    if out.Ok? then out.value.0 else []
  }

  predicate BranchBlocked(b: Branch, same: bool, r: Renaming) {
    Blocked(b.fields, SharesScope(b, same), r) || (b.referenced && Needs(b.fields, SharesScope(b, same), r))
  }

  /** From `k` on the branches of `f` are still those of `n`, before `k` they are rewritten. */
  predicate Progress(n: Node, f: Node, k: nat, same: bool, r: Renaming) {
    && |Branches(f)| == |Branches(n)|
    && f.(visibleWhen := n.visibleWhen, fields := n.fields, blocks := n.blocks, trees := n.trees) == n
    && f.visibleWhen == RewriteCondition(n.visibleWhen, same, r).0
    && forall j | 0 <= j < |Branches(n)| ::
         Branches(f)[j] == if j < k then Branches(n)[j].(fields := RewrittenFields(Branches(n)[j], same, r))
                           else Branches(n)[j]
  }

  /**
   * Rewriting fails exactly when a needed rewrite lies inside a referenced definition; otherwise
   * it reports a change exactly when one was needed, and without a change returns its input.
   */
  lemma {:induction false} RewriteFieldsOutcome(fs: seq<Node>, same: bool, r: Renaming)
    requires WellFormed(fs)
    ensures var out := RewriteFields(fs, same, r);
            && (out.Err? <==> Blocked(fs, same, r))
            && (out.Ok? ==> (out.value.1 <==> Needs(fs, same, r)))
            && (out.Ok? && !out.value.1 ==> out.value.0 == fs)
    decreases FieldsSize(fs), 2, 0
  {
    hide RewriteNode, WellFormedNode, NodeNeeds, NodeBlocked;
    if fs != [] {
      RewriteNodeOutcome(fs[0], same, r);
      RewriteFieldsOutcome(fs[1..], same, r);
    }
  }

  /** Rewriting one node changes its condition and the children of its branches, nothing else. */
  lemma {:induction false} RewriteNodeOutcome(n: Node, same: bool, r: Renaming)
    requires WellFormedNode(n)
    ensures var out := RewriteNode(n, same, r);
            && (out.Err? <==> NodeBlocked(n, same, r))
            && (out.Ok? ==> (out.value.1 <==> NodeNeeds(n, same, r)))
            && (out.Ok? && !out.value.1 ==> out.value.0 == n)
            && (out.Ok? ==> Progress(n, out.value.0, |Branches(n)|, same, r))
    decreases NodeSize(n), 1, 0
  {
    hide Branches, RewriteBranches, RewriteCondition, RewriteFields, Needs, Blocked, WellFormed, WellFormedNode,
      ConditionNeeds, NodeSize, FieldsSize;
    var (condition, changed) := RewriteCondition(n.visibleWhen, same, r);
    ConditionChanged(n.visibleWhen, same, r);
    var f := n.(visibleWhen := condition);
    BranchesOfSame(n, f);
    RewriteBranchesOutcome(n, f, 0, changed, same, r);
  }

  lemma {:induction false} RewriteBranchesOutcome(n: Node, f: Node, k: nat, changed: bool, same: bool, r: Renaming)
    requires WellFormedNode(n) && k <= |Branches(n)| && Progress(n, f, k, same, r)
    ensures var bs := Branches(n); var out := RewriteBranches(n, f, k, changed, same, r);
            && (out.Err? <==> exists j | k <= j < |bs| :: BranchBlocked(bs[j], same, r))
            && (out.Ok? ==>
                (out.value.1 <==>
                   || changed
                   || exists j | k <= j < |bs| :: Needs(bs[j].fields, SharesScope(bs[j], same), r)))
            && (out.Ok? && out.value.1 == changed == false ==> out.value.0 == f)
            && (out.Ok? ==> Progress(n, out.value.0, |bs|, same, r))
    decreases NodeSize(n), 0, |Branches(n)| - k
  {
    hide Branches, RewriteCondition, RewriteFields, Needs, Blocked, WellFormed, NodeSize, FieldsSize, ReplaceBranch;
    var bs := Branches(n);
    if k < |bs| {
      var b := bs[k];
      BranchAt(n, k);
      RewriteFieldsOutcome(b.fields, SharesScope(b, same), r);
      var out := RewriteFields(b.fields, SharesScope(b, same), r);
      if out.Ok? {
        if out.value.1 {
          ReplaceStep(n, f, k, same, r);
          var g := ReplaceBranch(f, b.selector, out.value.0);
          if g.Ok? { RewriteBranchesOutcome(n, g.value, k + 1, true, same, r); }
        } else {
          RewriteBranchesOutcome(n, f, k + 1, changed, same, r);
        }
      }
    }
  }

  lemma ReplaceStep(n: Node, f: Node, k: nat, same: bool, r: Renaming)
    requires DistinctSelectors(Branches(n)) && k < |Branches(n)| && Progress(n, f, k, same, r)
    ensures var b := Branches(n)[k]; var g := ReplaceBranch(f, b.selector, RewrittenFields(b, same, r));
            (g.Ok? <==> !b.referenced) && (g.Ok? ==> Progress(n, g.value, k + 1, same, r))
  {
    hide Branches, FirstBranch, ReplaceBranch, RewriteCondition, RewriteFields;
    var b := Branches(n)[k];
    assert forall j | 0 <= j < |Branches(n)| :: Branches(f)[j].selector == Branches(n)[j].selector;
    assert FirstBranch(Branches(f), b.selector) == k;
    ReplaceBranchLens(f, b.selector, RewrittenFields(b, same, r));
  }
}
