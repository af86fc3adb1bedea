/** Renames one after the other: references still resolve after each, so every chain keeps the meaning. */
module RenameChain {
  import opened Wrappers
  import opened Separated
  import opened FieldGraph
  import opened Conditions
  import opened DraftRules
  import opened Rename
  import opened RenameMeaning

  /** Resolution looks into the children of these nodes only. */
  predicate Enters(n: Node) {
    HasChildren(n.kind) || n.namedTab
  }

  /** Nodes that reference resolution cannot tell apart. */
  predicate Alike(n: Node, m: Node)
    decreases n, 1
  {
    n.name == m.name && n.kind == m.kind && n.namedTab == m.namedTab && (Enters(n) ==> AllAlike(n.fields, m.fields))
  }

  predicate AllAlike(fs: seq<Node>, ms: seq<Node>)
    decreases fs, 0
  {
    |fs| == |ms| && (fs == [] || (Alike(fs[0], ms[0]) && AllAlike(fs[1..], ms[1..])))
  }

  lemma {:induction false} ClaimantAlike(fs: seq<Node>, ms: seq<Node>, name: string)
    requires AllAlike(fs, ms)
    ensures var a, b := Claimant(fs, name), Claimant(ms, name);
            (a.Some? <==> b.Some?) && (a.Some? ==> Alike(a.value, b.value))
    decreases fs
  {
    if fs != [] {
      if Flattened(fs[0].kind) { ClaimantAlike(fs[0].fields, ms[0].fields, name); }
      ClaimantAlike(fs[1..], ms[1..], name);
    }
  }

  lemma {:induction false} PathAlike(path: seq<string>, fs: seq<Node>, ms: seq<Node>)
    requires AllAlike(fs, ms)
    ensures PathResolves(path, fs) <==> PathResolves(path, ms)
    decreases |path|
  {
    hide Claimant, AllAlike;
    if path != [] {
      ClaimantAlike(fs, ms, path[0]);
      var a, b := Claimant(fs, path[0]), Claimant(ms, path[0]);
      if a.Some? && |path| > 1 && (BoundaryOf(a.value) == StoredObject || BoundaryOf(a.value) == NamedTabBoundary) {
        PathAlike(path[1..], a.value.fields, b.value.fields);
      }
    }
  }

  // ------------------------------------------------- rewriting keeps shapes

  lemma OwnFields(n: Node)
    requires WellFormedNode(n) && Enters(n)
    ensures |Branches(n)| > 0 && Branches(n)[0].fields == n.fields
  {
    assert TreeBranches([]) == [];
  }

  lemma ReplaceKeepsNoTrees(n: Node, s: Selector, children: seq<Node>)
    requires n.trees == [] && ReplaceBranch(n, s, children).Ok?
    ensures ReplaceBranch(n, s, children).value.trees == []
  {
  }

  lemma {:induction false} RewritingKeepsNoTrees(n: Node, f: Node, k: nat, changed: bool, same: bool, r: Renaming)
    requires k <= |Branches(n)| && f.trees == [] && RewriteBranches(n, f, k, changed, same, r).Ok?
    ensures RewriteBranches(n, f, k, changed, same, r).value.0.trees == []
    decreases |Branches(n)| - k
  {
    hide Branches, RewriteFields, ReplaceBranch, NodeSize, FieldsSize;
    if k < |Branches(n)| {
      BranchAt(n, k);
      var b := Branches(n)[k];
      var out := RewriteFields(b.fields, SharesScope(b, same), r).value;
      if out.1 {
        ReplaceKeepsNoTrees(f, b.selector, out.0);
        RewritingKeepsNoTrees(n, ReplaceBranch(f, b.selector, out.0).value, k + 1, true, same, r);
      } else {
        RewritingKeepsNoTrees(n, f, k + 1, changed, same, r);
      }
    }
  }

  lemma RewrittenTrees(n: Node, same: bool, r: Renaming)
    requires n.trees == [] && RewriteNode(n, same, r).Ok?
    ensures RewriteNode(n, same, r).value.0.trees == []
  {
    hide RewriteBranches, RewriteCondition;
    var (condition, changed) := RewriteCondition(n.visibleWhen, same, r);
    RewritingKeepsNoTrees(n, n.(visibleWhen := condition), 0, changed, same, r);
  }

  /** Rewriting changes conditions only: it leaves every node well formed and like the one it rewrote. */
  lemma {:induction false} FieldsAlike(fs: seq<Node>, same: bool, r: Renaming)
    requires WellFormed(fs) && RewriteFields(fs, same, r).Ok?
    ensures AllAlike(fs, RewriteFields(fs, same, r).value.0) && WellFormed(RewriteFields(fs, same, r).value.0)
    decreases FieldsSize(fs), 1
  {
    hide RewriteNode, WellFormedNode, Alike;
    if fs != [] {
      NodeAlike(fs[0], same, r);
      FieldsAlike(fs[1..], same, r);
      var out := RewriteFields(fs, same, r).value.0;
      assert out[0] == RewriteNode(fs[0], same, r).value.0 && out[1..] == RewriteFields(fs[1..], same, r).value.0;
    }
  }

  lemma {:induction false} NodeAlike(n: Node, same: bool, r: Renaming)
    requires WellFormedNode(n) && RewriteNode(n, same, r).Ok?
    ensures Alike(n, RewriteNode(n, same, r).value.0) && WellFormedNode(RewriteNode(n, same, r).value.0)
    decreases NodeSize(n), 0
  {
    hide Branches, RewriteNode, RewriteFields, RewriteCondition, AllAlike, WellFormed, NodeSize, FieldsSize,
      Blocked, Needs;
    RewriteNodeOutcome(n, same, r);
    var m := RewriteNode(n, same, r).value.0;
    forall k | 0 <= k < |Branches(n)|
      ensures AllAlike(Branches(n)[k].fields, Branches(m)[k].fields) && WellFormed(Branches(m)[k].fields)
    {
      BranchAt(n, k);
      var b := Branches(n)[k];
      RewriteFieldsOutcome(b.fields, SharesScope(b, same), r);
      FieldsAlike(b.fields, SharesScope(b, same), r);
    }
    assert DistinctSelectors(Branches(m)) by {
      assert forall k | 0 <= k < |Branches(n)| :: Branches(m)[k].selector == Branches(n)[k].selector;
    }
    if n.trees == [] { RewrittenTrees(n, same, r); }
    if Enters(n) {
      OwnFields(n);
      OwnFields(m);
    }
  }

  // --------------------------------------------------- references move along

  /** The path a reference has after the rename, where the rename applies to its scope. */
  function MovedPath(path: seq<string>, moves: bool, r: Renaming): seq<string> {
    if moves && path != [] && path[0] == r.name then [r.replacement] + path[1..] else path
  }

  /** Every path that resolved in the old scope resolves, moved, in the new one. */
  ghost predicate ScopeMoves(before: seq<Node>, after: seq<Node>, moves: bool, r: Renaming) {
    forall path :: PathResolves(path, before) ==> PathResolves(MovedPath(path, moves, r), after)
  }

  lemma AlikeScopeMoves(fs: seq<Node>, ms: seq<Node>, r: Renaming)
    requires AllAlike(fs, ms)
    ensures ScopeMoves(fs, ms, false, r)
  {
    forall path | PathResolves(path, fs) ensures PathResolves(path, ms) { PathAlike(path, fs, ms); }
  }

  /** In the draft where only the name changed, other names find what they found before. */
  lemma {:induction false} NextClaimants(fs: seq<Node>, i: nat, r: Renaming, name: string)
    requires i < |fs| && fs[i].name == r.name && !Flattened(fs[i].kind)
    ensures name != r.name && name != r.replacement ==> Claimant(Next(fs, i, r), name) == Claimant(fs, name)
    ensures r.name in ClaimedNames(fs)
    decreases i
  {
    var next := Next(fs, i, r);
    if i == 0 {
      assert next[1..] == fs[1..];
    } else {
      assert next[1..] == Next(fs[1..], i - 1, r);
      NextClaimants(fs[1..], i - 1, r, name);
    }
  }

  /** The renamed child is found under its new name, where nothing else claims either name. */
  lemma {:induction false} RenamedClaimant(fs: seq<Node>, i: nat, r: Renaming)
    requires i < |fs| && fs[i].name == r.name && !Flattened(fs[i].kind)
    requires NoDuplicates(ClaimedNames(fs)) && r.replacement !in ClaimedNames(fs)
    ensures Claimant(fs, r.name) == Some(fs[i]) && Claimant(Next(fs, i, r), r.replacement) == Some(Renamed(fs[i], r))
    decreases i
  {
    var next := Next(fs, i, r);
    if i > 0 {
      assert next[1..] == Next(fs[1..], i - 1, r);
      var first, rest := NodeClaims(fs[0]), ClaimedNames(fs[1..]);
      FreshSum(first, rest, {});
      assert Fresh(first + rest, {}) && Fresh(rest, {} + Elements(first));
      NextClaimants(fs[1..], i - 1, r, "");
      assert r.name in rest && r.name !in first;
      assert r.replacement !in first && r.replacement !in rest by {
        assert forall x | x in first || x in rest :: x in first + rest;
      }
      NotClaimed(fs[0], r.name);
      NotClaimed(fs[0], r.replacement);
      RenamedClaimant(fs[1..], i - 1, r);
    }
  }

  /** A path of one name selects a stored child; a longer one goes on inside an object. */
  lemma ResolutionRules(fs: seq<Node>, i: nat, rest: seq<string>)
    requires i < |fs| && !Flattened(fs[i].kind) && NoDuplicates(ClaimedNames(fs)) && rest != []
    ensures fs[i].kind.ScalarKind? && !fs[i].namedTab ==> PathResolves([fs[i].name], fs)
    ensures fs[i].kind == Group ==>
              !PathResolves([fs[i].name], fs)
              && (PathResolves([fs[i].name] + rest, fs) <==> PathResolves(rest, fs[i].fields))
    ensures fs[i].kind == Array && !fs[i].namedTab ==> !PathResolves([fs[i].name] + rest, fs)
  {
    var r := Renaming(fs[i].name, UnclaimedName(ClaimedNames(fs)), true);
    RenamedClaimant(fs, i, r);
    hide Claimant, ClaimedNames;
    assert ([fs[i].name] + rest)[1..] == rest;
  }

  /** Some name that is not among these. */
  function UnclaimedName(names: seq<string>): (name: string)
    ensures name !in names
  {
    Longer(names)
  }

  function Longer(names: seq<string>): (name: string)
    ensures forall i | 0 <= i < |names| :: |names[i]| < |name|
  {
    if names == [] then "x"
    else
      var rest := Longer(names[1..]);
      assert forall i | 1 <= i < |names| :: names[i] == names[1..][i - 1];
      rest + names[0]
  }

  lemma NotClaimed(n: Node, name: string)
    requires name !in NodeClaims(n)
    ensures !Flattened(n.kind) ==> n.name != name
    ensures Flattened(n.kind) ==> Claimant(n.fields, name).None?
  {
    if Flattened(n.kind) && Claimant(n.fields, name).Some? { ClaimantClaims(n.fields, name); }
  }

  /** Resolution depends on the node that claims the first name, and on the rest of the path. */
  lemma ResolvesAlong(path: seq<string>, fs: seq<Node>, moved: seq<string>, ms: seq<Node>)
    requires path != [] && moved != [] && moved[1..] == path[1..] && PathResolves(path, fs)
    requires Claimant(fs, path[0]).Some? && Claimant(ms, moved[0]).Some?
    requires var n, m := Claimant(fs, path[0]).value, Claimant(ms, moved[0]).value;
             BoundaryOf(m) == BoundaryOf(n) && m.fields == n.fields
    ensures PathResolves(moved, ms)
  {
    hide Claimant, BoundaryOf;
    assert |moved| == |moved[1..]| + 1 && |path| == |path[1..]| + 1;
  }

  lemma NextPathMoves(fs: seq<Node>, i: nat, r: Renaming, path: seq<string>)
    requires i < |fs| && fs[i].name == r.name && !Flattened(fs[i].kind)
    requires NoDuplicates(ClaimedNames(fs)) && r.replacement !in ClaimedNames(fs)
    requires PathResolves(path, fs)
    ensures PathResolves(MovedPath(path, true, r), Next(fs, i, r))
  {
    ResolvedHead(path, fs);
    RenamedClaimant(fs, i, r);
    ClaimantClaims(fs, path[0]);
    NextClaimants(fs, i, r, path[0]);
    hide Claimant, ClaimedNames, PathResolves, NoDuplicates;
    var moved := MovedPath(path, true, r);
    assert moved[1..] == path[1..];
    ResolvesAlong(path, fs, moved, Next(fs, i, r));
  }

  lemma ResolvedHead(path: seq<string>, fs: seq<Node>)
    requires PathResolves(path, fs)
    ensures path != [] && Claimant(fs, path[0]).Some?
  {
    hide Claimant;
  }

  lemma NextScopeMoves(fs: seq<Node>, i: nat, r: Renaming)
    requires i < |fs| && fs[i].name == r.name && !Flattened(fs[i].kind)
    requires NoDuplicates(ClaimedNames(fs)) && r.replacement !in ClaimedNames(fs)
    ensures ScopeMoves(fs, Next(fs, i, r), true, r)
  {
    hide PathResolves, MovedPath;
    forall path | PathResolves(path, fs) ensures PathResolves(MovedPath(path, true, r), Next(fs, i, r)) {
      NextPathMoves(fs, i, r, path);
    }
  }

  lemma ScopeMovesOn(a: seq<Node>, b: seq<Node>, c: seq<Node>, moves: bool, r: Renaming)
    requires ScopeMoves(a, b, moves, r) && AllAlike(b, c)
    ensures ScopeMoves(a, c, moves, r)
  {
    hide AllAlike;
    forall path | PathResolves(path, a) ensures PathResolves(MovedPath(path, moves, r), c) {
      PathAlike(MovedPath(path, moves, r), b, c);
    }
  }

  lemma RewrittenReferencePath(path: string, moves: bool, r: Renaming)
    requires Proper(r)
    ensures Split(if moves then RewritePath(path, r) else path, '.') == MovedPath(Split(path, '.'), moves, r)
  {
    RewrittenPath(path, r);
  }

  lemma {:induction false} ConditionResolvesOn(c: Condition, root: seq<Node>, root': seq<Node>, siblings: seq<Node>,
                                               siblings': seq<Node>, same: bool, r: Renaming)
    requires Proper(r) && r.root && ConditionResolves(c, root, siblings)
    requires ScopeMoves(root, root', true, r) && ScopeMoves(siblings, siblings', same, r)
    ensures ConditionResolves(RewriteCondition(c, same, r).0, root', siblings')
    decreases c
  {
    hide PathResolves, RewritePath;
    var d := RewriteCondition(c, same, r).0;
    if c.kind == Predicate {
      RewrittenReferencePath(c.reference.path, true, r);
      RewritePathKeeps(c.reference.path, r);
    }
    forall i | 0 <= i < |c.conditions| ensures ConditionResolves(d.conditions[i], root', siblings') {
      ConditionsAt(c.conditions, same, r, i);
      ConditionResolvesOn(c.conditions[i], root, root', siblings, siblings', same, r);
    }
  }

  lemma RewritePathKeeps(path: string, r: Renaming)
    ensures !Follows(path, r.name) ==> RewritePath(path, r) == path
  {
  }

  lemma {:induction false} FieldsResolveOn(fs: seq<Node>, next: seq<Node>, same: bool, r: Renaming, root: seq<Node>,
                                           root': seq<Node>, siblings: seq<Node>, siblings': seq<Node>)
    requires Proper(r) && r.root && WellFormed(fs) && Sources(fs, next, same, r) && RewriteFields(next, same, r).Ok?
    requires Resolves(fs, root, siblings)
    requires ScopeMoves(root, root', true, r) && ScopeMoves(siblings, siblings', same, r)
    ensures Resolves(RewriteFields(next, same, r).value.0, root', siblings')
    decreases FieldsSize(fs), 2
  {
    hide WellFormedNode, NodeResolves, RewriteNode, Source, ScopeMoves;
    if fs != [] {
      NodeResolvesOn(fs[0], next[0], same, r, root, root', siblings, siblings');
      assert forall i | 0 <= i < |fs| - 1 :: fs[1..][i] == fs[i + 1] && next[1..][i] == next[i + 1];
      FieldsResolveOn(fs[1..], next[1..], same, r, root, root', siblings, siblings');
      var out := RewriteFields(next, same, r).value.0;
      assert out[0] == RewriteNode(next[0], same, r).value.0 && out[1..] == RewriteFields(next[1..], same, r).value.0;
    }
  }

  lemma SourceBranches(n: Node, n': Node, same: bool, r: Renaming)
    requires WellFormedNode(n) && Source(n, n', same, r)
    ensures Branches(n') == Branches(n) && WellFormedNode(n') && n'.visibleWhen == n.visibleWhen
  {
    hide Branches, WellFormed, NodeClaims, NodeSize;
    BranchesOfSame(n, n');
  }

  lemma {:induction false} NodeResolvesOn(n: Node, n': Node, same: bool, r: Renaming, root: seq<Node>,
                                          root': seq<Node>, siblings: seq<Node>, siblings': seq<Node>)
    requires Proper(r) && r.root && WellFormedNode(n) && Source(n, n', same, r) && RewriteNode(n', same, r).Ok?
    requires NodeResolves(n, root, siblings)
    requires ScopeMoves(root, root', true, r) && ScopeMoves(siblings, siblings', same, r)
    ensures NodeResolves(RewriteNode(n', same, r).value.0, root', siblings')
    decreases NodeSize(n), 1
  {
    hide Branches, RewriteNode, RewriteFields, RewriteCondition, AllAlike, WellFormed, NodeSize, FieldsSize, Blocked,
      Needs, ScopeMoves, Resolves, ConditionResolves, Source, Sources;
    SourceBranches(n, n', same, r);
    RewriteNodeOutcome(n', same, r);
    var m := RewriteNode(n', same, r).value.0;
    ConditionResolvesOn(n.visibleWhen, root, root', siblings, siblings', same, r);
    forall k | 0 <= k < |Branches(m)|
      ensures var b := Branches(m)[k];
              Resolves(b.fields, root', if b.selector.boundary == Layout then siblings' else b.fields)
    {
      BranchAt(n, k);
      BranchAt(m, k);
      var b := Branches(n)[k];
      var inner := SharesScope(b, same);
      BranchSources(n, n', k, same, r);
      RewriteFieldsOutcome(b.fields, inner, r);
      FieldsAlike(b.fields, inner, r);
      var rewritten := RewriteFields(b.fields, inner, r).value.0;
      if b.selector.boundary == Layout {
        FieldsResolveOn(b.fields, b.fields, inner, r, root, root', siblings, siblings');
      } else {
        AlikeScopeMoves(b.fields, rewritten, r);
        FieldsResolveOn(b.fields, b.fields, inner, r, root, root', b.fields, rewritten);
      }
    }
  }

  /** After a successful root rename every reference of the graph still selects a field. */
  lemma RenameRootKeepsResolution(fs: seq<Node>, name: string, replacement: string)
    requires ValidateDraft(fs).Ok? && WellFormed(fs) && Resolves(fs, fs, fs)
    requires var r := Renaming(name, replacement, true);
             RenameDraft(fs, r).Ok? && !Flattened(fs[IndexOf(fs, name).value].kind)
    ensures var out := RenameDraft(fs, Renaming(name, replacement, true)).value;
            Resolves(out, out, out) && WellFormed(out)
  {
    hide WellFormed, RewriteFields, ValidName, Admissible, ClaimedNames, Resolves, ScopeMoves, Sources, AllAlike;
    var r := Renaming(name, replacement, true);
    if name != replacement {
      var i := IndexOf(fs, name).value;
      var next := Next(fs, i, r);
      ValidateDraftMeaning(fs);
      ValidateDraftMeaning(next);
      AdmissibleAt(fs, i);
      ValidNameHasNoDot(name);
      ValidNameHasNoDot(replacement);
      NextSources(fs, i, r);
      WellFormedNext(fs, i, r);
      FieldsAlike(next, true, r);
      var out := RewriteFields(next, true, r).value.0;
      NextScopeMoves(fs, i, r);
      ScopeMovesOn(fs, next, out, true, r);
      FieldsResolveOn(fs, next, true, r, fs, out, fs, out);
    }
  }

  // ----------------------------------------------- when the result publishes

  /** The rewritten references of an accepted condition are within the length of a path. */
  predicate PathsFit(c: Condition, same: bool, r: Renaming) {
    && (Affects(c.reference, same, r) ==> |RewritePath(c.reference.path, r)| <= MAXIMUM_PATH)
    && forall i | 0 <= i < |c.conditions| :: PathsFit(c.conditions[i], same, r)
  }

  /** So are those of every condition in one stored scope, through its layouts. */
  predicate ScopeFits(fs: seq<Node>, r: Renaming) {
    fs == [] ||
    (&& (fs[0].visibleWhen.kind == NoCondition || PathsFit(fs[0].visibleWhen, true, r))
     && (Flattened(fs[0].kind) ==> ScopeFits(fs[0].fields, r))
     && ScopeFits(fs[1..], r))
  }

  lemma ReferenceStaysValid(ref: Reference, same: bool, r: Renaming)
    requires Proper(r) && ValidName(r.replacement) && ValidReference(ref)
    ensures ValidReference(RewriteReference(ref, same, r))
            <==> (Affects(ref, same, r) ==> |RewritePath(ref.path, r)| <= MAXIMUM_PATH)
  {
    hide ValidName, RewritePath, Follows;
    if Affects(ref, same, r) { RewrittenPath(ref.path, r); }
  }

  lemma ShapeStays(c: Condition, same: bool, r: Renaming)
    requires Proper(r) && ValidName(r.replacement) && WellShaped(c)
    ensures WellShaped(RewriteCondition(c, same, r).0)
            <==> (Affects(c.reference, same, r) ==> |RewritePath(c.reference.path, r)| <= MAXIMUM_PATH)
  {
    hide ValidName, ValidReference, RewritePath, Follows, RewriteConditions;
    if c.kind == Predicate { ReferenceStaysValid(c.reference, same, r); }
  }

  lemma {:induction false} SoundRewritten(c: Condition, room: int, same: bool, r: Renaming)
    requires Proper(r) && ValidName(r.replacement) && Sound(c, room)
    ensures Sound(RewriteCondition(c, same, r).0, room) <==> PathsFit(c, same, r)
    ensures Nodes(RewriteCondition(c, same, r).0) == Nodes(c)
    decreases c, 1
  {
    hide WellShaped, RewritePath, Affects, RewriteReference, PathsFit;
    ShapeStays(c, same, r);
    AllSoundRewritten(c.conditions, room - 1, same, r);
    PathsFitUnfold(c, same, r);
  }

  lemma PathsFitUnfold(c: Condition, same: bool, r: Renaming)
    ensures PathsFit(c, same, r) <==>
            && (Affects(c.reference, same, r) ==> |RewritePath(c.reference.path, r)| <= MAXIMUM_PATH)
            && forall i | 0 <= i < |c.conditions| :: PathsFit(c.conditions[i], same, r)
  {
  }

  lemma {:induction false} AllSoundRewritten(cs: seq<Condition>, room: int, same: bool, r: Renaming)
    requires Proper(r) && ValidName(r.replacement) && AllSound(cs, room)
    ensures var ds := RewriteConditions(cs, same, r).0;
            && (AllSound(ds, room) <==> forall i | 0 <= i < |cs| :: PathsFit(cs[i], same, r))
            && AllNodes(ds) == AllNodes(cs)
    decreases cs, 0
  {
    hide Sound, PathsFit, RewriteCondition;
    if cs != [] {
      SoundRewritten(cs[0], room, same, r);
      AllSoundRewritten(cs[1..], room, same, r);
      assert forall i | 1 <= i < |cs| :: cs[i] == cs[1..][i - 1];
      var ds := RewriteConditions(cs, same, r).0;
      assert ds[0] == RewriteCondition(cs[0], same, r).0 && ds[1..] == RewriteConditions(cs[1..], same, r).0;
    }
  }

  lemma AcceptedRewritten(c: Condition, same: bool, r: Renaming)
    requires Proper(r) && ValidName(r.replacement) && Accepted(c)
    ensures Accepted(RewriteCondition(c, same, r).0) <==> c.kind == NoCondition || PathsFit(c, same, r)
  {
    hide Accepted, Sound, PathsFit;
    var d := RewriteCondition(c, same, r).0;
    AcceptedMeaning(c);
    AcceptedMeaning(d);
    if c.kind != NoCondition { SoundRewritten(c, MAXIMUM_DEPTH, same, r); }
  }

  lemma {:induction false} ClaimsAlike(fs: seq<Node>, ms: seq<Node>)
    requires AllAlike(fs, ms)
    ensures ClaimedNames(ms) == ClaimedNames(fs)
    decreases fs
  {
    if fs != [] {
      if Flattened(fs[0].kind) { ClaimsAlike(fs[0].fields, ms[0].fields); }
      ClaimsAlike(fs[1..], ms[1..]);
    }
  }

  /** What rewriting makes of one node of a stored scope. */
  lemma RewrittenNode(n: Node, r: Renaming)
    requires WellFormedNode(n) && RewriteNode(n, true, r).Ok?
    ensures var m := RewriteNode(n, true, r).value.0;
            && m.name == n.name && m.kind == n.kind && m.visibleWhen == RewriteCondition(n.visibleWhen, true, r).0
            && (Flattened(n.kind) ==>
                  && WellFormed(n.fields) && FieldsSize(n.fields) < NodeSize(n)
                  && RewriteFields(n.fields, true, r).Ok? && m.fields == RewriteFields(n.fields, true, r).value.0)
  {
    hide Branches, RewriteNode, RewriteFields, RewriteCondition, WellFormed, NodeSize, FieldsSize, Blocked, Needs,
      AllAlike;
    RewriteNodeOutcome(n, true, r);
    var m := RewriteNode(n, true, r).value.0;
    if Flattened(n.kind) {
      NodeAlike(n, true, r);
      OwnFields(n);
      OwnFields(m);
      BranchAt(n, 0);
      BranchKind(n, 0);
      RewriteFieldsOutcome(n.fields, true, r);
    }
  }

  lemma {:induction false} AdmissibleRewritten(fs: seq<Node>, r: Renaming)
    requires Proper(r) && ValidName(r.replacement)
    requires WellFormed(fs) && Admissible(fs) && RewriteFields(fs, true, r).Ok?
    ensures Admissible(RewriteFields(fs, true, r).value.0) <==> ScopeFits(fs, r)
    decreases FieldsSize(fs)
  {
    hide WellFormedNode, RewriteNode, RewriteCondition, Accepted, PathsFit, NodeSize, ValidName;
    if fs != [] {
      SizeUnfold(fs);
      RewrittenNode(fs[0], r);
      AcceptedRewritten(fs[0].visibleWhen, true, r);
      if Flattened(fs[0].kind) { AdmissibleRewritten(fs[0].fields, r); }
      AdmissibleRewritten(fs[1..], r);
      var out := RewriteFields(fs, true, r).value.0;
      assert out[0] == RewriteNode(fs[0], true, r).value.0 && out[1..] == RewriteFields(fs[1..], true, r).value.0;
    }
  }

  lemma SizeUnfold(fs: seq<Node>)
    requires fs != []
    ensures FieldsSize(fs) == NodeSize(fs[0]) + FieldsSize(fs[1..])
  {
  }

  lemma {:induction false} NextFits(fs: seq<Node>, i: nat, r: Renaming)
    requires i < |fs|
    ensures ScopeFits(Next(fs, i, r), r) <==> ScopeFits(fs, r)
    decreases i
  {
    var next := Next(fs, i, r);
    if i == 0 {
      assert next[1..] == fs[1..];
    } else {
      NextFits(fs[1..], i - 1, r);
      assert next[1..] == Next(fs[1..], i - 1, r);
    }
  }

  /**
   * The draft that a rename of a stored child leaves can be published exactly when every rewritten
   * path of its scope, through layouts, is still within the length of a path; nothing else can fail.
   */
  lemma RenamePublishes(fs: seq<Node>, r: Renaming)
    requires ValidateDraft(fs).Ok? && WellFormed(fs) && r.name != r.replacement
    requires RenameDraft(fs, r).Ok? && !Flattened(fs[IndexOf(fs, r.name).value].kind)
    ensures ValidateDraft(RenameDraft(fs, r).value).Ok? <==> ScopeFits(fs, r)
  {
    hide WellFormed, RewriteFields, ValidName, Admissible, ClaimedNames, ScopeFits, AllAlike, ValidateDraft;
    var i := IndexOf(fs, r.name).value;
    var next := Next(fs, i, r);
    ValidateDraftMeaning(fs);
    ValidateDraftMeaning(next);
    AdmissibleAt(fs, i);
    ValidNameHasNoDot(r.name);
    ValidNameHasNoDot(r.replacement);
    WellFormedNext(fs, i, r);
    FieldsAlike(next, true, r);
    var out := RewriteFields(next, true, r).value.0;
    ValidateDraftMeaning(out);
    ClaimsAlike(next, out);
    AdmissibleRewritten(next, r);
    NextFits(fs, i, r);
  }

  // ---------------------------------------------------------------- chains

  datatype Step = Step(name: string, replacement: string)

  function RenameOnce(fs: seq<Node>, step: Step): Result<seq<Node>, EditError> {
    RenameDraft(fs, Renaming(step.name, step.replacement, true))
  }

  /** Each rename succeeds on a stored child, and its rewritten paths are not too long. */
  predicate Renamable(fs: seq<Node>, steps: seq<Step>)
    decreases |steps|
  {
    steps == [] ||
    (&& RenameOnce(fs, steps[0]).Ok? && !Flattened(fs[IndexOf(fs, steps[0].name).value].kind)
     && (steps[0].name != steps[0].replacement ==>
           ScopeFits(fs, Renaming(steps[0].name, steps[0].replacement, true)))
     && Renamable(RenameOnce(fs, steps[0]).value, steps[1..]))
  }

  function RenameAll(fs: seq<Node>, steps: seq<Step>): seq<Node>
    requires Renamable(fs, steps)
    decreases |steps|
  {
    if steps == [] then fs else RenameAll(RenameOnce(fs, steps[0]).value, steps[1..])
  }

  function MoveAll(document: Value, steps: seq<Step>): Value
    decreases |steps|
  {
    if steps == [] then document
    else MoveAll(MoveKey(document, Renaming(steps[0].name, steps[0].replacement, true)), steps[1..])
  }

  lemma StepPublishes(fs: seq<Node>, step: Step)
    requires ValidateDraft(fs).Ok? && WellFormed(fs) && Renamable(fs, [step])
    ensures ValidateDraft(RenameOnce(fs, step).value).Ok?
  {
    if step.name != step.replacement { RenamePublishes(fs, Renaming(step.name, step.replacement, true)); }
  }

  /** Any chain of root renames keeps every condition's meaning, from the first graph to the last. */
  lemma {:induction false} RenamesKeepMeaning(fs: seq<Node>, steps: seq<Step>, document: Value, payloads: Payloads)
    requires ValidateDraft(fs).Ok? && WellFormed(fs) && Resolves(fs, fs, fs) && Renamable(fs, steps)
    ensures Evaluate(RenameAll(fs, steps), MoveAll(document, steps), MoveAll(document, steps), payloads)
            == Evaluate(fs, document, document, payloads)
    ensures var out := RenameAll(fs, steps); ValidateDraft(out).Ok? && Resolves(out, out, out)
    decreases |steps|
  {
    hide Evaluate, MoveKey, WellFormed, Resolves, RenameDraft, ValidateDraft;
    if steps != [] {
      var s := steps[0];
      RenameRootKeepsMeaning(fs, s.name, s.replacement, document, payloads);
      RenameRootKeepsResolution(fs, s.name, s.replacement);
      StepPublishes(fs, s);
      var moved := MoveKey(document, Renaming(s.name, s.replacement, true));
      RenamesKeepMeaning(RenameOnce(fs, s).value, steps[1..], moved, payloads);
    }
  }
}
