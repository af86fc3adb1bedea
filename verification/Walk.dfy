/** Walking a field graph: every node once, in declaration order, with its stored placement. */
module Walk {
  import opened Wrappers
  import opened FieldGraph

  datatype Visit = Visit(node: Node, selectors: seq<Selector>, index: nat, path: seq<string>, definition: string)

  /** Where a node stands: a position, then a branch number and a position for each level below. */
  type Place = seq<nat>

  datatype Context = Context(selectors: seq<Selector>, placement: seq<string>, definition: string)

  const Root := Context([], [], "")

  function Placed(c: Context, n: Node): seq<string> {
    if BoundaryOf(n) != Layout && n.name != "" then c.placement + [n.name] else c.placement
  }

  /** The surroundings of a branch's fields. */
  function Inside(c: Context, n: Node, b: Branch): Context {
    var s := b.selector;
    Context(c.selectors + [s],
            Placed(c, n)
            + (if s.boundary == EmbeddedCaseBoundary then [s.tree, s.tag] else [])
            + (if s.slug != "" then [s.slug] else []),
            if b.referenced then s.slug else c.definition)
  }

  /** The visits to `fs` from position `i` on, each with its place. */
  function WalkFields(fs: seq<Node>, i: nat, at: Place, c: Context): seq<(Place, Visit)>
    requires i <= |fs|
    decreases FieldsSize(fs), 2, |fs| - i
  {
    if i == |fs| then []
    else
      NodeSizeAt(fs, i);
      WalkNode(fs[i], i, at + [i], c) + WalkFields(fs, i + 1, at, c)
  }

  function WalkNode(n: Node, i: nat, at: Place, c: Context): seq<(Place, Visit)>
    decreases NodeSize(n), 1, 0
  {
    [(at, Visit(n, c.selectors, i, Placed(c, n), c.definition))] + WalkBranches(n, 0, at, c)
  }

  function WalkBranches(n: Node, k: nat, at: Place, c: Context): seq<(Place, Visit)>
    requires k <= |Branches(n)|
    decreases NodeSize(n), 0, |Branches(n)| - k
  {
    if k == |Branches(n)| then []
    else
      BranchAt(n, k);
      var b := Branches(n)[k];
      WalkFields(b.fields, 0, at + [k], Inside(c, n, b)) + WalkBranches(n, k + 1, at, c)
  }

  /** The node at a place, and what its surroundings are, read off the graph alone. */
  function Find(fs: seq<Node>, place: Place, c: Context): Option<Visit>
    decreases |place|
  {
    if place == [] || place[0] >= |fs| then None
    else
      var n := fs[place[0]];
      if |place| == 1 then Some(Visit(n, c.selectors, place[0], Placed(c, n), c.definition))
      else if place[1] >= |Branches(n)| then None
      else Find(Branches(n)[place[1]].fields, place[2..], Inside(c, n, Branches(n)[place[1]]))
  }

  /** Declaration order: a node before what is below it, an earlier position before a later one. */
  predicate Before(p: Place, q: Place)
    decreases |p|
  {
    if p == [] then q != []
    else q != [] && (p[0] < q[0] || (p[0] == q[0] && Before(p[1..], q[1..])))
  }

  lemma {:induction false} BeforeIsStrict(p: Place, q: Place)
    requires Before(p, q)
    ensures p != q && !Before(q, p)
    decreases |p|
  {
    if p != [] && p[0] == q[0] { BeforeIsStrict(p[1..], q[1..]); }
  }

  lemma {:induction false} BeforeBelow(at: Place, p: Place, q: Place)
    ensures Before(at + p, at + q) <==> Before(p, q)
    decreases |at|
  {
    if at == [] {
      assert at + p == p && at + q == q;
    } else {
      assert (at + p)[1..] == at[1..] + p && (at + q)[1..] == at[1..] + q;
      BeforeBelow(at[1..], p, q);
    }
  }

  predicate Increasing(visits: seq<(Place, Visit)>) {
    forall i, j | 0 <= i < j < |visits| :: Before(visits[i].0, visits[j].0)
  }

  /** The place continues `at` with `k` or a later number. */
  predicate From(p: Place, at: Place, k: nat) {
    at <= p && |p| > |at| && p[|at|] >= k
  }

  predicate AllFrom(visits: seq<(Place, Visit)>, at: Place, k: nat) {
    forall i | 0 <= i < |visits| :: From(visits[i].0, at, k)
  }

  lemma FromIsBefore(at: Place, p: Place, q: Place, k: nat)
    requires At(p, at, k) && From(q, at, k + 1)
    ensures Before(p, q)
  {
    BeforeBelow(at, p[|at|..], q[|at|..]);
    assert p == at + p[|at|..] && q == at + q[|at|..];
  }

  /** The place continues `at` with `k` itself. */
  predicate At(p: Place, at: Place, k: nat) {
    at <= p && |p| > |at| && p[|at|] == k
  }

  predicate AllAt(visits: seq<(Place, Visit)>, at: Place, k: nat) {
    forall i | 0 <= i < |visits| :: At(visits[i].0, at, k)
  }

  lemma IncreasingJoin(a: seq<(Place, Visit)>, b: seq<(Place, Visit)>, at: Place, k: nat)
    requires Increasing(a) && Increasing(b) && AllAt(a, at, k) && AllFrom(b, at, k + 1)
    ensures Increasing(a + b) && AllFrom(a + b, at, k)
  {
    var all := a + b;
    forall i, j | 0 <= i < j < |all| ensures Before(all[i].0, all[j].0) {
      if i < |a| && j >= |a| { FromIsBefore(at, all[i].0, all[j].0, k); }
    }
  }

  lemma {:induction false} FieldsIncrease(fs: seq<Node>, i: nat, at: Place, c: Context)
    requires i <= |fs|
    ensures Increasing(WalkFields(fs, i, at, c)) && AllFrom(WalkFields(fs, i, at, c), at, i)
    decreases FieldsSize(fs), 2, |fs| - i
  {
    hide WalkNode, Increasing, AllFrom, AllAt, From, FieldsSize, NodeSize;
    if i == |fs| {
      NothingIncreases(at, i);
    } else {
      NodeSizeAt(fs, i);
      NodeIncreases(fs[i], i, at, c);
      FieldsIncrease(fs, i + 1, at, c);
      IncreasingJoin(WalkNode(fs[i], i, at + [i], c), WalkFields(fs, i + 1, at, c), at, i);
    }
  }

  lemma NothingIncreases(at: Place, k: nat)
    ensures Increasing([]) && AllFrom([], at, k)
  {
  }

  lemma {:induction false} NodeIncreases(n: Node, i: nat, at: Place, c: Context)
    ensures Increasing(WalkNode(n, i, at + [i], c)) && AllAt(WalkNode(n, i, at + [i], c), at, i)
    decreases NodeSize(n), 1, 0
  {
    hide WalkBranches, NodeSize, Branches;
    var below := WalkBranches(n, 0, at + [i], c);
    BranchesIncrease(n, 0, at + [i], c);
    var all := WalkNode(n, i, at + [i], c);
    forall j | 0 <= j < |below| ensures Before(at + [i], below[j].0) && At(below[j].0, at, i) {
      var p := below[j].0;
      assert at + [i] <= p;
      assert p[|at|] == (at + [i])[|at|] == i;
      assert p == (at + [i]) + p[|at| + 1..] && at + [i] == (at + [i]) + [];
      BeforeBelow(at + [i], [], p[|at| + 1..]);
    }
    forall a, b | 0 <= a < b < |all| ensures Before(all[a].0, all[b].0) {
      assert all[b] == below[b - 1];
      assert a > 0 ==> all[a] == below[a - 1];
    }
    forall a | 0 <= a < |all| ensures At(all[a].0, at, i) { assert a > 0 ==> all[a] == below[a - 1]; }
  }

  lemma {:induction false} BranchesIncrease(n: Node, k: nat, at: Place, c: Context)
    requires k <= |Branches(n)|
    ensures Increasing(WalkBranches(n, k, at, c)) && AllFrom(WalkBranches(n, k, at, c), at, k)
    decreases NodeSize(n), 0, |Branches(n)| - k
  {
    hide WalkFields, Increasing, AllAt, From, Branches, NodeSize, FieldsSize, BoundaryOf;
    if k == |Branches(n)| {
      NothingIncreases(at, k);
    } else {
      BranchAt(n, k);
      var b := Branches(n)[k];
      var inner := WalkFields(b.fields, 0, at + [k], Inside(c, n, b));
      FieldsIncrease(b.fields, 0, at + [k], Inside(c, n, b));
      BelowIsAt(inner, at, k);
      BranchesIncrease(n, k + 1, at, c);
      IncreasingJoin(inner, WalkBranches(n, k + 1, at, c), at, k);
    }
  }

  lemma BelowIsAt(visits: seq<(Place, Visit)>, at: Place, k: nat)
    requires AllFrom(visits, at + [k], 0)
    ensures AllAt(visits, at, k)
  {
    forall i | 0 <= i < |visits| ensures At(visits[i].0, at, k) {
      assert From(visits[i].0, at + [k], 0);
      assert visits[i].0[|at|] == (at + [k])[|at|];
    }
  }

  /** The visit below a node, at a place relative to it. */
  function FindBelow(n: Node, i: nat, rest: Place, c: Context): Option<Visit> {
    if rest == [] then Some(Visit(n, c.selectors, i, Placed(c, n), c.definition))
    else if rest[0] >= |Branches(n)| then None
    else Find(Branches(n)[rest[0]].fields, rest[1..], Inside(c, n, Branches(n)[rest[0]]))
  }

  lemma FindUnfolds(fs: seq<Node>, place: Place, c: Context)
    requires place != [] && place[0] < |fs|
    ensures Find(fs, place, c) == FindBelow(fs[place[0]], place[0], place[1..], c)
  {
    if |place| > 1 { assert place[1..][1..] == place[2..]; }
  }

  /** The visits hold what is found at their places, and nothing found is left out. */
  ghost predicate Covers(visits: seq<(Place, Visit)>, at: Place, rest: Place, found: Option<Visit>) {
    forall v :: (at + rest, v) in visits <==> found == Some(v)
  }

  lemma CoversJoin(a: seq<(Place, Visit)>, b: seq<(Place, Visit)>, at: Place,
                   rest: Place, x: Option<Visit>, y: Option<Visit>)
    requires Covers(a, at, rest, x) && Covers(b, at, rest, y) && (x.None? || y.None?)
    ensures Covers(a + b, at, rest, if x.Some? then x else y)
  {
  }

  lemma CoversShift(visits: seq<(Place, Visit)>, at: Place, k: nat, rest: Place, found: Option<Visit>)
    requires rest != [] && rest[0] == k && Covers(visits, at + [k], rest[1..], found)
    ensures Covers(visits, at, rest, found)
  {
    assert at + rest == at + [k] + rest[1..];
  }

  lemma {:induction false} FieldsCovered(fs: seq<Node>, i: nat, at: Place, c: Context, rest: Place)
    requires i <= |fs|
    ensures Covers(WalkFields(fs, i, at, c), at, rest,
                   if rest != [] && rest[0] >= i then Find(fs, rest, c) else None)
    decreases FieldsSize(fs), 2, |fs| - i
  {
    if i == |fs| {
      hide FieldsSize, NodeSize;
    } else {
      hide WalkNode, FieldsSize, NodeSize, Covers, AllAt, Find, FindBelow;
      NodeSizeAt(fs, i);
      FieldsCovered(fs, i + 1, at, c, rest);
      var here, later := WalkNode(fs[i], i, at + [i], c), WalkFields(fs, i + 1, at, c);
      var found := if rest != [] && rest[0] >= i + 1 then Find(fs, rest, c) else None;
      if rest != [] && rest[0] == i {
        FindUnfolds(fs, rest, c);
        NodeCovered(fs[i], i, at + [i], c, rest[1..]);
        CoversShift(here, at, i, rest, Find(fs, rest, c));
        CoversJoin(here, later, at, rest, Find(fs, rest, c), None);
      } else {
        NodePlaces(fs[i], i, at, c);
        OtherPlace(here, at, i, rest);
        CoversJoin(here, later, at, rest, None, found);
      }
    }
  }

  lemma NodePlaces(n: Node, i: nat, at: Place, c: Context)
    ensures AllAt(WalkNode(n, i, at + [i], c), at, i)
  {
    NodeIncreases(n, i, at, c);
  }

  lemma OtherPlace(visits: seq<(Place, Visit)>, at: Place, i: nat, rest: Place)
    requires AllAt(visits, at, i) && (rest == [] || rest[0] != i)
    ensures Covers(visits, at, rest, None)
  {
    forall j | 0 <= j < |visits| ensures visits[j].0 != at + rest {
      assert At(visits[j].0, at, i);
    }
  }

  lemma {:induction false} NodeCovered(n: Node, i: nat, at: Place, c: Context, rest: Place)
    ensures Covers(WalkNode(n, i, at, c), at, rest, FindBelow(n, i, rest, c))
    decreases NodeSize(n), 1, 0
  {
    hide WalkBranches, NodeSize, Branches, Find;
    BranchesCovered(n, 0, at, c, rest);
    if rest == [] {
      assert at + rest == at;
    } else {
      assert at + rest != at;
    }
  }

  lemma {:induction false} BranchesCovered(n: Node, k: nat, at: Place, c: Context, rest: Place)
    requires k <= |Branches(n)|
    ensures Covers(WalkBranches(n, k, at, c), at, rest,
                   if rest != [] && k <= rest[0] < |Branches(n)| then
                     Find(Branches(n)[rest[0]].fields, rest[1..], Inside(c, n, Branches(n)[rest[0]]))
                   else None)
    decreases NodeSize(n), 0, |Branches(n)| - k
  {
    hide WalkFields, Branches, NodeSize, FieldsSize, Find, Inside, Covers, AllAt, AllFrom;
    if k == |Branches(n)| {
      NothingCovered(at, rest);
    } else {
      BranchAt(n, k);
      var b := Branches(n)[k];
      var inner, later := WalkFields(b.fields, 0, at + [k], Inside(c, n, b)), WalkBranches(n, k + 1, at, c);
      BranchesCovered(n, k + 1, at, c, rest);
      if rest != [] && rest[0] == k {
        var found := Find(b.fields, rest[1..], Inside(c, n, b));
        FieldsCovered(b.fields, 0, at + [k], Inside(c, n, b), rest[1..]);
        FindNothing(b.fields, rest[1..], Inside(c, n, b));
        CoversShift(inner, at, k, rest, found);
        CoversJoin(inner, later, at, rest, found, None);
      } else {
        FieldsIncrease(b.fields, 0, at + [k], Inside(c, n, b));
        BelowIsAt(inner, at, k);
        OtherPlace(inner, at, k, rest);
        CoversJoin(inner, later, at, rest, None,
                   if rest != [] && k + 1 <= rest[0] < |Branches(n)| then
                     Find(Branches(n)[rest[0]].fields, rest[1..], Inside(c, n, Branches(n)[rest[0]]))
                   else None);
      }
    }
  }

  lemma NothingCovered(at: Place, rest: Place)
    ensures Covers([], at, rest, None)
  {
  }

  lemma FindNothing(fs: seq<Node>, rest: Place, c: Context)
    ensures rest == [] ==> Find(fs, rest, c) == None
  {
  }

  /**
   * A walk visits exactly the nodes of the graph, each at its place with its own surroundings,
   * in strictly increasing declaration order: no node is left out and none is visited twice.
   */
  lemma WalkVisitsEachNodeOnce(fs: seq<Node>, place: Place, v: Visit)
    ensures var visits := WalkFields(fs, 0, [], Root);
            && ((place, v) in visits <==> Find(fs, place, Root) == Some(v))
            && Increasing(visits)
            && forall i, j | 0 <= i < j < |visits| :: visits[i].0 != visits[j].0
  {
    hide WalkFields, Find;
    FieldsCovered(fs, 0, [], Root, place);
    FindNothing(fs, place, Root);
    assert [] + place == place;
    FieldsIncrease(fs, 0, [], Root);
    var visits := WalkFields(fs, 0, [], Root);
    forall i, j | 0 <= i < j < |visits| ensures visits[i].0 != visits[j].0 {
      BeforeIsStrict(visits[i].0, visits[j].0);
    }
  }
}
