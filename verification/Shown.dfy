/** Which fields a document shows, spelled out kind by kind: the reference for evaluating a graph. */
module Shown {
  import opened FieldGraph
  import opened Conditions
  import opened Rename

  function Field(v: Value, name: string): Value {
    if v.Object? && name in v.members then v.members[name] else Absent
  }

  function Stored(v: Value): seq<Value> {
    match v
    case List(items) => items
    case _ => []
  }

  /** A block row carries the slug of its definition. */
  predicate RowOf(row: Value, slug: string) {
    row.Object? && "blockType" in row.members && row.members["blockType"] == Leaf(Scalar(StringScalar, slug))
  }

  /** The outcome of every field of the list, in one stored scope, each followed by what is inside it. */
  function Shows(fs: seq<Node>, root: Value, scope: Value, payloads: Payloads): seq<Outcome>
    decreases fs, 0, 0
  {
    if fs == [] then []
    else
      [Outcome(fs[0].policies, Visible(fs[0].visibleWhen, root, scope))]
      + ShowsInside(fs[0], root, scope, payloads) + Shows(fs[1..], root, scope, payloads)
  }

  function ShowsInside(n: Node, root: Value, scope: Value, payloads: Payloads): seq<Outcome>
    decreases n, 0, 0
  {
    (match n.kind
     case Group => Shows(n.fields, root, Field(scope, n.name), payloads)
     case Array => ShowsRows(n.fields, root, Stored(Field(scope, n.name)), payloads)
     case Row => Shows(n.fields, root, scope, payloads)
     case Collapsible => Shows(n.fields, root, scope, payloads)
     case Tabs => Shows(n.fields, root, scope, payloads)
     case Blocks => ShowsBlocks(n.blocks, root, Stored(Field(scope, n.name)), payloads)
     case _ => [])
    + ShowsTrees(n.trees, root, Field(scope, n.name), payloads)
  }

  function ShowsRows(fs: seq<Node>, root: Value, rows: seq<Value>, payloads: Payloads): seq<Outcome>
    decreases fs, 1, |rows|
  {
    if rows == [] then [] else Shows(fs, root, rows[0], payloads) + ShowsRows(fs, root, rows[1..], payloads)
  }

  /** Of all rows, those of the definition. */
  function ShowsRowsOf(fs: seq<Node>, slug: string, root: Value, rows: seq<Value>, payloads: Payloads): seq<Outcome>
    decreases fs, 1, |rows|
  {
    if rows == [] then []
    else
      (if RowOf(rows[0], slug) then Shows(fs, root, rows[0], payloads) else [])
      + ShowsRowsOf(fs, slug, root, rows[1..], payloads)
  }

  function ShowsBlocks(bs: seq<Block>, root: Value, rows: seq<Value>, payloads: Payloads): seq<Outcome>
    decreases bs, 0, 0
  {
    if bs == [] then []
    else ShowsRowsOf(bs[0].fields, bs[0].slug, root, rows, payloads) + ShowsBlocks(bs[1..], root, rows, payloads)
  }

  function ShowsTrees(ts: seq<EmbeddedTree>, root: Value, stored: Value, payloads: Payloads): seq<Outcome>
    decreases ts, 0, 0
  {
    if ts == [] then []
    else ShowsCases(ts[0].key, ts[0].cases, root, stored, payloads) + ShowsTrees(ts[1..], root, stored, payloads)
  }

  function ShowsCases(key: string, cs: seq<EmbeddedCase>, root: Value, stored: Value, payloads: Payloads): seq<Outcome>
    decreases cs, 0, 0
  {
    if cs == [] then []
    else
      ShowsTypes(key, cs[0].tag, cs[0].types, root, stored, payloads)
      + ShowsCases(key, cs[1..], root, stored, payloads)
  }

  function ShowsTypes(key: string, tag: string, bs: seq<Block>, root: Value, stored: Value, payloads: Payloads):
    seq<Outcome>
    decreases bs, 0, 0
  {
    if bs == [] then []
    else
      var own := payloads(stored, Selector(EmbeddedCaseBoundary, key, tag, bs[0].slug));
      ShowsRows(bs[0].fields, root, own, payloads) + ShowsTypes(key, tag, bs[1..], root, stored, payloads)
  }

  // ------------------------------------------------------------ evaluation is that

  /** The outcomes of a list of branches of one node. */
  function Through(n: Node, bs: seq<Branch>, root: Value, scope: Value, payloads: Payloads): seq<Outcome> {
    if bs == [] then []
    else
      ShowsRows(bs[0].fields, root, BranchScopes(n, bs[0].selector, scope, payloads), payloads)
      + Through(n, bs[1..], root, scope, payloads)
  }

  lemma {:induction false} ThroughJoins(n: Node, bs: seq<Branch>, cs: seq<Branch>, root: Value, scope: Value,
                                        payloads: Payloads)
    ensures Through(n, bs + cs, root, scope, payloads)
            == Through(n, bs, root, scope, payloads) + Through(n, cs, root, scope, payloads)
  {
    hide ShowsRows, BranchScopes;
    if bs == [] {
      assert bs + cs == cs;
    } else {
      assert (bs + cs)[1..] == bs[1..] + cs;
      ThroughJoins(n, bs[1..], cs, root, scope, payloads);
    }
  }

  lemma {:induction false} CaseRowsShow(fs: seq<Node>, slug: string, root: Value, rows: seq<Value>, payloads: Payloads)
    ensures ShowsRows(fs, root, CaseRows(rows, slug), payloads) == ShowsRowsOf(fs, slug, root, rows, payloads)
    decreases |rows|
  {
    hide Shows;
    if rows != [] {
      CaseRowsShow(fs, slug, root, rows[1..], payloads);
      var rest := CaseRows(rows[1..], slug);
      assert ([rows[0]] + rest)[1..] == rest;
    }
  }

  lemma {:induction false} BlocksShow(n: Node, k: nat, root: Value, scope: Value, payloads: Payloads)
    requires k <= |n.blocks|
    ensures Through(n, BlockBranches(n)[k..], root, scope, payloads)
            == ShowsBlocks(n.blocks[k..], root, Stored(Field(scope, n.name)), payloads)
    decreases |n.blocks| - k
  {
    hide ShowsRows, ShowsRowsOf;
    if k < |n.blocks| {
      var b := n.blocks[k];
      assert BlockBranches(n)[k..][1..] == BlockBranches(n)[k + 1..] && n.blocks[k..][1..] == n.blocks[k + 1..];
      CaseRowsShow(b.fields, b.slug, root, Stored(Field(scope, n.name)), payloads);
      BlocksShow(n, k + 1, root, scope, payloads);
    }
  }

  lemma {:induction false} TypesShow(n: Node, key: string, c: EmbeddedCase, k: nat, root: Value, scope: Value,
                                     payloads: Payloads)
    requires k <= |c.types|
    ensures Through(n, TypeBranches(key, c)[k..], root, scope, payloads)
            == ShowsTypes(key, c.tag, c.types[k..], root, Field(scope, n.name), payloads)
    decreases |c.types| - k
  {
    hide ShowsRows;
    if k < |c.types| {
      assert TypeBranches(key, c)[k..][1..] == TypeBranches(key, c)[k + 1..] && c.types[k..][1..] == c.types[k + 1..];
      TypesShow(n, key, c, k + 1, root, scope, payloads);
    }
  }

  lemma {:induction false} CasesShow(n: Node, key: string, cs: seq<EmbeddedCase>, root: Value, scope: Value,
                                     payloads: Payloads)
    ensures Through(n, CaseBranches(key, cs), root, scope, payloads)
            == ShowsCases(key, cs, root, Field(scope, n.name), payloads)
  {
    hide ShowsTypes, TypeBranches;
    if cs != [] {
      var first := TypeBranches(key, cs[0]);
      TypesShow(n, key, cs[0], 0, root, scope, payloads);
      assert first[0..] == first && cs[0].types[0..] == cs[0].types;
      CasesShow(n, key, cs[1..], root, scope, payloads);
      ThroughJoins(n, first, CaseBranches(key, cs[1..]), root, scope, payloads);
    }
  }

  lemma {:induction false} TreesShow(n: Node, ts: seq<EmbeddedTree>, root: Value, scope: Value, payloads: Payloads)
    ensures Through(n, TreeBranches(ts), root, scope, payloads) == ShowsTrees(ts, root, Field(scope, n.name), payloads)
  {
    hide ShowsCases, CaseBranches;
    if ts != [] {
      CasesShow(n, ts[0].key, ts[0].cases, root, scope, payloads);
      TreesShow(n, ts[1..], root, scope, payloads);
      ThroughJoins(n, CaseBranches(ts[0].key, ts[0].cases), TreeBranches(ts[1..]), root, scope, payloads);
    }
  }

  lemma ThroughOne(n: Node, b: Branch, root: Value, scope: Value, payloads: Payloads)
    ensures Through(n, [b], root, scope, payloads)
            == ShowsRows(b.fields, root, BranchScopes(n, b.selector, scope, payloads), payloads)
  {
    assert [b][1..] == [];
  }

  lemma OneRow(fs: seq<Node>, root: Value, row: Value, payloads: Payloads)
    ensures ShowsRows(fs, root, [row], payloads) == Shows(fs, root, row, payloads)
  {
    assert [row][1..] == [];
  }

  lemma OwnShow(n: Node, root: Value, scope: Value, payloads: Payloads)
    requires n.namedTab ==> n.kind == Group
    ensures Through(n, OwnBranches(n), root, scope, payloads)
            + ShowsTrees(n.trees, root, Field(scope, n.name), payloads)
            == ShowsInside(n, root, scope, payloads)
  {
    hide Shows, ShowsRows, ShowsBlocks, ShowsTrees;
    if n.kind == Blocks {
      BlocksShow(n, 0, root, scope, payloads);
      assert BlockBranches(n)[0..] == BlockBranches(n) && n.blocks[0..] == n.blocks;
    } else if HasChildren(n.kind) {
      ThroughOne(n, OwnBranches(n)[0], root, scope, payloads);
      OneRow(n.fields, root, scope, payloads);
      OneRow(n.fields, root, Field(scope, n.name), payloads);
    }
  }

  lemma BranchesShow(n: Node, root: Value, scope: Value, payloads: Payloads)
    requires n.namedTab ==> n.kind == Group
    ensures Through(n, Branches(n), root, scope, payloads) == ShowsInside(n, root, scope, payloads)
  {
    ThroughJoins(n, OwnBranches(n), TreeBranches(n.trees), root, scope, payloads);
    TreesShow(n, n.trees, root, scope, payloads);
    OwnShow(n, root, scope, payloads);
    hide Through, ShowsInside, ShowsTrees;
  }

  /** Evaluating a graph gives the outcome of every field at every place where the document stores it. */
  lemma {:induction false} EvaluateShows(fs: seq<Node>, root: Value, scope: Value, payloads: Payloads)
    requires WellFormed(fs)
    ensures Evaluate(fs, root, scope, payloads) == Shows(fs, root, scope, payloads)
    decreases FieldsSize(fs), 2, 0
  {
    hide WellFormedNode, EvaluateNode, ShowsInside, Visible;
    if fs != [] {
      NodeShows(fs[0], root, scope, payloads);
      EvaluateShows(fs[1..], root, scope, payloads);
    }
  }

  lemma {:induction false} NodeShows(n: Node, root: Value, scope: Value, payloads: Payloads)
    requires WellFormedNode(n)
    ensures EvaluateNode(n, root, scope, payloads)
            == [Outcome(n.policies, Visible(n.visibleWhen, root, scope))] + ShowsInside(n, root, scope, payloads)
    decreases NodeSize(n), 1, 0
  {
    hide Branches, Visible, EvaluateBranches, Through, ShowsInside, NodeSize, FieldsSize, WellFormed;
    BranchesShow(n, root, scope, payloads);
    EvaluateBranchesShow(n, 0, root, scope, payloads);
    assert Branches(n)[0..] == Branches(n);
  }

  lemma {:induction false} EvaluateBranchesShow(n: Node, k: nat, root: Value, scope: Value, payloads: Payloads)
    requires WellFormedNode(n) && k <= |Branches(n)|
    ensures EvaluateBranches(n, k, root, scope, payloads) == Through(n, Branches(n)[k..], root, scope, payloads)
    decreases NodeSize(n), 0, |Branches(n)| - k
  {
    hide Branches, EvaluateScopes, ShowsRows, BranchScopes, NodeSize, FieldsSize, WellFormed;
    if k < |Branches(n)| {
      BranchAt(n, k);
      var b := Branches(n)[k];
      assert Branches(n)[k..][1..] == Branches(n)[k + 1..];
      ScopesShow(b.fields, root, BranchScopes(n, b.selector, scope, payloads), payloads);
      EvaluateBranchesShow(n, k + 1, root, scope, payloads);
    }
  }

  lemma {:induction false} ScopesShow(fs: seq<Node>, root: Value, scopes: seq<Value>, payloads: Payloads)
    requires WellFormed(fs)
    ensures EvaluateScopes(fs, root, scopes, payloads) == ShowsRows(fs, root, scopes, payloads)
    decreases FieldsSize(fs), 3, |scopes|
  {
    hide Evaluate, Shows, WellFormed;
    if scopes != [] {
      EvaluateShows(fs, root, scopes[0], payloads);
      ScopesShow(fs, root, scopes[1..], payloads);
    }
  }
}
