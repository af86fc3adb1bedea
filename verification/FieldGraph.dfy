/** The authored field graph: nodes, their child branches and visibility conditions. */
module FieldGraph {
  import opened Wrappers

  datatype ScalarField =
    | Text | TextList | NumberList | Code | Select | Radio | Point | Textarea | Email | Date
    | Number | Checkbox | Json

  datatype Kind =
    | ScalarKind(of: ScalarField) | Relationship | Upload | Group | Array | Blocks | Tabs | Row | Ui
    | Collapsible | Join | Virtual | Plugin

  datatype Boundary =
    | StoredScalar | StoredReference | StoredObject | RepeatedArray | BlockSet | BlockCase
    | NamedTabBoundary | Layout | PluginValue | EmbeddedCaseBoundary | Output

  datatype ScalarType = StringScalar | NumberScalar | BooleanScalar

  /** A canonically encoded scalar; equality is the strict typed comparison. */
  datatype Scalar = Scalar(kind: ScalarType, text: string)

  datatype ReferenceScope = NoScope | SiblingScope | RootScope

  datatype Reference = Reference(scope: ReferenceScope, path: string)

  datatype ConditionKind = NoCondition | All | Any | Not | Predicate

  datatype Operator = NoOperator | Equals | NotEquals | OneOf

  /** `issues` counts operands that could not be normalised when the condition was built. */
  datatype Condition = Condition(
    kind: ConditionKind, conditions: seq<Condition>, reference: Reference,
    operator: Operator, values: seq<Scalar>, issues: nat)

  /** `policies` stands for every attachment that graph edits only carry along. */
  datatype Node = Node(
    name: string, kind: Kind, namedTab: bool, policies: nat, visibleWhen: Condition,
    fields: seq<Node>, blocks: seq<Block>, blockReferences: seq<string>,
    referencesBound: bool, trees: seq<EmbeddedTree>)

  datatype Block = Block(slug: string, typeName: string, settings: nat, fields: seq<Node>)

  datatype EmbeddedTree = EmbeddedTree(key: string, settings: nat, cases: seq<EmbeddedCase>)

  datatype EmbeddedCase = EmbeddedCase(
    tag: string, settings: nat, types: seq<Block>, references: seq<string>, referencesBound: bool)

  datatype Selector = Selector(boundary: Boundary, tree: string, tag: string, slug: string)

  datatype Branch = Branch(selector: Selector, name: string, referenced: bool, fields: seq<Node>)

  datatype EditError =
    | DuplicateName(name: string) | InvalidName(name: string) | InvalidCondition(name: string)
    | NotFound(name: string) | AmbiguousName(name: string) | UnknownBranch(name: string)
    | ReferencedBlockImmutable(name: string) | InvalidIndex | RenameRequiresExplicitEdit(name: string)
    | IncompatibleKind(name: string) | CallbackFailed

  // ---------------------------------------------------------------- sizes

  function NodeSize(n: Node): (size: nat)
    ensures size >= 1
  {
    1 + FieldsSize(n.fields) + BlocksSize(n.blocks) + TreesSize(n.trees)
  }

  function FieldsSize(fs: seq<Node>): nat {
    if fs == [] then 0 else NodeSize(fs[0]) + FieldsSize(fs[1..])
  }

  function BlocksSize(bs: seq<Block>): nat {
    if bs == [] then 0 else 1 + FieldsSize(bs[0].fields) + BlocksSize(bs[1..])
  }

  function CasesSize(cs: seq<EmbeddedCase>): nat {
    if cs == [] then 0 else 1 + BlocksSize(cs[0].types) + CasesSize(cs[1..])
  }

  function TreesSize(ts: seq<EmbeddedTree>): nat {
    if ts == [] then 0 else 1 + CasesSize(ts[0].cases) + TreesSize(ts[1..])
  }

  lemma {:induction false} BlockSizeAt(bs: seq<Block>, i: nat)
    requires i < |bs|
    ensures FieldsSize(bs[i].fields) < BlocksSize(bs)
  {
    if i > 0 { BlockSizeAt(bs[1..], i - 1); }
  }

  lemma {:induction false} NodeSizeAt(fs: seq<Node>, i: nat)
    requires i < |fs|
    ensures NodeSize(fs[i]) <= FieldsSize(fs)
  {
    if i > 0 { NodeSizeAt(fs[1..], i - 1); }
  }

  // ------------------------------------------------------------- branches

  /** A node's value and traversal semantics (a named tab is a stored object). */
  function BoundaryOf(n: Node): (b: Boundary)
    ensures b != BlockCase && b != EmbeddedCaseBoundary
  {
    if n.namedTab then NamedTabBoundary else
    match n.kind
    case Group => StoredObject
    case Array => RepeatedArray
    case Blocks => BlockSet
    case Relationship | Upload => StoredReference
    case Tabs | Row | Ui | Collapsible => Layout
    case Virtual | Join => Output
    case Plugin => PluginValue
    case ScalarKind(_) => StoredScalar
  }

  predicate HasChildren(k: Kind) {
    k == Group || k == Array || k == Row || k == Collapsible || k == Tabs
  }

  function ChildSelector(n: Node): Selector {
    Selector(BoundaryOf(n), "", "", "")
  }

  function BlockBranch(n: Node, b: Block): Branch {
    Branch(Selector(BlockCase, "", "", b.slug), b.slug, |n.blockReferences| > 0, b.fields)
  }

  function TypeBranch(key: string, c: EmbeddedCase, b: Block): Branch {
    Branch(Selector(EmbeddedCaseBoundary, key, c.tag, b.slug), b.slug, |c.references| > 0, b.fields)
  }

  function BlockBranches(n: Node): seq<Branch> {
    seq(|n.blocks|, i requires 0 <= i < |n.blocks| => BlockBranch(n, n.blocks[i]))
  }

  function TypeBranches(key: string, c: EmbeddedCase): seq<Branch> {
    seq(|c.types|, i requires 0 <= i < |c.types| => TypeBranch(key, c, c.types[i]))
  }

  function CaseBranches(key: string, cs: seq<EmbeddedCase>): seq<Branch> {
    if cs == [] then [] else TypeBranches(key, cs[0]) + CaseBranches(key, cs[1..])
  }

  function TreeBranches(ts: seq<EmbeddedTree>): seq<Branch> {
    if ts == [] then [] else CaseBranches(ts[0].key, ts[0].cases) + TreeBranches(ts[1..])
  }

  /** The branches a node owns before its embedded payload cases. */
  function OwnBranches(n: Node): seq<Branch> {
    if HasChildren(n.kind) then [Branch(ChildSelector(n), "", false, n.fields)]
    else if n.kind == Blocks then BlockBranches(n)
    else []
  }

  /** Schema-owned children: one object, array or layout scope, block cases, embedded cases. */
  function Branches(n: Node): seq<Branch> {
    OwnBranches(n) + TreeBranches(n.trees)
  }

  /** Branches depend on structure alone. */
  lemma BranchesOfSame(n: Node, m: Node)
    requires m.kind == n.kind && m.namedTab == n.namedTab && m.fields == n.fields
    requires m.blocks == n.blocks && m.blockReferences == n.blockReferences && m.trees == n.trees
    ensures Branches(m) == Branches(n)
  {
    assert OwnBranches(m) == OwnBranches(n);
  }

  lemma {:induction false} CaseBranchAt(key: string, cs: seq<EmbeddedCase>, i: nat)
    requires i < |CaseBranches(key, cs)|
    ensures var b := CaseBranches(key, cs)[i];
            FieldsSize(b.fields) < CasesSize(cs) && b.selector.boundary == EmbeddedCaseBoundary &&
            b.selector.tree == key
  {
    var here := |cs[0].types|;
    if i < here {
      BlockSizeAt(cs[0].types, i);
    } else {
      CaseBranchAt(key, cs[1..], i - here);
    }
  }

  lemma {:induction false} TreeBranchAt(ts: seq<EmbeddedTree>, i: nat)
    requires i < |TreeBranches(ts)|
    ensures var b := TreeBranches(ts)[i];
            FieldsSize(b.fields) < TreesSize(ts) && b.selector.boundary == EmbeddedCaseBoundary
  {
    var here := |CaseBranches(ts[0].key, ts[0].cases)|;
    if i < here {
      CaseBranchAt(ts[0].key, ts[0].cases, i);
    } else {
      TreeBranchAt(ts[1..], i - here);
    }
  }

  lemma OwnBranchAt(n: Node, i: nat)
    requires i < |OwnBranches(n)|
    ensures FieldsSize(OwnBranches(n)[i].fields) <= FieldsSize(n.fields) + BlocksSize(n.blocks)
    ensures OwnBranches(n)[i].selector.boundary != EmbeddedCaseBoundary
    ensures n.kind == Blocks <==> OwnBranches(n)[i].selector.boundary == BlockCase
  {
    if n.kind == Blocks { BlockSizeAt(n.blocks, i); }
  }

  /** A branch's fields are smaller than the node, and only embedded cases come from trees. */
  lemma BranchAt(n: Node, i: nat)
    requires i < |Branches(n)|
    ensures FieldsSize(Branches(n)[i].fields) < NodeSize(n)
    ensures Branches(n)[i].selector.boundary == EmbeddedCaseBoundary <==> i >= |OwnBranches(n)|
  {
    hide TreeBranches, OwnBranches;
    var own := |OwnBranches(n)|;
    if i < own { OwnBranchAt(n, i); } else { TreeBranchAt(n.trees, i - own); }
  }

  // ------------------------------------------------------ branch replacement

  /** Position of the first branch with selector `s`, or the number of branches. */
  function FirstBranch(bs: seq<Branch>, s: Selector): (i: nat)
    ensures i <= |bs|
    ensures i < |bs| ==> bs[i].selector == s
    ensures forall k | 0 <= k < i :: bs[k].selector != s
  {
    if bs == [] || bs[0].selector == s then 0 else 1 + FirstBranch(bs[1..], s)
  }

  function FirstBlock(bs: seq<Block>, slug: string): (i: nat)
    ensures i <= |bs|
    ensures i < |bs| ==> bs[i].slug == slug
    ensures forall k | 0 <= k < i :: bs[k].slug != slug
  {
    if bs == [] || bs[0].slug == slug then 0 else 1 + FirstBlock(bs[1..], slug)
  }

  predicate HasBlock(bs: seq<Block>, slug: string) {
    FirstBlock(bs, slug) < |bs|
  }

  function ReplaceBlock(bs: seq<Block>, slug: string, children: seq<Node>): seq<Block> {
    var i := FirstBlock(bs, slug);
    if i < |bs| then bs[i := bs[i].(fields := children)] else bs
  }

  function ReplaceType(c: EmbeddedCase, slug: string, children: seq<Node>): EmbeddedCase {
    c.(types := ReplaceBlock(c.types, slug, children))
  }

  function ReplaceInCases(cs: seq<EmbeddedCase>, s: Selector, children: seq<Node>): seq<EmbeddedCase> {
    if cs == [] then []
    else if cs[0].tag == s.tag && HasBlock(cs[0].types, s.slug) then
      [ReplaceType(cs[0], s.slug, children)] + cs[1..]
    else [cs[0]] + ReplaceInCases(cs[1..], s, children)
  }

  predicate CasesHave(cs: seq<EmbeddedCase>, s: Selector) {
    cs != [] && ((cs[0].tag == s.tag && HasBlock(cs[0].types, s.slug)) || CasesHave(cs[1..], s))
  }

  function ReplaceInTrees(ts: seq<EmbeddedTree>, s: Selector, children: seq<Node>): seq<EmbeddedTree> {
    if ts == [] then []
    else if ts[0].key == s.tree && CasesHave(ts[0].cases, s) then
      [ts[0].(cases := ReplaceInCases(ts[0].cases, s, children))] + ts[1..]
    else [ts[0]] + ReplaceInTrees(ts[1..], s, children)
  }

  function ReplaceAtBoundary(n: Node, s: Selector, children: seq<Node>): Node {
    if s.boundary == BlockCase then n.(blocks := ReplaceBlock(n.blocks, s.slug, children))
    else if s.boundary == EmbeddedCaseBoundary then n.(trees := ReplaceInTrees(n.trees, s, children))
    else n.(fields := children)
  }

  /** Replaces the children of one branch; a referenced definition is immutable. */
  function ReplaceBranch(n: Node, s: Selector, children: seq<Node>): Result<Node, EditError> {
    var bs := Branches(n);
    var i := FirstBranch(bs, s);
    if i == |bs| then Err(UnknownBranch(n.name))
    else if bs[i].referenced then Err(ReferencedBlockImmutable(s.slug))
    else Ok(ReplaceAtBoundary(n, s, children))
  }

  predicate DistinctSelectors(bs: seq<Branch>) {
    forall i, j | 0 <= i < j < |bs| :: bs[i].selector != bs[j].selector
  }

  /** `after` is `before` with the children of branch `i` replaced (nothing when `i` is the end). */
  predicate Updated(after: seq<Branch>, before: seq<Branch>, i: nat, children: seq<Node>) {
    && |after| == |before|
    && forall k | 0 <= k < |before| ::
         after[k] == if k == i then before[k].(fields := children) else before[k]
  }

  lemma {:induction false} FirstInSum(a: seq<Branch>, b: seq<Branch>, s: Selector)
    ensures FirstBranch(a + b, s) ==
            if FirstBranch(a, s) < |a| then FirstBranch(a, s) else |a| + FirstBranch(b, s)
  {
    var i, j, k := FirstBranch(a + b, s), FirstBranch(a, s), FirstBranch(b, s);
    if j < |a| {
      assert (a + b)[j] == a[j];
    } else if k < |b| {
      assert (a + b)[|a| + k] == b[k];
    }
  }

  lemma TypeFirst(key: string, c: EmbeddedCase, s: Selector)
    requires s.boundary == EmbeddedCaseBoundary && s.tree == key
    ensures FirstBranch(TypeBranches(key, c), s) ==
            if c.tag == s.tag then FirstBlock(c.types, s.slug) else |c.types|
  {
    var r := TypeBranches(key, c);
    var i, j := FirstBranch(r, s), FirstBlock(c.types, s.slug);
    if c.tag == s.tag {
      assert forall k | 0 <= k < |r| :: r[k].selector == s <==> c.types[k].slug == s.slug;
    }
  }

  lemma UpdatedSum(a: seq<Branch>, b: seq<Branch>, a': seq<Branch>, b': seq<Branch>, i: nat, children: seq<Node>)
    requires if i < |a| then Updated(a', a, i, children) && b' == b
             else a' == a && Updated(b', b, i - |a|, children)
    ensures Updated(a' + b', a + b, i, children)
  {
  }

  lemma {:induction false} ReplaceCasesLens(key: string, cs: seq<EmbeddedCase>, s: Selector, children: seq<Node>)
    requires s.boundary == EmbeddedCaseBoundary && s.tree == key
    ensures var r := CaseBranches(key, cs); var i := FirstBranch(r, s);
            (i < |r| <==> CasesHave(cs, s)) &&
            (i < |r| ==> Updated(CaseBranches(key, ReplaceInCases(cs, s, children)), r, i, children))
  {
    hide FirstBranch, FirstBlock, NodeSize, FieldsSize, BlocksSize, CasesSize, TreesSize;
    if cs != [] {
      var c, rest := cs[0], cs[1..];
      var a, b := TypeBranches(key, c), CaseBranches(key, rest);
      TypeFirst(key, c, s);
      FirstInSum(a, b, s);
      ReplaceCasesLens(key, rest, s, children);
      var i := FirstBranch(a + b, s);
      if c.tag == s.tag && HasBlock(c.types, s.slug) {
        var d := ReplaceType(c, s.slug, children);
        assert ([d] + rest)[1..] == rest;
        UpdatedSum(a, b, TypeBranches(key, d), b, i, children);
      } else if i < |a + b| {
        var rest' := ReplaceInCases(rest, s, children);
        assert ([c] + rest')[1..] == rest';
        UpdatedSum(a, b, a, CaseBranches(key, rest'), i, children);
      }
    }
  }

  lemma {:induction false} ReplaceTreesLens(ts: seq<EmbeddedTree>, s: Selector, children: seq<Node>)
    requires s.boundary == EmbeddedCaseBoundary
    requires FirstBranch(TreeBranches(ts), s) < |TreeBranches(ts)|
    ensures Updated(TreeBranches(ReplaceInTrees(ts, s, children)), TreeBranches(ts),
                    FirstBranch(TreeBranches(ts), s), children)
  {
    hide FirstBranch, FirstBlock, NodeSize, FieldsSize, BlocksSize, CasesSize, TreesSize;
    var t, rest := ts[0], ts[1..];
    var a, b := CaseBranches(t.key, t.cases), TreeBranches(rest);
    FirstInSum(a, b, s);
    var i := FirstBranch(a + b, s);
    if i < |a| {
      CaseBranchAt(t.key, t.cases, i);
    }
    if t.key == s.tree {
      ReplaceCasesLens(t.key, t.cases, s, children);
    }
    if i < |a| {
      var u := t.(cases := ReplaceInCases(t.cases, s, children));
      assert ([u] + rest)[1..] == rest;
      UpdatedSum(a, b, CaseBranches(u.key, u.cases), b, i, children);
    } else {
      ReplaceTreesLens(rest, s, children);
      var rest' := ReplaceInTrees(rest, s, children);
      assert ([t] + rest')[1..] == rest';
      UpdatedSum(a, b, a, TreeBranches(rest'), i, children);
    }
  }

  lemma ReplaceOwnLens(n: Node, s: Selector, children: seq<Node>)
    requires s.boundary != EmbeddedCaseBoundary
    requires FirstBranch(OwnBranches(n), s) < |OwnBranches(n)|
    ensures Updated(OwnBranches(ReplaceAtBoundary(n, s, children)), OwnBranches(n),
                    FirstBranch(OwnBranches(n), s), children)
  {
    OwnFirst(n, s);
  }

  lemma OwnFirst(n: Node, s: Selector)
    requires FirstBranch(OwnBranches(n), s) < |OwnBranches(n)|
    ensures n.kind == Blocks <==> s.boundary == BlockCase
    ensures n.kind == Blocks ==> FirstBranch(OwnBranches(n), s) == FirstBlock(n.blocks, s.slug)
  {
    hide FirstBranch, FirstBlock, NodeSize, FieldsSize, BlocksSize, CasesSize, TreesSize;
    var own := OwnBranches(n);
    OwnBranchAt(n, FirstBranch(own, s));
    if n.kind == Blocks {
      assert forall k | 0 <= k < |own| :: own[k].selector == s <==> n.blocks[k].slug == s.slug;
    }
  }

  /**
   * The law behind every structural edit: replacing a branch succeeds exactly when its first
   * occurrence exists and is unreferenced, and then changes that branch's children and nothing
   * else, neither another branch nor any other attribute of the node.
   */
  lemma ReplaceBranchLens(n: Node, s: Selector, children: seq<Node>)
    ensures var bs := Branches(n); var i := FirstBranch(bs, s); var r := ReplaceBranch(n, s, children);
            && (r.Ok? <==> i < |bs| && !bs[i].referenced)
            && (r.Ok? ==>
                && Updated(Branches(r.value), bs, i, children)
                && r.value.(fields := n.fields, blocks := n.blocks, trees := n.trees) == n)
  {
    hide TreeBranches, OwnBranches, ReplaceInTrees, FirstBranch, NodeSize, FieldsSize, BlocksSize, CasesSize, TreesSize;
    if FirstBranch(Branches(n), s) < |Branches(n)| {
      BoundaryLens(n, s, children);
    }
  }

  lemma BoundaryLens(n: Node, s: Selector, children: seq<Node>)
    requires FirstBranch(Branches(n), s) < |Branches(n)|
    ensures Updated(Branches(ReplaceAtBoundary(n, s, children)), Branches(n), FirstBranch(Branches(n), s), children)
  {
    hide TreeBranches, ReplaceInTrees, FirstBranch, NodeSize, FieldsSize, BlocksSize, CasesSize, TreesSize;
    var own, trees := OwnBranches(n), TreeBranches(n.trees);
    var i := FirstBranch(own + trees, s);
    FirstInSum(own, trees, s);
    BranchAt(n, i);
    var m := ReplaceAtBoundary(n, s, children);
    if s.boundary == EmbeddedCaseBoundary {
      ReplaceTreesLens(n.trees, s, children);
      assert OwnBranches(m) == own;
    } else {
      ReplaceOwnLens(n, s, children);
      assert m.trees == n.trees;
    }
    UpdatedSum(own, trees, OwnBranches(m), TreeBranches(m.trees), i, children);
  }

  lemma UpdatedFirst(after: seq<Branch>, before: seq<Branch>, i: nat, children: seq<Node>, s: Selector)
    requires Updated(after, before, i, children)
    ensures FirstBranch(after, s) == FirstBranch(before, s)
  {
    assert forall k | 0 <= k < |after| :: after[k].selector == before[k].selector;
  }

  /** Reading after replacing gives the new children. */
  lemma ReplaceThenRead(n: Node, s: Selector, children: seq<Node>)
    requires ReplaceBranch(n, s, children).Ok?
    ensures var bs := Branches(ReplaceBranch(n, s, children).value); var i := FirstBranch(bs, s);
            i < |bs| && bs[i].fields == children
  {
    hide Branches, FirstBranch, ReplaceAtBoundary;
    ReplaceBranchLens(n, s, children);
    var m := ReplaceBranch(n, s, children).value;
    UpdatedFirst(Branches(m), Branches(n), FirstBranch(Branches(n), s), children, s);
  }

  /** Replacing a branch with what was read from it changes nothing. */
  lemma ReadThenReplace(n: Node, s: Selector)
    requires var bs := Branches(n); var i := FirstBranch(bs, s); i < |bs| && !bs[i].referenced
    ensures ReplaceBranch(n, s, Branches(n)[FirstBranch(Branches(n), s)].fields) == Ok(n)
  {
    hide TreeBranches, ReplaceInTrees, FirstBranch, NodeSize, FieldsSize, BlocksSize, CasesSize, TreesSize;
    var own, trees := OwnBranches(n), TreeBranches(n.trees);
    var i := FirstBranch(own + trees, s);
    FirstInSum(own, trees, s);
    BranchAt(n, i);
    if s.boundary == EmbeddedCaseBoundary {
      TreesReadReplace(n.trees, s);
    } else {
      OwnFirst(n, s);
      if n.kind == Blocks {
        assert n.blocks[i := n.blocks[i]] == n.blocks;
      }
    }
  }

  lemma {:induction false} CasesReadReplace(key: string, cs: seq<EmbeddedCase>, s: Selector)
    requires s.boundary == EmbeddedCaseBoundary && s.tree == key
    requires FirstBranch(CaseBranches(key, cs), s) < |CaseBranches(key, cs)|
    ensures ReplaceInCases(cs, s, CaseBranches(key, cs)[FirstBranch(CaseBranches(key, cs), s)].fields) == cs
  {
    hide FirstBranch, FirstBlock, NodeSize, FieldsSize, BlocksSize, CasesSize, TreesSize;
    var c := cs[0];
    var a, b := TypeBranches(key, c), CaseBranches(key, cs[1..]);
    TypeFirst(key, c, s);
    FirstInSum(a, b, s);
    if c.tag == s.tag && HasBlock(c.types, s.slug) {
      var j := FirstBlock(c.types, s.slug);
      assert c.types[j := c.types[j]] == c.types;
    } else {
      CasesReadReplace(key, cs[1..], s);
    }
  }

  lemma {:induction false} TreesReadReplace(ts: seq<EmbeddedTree>, s: Selector)
    requires s.boundary == EmbeddedCaseBoundary
    requires FirstBranch(TreeBranches(ts), s) < |TreeBranches(ts)|
    ensures ReplaceInTrees(ts, s, TreeBranches(ts)[FirstBranch(TreeBranches(ts), s)].fields) == ts
  {
    hide FirstBranch, FirstBlock, NodeSize, FieldsSize, BlocksSize, CasesSize, TreesSize;
    var t := ts[0];
    var a, b := CaseBranches(t.key, t.cases), TreeBranches(ts[1..]);
    FirstInSum(a, b, s);
    var i := FirstBranch(a + b, s);
    if t.key == s.tree {
      ReplaceCasesLens(t.key, t.cases, s, []);
    }
    if i < |a| {
      CaseBranchAt(t.key, t.cases, i);
      CasesReadReplace(t.key, t.cases, s);
    } else {
      TreesReadReplace(ts[1..], s);
    }
  }

  /** The last of two replacements of one branch wins. */
  lemma ReplaceTwice(n: Node, s: Selector, first: seq<Node>, second: seq<Node>)
    requires ReplaceBranch(n, s, first).Ok?
    ensures ReplaceBranch(ReplaceBranch(n, s, first).value, s, second) == ReplaceBranch(n, s, second)
  {
    var m := ReplaceBranch(n, s, first).value;
    ReplaceBranchLens(n, s, first);
    UpdatedFirst(Branches(m), Branches(n), FirstBranch(Branches(n), s), first, s);
    if s.boundary == BlockCase {
      BlocksReplaceTwice(n.blocks, s.slug, first, second);
    } else if s.boundary == EmbeddedCaseBoundary {
      TreesReplaceTwice(n.trees, s, first, second);
    }
  }

  lemma BlocksReplaceTwice(bs: seq<Block>, slug: string, first: seq<Node>, second: seq<Node>)
    ensures var once := ReplaceBlock(bs, slug, first);
            (HasBlock(once, slug) <==> HasBlock(bs, slug)) &&
            ReplaceBlock(once, slug, second) == ReplaceBlock(bs, slug, second)
  {
    var once := ReplaceBlock(bs, slug, first);
    assert forall k | 0 <= k < |bs| :: once[k].slug == bs[k].slug;
  }

  lemma {:induction false} CasesReplaceTwice(cs: seq<EmbeddedCase>, s: Selector, first: seq<Node>, second: seq<Node>)
    ensures var once := ReplaceInCases(cs, s, first);
            (CasesHave(once, s) <==> CasesHave(cs, s)) &&
            ReplaceInCases(once, s, second) == ReplaceInCases(cs, s, second)
  {
    if cs != [] {
      BlocksReplaceTwice(cs[0].types, s.slug, first, second);
      CasesReplaceTwice(cs[1..], s, first, second);
    }
  }

  lemma {:induction false} TreesReplaceTwice(ts: seq<EmbeddedTree>, s: Selector, first: seq<Node>, second: seq<Node>)
    ensures ReplaceInTrees(ReplaceInTrees(ts, s, first), s, second) == ReplaceInTrees(ts, s, second)
  {
    if ts != [] {
      CasesReplaceTwice(ts[0].cases, s, first, second);
      TreesReplaceTwice(ts[1..], s, first, second);
    }
  }
}
