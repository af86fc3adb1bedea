/** Transactional editing: a detached draft whose content is published whole or not at all. */
module Drafts {
  import opened Wrappers
  import opened FieldGraph
  import opened Conditions
  import opened DraftRules
  import opened Rename

  /**
   * One call on a draft. `Refine` stands for the concrete editors, which write in place; `fits` is
   * the editor's test of the field's kind and shape.
   */
  datatype Step =
    | Insert(index: int, node: Node)
    | ReplaceAt(index: int, node: Node)
    | Replace(name: string, node: Node)
    | Remove(name: string)
    | RenameStep(renaming: Renaming)
    | Refine(name: string, fits: Node -> bool, next: Node)
    | EditChildren(name: string, script: Script)
    | EditBranchAt(index: int, selector: Selector, script: Script)

  /** The calls a callback makes, whatever it does with their errors, and whether it then fails. */
  datatype Script = Script(steps: seq<Step>, fails: bool)

  type Content = Result<seq<Node>, EditError>

  /** Content that is installed only when it is valid. */
  function Checked(next: seq<Node>): Content {
    var _ :- ValidateDraft(next);
    Ok(next)
  }

  function ReplacedAt(fs: seq<Node>, index: int, node: Node): Content {
    if index < 0 || index >= |fs| then Err(InvalidIndex) else Checked(fs[index := node])
  }

  /** The content after one call, or its error. */
  function Apply(step: Step, fs: seq<Node>): Content
    decreases step
  {
    match step
    case Insert(index, node) =>
      if index < 0 || index > |fs| then Err(InvalidIndex) else Checked(fs[..index] + [node] + fs[index..])
    case ReplaceAt(index, node) => ReplacedAt(fs, index, node)
    case Replace(name, node) =>
      var i :- IndexOf(fs, name);
      ReplacedAt(fs, i, node)
    case Remove(name) =>
      var i :- IndexOf(fs, name);
      Ok(fs[..i] + fs[i + 1..])
    case RenameStep(r) => RenameDraft(fs, r)
    case Refine(name, fits, next) =>
      var i :- IndexOf(fs, name);
      if !fits(fs[i]) then Err(IncompatibleKind(name))
      else if next.name != name then Err(RenameRequiresExplicitEdit(name))
      else Ok(fs[i := next])
    case EditChildren(name, script) =>
      var i :- IndexOf(fs, name);
      if !ListsChildren(fs[i].kind) then Err(IncompatibleKind(name))
      else BranchEdited(fs, i, ChildSelector(fs[i]), script)
    case EditBranchAt(index, selector, script) =>
      if index < 0 || index >= |fs| then Err(InvalidIndex) else BranchEdited(fs, index, selector, script)
  }

  /** Kinds whose only branch is their list of children. */
  predicate ListsChildren(k: Kind) {
    k == Group || k == Array || k == Row || k == Collapsible
  }

  /** One transaction on the children of a branch, and its result put back. */
  function BranchEdited(fs: seq<Node>, index: nat, selector: Selector, script: Script): Content
    requires index < |fs|
    decreases script, 1
  {
    var bs := Branches(fs[index]);
    var k := FirstBranch(bs, selector);
    if k == |bs| then Err(UnknownBranch(fs[index].name))
    else
      var children :- EditFields(bs[k].fields, script);
      var edited :- ReplaceBranch(fs[index], selector, children);
      ReplacedAt(fs, index, edited)
  }

  /** A failed call leaves the content as it was, and the callback may carry on. */
  function RunSteps(steps: seq<Step>, fs: seq<Node>): seq<Node>
    decreases steps
  {
    if steps == [] then fs
    else
      var out := Apply(steps[0], fs);
      RunSteps(steps[1..], if out.Ok? then out.value else fs)
  }

  /** What one transaction publishes. */
  function EditFields(fs: seq<Node>, script: Script): Content
    decreases script, 0
  {
    if script.fails then Err(CallbackFailed) else Checked(RunSteps(script.steps, fs))
  }

  /** A published graph claims every name of its flattened scope once. */
  lemma PublishedNamesAreUnique(fs: seq<Node>, script: Script)
    requires EditFields(fs, script).Ok?
    ensures var out := EditFields(fs, script).value;
            Admissible(out) && NoDuplicates(ClaimedNames(out))
  {
    ValidateDraftMeaning(RunSteps(script.steps, fs));
  }

  /** Removing a child never makes a valid draft invalid, although removal is not checked. */
  lemma RemoveKeepsValid(fs: seq<Node>, name: string)
    requires ValidateDraft(fs).Ok? && Apply(Remove(name), fs).Ok?
    ensures ValidateDraft(Apply(Remove(name), fs).value).Ok?
  {
    var i := IndexOf(fs, name).value;
    ValidateDraftMeaning(fs);
    ValidateDraftMeaning(fs[..i] + fs[i + 1..]);
    RemoveClaims(fs, i);
  }

  lemma {:induction false} RemoveClaims(fs: seq<Node>, i: nat)
    requires i < |fs| && Admissible(fs) && NoDuplicates(ClaimedNames(fs))
    ensures var out := fs[..i] + fs[i + 1..];
            && Admissible(out) && NoDuplicates(ClaimedNames(out))
            && forall x | x in ClaimedNames(out) :: x in ClaimedNames(fs)
  {
    hide NodeClaims, NameAccepted, Accepted;
    var out := fs[..i] + fs[i + 1..];
    var first, rest := NodeClaims(fs[0]), ClaimedNames(fs[1..]);
    FreshSum(first, rest, {});
    assert Fresh(first + rest, {}) && Fresh(rest, Elements(first));
    if i == 0 {
      assert out == fs[1..];
      assert forall x | x in rest :: x in first + rest;
    } else {
      RemoveClaims(fs[1..], i - 1);
      var inner := fs[1..][..i - 1] + fs[1..][i..];
      assert out == [fs[0]] + inner;
      assert out[1..] == inner;
      FreshSum(first, ClaimedNames(inner), {});
      forall k | 0 <= k < |ClaimedNames(inner)| ensures ClaimedNames(inner)[k] !in Elements(first) {
        assert ClaimedNames(inner)[k] in rest;
      }
      assert Fresh(first + ClaimedNames(inner), {});
    }
  }

  // ------------------------------------------------- what each call does, by position

  /** The only direct child called `name` stands at `i`. */
  predicate NamedOnce(fs: seq<Node>, name: string, i: nat) {
    i < |fs| && fs[i].name == name && forall j | 0 <= j < |fs| && fs[j].name == name :: j == i
  }

  predicate OnlyAt(before: seq<Node>, after: seq<Node>, i: nat) {
    i < |before| == |after| && forall j | 0 <= j < |before| && j != i :: after[j] == before[j]
  }

  predicate InsertedAt(before: seq<Node>, after: seq<Node>, i: nat, node: Node) {
    && i <= |before| && |after| == |before| + 1 && after[i] == node
    && (forall j | 0 <= j < i :: after[j] == before[j])
    && (forall j | i <= j < |before| :: after[j + 1] == before[j])
  }

  predicate RemovedAt(before: seq<Node>, after: seq<Node>, i: nat) {
    && i < |before| && |after| == |before| - 1
    && (forall j | 0 <= j < i :: after[j] == before[j])
    && (forall j | i < j < |before| :: after[j - 1] == before[j])
  }

  /** One child keeps all but the children of its first branch with this selector. */
  predicate BranchEditedAt(before: seq<Node>, after: seq<Node>, i: nat, selector: Selector, script: Script) {
    && OnlyAt(before, after, i)
    && after[i].(fields := before[i].fields, blocks := before[i].blocks, trees := before[i].trees) == before[i]
    && exists k | 0 <= k < |Branches(before[i])| ::
         && Branches(before[i])[k].selector == selector && !Branches(before[i])[k].referenced
         && (forall j | 0 <= j < k :: Branches(before[i])[j].selector != selector)
         && EditFields(Branches(before[i])[k].fields, script).Ok?
         && Updated(Branches(after[i]), Branches(before[i]), k,
                    EditFields(Branches(before[i])[k].fields, script).value)
  }

  /** The effect of an accepted call, whatever way it is computed. */
  predicate Did(step: Step, before: seq<Node>, after: seq<Node>) {
    match step
    case Insert(index, node) => index >= 0 && InsertedAt(before, after, index, node)
    case ReplaceAt(index, node) => index >= 0 && OnlyAt(before, after, index) && after[index] == node
    case Replace(name, node) =>
      exists i | 0 <= i < |before| :: NamedOnce(before, name, i) && OnlyAt(before, after, i) && after[i] == node
    case Remove(name) => exists i | 0 <= i < |before| :: NamedOnce(before, name, i) && RemovedAt(before, after, i)
    case RenameStep(r) =>
      exists i | 0 <= i < |before| ::
        && NamedOnce(before, r.name, i) && |after| == |before| && after[i].name == r.replacement
        && forall j | 0 <= j < |before| ::
             after[j].kind == before[j].kind && (j != i ==> after[j].name == before[j].name)
    case Refine(name, fits, next) =>
      exists i | 0 <= i < |before| ::
        && NamedOnce(before, name, i) && fits(before[i]) && next.name == name
        && OnlyAt(before, after, i) && after[i] == next
    case EditChildren(name, script) =>
      exists i | 0 <= i < |before| ::
        && NamedOnce(before, name, i)
        && before[i].kind in {Group, Array, Row, Collapsible}
        && BranchEditedAt(before, after, i, Selector(BoundaryOf(before[i]), "", "", ""), script)
    case EditBranchAt(index, selector, script) => index >= 0 && BranchEditedAt(before, after, index, selector, script)
  }

  lemma {:induction false} CountsOf(fs: seq<Node>, name: string)
    ensures Count(fs, name) == 0 <==> forall j | 0 <= j < |fs| :: fs[j].name != name
    ensures Count(fs, name) == 1 <==> exists i | 0 <= i < |fs| :: NamedOnce(fs, name, i)
    ensures Count(fs, name) == 1 ==> NamedOnce(fs, name, FirstNamed(fs, name))
  {
    if fs != [] {
      CountsOf(fs[1..], name);
      assert forall j | 1 <= j < |fs| :: fs[j] == fs[1..][j - 1];
      if Count(fs, name) == 1 {
        var i := FirstNamed(fs, name);
        forall j | 0 <= j < |fs| && fs[j].name == name ensures j == i {
          if i > 0 { assert NamedOnce(fs[1..], name, i - 1); }
        }
        assert NamedOnce(fs, name, i);
      }
      if i :| 0 <= i < |fs| && NamedOnce(fs, name, i) {
        if i > 0 { assert NamedOnce(fs[1..], name, i - 1); }
      }
    }
  }

  lemma IndexIsTheOne(fs: seq<Node>, name: string)
    ensures IndexOf(fs, name).Ok? <==> exists i | 0 <= i < |fs| :: NamedOnce(fs, name, i)
    ensures IndexOf(fs, name).Ok? ==> NamedOnce(fs, name, IndexOf(fs, name).value)
    ensures IndexOf(fs, name) == Err(NotFound(name)) <==> forall j | 0 <= j < |fs| :: fs[j].name != name
  {
    CountsOf(fs, name);
  }

  lemma BranchEditedDoes(fs: seq<Node>, index: nat, selector: Selector, script: Script)
    requires index < |fs| && BranchEdited(fs, index, selector, script).Ok?
    ensures BranchEditedAt(fs, BranchEdited(fs, index, selector, script).value, index, selector, script)
  {
    hide Branches, EditFields, ValidateDraft;
    var bs := Branches(fs[index]);
    var k := FirstBranch(bs, selector);
    ReplaceBranchLens(fs[index], selector, EditFields(bs[k].fields, script).value);
    hide ReplaceBranch;
    assert bs[k].selector == selector;
  }

  lemma RenameDoes(fs: seq<Node>, r: Renaming)
    requires RenameDraft(fs, r).Ok?
    ensures Did(RenameStep(r), fs, RenameDraft(fs, r).value)
  {
    IndexIsTheOne(fs, r.name);
    var i := IndexOf(fs, r.name).value;
    if r.name != r.replacement {
      var next := fs[i := fs[i].(name := r.replacement)];
      RewritingKeepsNames(next, true, r);
    }
    assert NamedOnce(fs, r.name, i);
  }

  lemma {:induction false} RewritingKeepsNames(fs: seq<Node>, same: bool, r: Renaming)
    requires RewriteFields(fs, same, r).Ok?
    ensures var out := RewriteFields(fs, same, r).value.0;
            |out| == |fs| && forall j | 0 <= j < |fs| :: out[j].name == fs[j].name && out[j].kind == fs[j].kind
    decreases |fs|
  {
    hide RewriteNode;
    if fs != [] {
      RewritingKeepsName(fs[0], same, r);
      RewritingKeepsNames(fs[1..], same, r);
    }
  }

  lemma RewritingKeepsName(n: Node, same: bool, r: Renaming)
    requires RewriteNode(n, same, r).Ok?
    ensures var m := RewriteNode(n, same, r).value.0; m.name == n.name && m.kind == n.kind
  {
    hide RewriteBranches, RewriteCondition;
    var (condition, changed) := RewriteCondition(n.visibleWhen, same, r);
    RewritingBranchesKeepsName(n, n.(visibleWhen := condition), 0, changed, same, r);
  }

  lemma {:induction false} RewritingBranchesKeepsName(n: Node, f: Node, k: nat, changed: bool, same: bool, r: Renaming)
    requires k <= |Branches(n)| && RewriteBranches(n, f, k, changed, same, r).Ok?
    ensures var m := RewriteBranches(n, f, k, changed, same, r).value.0; m.name == f.name && m.kind == f.kind
    decreases |Branches(n)| - k
  {
    hide Branches, RewriteFields, ReplaceBranch, NodeSize, FieldsSize;
    if k < |Branches(n)| {
      BranchAt(n, k);
      var b := Branches(n)[k];
      var out := RewriteFields(b.fields, SharesScope(b, same), r).value;
      if out.1 {
        ReplaceBranchLens(f, b.selector, out.0);
        RewritingBranchesKeepsName(n, ReplaceBranch(f, b.selector, out.0).value, k + 1, true, same, r);
      } else {
        RewritingBranchesKeepsName(n, f, k + 1, changed, same, r);
      }
    }
  }

  /** Every accepted call has the effect it is named for, at the position it addresses and nowhere else. */
  lemma ApplyDoes(step: Step, fs: seq<Node>)
    ensures Apply(step, fs).Ok? ==> Did(step, fs, Apply(step, fs).value)
  {
    hide ValidateDraft, RenameDraft, BranchEdited, BranchEditedAt, IndexOf;
    if Apply(step, fs).Err? { return; }
    match step {
      case Insert(_, _) =>
      case ReplaceAt(_, _) =>
      case Replace(name, _) => IndexIsTheOne(fs, name);
      case Remove(name) =>
        IndexIsTheOne(fs, name);
        assert RemovedAt(fs, Apply(step, fs).value, IndexOf(fs, name).value);
      case RenameStep(r) => RenameDoes(fs, r);
      case Refine(name, _, _) => IndexIsTheOne(fs, name);
      case EditChildren(name, script) =>
        IndexIsTheOne(fs, name);
        var i := IndexOf(fs, name).value;
        BranchEditedDoes(fs, i, ChildSelector(fs[i]), script);
      case EditBranchAt(index, selector, script) => BranchEditedDoes(fs, index, selector, script);
    }
  }

  /** The calls whose effect determines the content. */
  predicate Positional(step: Step) {
    step.Insert? || step.ReplaceAt? || step.Replace? || step.Remove? || step.Refine?
  }

  /**
   * Such a call is accepted, with that effect, exactly when the content it would give claims no
   * name twice and has no bad node; removal and in-place refinement are not checked.
   */
  lemma AcceptedWhenPublishable(step: Step, fs: seq<Node>, after: seq<Node>)
    requires Positional(step) && Did(step, fs, after)
    ensures step.Remove? || step.Refine? || (Admissible(after) && NoDuplicates(ClaimedNames(after))) ==>
              Apply(step, fs) == Ok(after)
    ensures !(step.Remove? || step.Refine? || (Admissible(after) && NoDuplicates(ClaimedNames(after)))) ==>
              Apply(step, fs).Err?
  {
    ValidateDraftMeaning(after);
    SameEffect(step, fs, after);
    hide Admissible, NoDuplicates, ClaimedNames, ValidateDraft, IndexOf, Did, InsertedAt, OnlyAt, RemovedAt;
    EffectOf(step, fs, after);
    match step {
      case Insert(index, node) => InsertedIs(fs, after, index, node);
      case ReplaceAt(index, node) => OnlyAtIs(fs, after, index);
      case Replace(name, node) => OnlyAtIs(fs, after, IndexOf(fs, name).value);
      case Remove(name) => RemovedIs(fs, after, IndexOf(fs, name).value);
      case Refine(name, _, next) => OnlyAtIs(fs, after, IndexOf(fs, name).value);
    }
  }

  lemma InsertedIs(before: seq<Node>, after: seq<Node>, i: nat, node: Node)
    requires InsertedAt(before, after, i, node)
    ensures i <= |before| && after == before[..i] + [node] + before[i..]
  {
  }

  lemma OnlyAtIs(before: seq<Node>, after: seq<Node>, i: nat)
    requires OnlyAt(before, after, i)
    ensures i < |before| == |after| && after == before[i := after[i]]
  {
  }

  lemma RemovedIs(before: seq<Node>, after: seq<Node>, i: nat)
    requires RemovedAt(before, after, i)
    ensures i < |before| && after == before[..i] + before[i + 1..]
  {
  }

  lemma EffectOf(step: Step, fs: seq<Node>, after: seq<Node>)
    requires Did(step, fs, after)
    ensures step.Insert? ==> step.index >= 0 && InsertedAt(fs, after, step.index, step.node)
    ensures step.ReplaceAt? ==> step.index >= 0 && OnlyAt(fs, after, step.index) && after[step.index] == step.node
  {
  }

  /** The named child is found where the effect was. */
  lemma SameEffect(step: Step, fs: seq<Node>, after: seq<Node>)
    requires Positional(step) && Did(step, fs, after)
    ensures step.Replace? || step.Remove? || step.Refine? ==> IndexOf(fs, step.name).Ok?
    ensures step.Replace? ==>
              OnlyAt(fs, after, IndexOf(fs, step.name).value) && after[IndexOf(fs, step.name).value] == step.node
    ensures step.Remove? ==> RemovedAt(fs, after, IndexOf(fs, step.name).value)
    ensures step.Refine? ==>
              && OnlyAt(fs, after, IndexOf(fs, step.name).value) && after[IndexOf(fs, step.name).value] == step.next
              && step.fits(fs[IndexOf(fs, step.name).value])
  {
    if step.Replace? || step.Remove? || step.Refine? { IndexIsTheOne(fs, step.name); }
  }

  /** Calls that address no child, or more than one, are refused for that reason. */
  lemma RefusedForItsAddress(step: Step, fs: seq<Node>)
    ensures step.Insert? && !(0 <= step.index <= |fs|) ==> Apply(step, fs) == Err(InvalidIndex)
    ensures (step.ReplaceAt? || step.EditBranchAt?) && !(0 <= step.index < |fs|) ==>
              Apply(step, fs) == Err(InvalidIndex)
    ensures step.Replace? || step.Remove? || step.Refine? || step.EditChildren? ==>
              && ((forall j | 0 <= j < |fs| :: fs[j].name != step.name) ==>
                    Apply(step, fs) == Err(NotFound(step.name)))
              && ((exists i, j | 0 <= i < j < |fs| :: fs[i].name == step.name && fs[j].name == step.name) ==>
                    Apply(step, fs) == Err(AmbiguousName(step.name)))
  {
    if step.Replace? || step.Remove? || step.Refine? || step.EditChildren? { IndexIsTheOne(fs, step.name); }
  }

  lemma UnknownBranchIsRefused(fs: seq<Node>, index: nat, selector: Selector, script: Script)
    requires index < |fs| && forall k | 0 <= k < |Branches(fs[index])| :: Branches(fs[index])[k].selector != selector
    ensures Apply(EditBranchAt(index, selector, script), fs) == Err(UnknownBranch(fs[index].name))
  {
    hide Branches, EditFields;
  }

  /** What stands in the way of a transaction on the first branch with its selector, and nothing else does. */
  lemma BranchEditsSucceed(fs: seq<Node>, index: nat, k: nat, selector: Selector, script: Script)
    requires index < |fs| && k < |Branches(fs[index])| && Branches(fs[index])[k].selector == selector
    requires forall j | 0 <= j < k :: Branches(fs[index])[j].selector != selector
    ensures var b := Branches(fs[index])[k]; var out := Apply(EditBranchAt(index, selector, script), fs);
            var children := EditFields(b.fields, script);
            if children.Err? then out == Err(children.error)
            else if b.referenced then out == Err(ReferencedBlockImmutable(selector.slug))
            else
              var edited := ReplaceBranch(fs[index], selector, children.value);
              edited.Ok? && (out.Ok? <==> ValidateDraft(fs[index := edited.value]).Ok?)
  {
    hide Branches, EditFields, ValidateDraft, ReplaceAtBoundary;
    assert FirstBranch(Branches(fs[index]), selector) == k;
  }

  /** `EditChildren` opens the child list of objects, arrays, rows and collapsibles, and of no other kind. */
  lemma ChildrenOfLists(fs: seq<Node>, name: string, i: nat, script: Script)
    requires i < |fs| && NamedOnce(fs, name, i)
    ensures fs[i].kind == Group || fs[i].kind == Array || fs[i].kind == Row || fs[i].kind == Collapsible ==>
              Apply(EditChildren(name, script), fs)
              == Apply(EditBranchAt(i, Selector(BoundaryOf(fs[i]), "", "", ""), script), fs)
    ensures !(fs[i].kind == Group || fs[i].kind == Array || fs[i].kind == Row || fs[i].kind == Collapsible) ==>
              Apply(EditChildren(name, script), fs) == Err(IncompatibleKind(name))
  {
    IndexIsTheOne(fs, name);
    hide BranchEdited;
  }

  /** An editor refuses a field that does not fit it, and a refinement that renames. */
  lemma RefinementRefuses(fs: seq<Node>, name: string, i: nat, fits: Node -> bool, next: Node)
    requires i < |fs| && NamedOnce(fs, name, i)
    ensures !fits(fs[i]) ==> Apply(Refine(name, fits, next), fs) == Err(IncompatibleKind(name))
    ensures fits(fs[i]) && next.name != name ==>
              Apply(Refine(name, fits, next), fs) == Err(RenameRequiresExplicitEdit(name))
  {
    IndexIsTheOne(fs, name);
  }

  /** Calls act one after the other, and a refused one is as if it had not been made. */
  lemma {:induction false} StepsJoin(first: seq<Step>, later: seq<Step>, fs: seq<Node>)
    ensures RunSteps(first + later, fs) == RunSteps(later, RunSteps(first, fs))
    ensures first != [] && Apply(first[0], fs).Err? ==> RunSteps(first, fs) == RunSteps(first[1..], fs)
    ensures |first| == 1 && Apply(first[0], fs).Ok? ==> RunSteps(first, fs) == Apply(first[0], fs).value
    decreases |first|
  {
    hide Apply;
    if first == [] {
      assert first + later == later;
    } else {
      assert (first + later)[1..] == first[1..] + later;
      var out := Apply(first[0], fs);
      StepsJoin(first[1..], later, if out.Ok? then out.value else fs);
    }
  }

  /** A transaction publishes what its calls left, exactly when the callback succeeds and that is valid. */
  lemma EditPublishesExactly(fs: seq<Node>, script: Script)
    ensures var content := RunSteps(script.steps, fs);
            && (EditFields(fs, script) == Ok(content) <==>
                  !script.fails && Admissible(content) && NoDuplicates(ClaimedNames(content)))
            && (script.fails ==> EditFields(fs, script) == Err(CallbackFailed))
            && (EditFields(fs, script).Ok? ==> EditFields(fs, script) == Ok(content))
  {
    hide RunSteps, Admissible, NoDuplicates, ClaimedNames;
    ValidateDraftMeaning(RunSteps(script.steps, fs));
  }

  /** A draft over its own backing array; `Contents` is the slice the source keeps. */
  class ChildrenDraft {
    var buffer: array<Node>
    var length: nat

    ghost predicate Valid()
      reads this
    {
      length <= buffer.Length
    }

    ghost function Contents(): seq<Node>
      reads this, buffer
      requires Valid()
    {
      buffer[..length]
    }

    /** A draft starts from a snapshot, never from the caller's slice. */
    constructor (fields: array<Node>)
      ensures Valid() && fresh(buffer) && Contents() == fields[..]
    {
      buffer := new Node[fields.Length](i requires 0 <= i < fields.Length reads fields => fields[i]);
      length := fields.Length;
    }

    /** Installs new content in a new backing array. */
    method Install(next: seq<Node>)
      modifies this
      ensures Valid() && fresh(buffer) && Contents() == next
    {
      buffer := new Node[|next|](i requires 0 <= i < |next| => next[i]);
      length := |next|;
    }

    /** Deletes position `i` in place, shifting the later children down. */
    method DeleteAt(i: nat)
      requires Valid() && i < length
      modifies this, buffer
      ensures Valid() && buffer == old(buffer)
      ensures Contents() == old(Contents()[..i] + Contents()[i + 1..])
    {
      var k := i;
      while k + 1 < length
        invariant i <= k < length == old(length)
        invariant buffer == old(buffer)
        invariant forall j | 0 <= j < length :: buffer[j] == old(buffer[if i <= j < k then j + 1 else j])
      {
        buffer[k] := buffer[k + 1];
        k := k + 1;
      }
      length := length - 1;
    }

    /** One call: its result is `Apply`'s, and a failure leaves the content unchanged. */
    method Perform(step: Step) returns (error: Option<EditError>)
      requires Valid()
      modifies this, buffer
      ensures Valid() && (buffer == old(buffer) || fresh(buffer))
      ensures var out := Apply(step, old(Contents()));
              && Contents() == (if out.Ok? then out.value else old(Contents()))
              && error == (if out.Ok? then None else Some(out.error))
      ensures error.None? ==> Did(step, old(Contents()), Contents())
      decreases step, 0
    {
      var fs := buffer[..length];
      ApplyDoes(step, fs);
      hide Did;
      match step {
        case Remove(name) =>
          var i := IndexOf(fs, name);
          if i.Err? { return Some(i.error); }
          DeleteAt(i.value);
          return None;
        case Refine(name, fits, next) =>
          error := PerformRefine(name, fits, next);
        case EditChildren(name, script) =>
          var i := IndexOf(fs, name);
          if i.Err? { return Some(i.error); }
          if !ListsChildren(fs[i.value].kind) { return Some(IncompatibleKind(name)); }
          error := PerformOnBranch(i.value, ChildSelector(fs[i.value]), script);
        case EditBranchAt(index, selector, script) =>
          if index < 0 || index >= length { return Some(InvalidIndex); }
          error := PerformOnBranch(index, selector, script);
        case _ =>
          var next := Apply(step, fs);
          if next.Err? { return Some(next.error); }
          Install(next.value);
          return None;
      }
    }

    method PerformRefine(name: string, fits: Node -> bool, next: Node) returns (error: Option<EditError>)
      requires Valid()
      modifies buffer
      ensures Valid()
      ensures var out := Apply(Refine(name, fits, next), old(Contents()));
              && Contents() == (if out.Ok? then out.value else old(Contents()))
              && error == (if out.Ok? then None else Some(out.error))
    {
      var fs := buffer[..length];
      var i := IndexOf(fs, name);
      if i.Err? { return Some(i.error); }
      if !fits(fs[i.value]) { return Some(IncompatibleKind(name)); }
      if next.name != name { return Some(RenameRequiresExplicitEdit(name)); }
      buffer[i.value] := next;
      return None;
    }

    method PerformOnBranch(index: nat, selector: Selector, script: Script) returns (error: Option<EditError>)
      requires Valid() && index < length
      modifies this, buffer
      ensures Valid() && (buffer == old(buffer) || fresh(buffer))
      ensures var out := BranchEdited(old(Contents()), index, selector, script);
              && Contents() == (if out.Ok? then out.value else old(Contents()))
              && error == (if out.Ok? then None else Some(out.error))
      decreases script, 1
    {
      var fs := buffer[..length];
      var bs := Branches(fs[index]);
      var k := FirstBranch(bs, selector);
      if k == |bs| { return Some(UnknownBranch(fs[index].name)); }
      var branch := new Node[|bs[k].fields|](i requires 0 <= i < |bs[k].fields| => bs[k].fields[i]);
      assert branch[..] == bs[k].fields;
      var children, failure, _ := Edit(branch, script);
      if failure.Some? { return failure; }
      var edited := ReplaceBranch(fs[index], selector, children[..]);
      if edited.Err? { return Some(edited.error); }
      var next := ReplacedAt(fs, index, edited.value);
      if next.Err? { return Some(next.error); }
      Install(next.value);
      return None;
    }

    method PerformAll(steps: seq<Step>)
      requires Valid()
      modifies this, buffer
      ensures Valid() && (buffer == old(buffer) || fresh(buffer))
      ensures Contents() == RunSteps(steps, old(Contents()))
      decreases steps, 0
    {
      var rest := steps;
      while rest != []
        invariant Valid() && (buffer == old(buffer) || fresh(buffer))
        invariant |rest| <= |steps| && rest == steps[|steps| - |rest|..]
        invariant RunSteps(rest, Contents()) == RunSteps(steps, old(Contents()))
        decreases |rest|
      {
        var _ := Perform(rest[0]);
        rest := rest[1..];
      }
    }
  }

  /**
   * Runs a callback against a draft of `fields`. The caller's array is never written; the result
   * is the published graph, or on an error a snapshot of the original.
   */
  method Edit(fields: array<Node>, script: Script)
    returns (out: array<Node>, error: Option<EditError>, draft: ChildrenDraft)
    ensures fresh(out) && fresh(draft) && fresh(draft.buffer) && draft.Valid() && out != draft.buffer
    ensures var r := EditFields(fields[..], script);
            && out[..] == (if r.Ok? then r.value else fields[..])
            && error == (if r.Ok? then None else Some(r.error))
    decreases script, 0
  {
    draft := new ChildrenDraft(fields);
    draft.PerformAll(script.steps);
    var kept := draft.buffer[..draft.length];
    var content := if script.fails then Err(CallbackFailed) else Checked(kept);
    var next := if content.Ok? then content.value else fields[..];
    out := new Node[|next|](i requires 0 <= i < |next| => next[i]);
    error := if content.Ok? then None else Some(content.error);
  }

  /** A draft that the callback retained cannot reach the caller's slice or the published graph. */
  method EditAndKeepDraft(fields: array<Node>, script: Script, later: seq<Step>) returns (out: array<Node>)
    ensures fields[..] == old(fields[..])
    ensures var r := EditFields(fields[..], script);
            out[..] == if r.Ok? then r.value else fields[..]
  {
    var error, draft;
    out, error, draft := Edit(fields, script);
    draft.PerformAll(later);
  }
}
