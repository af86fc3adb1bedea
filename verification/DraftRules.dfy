/** The rule every published draft meets: one owner per name across its flattened layouts. */
module DraftRules {
  import opened Wrappers
  import opened FieldGraph
  import opened Conditions

  /** Rows, collapsibles and tab sets store nothing: their children belong to the outer scope. */
  predicate Flattened(k: Kind) {
    k == Row || k == Collapsible || k == Tabs
  }

  predicate NameAccepted(n: Node) {
    Flattened(n.kind) || ValidName(n.name)
  }

  /** The names claimed in one stored scope, in declaration order. */
  function ClaimedNames(fs: seq<Node>): seq<string> {
    if fs == [] then []
    else NodeClaims(fs[0]) + ClaimedNames(fs[1..])
  }

  function NodeClaims(n: Node): seq<string> {
    if Flattened(n.kind) then ClaimedNames(n.fields) else [n.name]
  }

  /** Every node that shares the scope has a usable name and an accepted condition. */
  predicate Admissible(fs: seq<Node>) {
    fs == [] ||
    (&& NameAccepted(fs[0])
     && Accepted(fs[0].visibleWhen)
     && (Flattened(fs[0].kind) ==> Admissible(fs[0].fields))
     && Admissible(fs[1..]))
  }

  predicate NoDuplicates(names: seq<string>) {
    forall i, j | 0 <= i < j < |names| :: names[i] != names[j]
  }

  /** Extends the claimed names by one scope, failing at the first offence in declaration order. */
  function Scope(fs: seq<Node>, seen: set<string>): Result<set<string>, EditError>
    decreases fs
  {
    if fs == [] then Ok(seen)
    else
      var n := fs[0];
      if !NameAccepted(n) then Err(InvalidName(n.name))
      else if !Accepted(n.visibleWhen) then Err(InvalidCondition(n.name))
      else if Flattened(n.kind) then
        var inner :- Scope(n.fields, seen);
        Scope(fs[1..], inner)
      else if n.name in seen then Err(DuplicateName(n.name))
      else Scope(fs[1..], seen + {n.name})
  }

  function ValidateDraft(fs: seq<Node>): Result<(), EditError> {
    var _ :- Scope(fs, {});
    Ok(())
  }

  predicate Fresh(names: seq<string>, seen: set<string>) {
    NoDuplicates(names) && forall i | 0 <= i < |names| :: names[i] !in seen
  }

  function Elements(names: seq<string>): set<string> {
    set x | x in names
  }

  lemma FreshSum(a: seq<string>, b: seq<string>, seen: set<string>)
    ensures Fresh(a + b, seen) <==> Fresh(a, seen) && Fresh(b, seen + Elements(a))
    ensures Elements(a + b) == Elements(a) + Elements(b)
  {
    var c := a + b;
    assert forall i | 0 <= i < |a| :: c[i] == a[i];
    assert forall i | 0 <= i < |b| :: c[|a| + i] == b[i];
    assert forall i | |a| <= i < |c| :: c[i] == b[i - |a|];
    if Fresh(c, seen) {
      forall i, j | 0 <= i < j < |b| ensures b[i] != b[j] {
        assert c[|a| + i] != c[|a| + j];
      }
      forall j | 0 <= j < |b| ensures b[j] !in seen + Elements(a) {
        assert c[|a| + j] !in seen && forall i | 0 <= i < |a| :: c[i] != c[|a| + j];
      }
    }
  }

  lemma {:induction false} ScopeMeaning(fs: seq<Node>, seen: set<string>)
    ensures Scope(fs, seen).Ok? <==> Admissible(fs) && Fresh(ClaimedNames(fs), seen)
    ensures Scope(fs, seen).Ok? ==> Scope(fs, seen).value == seen + Elements(ClaimedNames(fs))
    decreases fs
  {
    if fs != [] {
      var n, rest := fs[0], fs[1..];
      FreshSum(NodeClaims(n), ClaimedNames(rest), seen);
      if Flattened(n.kind) {
        ScopeMeaning(n.fields, seen);
      } else {
        assert Elements([n.name]) == {n.name};
      }
      if NameAccepted(n) && Accepted(n.visibleWhen) && Fresh(NodeClaims(n), seen) {
        ScopeMeaning(rest, seen + Elements(NodeClaims(n)));
      }
    }
  }

  /**
   * A draft is published exactly when its scope is admissible and no name is claimed twice,
   * counting the children of layouts at any depth as claims of the scope around them.
   */
  lemma ValidateDraftMeaning(fs: seq<Node>)
    ensures ValidateDraft(fs).Ok? <==> Admissible(fs) && NoDuplicates(ClaimedNames(fs))
  {
    ScopeMeaning(fs, {});
  }
}
