/** The validators of conditions and drafts, with the counters and sets they fill on the way. */
module DraftValidator {
  import opened Wrappers
  import opened FieldGraph
  import opened Conditions
  import opened DraftRules

  /** Collects issues; the node count is shared by the whole tree. */
  class ConditionValidator {
    var nodes: nat
    var issues: nat

    constructor ()
      ensures nodes == 0 && issues == 0
    {
      nodes, issues := 0, 0;
    }

    /** One value list: no value twice, all of one type. */
    method CheckValues(values: seq<Scalar>) returns (found: nat)
      ensures found == 0 <==> DistinctScalars(values) && OneKind(values)
    {
      found := 0;
      var seen: set<Scalar> := {};
      var i := 0;
      while i < |values|
        invariant i <= |values| && forall v :: v in seen <==> v in values[..i]
        invariant found == 0 <==>
                  DistinctScalars(values[..i]) && forall j | 0 <= j < i :: values[j].kind == values[0].kind
      {
        assert values[..i + 1] == values[..i] + [values[i]];
        if values[i] in seen {
          found := found + 1;
          ghost var j :| 0 <= j < i && values[..i][j] == values[i];
          assert values[..i + 1][j] == values[..i + 1][i];
        }
        if i > 0 && values[i].kind != values[0].kind { found := found + 1; }
        seen, i := seen + {values[i]}, i + 1;
      }
      assert values[..i] == values;
    }

    /** The declaration rules of one node. */
    method CheckShape(c: Condition) returns (found: nat)
      ensures found == 0 <==> WellShaped(c)
    {
      found := c.issues;
      match c.kind {
        case NoCondition => found := found + 1;
        case All => found := found + GroupIssues(c, |c.conditions| >= 2);
        case Any => found := found + GroupIssues(c, |c.conditions| >= 2);
        case Not => found := found + GroupIssues(c, |c.conditions| == 1);
        case Predicate =>
          if |c.conditions| != 0 { found := found + 1; }
          if !ValidReference(c.reference) { found := found + 1; }
          match c.operator {
            case NoOperator => found := found + 1;
            case OneOf => if |c.values| == 0 { found := found + 1; }
            case Equals => if |c.values| != 1 { found := found + 1; }
            case NotEquals => if |c.values| != 1 { found := found + 1; }
          }
          var repeated := CheckValues(c.values);
          found := found + repeated;
      }
    }

    method Check(c: Condition, depth: nat)
      modifies this
      ensures nodes == Validate(c, depth, old(nodes)).1
      ensures issues >= old(issues) && (issues == old(issues) <==> Validate(c, depth, old(nodes)).0)
      decreases c, 0
    {
      hide WellShaped;
      nodes := nodes + 1;
      if depth > MAXIMUM_DEPTH || nodes > MAXIMUM_NODES {
        issues := issues + 1;
        return;
      }
      ghost var first := nodes;
      var found := CheckShape(c);
      issues := issues + found;
      var i := 0;
      assert c.conditions[0..] == c.conditions;
      while i < |c.conditions|
        invariant i <= |c.conditions| && issues >= old(issues) + found
        invariant ValidateAll(c.conditions, depth + 1, first).1 == ValidateAll(c.conditions[i..], depth + 1, nodes).1
        invariant ValidateAll(c.conditions, depth + 1, first).0
                  <==> issues == old(issues) + found && ValidateAll(c.conditions[i..], depth + 1, nodes).0
      {
        assert c.conditions[i..][1..] == c.conditions[i + 1..];
        Check(c.conditions[i], depth + 1);
        i := i + 1;
      }
    }
  }

  function GroupIssues(c: Condition, enough: bool): nat {
    (if enough then 0 else 1) + if UnsetPredicate(c) then 0 else 1
  }

  /** The names claimed so far in one stored scope. */
  class ScopeValidator {
    var seen: set<string>

    constructor ()
      ensures seen == {}
    {
      seen := {};
    }

    method Claim(fs: seq<Node>) returns (error: Option<EditError>)
      modifies this
      ensures var claimed := Scope(fs, old(seen));
              && error == (if claimed.Err? then Some(claimed.error) else None)
              && (claimed.Ok? ==> seen == claimed.value)
      decreases fs
    {
      hide Accepted, NameAccepted;
      error := None;
      var i := 0;
      assert fs[0..] == fs;
      while i < |fs|
        invariant i <= |fs| && error.None? && Scope(fs[i..], seen) == Scope(fs, old(seen))
      {
        var n := fs[i];
        assert fs[i..][0] == n && fs[i..][1..] == fs[i + 1..];
        if !NameAccepted(n) { return Some(InvalidName(n.name)); }
        if !Accepted(n.visibleWhen) { return Some(InvalidCondition(n.name)); }
        if Flattened(n.kind) {
          error := Claim(n.fields);
          if error.Some? { return; }
        } else {
          if n.name in seen { return Some(DuplicateName(n.name)); }
          seen := seen + {n.name};
        }
        i := i + 1;
      }
    }
  }

  /** Validation of a draft: accepted exactly when its scope is admissible and no name is claimed twice. */
  method CheckDraft(fs: seq<Node>) returns (error: Option<EditError>)
    ensures error == if ValidateDraft(fs).Err? then Some(ValidateDraft(fs).error) else None
    ensures error.None? <==> Admissible(fs) && NoDuplicates(ClaimedNames(fs))
  {
    ValidateDraftMeaning(fs);
    var scope := new ScopeValidator();
    error := scope.Claim(fs);
  }
}
