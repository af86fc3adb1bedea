/**
 * Uploads, imports, ordinary saves and cleanups, interleaved one storage or store
 * operation at a time. Object storage and document store share no transaction;
 * only the per-key object locks order them.
 */
module UploadProtocol {
  import opened Wrappers

  type Key = string

  datatype Call =
    /**
     * A document transaction: `staged` are the keys it generated, `present` those it has put or
     * seen under their locks.
     */
    | Writing(staged: set<Key>, present: set<Key>)
    | RollingBack(remaining: set<Key>)
    | Cleaning(keys: set<Key>)
    | Deleting(doomed: set<Key>)
    | Releasing

  datatype State = State(
    storage: set<Key>,
    references: map<string, set<Key>>,
    locks: map<Key, nat>,
    owners: map<Key, nat>,
    calls: map<nat, Call>)

  datatype Outcome = Committed | CommitUnknown(applied: bool)

  datatype Action =
    /** Generated keys carry fresh random names: nobody else ever generates them. */
    | BeginWrite(p: nat, staged: set<Key>)
    | BeginCleanup(p: nat, keys: set<Key>)
    | Lock(p: nat, key: Key)
    | Put(p: nat, key: Key)
    | Validate(p: nat, key: Key)
    | Commit(p: nat, document: string, keys: set<Key>, outcome: Outcome)
    | BeginRollback(p: nat)
    | DeleteStaged(p: nat, key: Key)
    | ReadReferences(p: nat)
    | DeleteDoomed(p: nat, key: Key)
    | Release(p: nat)
    | Crash(p: nat)

  function With(s: State, p: nat, c: Call): State {
    s.(calls := s.calls[p := c])
  }

  predicate Holds(s: State, p: nat, key: Key) {
    key in s.locks && s.locks[key] == p
  }

  function Referenced(references: map<string, set<Key>>): set<Key> {
    set d, k | d in references && k in references[d] :: k
  }

  /** A saved version set: committing leaves the document referring to exactly these keys. */
  function Saved(s: State, document: string, keys: set<Key>): map<string, set<Key>> {
    s.references[document := keys]
  }

  function Generated(owners: map<Key, nat>, p: nat, staged: set<Key>): map<Key, nat> {
    map k | k in owners.Keys + staged :: if k in staged then p else owners[k]
  }

  /** The keys whose locks the call holds. */
  function Held(s: State, p: nat, keys: set<Key>): set<Key> {
    set k | k in keys && Holds(s, p, k)
  }

  function Unlocked(s: State, p: nat): map<Key, nat> {
    map k | k in s.locks && s.locks[k] != p :: s.locks[k]
  }

  function Apply(s: State, a: Action): Option<State> {
    match a
    case BeginWrite(p, staged) =>
      if p in s.calls || !(staged !! s.owners.Keys + s.storage + Referenced(s.references)) then None
      else
        Some(With(s.(owners := Generated(s.owners, p, staged)), p, Writing(staged, {})))
    case BeginCleanup(p, keys) => if p in s.calls then None else Some(With(s, p, Cleaning(keys)))
    case Lock(p, key) =>
      if p !in s.calls || key in s.locks || !(s.calls[p].Writing? || s.calls[p].Cleaning?) then None
      else Some(s.(locks := s.locks[key := p]))
    case Put(p, key) =>
      if p !in s.calls || !s.calls[p].Writing? || key !in s.calls[p].staged || !Holds(s, p, key) then None
      else Some(With(s.(storage := s.storage + {key}), p, s.calls[p].(present := s.calls[p].present + {key})))
    case Validate(p, key) =>
      if p !in s.calls || !s.calls[p].Writing? || !Holds(s, p, key) || key !in s.storage then None
      else Some(With(s, p, s.calls[p].(present := s.calls[p].present + {key})))
    case Commit(p, document, keys, outcome) =>
      if p !in s.calls || !s.calls[p].Writing? || !(keys <= Referenced(s.references) + s.calls[p].present) then None
      else
        var applied := outcome == Committed || outcome.applied;
        var references := if applied then Saved(s, document, keys) else s.references;
        Some(With(s.(references := references), p, Releasing))
    case BeginRollback(p) =>
      if p !in s.calls || !s.calls[p].Writing? then None
      else Some(With(s, p, RollingBack(Held(s, p, s.calls[p].staged))))
    case DeleteStaged(p, key) =>
      if p !in s.calls || !s.calls[p].RollingBack? || key !in s.calls[p].remaining then None
      else Some(With(s.(storage := s.storage - {key}), p, RollingBack(s.calls[p].remaining - {key})))
    case ReadReferences(p) =>
      if p !in s.calls || !s.calls[p].Cleaning? || exists k | k in s.calls[p].keys :: !Holds(s, p, k) then None
      else Some(With(s, p, Deleting(s.calls[p].keys - Referenced(s.references))))
    case DeleteDoomed(p, key) =>
      if p !in s.calls || !s.calls[p].Deleting? || key !in s.calls[p].doomed then None
      else Some(With(s.(storage := s.storage - {key}), p, Deleting(s.calls[p].doomed - {key})))
    case Release(p) =>
      if p !in s.calls || !(s.calls[p].Releasing? || s.calls[p].RollingBack? || s.calls[p].Deleting?) then None
      else Some(s.(locks := Unlocked(s, p), calls := s.calls - {p}))
    case Crash(p) =>
      if p !in s.calls then None else Some(s.(locks := Unlocked(s, p), calls := s.calls - {p}))
  }

  /** A run; steps that are not enabled do not occur. */
  function Run(s: State, actions: seq<Action>): Option<State>
    decreases |actions|
  {
    if actions == [] then Some(s)
    else
      match Apply(s, actions[0])
      case None => None
      case Some(next) => Run(next, actions[1..])
  }

  /** Any consistent store and bucket, with nothing in flight. */
  predicate Initial(s: State) {
    Referenced(s.references) <= s.storage && s.locks == map[] && s.owners == map[] && s.calls == map[]
  }

  // ----- what every step keeps -----

  /** A key generated by a call is unreferenced until that call commits it, and absent until it puts it. */
  predicate Private(s: State, p: nat, key: Key) {
    && key in s.owners && s.owners[key] == p
    && key !in Referenced(s.references)
    && (key in s.storage ==> Holds(s, p, key))
  }

  predicate CallOk(s: State, p: nat, c: Call) {
    match c
    case Writing(staged, present) =>
      && (forall k | k in staged :: Private(s, p, k))
      && (forall k | k in present :: k in s.storage && Holds(s, p, k))
    case RollingBack(remaining) =>
      forall k | k in remaining :: Private(s, p, k) && Holds(s, p, k)
    case Cleaning(_) => true
    case Deleting(doomed) => forall k | k in doomed :: Holds(s, p, k) && k !in Referenced(s.references)
    case Releasing => true
  }

  predicate Inv(s: State) {
    && Referenced(s.references) <= s.storage
    && (forall p | p in s.calls :: CallOk(s, p, s.calls[p]))
    && (forall k | k in s.locks :: s.locks[k] in s.calls)
  }

  lemma StepKeeps(s: State, a: Action)
    requires Inv(s) && Apply(s, a).Some?
    ensures Inv(Apply(s, a).value)
  {
    hide Inv, Apply;
    match a
    case BeginWrite(p, staged) => BeginWriteKeeps(s, p, staged);
    case BeginCleanup(_, _) => LockKeeps(s, a);
    case Lock(_, _) => LockKeeps(s, a);
    case Put(_, _) => PresentKeeps(s, a);
    case Validate(_, _) => PresentKeeps(s, a);
    case Commit(p, document, keys, outcome) => CommitKeeps(s, p, document, keys, outcome);
    case BeginRollback(_) => DecideKeeps(s, a);
    case ReadReferences(_) => DecideKeeps(s, a);
    case DeleteStaged(_, _) => DeleteKeeps(s, a);
    case DeleteDoomed(_, _) => DeleteKeeps(s, a);
    case Release(_) => ReleaseKeeps(s, a);
    case Crash(_) => ReleaseKeeps(s, a);
  }

  lemma BeginWriteKeeps(s: State, p: nat, staged: set<Key>)
    requires Inv(s) && Apply(s, BeginWrite(p, staged)).Some?
    ensures Inv(Apply(s, BeginWrite(p, staged)).value)
  {
    hide Referenced;
    var t := Apply(s, BeginWrite(p, staged)).value;
    forall q | q in s.calls ensures CallOk(t, q, s.calls[q]) { assert CallOk(s, q, s.calls[q]); }
  }

  lemma LockKeeps(s: State, a: Action)
    requires a.BeginCleanup? || a.Lock?
    requires Inv(s) && Apply(s, a).Some?
    ensures Inv(Apply(s, a).value)
  {
    hide Referenced;
    var t := Apply(s, a).value;
    forall q | q in s.calls ensures CallOk(t, q, s.calls[q]) { assert CallOk(s, q, s.calls[q]); }
  }

  lemma PresentKeeps(s: State, a: Action)
    requires a.Put? || a.Validate?
    requires Inv(s) && Apply(s, a).Some?
    ensures Inv(Apply(s, a).value)
  {
    hide Referenced;
    var t := Apply(s, a).value;
    assert CallOk(s, a.p, s.calls[a.p]);
    forall q | q in t.calls ensures CallOk(t, q, t.calls[q]) { assert CallOk(s, q, s.calls[q]); }
  }

  /** A commit makes at most the committer's own present keys newly referenced. */
  lemma SavedReferences(s: State, document: string, keys: set<Key>)
    ensures Referenced(Saved(s, document, keys)) <= Referenced(s.references) + keys
  {
  }

  lemma CommitKeeps(s: State, p: nat, document: string, keys: set<Key>, outcome: Outcome)
    requires Inv(s) && Apply(s, Commit(p, document, keys, outcome)).Some?
    ensures Inv(Apply(s, Commit(p, document, keys, outcome)).value)
  {
    hide Referenced, Saved;
    var t := Apply(s, Commit(p, document, keys, outcome)).value;
    SavedReferences(s, document, keys);
    assert CallOk(s, p, s.calls[p]);
    assert Referenced(t.references) <= Referenced(s.references) + s.calls[p].present;
    forall q | q in t.calls ensures CallOk(t, q, t.calls[q]) {
      if q != p { assert CallOk(s, q, s.calls[q]); }
    }
  }

  lemma DecideKeeps(s: State, a: Action)
    requires a.BeginRollback? || a.ReadReferences?
    requires Inv(s) && Apply(s, a).Some?
    ensures Inv(Apply(s, a).value)
  {
    hide Referenced;
    var t := Apply(s, a).value;
    forall q | q in t.calls ensures CallOk(t, q, t.calls[q]) { assert CallOk(s, q, s.calls[q]); }
  }

  lemma DeleteKeeps(s: State, a: Action)
    requires a.DeleteStaged? || a.DeleteDoomed?
    requires Inv(s) && Apply(s, a).Some?
    ensures Inv(Apply(s, a).value)
  {
    hide Referenced;
    var t := Apply(s, a).value;
    assert CallOk(s, a.p, s.calls[a.p]);
    forall q | q in t.calls ensures CallOk(t, q, t.calls[q]) { assert CallOk(s, q, s.calls[q]); }
  }

  lemma ReleaseKeeps(s: State, a: Action)
    requires a.Release? || a.Crash?
    requires Inv(s) && Apply(s, a).Some?
    ensures Inv(Apply(s, a).value)
  {
    hide Referenced;
    var t := Apply(s, a).value;
    forall q | q in t.calls ensures CallOk(t, q, t.calls[q]) { assert CallOk(s, q, s.calls[q]); }
  }

  lemma {:induction false} RunKeeps(s: State, actions: seq<Action>)
    requires Inv(s) && Run(s, actions).Some?
    ensures Inv(Run(s, actions).value)
    decreases |actions|
  {
    hide Inv, Apply;
    if actions != [] {
      StepKeeps(s, actions[0]);
      RunKeeps(Apply(s, actions[0]).value, actions[1..]);
    }
  }

  /**
   * No interleaving of uploads, imports, saves, rollbacks, crashes and cleanups leaves a
   * committed document referring to an object that is gone.
   */
  lemma NoDanglingReference(s: State, actions: seq<Action>, document: string)
    requires Initial(s) && Run(s, actions).Some?
    requires document in Run(s, actions).value.references
    ensures Run(s, actions).value.references[document] <= Run(s, actions).value.storage
  {
    RunKeeps(s, actions);
    var t := Run(s, actions).value;
    forall k | k in t.references[document] ensures k in Referenced(t.references) {}
  }

  // ----- exactly which saves are safe -----

  /** Another call is deleting the key, or may still roll it back. */
  predicate AtRisk(s: State, p: nat, key: Key) {
    exists q :: q in s.calls && q != p && Threatens(s.calls[q], key)
  }

  predicate Threatens(c: Call, key: Key) {
    match c
    case Writing(staged, _) => key in staged
    case RollingBack(remaining) => key in remaining
    case Cleaning(_) => false
    case Deleting(doomed) => key in doomed
    case Releasing => false
  }

  predicate Safe(s: State, p: nat, keys: set<Key>) {
    forall k | k in keys :: k in s.storage && !AtRisk(s, p, k)
  }

  /** A save of these keys, whether or not their locks are held. */
  function SavedAnyway(s: State, p: nat, document: string, keys: set<Key>): State {
    With(s.(references := Saved(s, document, keys)), p, Releasing)
  }

  /** No continuation leaves a reference without its object. */
  ghost predicate StaysConsistent(s: State) {
    forall later ::
      var t := Run(s, later); t.Some? ==> Referenced(t.value.references) <= t.value.storage
  }

  lemma SafeSaveKeeps(s: State, p: nat, document: string, keys: set<Key>)
    requires Inv(s) && p in s.calls && s.calls[p].Writing? && Safe(s, p, keys)
    ensures Inv(SavedAnyway(s, p, document, keys))
  {
    hide Referenced, Saved;
    var t := SavedAnyway(s, p, document, keys);
    SavedReferences(s, document, keys);
    forall q | q in t.calls ensures CallOk(t, q, t.calls[q]) {
      if q != p {
        assert CallOk(s, q, s.calls[q]);
        assert forall k | k in keys :: !Threatens(s.calls[q], k);
      }
    }
  }

  lemma RunOne(s: State, a: Action)
    requires Apply(s, a).Some?
    ensures Run(s, [a]) == Apply(s, a)
  {
    hide Apply;
    assert [a][1..] == [];
    assert forall t :: Run(t, []) == Some(t);
  }

  lemma RunTwo(s: State, a: Action, b: Action)
    requires Apply(s, a).Some? && Apply(Apply(s, a).value, b).Some?
    ensures Run(s, [a, b]) == Apply(Apply(s, a).value, b)
  {
    hide Apply;
    assert [a, b][1..] == [b];
    RunOne(Apply(s, a).value, b);
  }

  lemma NamedIsReferenced(s: State, document: string, keys: set<Key>, k: Key)
    requires k in keys
    ensures k in Referenced(Saved(s, document, keys))
  {
    var saved := Saved(s, document, keys);
    assert document in saved && k in saved[document];
  }

  /** Who threatens a saved key can still delete it. */
  lemma ThreatIsCarriedOut(s: State, p: nat, document: string, keys: set<Key>, q: nat, k: Key)
    requires Inv(s) && p in s.calls && s.calls[p].Writing? && k in keys && k in s.storage
    requires q in s.calls && q != p && Threatens(s.calls[q], k)
    ensures !StaysConsistent(SavedAnyway(s, p, document, keys))
  {
    var t := SavedAnyway(s, p, document, keys);
    NamedIsReferenced(s, document, keys, k);
    hide Referenced, Saved, Run;
    assert CallOk(s, q, s.calls[q]) && t.calls[q] == s.calls[q];
    var later: seq<Action>;
    match s.calls[q] {
      case Writing(staged, _) =>
        later := [BeginRollback(q), DeleteStaged(q, k)];
        RunTwo(t, BeginRollback(q), DeleteStaged(q, k));
      case RollingBack(_) =>
        later := [DeleteStaged(q, k)];
        RunOne(t, DeleteStaged(q, k));
      case Deleting(_) =>
        later := [DeleteDoomed(q, k)];
        RunOne(t, DeleteDoomed(q, k));
    }
    assert k !in Run(t, later).value.storage && k in Referenced(Run(t, later).value.references);
  }

  lemma AbsentDangles(s: State, p: nat, document: string, keys: set<Key>, k: Key)
    requires k in keys && k !in s.storage
    ensures !StaysConsistent(SavedAnyway(s, p, document, keys))
  {
    var t := SavedAnyway(s, p, document, keys);
    NamedIsReferenced(s, document, keys, k);
    assert Run(t, []) == Some(t);
  }

  /**
   * In every reachable state a save, locked or not, leaves all continuations consistent exactly
   * when each key it names is stored and no other call is deleting it or may still roll it back.
   * The lock rule of a commit implies that, so what it enforces is enough.
   */
  lemma SaveIsSafeExactly(i: State, actions: seq<Action>, p: nat, document: string, keys: set<Key>)
    requires Initial(i) && Run(i, actions).Some?
    requires var s := Run(i, actions).value; p in s.calls && s.calls[p].Writing?
    ensures var s := Run(i, actions).value;
            && (StaysConsistent(SavedAnyway(s, p, document, keys)) <==> Safe(s, p, keys))
            && (keys <= Referenced(s.references) + s.calls[p].present ==> Safe(s, p, keys))
  {
    RunKeeps(i, actions);
    hide Run, Inv, StaysConsistent;
    var s := Run(i, actions).value;
    if Safe(s, p, keys) {
      SafeSaveKeeps(s, p, document, keys);
      InvStaysConsistent(SavedAnyway(s, p, document, keys));
    } else {
      var k :| k in keys && (k !in s.storage || AtRisk(s, p, k));
      if k !in s.storage {
        AbsentDangles(s, p, document, keys, k);
      } else {
        var q :| q in s.calls && q != p && Threatens(s.calls[q], k);
        ThreatIsCarriedOut(s, p, document, keys, q, k);
      }
    }
    LockedIsSafe(s, p);
  }

  lemma InvStaysConsistent(s: State)
    requires Inv(s)
    ensures StaysConsistent(s)
  {
    hide Run;
    forall later | Run(s, later).Some?
      ensures Referenced(Run(s, later).value.references) <= Run(s, later).value.storage
    {
      RunKeeps(s, later);
    }
  }

  /** What is referenced already, or held present under its lock, nobody else deletes. */
  lemma LockedIsSafe(s: State, p: nat)
    requires Inv(s) && p in s.calls && s.calls[p].Writing?
    ensures forall k | k in Referenced(s.references) + s.calls[p].present :: k in s.storage && !AtRisk(s, p, k)
  {
    hide Referenced;
    assert CallOk(s, p, s.calls[p]);
    forall k | k in Referenced(s.references) + s.calls[p].present ensures k in s.storage && !AtRisk(s, p, k) {
      forall q | q in s.calls && q != p ensures !Threatens(s.calls[q], k) {
        assert CallOk(s, q, s.calls[q]);
      }
    }
  }

  /**
   * Why a commit must hold the lock of what it newly refers to: without that, a reference
   * saved between a cleanup's re-read and its deletion dangles.
   */
  lemma UnlockedCommitDangles(key: Key, document: string)
    ensures var s := State({key}, map[], map[], map[], map[]);
            var read := Run(s, [BeginCleanup(0, {key}), Lock(0, key), ReadReferences(0)]);
            && Initial(s) && read.Some?
            && var saved := read.value.(references := Saved(read.value, document, {key}));
               var after := Apply(saved, DeleteDoomed(0, key));
               after.Some? && document in after.value.references && key in after.value.references[document]
               && key !in after.value.storage
  {
    var s := State({key}, map[], map[], map[], map[]);
    assert Referenced(s.references) == {};
    var a, b, c := BeginCleanup(0, {key}), Lock(0, key), ReadReferences(0);
    var s1 := Apply(s, a).value;
    var s2 := Apply(s1, b).value;
    assert !exists k | k in {key} :: !Holds(s2, 0, k);
    var s3 := Apply(s2, c).value;
    assert [a, b, c][1..] == [b, c] && [b, c][1..] == [c] && [c][1..] == [];
    assert Run(s2, [c]) == Some(s3);
    assert Run(s1, [b, c]) == Some(s3);
    assert Run(s, [a, b, c]) == Some(s3);
  }
}
