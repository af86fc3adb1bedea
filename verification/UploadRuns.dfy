/** Undisturbed uploads, imports, rollbacks and cleanups, and what each of them leaves. */
module UploadRuns {
  import opened Wrappers
  import opened UploadProtocol

  lemma {:induction false} RunJoins(s: State, first: seq<Action>, later: seq<Action>)
    requires Run(s, first).Some?
    ensures Run(s, first + later) == Run(Run(s, first).value, later)
    decreases |first|
  {
    hide Apply;
    if first == [] {
      assert first + later == later;
    } else {
      assert (first + later)[1..] == first[1..] + later;
      RunJoins(Apply(s, first[0]).value, first[1..], later);
    }
  }

  /** A key nobody has used, generated for or locked. */
  predicate Unused(s: State, key: Key) {
    key !in s.storage && key !in s.owners && key !in s.locks && key !in Referenced(s.references)
  }

  lemma LockThenRelease(s: State, t: State, p: nat, key: Key)
    requires key !in s.locks && (forall k | k in s.locks :: s.locks[k] != p) && t.locks == s.locks[key := p]
    ensures Unlocked(t, p) == s.locks
  {
  }

  lemma GeneratedOne(owners: map<Key, nat>, p: nat, key: Key)
    ensures Generated(owners, p, {key}) == owners[key := p] && Generated(owners, p, {}) == owners
  {
  }

  lemma WriteBegins(s: State, p: nat, key: Key)
    requires p !in s.calls && Unused(s, key)
    ensures Run(s, [BeginWrite(p, {key}), Lock(p, key)])
            == Some(With(s.(owners := s.owners[key := p], locks := s.locks[key := p]), p, Writing({key}, {})))
  {
    hide Referenced;
    GeneratedOne(s.owners, p, key);
    RunTwo(s, BeginWrite(p, {key}), Lock(p, key));
  }

  lemma PutStores(s: State, p: nat, key: Key)
    requires p in s.calls && s.calls[p] == Writing({key}, {}) && Holds(s, p, key)
    ensures Apply(s, Put(p, key)) == Some(With(s.(storage := s.storage + {key}), p, Writing({key}, {key})))
  {
    assert {} + {key} == {key};
  }

  /**
   * Whoever commits a save names its keys in the document, unless the outcome is unknown and it was
   * not applied; in no case does the commit touch an object.
   */
  lemma CommitSaves(s: State, p: nat, document: string, keys: set<Key>, outcome: Outcome)
    requires p in s.calls && s.calls[p].Writing? && keys <= Referenced(s.references) + s.calls[p].present
    ensures var next := Apply(s, Commit(p, document, keys, outcome));
            && next.Some? && next.value.storage == s.storage && next.value.locks == s.locks
            && next.value.calls == s.calls[p := Releasing]
            && next.value.references == (if outcome == CommitUnknown(false) then s.references
                                         else s.references[document := keys])
  {
  }

  lemma ReleaseUnlocks(s: State, t: State, p: nat, key: Key)
    requires p !in s.calls && key !in s.locks && forall k | k in s.locks :: s.locks[k] != p
    requires t.locks == s.locks[key := p] && p in t.calls && t.calls == s.calls[p := t.calls[p]]
    requires t.calls[p].Releasing? || t.calls[p].RollingBack? || t.calls[p].Deleting?
    ensures Apply(t, Release(p)) == Some(t.(locks := s.locks, calls := s.calls))
  {
    LockThenRelease(s, t, p, key);
    assert t.calls - {p} == s.calls;
  }

  /** An undisturbed upload leaves its object stored and named by its document, and nothing locked. */
  lemma UploadSucceeds(s: State, p: nat, key: Key, document: string)
    requires p !in s.calls && Unused(s, key) && forall k | k in s.locks :: s.locks[k] != p
    ensures var out := Run(s, [BeginWrite(p, {key}), Lock(p, key)]
                              + ([Put(p, key), Commit(p, document, {key}, Committed)] + [Release(p)]));
            && out.Some? && out.value.storage == s.storage + {key}
            && out.value.references == s.references[document := {key}]
            && out.value.locks == s.locks && out.value.calls == s.calls
  {
    hide Run, Apply, Referenced;
    var begun := With(s.(owners := s.owners[key := p], locks := s.locks[key := p]), p, Writing({key}, {}));
    WriteBegins(s, p, key);
    PutStores(begun, p, key);
    var put := With(begun.(storage := s.storage + {key}), p, Writing({key}, {key}));
    CommitSaves(put, p, document, {key}, Committed);
    RunTwo(begun, Put(p, key), Commit(p, document, {key}, Committed));
    var saved := Apply(put, Commit(p, document, {key}, Committed)).value;
    assert saved.calls == s.calls[p := Releasing];
    ReleaseUnlocks(s, saved, p, key);
    RunOne(saved, Release(p));
    RunJoins(begun, [Put(p, key), Commit(p, document, {key}, Committed)], [Release(p)]);
    RunJoins(s, [BeginWrite(p, {key}), Lock(p, key)],
             [Put(p, key), Commit(p, document, {key}, Committed)] + [Release(p)]);
  }

  /** An undisturbed rollback leaves storage, references and locks as if the upload had not been. */
  lemma RollbackUndoes(s: State, p: nat, key: Key)
    requires p !in s.calls && Unused(s, key) && forall k | k in s.locks :: s.locks[k] != p
    ensures var out := Run(s, [BeginWrite(p, {key}), Lock(p, key)]
                              + ([Put(p, key), BeginRollback(p)] + [DeleteStaged(p, key), Release(p)]));
            && out.Some? && out.value.storage == s.storage && out.value.references == s.references
            && out.value.locks == s.locks && out.value.calls == s.calls
  {
    hide Run, Referenced;
    var begun := With(s.(owners := s.owners[key := p], locks := s.locks[key := p]), p, Writing({key}, {}));
    WriteBegins(s, p, key);
    PutStores(begun, p, key);
    var put := With(begun.(storage := s.storage + {key}), p, Writing({key}, {key}));
    assert Held(put, p, {key}) == {key};
    var rolling := With(put, p, RollingBack({key}));
    assert Apply(put, BeginRollback(p)) == Some(rolling);
    RunTwo(begun, Put(p, key), BeginRollback(p));
    assert s.storage + {key} - {key} == s.storage;
    var undone := Apply(rolling, DeleteStaged(p, key)).value;
    hide Apply;
    ReleaseUnlocks(s, undone, p, key);
    RunTwo(rolling, DeleteStaged(p, key), Release(p));
    RunJoins(begun, [Put(p, key), BeginRollback(p)], [DeleteStaged(p, key), Release(p)]);
    RunJoins(s, [BeginWrite(p, {key}), Lock(p, key)],
             [Put(p, key), BeginRollback(p)] + [DeleteStaged(p, key), Release(p)]);
  }

  /** An object that is stored already can be taken up under its lock, and then saved. */
  lemma ImportTakesUp(s: State, p: nat, key: Key, document: string)
    requires p !in s.calls && key in s.storage && key !in s.locks
    ensures var out := Run(s, [BeginWrite(p, {}), Lock(p, key)]
                              + [Validate(p, key), Commit(p, document, {key}, Committed)]);
            && out.Some? && out.value.storage == s.storage && out.value.references == s.references[document := {key}]
  {
    hide Run, Referenced;
    var begun := With(s.(locks := s.locks[key := p]), p, Writing({}, {}));
    GeneratedOne(s.owners, p, key);
    RunTwo(s, BeginWrite(p, {}), Lock(p, key));
    var taken := With(begun, p, Writing({}, {key}));
    assert {} + {key} == {key};
    assert Apply(begun, Validate(p, key)) == Some(taken);
    hide Apply;
    CommitSaves(taken, p, document, {key}, Committed);
    RunTwo(begun, Validate(p, key), Commit(p, document, {key}, Committed));
    RunJoins(s, [BeginWrite(p, {}), Lock(p, key)], [Validate(p, key), Commit(p, document, {key}, Committed)]);
  }

  /** An undisturbed cleanup deletes an orphan; of a referenced key it lets go. */
  lemma CleanupDeletesOrphans(s: State, p: nat, key: Key)
    requires p !in s.calls && key !in s.locks && forall k | k in s.locks :: s.locks[k] != p
    ensures var read := Run(s, [BeginCleanup(p, {key}), Lock(p, key)] + [ReadReferences(p)]);
            && read.Some? && read.value.storage == s.storage && read.value.references == s.references
            && (key in Referenced(s.references) ==> Apply(read.value, DeleteDoomed(p, key)).None?)
            && (key !in Referenced(s.references) ==>
                  var out := Run(read.value, [DeleteDoomed(p, key), Release(p)]);
                  && out.Some? && out.value.storage == s.storage - {key} && out.value.references == s.references
                  && out.value.locks == s.locks && out.value.calls == s.calls)
  {
    hide Run, Referenced;
    var begun := With(s.(locks := s.locks[key := p]), p, Cleaning({key}));
    RunTwo(s, BeginCleanup(p, {key}), Lock(p, key));
    assert !exists k | k in {key} :: !Holds(begun, p, k);
    var read := With(begun, p, Deleting({key} - Referenced(s.references)));
    assert Apply(begun, ReadReferences(p)) == Some(read);
    RunOne(begun, ReadReferences(p));
    RunJoins(s, [BeginCleanup(p, {key}), Lock(p, key)], [ReadReferences(p)]);
    if key !in Referenced(s.references) {
      var deleted := Apply(read, DeleteDoomed(p, key)).value;
      ReleaseUnlocks(s, deleted, p, key);
      RunTwo(read, DeleteDoomed(p, key), Release(p));
    }
  }

  /** A crash gives up the locks of its call, and leaves storage and references as they are. */
  lemma CrashReleasesLocks(s: State, p: nat)
    requires p in s.calls
    ensures var out := Apply(s, Crash(p));
            && out.Some? && out.value.storage == s.storage && out.value.references == s.references
            && out.value.calls == s.calls - {p}
            && forall k :: k in out.value.locks <==> k in s.locks && s.locks[k] != p
  {
  }
}
