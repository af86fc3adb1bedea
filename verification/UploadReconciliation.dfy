/** Reconciliation of object storage against document references, page by page and batch by batch. */
module UploadReconciliation {
  import opened Sets
  import opened Wrappers
  import opened UploadKeys
  import opened UploadListing

  /** A reference lookup answers for a set of keys, in whatever order the store likes. */
  type Lookup = set<string> -> Result<seq<string>, Failure>

  /** What the store and the bucket do; the second lookup is made under the object locks. */
  datatype Stores = Stores(snapshot: Lookup, locked: Lookup, lockable: set<string> -> bool, erasable: string -> bool)

  /** The keys a caller may hand in: blanks are dropped. */
  function Wanted(keys: seq<string>): set<string> {
    Elements(keys) - {""}
  }

  /** The referenced keys among those asked for; an answer with an unasked or repeated key is refused. */
  ghost function Answer(lookup: Lookup, keys: set<string>): Result<set<string>, Failure> {
    if |keys| > MAXIMUM_CANDIDATES || lookup(keys).Err? then Err(StoreFailed)
    else
      var items := lookup(keys).value;
      if Distinct(items) && Elements(items) <= keys then Ok(Elements(items)) else Err(StoreFailed)
  }

  /** A lookup that answers from one fixed set of references. */
  ghost predicate Honest(lookup: Lookup, references: set<string>) {
    forall keys ::
      && lookup(keys).Ok? && Distinct(lookup(keys).value)
      && Elements(lookup(keys).value) == keys * references
  }

  /** What the second lookup, made under the locks, lets go of these orphans. */
  ghost function Surrendered(s: Stores, orphans: set<string>): set<string> {
    if orphans == {} || Answer(s.locked, orphans).Err? then {} else orphans - Answer(s.locked, orphans).value
  }

  /** What cleaning up these keys deletes: unreferenced at the snapshot, and again under the locks. */
  ghost function Condemned(s: Stores, keys: set<string>): set<string> {
    if Answer(s.snapshot, keys).Err? then {} else Surrendered(s, keys - Answer(s.snapshot, keys).value)
  }

  method LookupReferences(lookup: Lookup, keys: seq<string>) returns (found: Result<set<string>, Failure>)
    ensures found.Ok? == Answer(lookup, Wanted(keys)).Ok?
    ensures found.Ok? ==> found == Answer(lookup, Wanted(keys))
  {
    var ordered := BoundedKeys(keys);
    if ordered.Err? { return Err(ordered.error); }
    var unique := Elements(ordered.value);
    var answer := lookup(unique);
    if answer.Err? { return Err(answer.error); }
    found := Admit(answer.value, unique);
  }

  method Admit(items: seq<string>, wanted: set<string>) returns (found: Result<set<string>, Failure>)
    ensures found == if Distinct(items) && Elements(items) <= wanted then Ok(Elements(items)) else Err(StoreFailed)
  {
    var referenced: set<string> := {};
    var i := 0;
    while i < |items|
      invariant i <= |items|
      invariant referenced == Elements(items[..i]) && referenced <= wanted
      invariant Distinct(items[..i])
    {
      var key := items[i];
      assert items[..i + 1] == items[..i] + [key];
      if key !in wanted || key in referenced {
        assert key in Elements(items);
        if key in referenced {
          ghost var j :| 0 <= j < i && items[..i][j] == key;
          assert items[j] == items[i];
        }
        return Err(StoreFailed);
      }
      referenced, i := referenced + {key}, i + 1;
    }
    assert items[..i] == items;
    return Ok(referenced);
  }

  /** What the flushed keys have come to: their orphans are counted, and cleaning up has deleted them. */
  ghost predicate Tallied(s: Stores, cleanup: bool, flushed: seq<string>, references: set<string>, later: set<string>,
                          candidates: nat, gone: set<string>)
  {
    && (Honest(s.snapshot, references) ==> candidates == |Unreferenced(flushed, references)|)
    && (cleanup && Honest(s.snapshot, references) && Honest(s.locked, later) ==>
          gone == Elements(Unreferenced(flushed, references)) - later)
  }

  /** What the snapshot lookup leaves unreferenced of a batch. */
  ghost function Orphans(s: Stores, keys: seq<string>): seq<string> {
    if Answer(s.snapshot, Elements(keys)).Err? then [] else Unreferenced(keys, Answer(s.snapshot, Elements(keys)).value)
  }

  lemma TallyGrows(s: Stores, cleanup: bool, flushed: seq<string>, keys: seq<string>, references: set<string>,
                   later: set<string>, candidates: nat, gone: set<string>)
    requires Tallied(s, cleanup, flushed, references, later, candidates, gone)
    requires Ascending(keys) && |Elements(keys)| <= MAXIMUM_CANDIDATES
    ensures Tallied(s, cleanup, flushed + keys, references, later, candidates + |Orphans(s, keys)|,
                    gone + if cleanup then Condemned(s, Elements(keys)) else {})
  {
    hide Honest, Answer, Condemned, Unreferenced, Elements, Ascending;
    if Honest(s.snapshot, references) {
      HonestAnswer(s.snapshot, Elements(keys), references);
      FlushedCount(flushed, keys, references);
      if Honest(s.locked, later) { HonestCondemned(s, Elements(keys), references, later); }
    }
  }

  class Reconciler {
    const bucket: Bucket
    const stores: Stores
    const cutoff: int
    const cleanup: bool
    var stored: set<string>
    var scanned: nat
    var candidates: nat
    var deleted: nat
    var batch: seq<string>
    var lastKey: string
    ghost const initial: set<string>
    ghost var gone: set<string>

    constructor (bucket: Bucket, stores: Stores, cutoff: int, cleanup: bool, stored: set<string>)
      ensures this.bucket == bucket && this.stores == stores
      ensures this.cutoff == cutoff && this.cleanup == cleanup && this.stored == stored
      ensures scanned == candidates == deleted == 0 && batch == [] && lastKey == "" && gone == {} && initial == stored
    {
      this.bucket, this.stores, this.cutoff, this.cleanup := bucket, stores, cutoff, cleanup;
      this.stored, scanned, candidates, deleted, batch, lastKey, gone := stored, 0, 0, 0, [], "", {};
      initial := stored;
    }

    method Erase(ordered: seq<string>, referenced: set<string>)
      returns (count: nat, ghost gone: set<string>, failure: Option<Failure>)
      requires Distinct(ordered)
      modifies this`stored
      ensures stored == old(stored) - gone && count == |gone| && gone <= Elements(ordered) - referenced
      ensures failure.None? ==> gone == Elements(ordered) - referenced
    {
      hide Elements, Distinct;
      count, gone := 0, {};
      var i := 0;
      assert Elements(ordered[..0]) == {} by { NoKeys(ordered[..0]); }
      while i < |ordered|
        invariant i <= |ordered| && count == |gone|
        invariant gone == Elements(ordered[..i]) - referenced && gone <= Elements(ordered)
        invariant stored == old(stored) - gone
      {
        var key := ordered[i];
        NextKey(ordered, i);
        SomeKeys(ordered, i + 1);
        if key !in referenced {
          if !stores.erasable(key) { return count, gone, Some(StorageFailed); }
          stored := stored - {key};
          gone := gone + {key};
          count := count + 1;
        }
        i := i + 1;
      }
      assert ordered[..i] == ordered;
      return count, gone, None;
    }

    /**
     * Lock the keys, re-read their references under the locks, delete the rest one by one.
     * Nothing the second lookup reports goes, even when a deletion fails half way.
     */
    method DeleteIfUnreferenced(keys: seq<string>)
      returns (count: nat, ghost gone: set<string>, failure: Option<Failure>)
      modifies this`stored
      ensures stored == old(stored) - gone && count == |gone| && gone <= Wanted(keys)
      ensures gone <= Surrendered(stores, Wanted(keys))
      ensures failure.None? ==> gone == Surrendered(stores, Wanted(keys))
    {
      hide Answer, Elements, Ascending, Distinct, Less;
      var bounded := BoundedKeys(keys);
      if bounded.Err? { return 0, {}, Some(bounded.error); }
      var ordered := bounded.value;
      var unique := Elements(ordered);
      assert unique == Wanted(keys) == Wanted(ordered);
      if |ordered| == 0 { NoKeys(ordered); return 0, {}, None; }
      if !stores.lockable(unique) { return 0, {}, Some(StoreFailed); }
      var found := LookupReferences(stores.locked, ordered);
      if found.Err? { return 0, {}, Some(found.error); }
      AscendingIsDistinct(ordered);
      count, gone, failure := Erase(ordered, found.value);
    }

    /** Candidates never outnumber scanned objects, nor deletions candidates. */
    ghost predicate Bounded()
      reads this
    {
      deleted <= candidates <= scanned && deleted <= |gone| && stored == initial - gone && (!cleanup ==> gone == {})
    }

    /** Everything listed so far is accounted for: what is flushed is counted, the rest is in the batch. */
    ghost predicate Sound(flat: seq<Object>, flushed: seq<string>, references: set<string>, later: set<string>)
      reads this
    {
      && Ordered(flat, "") && Dated(flat, bucket.owns) && lastKey == LastKey(flat)
      && Bounded() && |batch| <= MAXIMUM_CANDIDATES
      && scanned == |Owned(flat, bucket.owns)| && candidates + |batch| <= scanned
      && EligibleKeys(flat, bucket.owns, cutoff) == flushed + batch
      && deleted == |gone| && gone <= Elements(flushed)
      && Tallied(stores, cleanup, flushed, references, later, candidates, gone)
    }

    /** The deleting half of a batch; a failed one leaves what it had deleted uncounted. */
    method Discard(orphans: seq<string>) returns (failure: Option<Failure>)
      requires "" !in orphans && deleted == |gone| && gone !! Elements(orphans) && stored == initial - gone
      modifies this`stored, this`deleted, this`gone
      ensures stored == initial - gone
      ensures old(deleted) <= deleted <= old(deleted) + |orphans| && deleted <= |gone|
      ensures failure.None? ==> deleted == |gone| && gone == old(gone) + Surrendered(stores, Elements(orphans))
    {
      hide Answer, Surrendered, Elements, Wanted;
      WantedAll(orphans);
      var count, erased, error := DeleteIfUnreferenced(orphans);
      OrphanBound(orphans);
      SubsetSize(erased, Elements(orphans));
      UnionSize(gone, erased);
      gone := gone + erased;
      if error.Some? { return error; }
      deleted := deleted + count;
      return None;
    }

    /** The reading half of a batch. */
    method FindOrphans(keys: seq<string>) returns (orphans: seq<string>, failure: Option<Failure>)
      requires Ascending(keys) && "" !in keys
      ensures failure.None? <==> Answer(stores.snapshot, Elements(keys)).Ok?
      ensures failure.None? ==>
                && orphans == Orphans(stores, keys) && |orphans| <= |keys| && "" !in orphans
                && Elements(orphans) == Elements(keys) - Answer(stores.snapshot, Elements(keys)).value
    {
      hide Answer, Ascending, Unreferenced, Elements, Wanted;
      WantedAll(keys);
      var found := LookupReferences(stores.snapshot, keys);
      if found.Err? { return [], Some(found.error); }
      orphans := SelectUnreferenced(keys, found.value);
      UnreferencedKeeps(keys, found.value);
      NoBlanks(keys, orphans);
      failure := None;
    }

    /** One batch: look up, count what is unreferenced, and when cleaning up delete it. */
    method Flush() returns (failure: Option<Failure>)
      requires Bounded() && candidates + |batch| <= scanned && deleted == |gone|
      requires Ascending(batch) && "" !in batch && gone !! Elements(batch)
      modifies this`stored, this`candidates, this`deleted, this`batch, this`gone
      ensures Bounded()
      ensures failure.None? ==>
                && batch == [] && deleted == |gone| && candidates == old(candidates) + |Orphans(stores, old(batch))|
                && candidates <= old(candidates) + |old(batch)|
                && gone == old(gone) + if cleanup then Condemned(stores, Elements(old(batch))) else {}
      ensures !cleanup && (old(batch) == [] || Answer(stores.snapshot, Elements(old(batch))).Ok?) ==> failure.None?
    {
      hide Answer, Surrendered, Ascending, Unreferenced, Elements, Wanted;
      if |batch| == 0 { NothingToFlush(stores, batch); return None; }
      var orphans, error := FindOrphans(batch);
      if error.Some? { return error; }
      candidates := candidates + |orphans|;
      if cleanup && |orphans| != 0 {
        error := Discard(orphans);
        if error.Some? { return error; }
      }
      if |orphans| == 0 { NoKeys(orphans); SurrenderNothing(stores); }
      batch := [];
      return None;
    }

    /** A flush keeps the account: the batch joins what is flushed. */
    method FlushBatch(ghost flat: seq<Object>, ghost flushed: seq<string>, ghost references: set<string>,
                      ghost later: set<string>) returns (failure: Option<Failure>)
      requires Sound(flat, flushed, references, later)
      modifies this`stored, this`candidates, this`deleted, this`batch, this`gone
      ensures Bounded()
      ensures failure.None? ==> batch == [] && Sound(flat, flushed + old(batch), references, later)
      ensures !cleanup && Honest(stores.snapshot, references) ==> failure.None?
    {
      hide Ordered, Dated, Owned, Honest, Answer, Condemned, Unreferenced, EligibleKeys, Elements, Ascending,
        Tallied, Orphans;
      BatchIsBounded(flat, bucket.owns, cutoff, flushed, batch);
      if Honest(stores.snapshot, references) { HonestAnswer(stores.snapshot, Elements(batch), references); }
      TallyGrows(stores, cleanup, flushed, batch, references, later, candidates, gone);
      CondemnedIsWithin(stores, Elements(batch));
      Joined(flushed, batch);
      failure := Flush();
    }

    /** One listed object. */
    method Visit(o: Object, ghost flat: seq<Object>, ghost flushed: seq<string>, ghost references: set<string>,
                 ghost later: set<string>) returns (ghost after: seq<string>, failure: Option<Failure>)
      requires Sound(flat, flushed, references, later) && |batch| < MAXIMUM_CANDIDATES
      modifies this
      ensures Bounded()
      ensures failure.None? ==> Sound(flat + [o], after, references, later) && |batch| < MAXIMUM_CANDIDATES
      ensures failure.Some? && !cleanup && Honest(stores.snapshot, references) ==>
                !(Ordered(flat + [o], "") && Dated(flat + [o], bucket.owns))
    {
      hide Honest, Answer, Condemned, Unreferenced, Elements, Less, Ordered, Dated, Owned, EligibleKeys, LastKey;
      after, failure := flushed, None;
      AnotherObject(flat, o, bucket.owns, cutoff);
      if !Less(lastKey, o.key) { return after, Some(StorageFailed); }
      lastKey := o.key;
      if !bucket.owns(o.key) { return; }
      scanned := scanned + 1;
      if o.modifiedAt.None? { return after, Some(StorageFailed); }
      if o.modifiedAt.value > cutoff { return; }
      assert flushed + batch + [o.key] == flushed + (batch + [o.key]);
      batch := batch + [o.key];
      if |batch| == MAXIMUM_CANDIDATES {
        after := flushed + batch;
        failure := FlushBatch(flat + [o], flushed, references, later);
      }
    }

    /** The objects of one page, in order. */
    method VisitPage(objects: seq<Object>, ghost flat: seq<Object>, ghost flushed: seq<string>,
                     ghost references: set<string>, ghost later: set<string>)
      returns (ghost after: seq<string>, failure: Option<Failure>)
      requires Sound(flat, flushed, references, later) && |batch| < MAXIMUM_CANDIDATES
      modifies this
      ensures Bounded()
      ensures failure.None? ==> Sound(flat + objects, after, references, later) && |batch| < MAXIMUM_CANDIDATES
      ensures failure.Some? && !cleanup && Honest(stores.snapshot, references) ==>
                !Listable(flat + objects, bucket.owns)
    {
      hide Honest, Ordered, Dated, Tallied, Bounded;
      after, failure := flushed, None;
      var i := 0;
      assert flat + objects[..0] == flat;
      while i < |objects|
        invariant i <= |objects| && Sound(flat + objects[..i], after, references, later) && |batch| < MAXIMUM_CANDIDATES
        invariant failure.None?
      {
        assert flat + objects[..i + 1] == flat + objects[..i] + [objects[i]];
        after, failure := Visit(objects[i], flat + objects[..i], after, references, later);
        if failure.Some? {
          if Listable(flat + objects, bucket.owns) { PrefixIsListable(flat + objects, |flat| + i + 1, bucket.owns); }
          assert (flat + objects)[..|flat| + i + 1] == flat + objects[..i + 1];
          return;
        }
        i := i + 1;
      }
      assert objects[..i] == objects;
    }

    /**
     * Every page. `space` holds every cursor the backend can hand out, so the loop ends: a
     * cursor seen before is an error.
     */
    method List(ghost space: set<string>, ghost references: set<string>, ghost later: set<string>)
      returns (ghost flat: seq<Object>, ghost flushed: seq<string>, failure: Option<Failure>)
      requires Sound([], [], references, later) && batch == [] && Within(bucket, space)
      modifies this
      ensures Bounded()
      ensures failure.None? ==> Flat(bucket, "", {""}, space) == Some(flat) && Sound(flat, flushed, references, later)
      ensures failure.Some? && !cleanup && Honest(stores.snapshot, references) ==>
                var all := Flat(bucket, "", {""}, space);
                !(all.Some? && Listable(all.value, bucket.owns))
    {
      hide Honest, Listable, Sound, Bounded, Prepend, Flat;
      var cursor, seen := "", {""};
      flat, flushed := [], [];
      Prepended([], Flat(bucket, "", {""}, space));
      SoundIsBounded([], [], references, later);
      while true
        invariant Sound(flat, flushed, references, later) && Bounded() && |batch| < MAXIMUM_CANDIDATES
        invariant Flat(bucket, "", {""}, space) == Prepend(flat, Flat(bucket, cursor, seen, space))
        decreases |space - seen|
      {
        FlatStep(bucket, cursor, seen, space);
        PrependNone(flat, Flat(bucket, cursor, seen, space));
        var listed := bucket.list(cursor);
        if listed.Err? { return flat, flushed, Some(listed.error); }
        var page := listed.value;
        if |page.objects| > MAXIMUM_PAGE { return flat, flushed, Some(StorageFailed); }
        flushed, failure := VisitPage(page.objects, flat, flushed, references, later);
        if failure.Some? {
          NotListable(flat, page.objects, Flat(bucket, cursor, seen, space), bucket.owns);
          return;
        }
        SoundIsBounded(flat + page.objects, flushed, references, later);
        if page.next == "" {
          flat := flat + page.objects;
          return;
        }
        if page.next in seen { return flat, flushed, Some(StorageFailed); }
        Shrinks(space, seen, page.next);
        Reassociate(flat, page.objects, Flat(bucket, page.next, seen + {page.next}, space));
        flat := flat + page.objects;
        seen := seen + {page.next};
        cursor := page.next;
      }
    }

    lemma SoundIsBounded(flat: seq<Object>, flushed: seq<string>, references: set<string>, later: set<string>)
      requires Sound(flat, flushed, references, later)
      ensures Bounded() && Listable(flat, bucket.owns)
    {
    }

    /**
     * The whole reconciliation. A dry run succeeds exactly when the listing is complete and
     * well-formed, and then counts the set of orphans, wherever pages and batches end; a
     * cleanup deletes those of them that are still unreferenced under their locks.
     */
    method Reconcile(ghost space: set<string>, ghost references: set<string>, ghost later: set<string>)
      returns (failure: Option<Failure>)
      requires scanned == candidates == deleted == 0 && batch == [] && lastKey == "" && gone == {} && stored == initial
      requires Within(bucket, space)
      modifies this
      ensures deleted <= candidates <= scanned && stored == old(stored) - gone
      ensures !cleanup ==> stored == old(stored) && deleted == 0
      ensures !cleanup && Honest(stores.snapshot, references) ==>
                var all := Flat(bucket, "", {""}, space);
                (failure.None? <==> all.Some? && Listable(all.value, bucket.owns))
      ensures failure.None? ==>
                var all := Flat(bucket, "", {""}, space);
                && all.Some? && Listable(all.value, bucket.owns)
                && scanned == |Owned(all.value, bucket.owns)|
                && (Honest(stores.snapshot, references) ==>
                      candidates == |OrphanKeys(all.value, bucket.owns, cutoff, references)|)
                && (cleanup && Honest(stores.snapshot, references) && Honest(stores.locked, later) ==>
                      && gone == OrphanKeys(all.value, bucket.owns, cutoff, references) - later
                      && deleted == |gone|)
    {
      hide Honest, Ordered, Dated, OrphanKeys, Less, Flat;
      NothingListed(bucket.owns, cutoff, references);
      ghost var flat, flushed;
      flat, flushed, failure := List(space, references, later);
      if failure.Some? { return; }
      ghost var last := batch;
      failure := FlushBatch(flat, flushed, references, later);
      OrphanCount(flat, bucket.owns, cutoff, references);
      assert failure.None? ==> flushed + last + [] == EligibleKeys(flat, bucket.owns, cutoff);
    }
  }

  /** Five minutes, in seconds: below it an upload in progress could be taken for an orphan. */
  const MINIMUM_AGE := 300

  datatype ReconcileResult = ReconcileResult(scanned: nat, candidates: nat, deleted: nat)

  /** `ReconcileUploads` without, and `CleanupUploads` with, deletion. `remaining` is what is then stored. */
  method ReconcileUploads(bucket: Bucket, stores: Stores, now: int, olderThan: int, cleanup: bool, stored: set<string>,
                          ghost space: set<string>, ghost references: set<string>, ghost later: set<string>)
    returns (result: ReconcileResult, remaining: set<string>, failure: Option<Failure>)
    requires Within(bucket, space)
    ensures result.deleted <= result.candidates <= result.scanned && remaining <= stored
    ensures olderThan < 300 ==> failure.Some? && remaining == stored
    ensures !cleanup ==> remaining == stored && result.deleted == 0
    ensures !cleanup && Honest(stores.snapshot, references) ==>
              var all := Flat(bucket, "", {""}, space);
              (failure.None? <==> olderThan >= 300 && all.Some? && Listable(all.value, bucket.owns))
    ensures failure.None? ==> Flat(bucket, "", {""}, space).Some?
    ensures failure.None? && Honest(stores.snapshot, references) ==>
              var orphans := OrphanKeys(Flat(bucket, "", {""}, space).value, bucket.owns, now - olderThan, references);
              && result.candidates == |orphans|
              && (cleanup && Honest(stores.locked, later) ==>
                    remaining == stored - (orphans - later) && result.deleted == |orphans - later|)
  {
    hide Honest, OrphanKeys, Flat, Listable, Within;
    if olderThan < MINIMUM_AGE { return ReconcileResult(0, 0, 0), stored, Some(StorageFailed); }
    var reconciler := new Reconciler(bucket, stores, now - olderThan, cleanup, stored);
    failure := reconciler.Reconcile(space, references, later);
    result := ReconcileResult(reconciler.scanned, reconciler.candidates, reconciler.deleted);
    remaining := reconciler.stored;
  }

  /** What a backend owes its callers: unique ascending keys, and a time on every owned object. */
  predicate Listable(objects: seq<Object>, owns: string -> bool) {
    Ordered(objects, "") && Dated(objects, owns)
  }

  lemma PrefixIsListable(objects: seq<Object>, n: nat, owns: string -> bool)
    requires n <= |objects| && Listable(objects, owns)
    ensures Listable(objects[..n], owns)
  {
  }

  ghost function Prepend(first: seq<Object>, rest: Option<seq<Object>>): Option<seq<Object>> {
    if rest.Some? then Some(first + rest.value) else None
  }

  lemma Prepended(first: seq<Object>, rest: Option<seq<Object>>)
    requires first == []
    ensures Prepend(first, rest) == rest
  {
    if rest.Some? { assert [] + rest.value == rest.value; }
  }

  lemma Reassociate(a: seq<Object>, b: seq<Object>, rest: Option<seq<Object>>)
    ensures Prepend(a, Prepend(b, rest)) == Prepend(a + b, rest)
  {
    if rest.Some? { assert a + (b + rest.value) == a + b + rest.value; }
  }

  /** One page of the joined listing. */
  lemma FlatStep(b: Bucket, cursor: string, seen: set<string>, space: set<string>)
    requires Within(b, space)
    ensures var all := Flat(b, cursor, seen, space);
            if b.list(cursor).Err? || |b.list(cursor).value.objects| > MAXIMUM_PAGE then all.None?
            else
              var page := b.list(cursor).value;
              && (all.Some? ==> page.objects <= all.value)
              && (page.next == "" ==> all == Some(page.objects))
              && (page.next != "" && page.next in seen ==> all.None?)
              && (page.next != "" && page.next !in seen ==>
                    all == Prepend(page.objects, Flat(b, page.next, seen + {page.next}, space)))
  {
  }

  lemma PrependNone(first: seq<Object>, rest: Option<seq<Object>>)
    ensures Prepend(first, rest).None? <==> rest.None?
    ensures rest.Some? ==> Prepend(first, rest) == Some(first + rest.value)
  {
  }

  lemma NotListable(flat: seq<Object>, objects: seq<Object>, rest: Option<seq<Object>>, owns: string -> bool)
    requires rest.Some? ==> objects <= rest.value
    ensures Prepend(flat, rest).Some? && Listable(Prepend(flat, rest).value, owns) ==> Listable(flat + objects, owns)
  {
    if rest.Some? && Listable(flat + rest.value, owns) {
      PrefixIsListable(flat + rest.value, |flat| + |objects|, owns);
      assert (flat + rest.value)[..|flat| + |objects|] == flat + objects;
    }
  }

  lemma NothingListed(owns: string -> bool, cutoff: int, references: set<string>)
    ensures Listable([], owns) && Unreferenced([], references) == [] && EligibleKeys([], owns, cutoff) == []
    ensures Elements([]) == {}
  {
  }

  lemma AnotherObject(flat: seq<Object>, o: Object, owns: string -> bool, cutoff: int)
    requires Ordered(flat, "") && Dated(flat, owns)
    ensures LastKey(flat + [o]) == o.key
    ensures Ordered(flat + [o], "") <==> Less(LastKey(flat), o.key)
    ensures Dated(flat + [o], owns) <==> (owns(o.key) ==> o.modifiedAt.Some?)
    ensures Owned(flat + [o], owns) == Owned(flat, owns) + if owns(o.key) then [o] else []
    ensures EligibleKeys(flat + [o], owns, cutoff)
            == EligibleKeys(flat, owns, cutoff) + if Eligible(o, owns, cutoff) then [o.key] else []
  {
    var more, n := flat + [o], |flat|;
    assert more[..n] == flat && more[n] == o;
    if Less(LastKey(flat), o.key) {
      if n > 0 {
        LessTransitive("", LastKey(flat), o.key);
        forall i | 0 <= i < n - 1 ensures Less(flat[i].key, o.key) {
          LessTransitive(flat[i].key, LastKey(flat), o.key);
        }
      }
    }
    if Ordered(more, "") && n > 0 { assert Less(more[n - 1].key, more[n].key); }
    if Dated(more, owns) && owns(o.key) { assert more[n].modifiedAt.Some?; }
  }

  method SelectUnreferenced(keys: seq<string>, references: set<string>) returns (orphans: seq<string>)
    ensures orphans == Unreferenced(keys, references)
  {
    orphans := [];
    var i := 0;
    while i < |keys|
      invariant i <= |keys| && orphans == Unreferenced(keys[..i], references)
    {
      assert keys[..i + 1][..i] == keys[..i];
      if keys[i] !in references { orphans := orphans + [keys[i]]; }
      i := i + 1;
    }
    assert keys[..i] == keys;
  }

  /** The batch holds the last eligible keys, so it is ascending, has no blank and repeats nothing flushed. */
  lemma BatchIsBounded(flat: seq<Object>, owns: string -> bool, cutoff: int, flushed: seq<string>, batch: seq<string>)
    requires Ordered(flat, "") && EligibleKeys(flat, owns, cutoff) == flushed + batch
    ensures Ascending(batch) && "" !in batch && Elements(flushed) !! Elements(batch) && |Elements(batch)| <= |batch|
  {
    EligibleKeysAscend(flat, owns, cutoff);
    OrphanBound(batch);
    var keys := flushed + batch;
    forall i, j | 0 <= i < j < |batch| ensures Less(batch[i], batch[j]) {
      assert batch[i] == keys[|flushed| + i] && batch[j] == keys[|flushed| + j];
    }
    assert forall k | k in batch :: k in keys;
    forall i, j | 0 <= i < |flushed| && 0 <= j < |batch| ensures flushed[i] != batch[j] {
      assert flushed[i] == keys[i] && batch[j] == keys[|flushed| + j];
      LessTotal(keys[i], keys[|flushed| + j]);
    }
  }

  lemma Joined(a: seq<string>, b: seq<string>)
    ensures Elements(a + b) == Elements(a) + Elements(b) && a + b + [] == a + b
    ensures b == [] ==> Elements(b) == {} && a + b == a
  {
  }

  lemma FlushedCount(flushed: seq<string>, keys: seq<string>, references: set<string>)
    requires Ascending(keys)
    ensures |Unreferenced(flushed + keys, references)|
            == |Unreferenced(flushed, references)| + |Unreferenced(keys, references)|
    ensures |Unreferenced(keys, references)| == |Unreferenced(keys, Elements(keys) * references)|
    ensures Elements(Unreferenced(flushed + keys, references))
            == Elements(Unreferenced(flushed, references)) + (Elements(keys) - references)
  {
    UnreferencedJoins(flushed, keys, references);
    UnreferencedKeeps(keys, references);
    UnreferencedWithin(keys, Elements(keys), references);
  }

  lemma {:induction false} UnreferencedWithin(keys: seq<string>, all: set<string>, references: set<string>)
    requires Elements(keys) <= all
    ensures Unreferenced(keys, references) == Unreferenced(keys, all * references)
  {
    if keys != [] {
      var n := |keys| - 1;
      assert keys == keys[..n] + [keys[n]];
      assert keys[n] in Elements(keys) && Elements(keys[..n]) <= Elements(keys);
      UnreferencedWithin(keys[..n], all, references);
    }
  }

  lemma HonestAnswer(lookup: Lookup, keys: set<string>, references: set<string>)
    requires Honest(lookup, references) && |keys| <= MAXIMUM_CANDIDATES
    ensures Answer(lookup, keys) == Ok(keys * references)
  {
  }

  lemma NothingToFlush(s: Stores, keys: seq<string>)
    requires keys == []
    ensures Elements(keys) == {} && Orphans(s, keys) == [] && Condemned(s, {}) == {}
  {
    hide Answer;
    CondemnNothing(s);
  }

  lemma SurrenderNothing(s: Stores)
    ensures Surrendered(s, {}) == {}
  {
  }

  lemma CondemnNothing(s: Stores)
    ensures Condemned(s, {}) == {}
  {
    hide Answer;
    if Answer(s.snapshot, {}).Ok? { assert {} - Answer(s.snapshot, {}).value == {}; }
  }

  lemma CondemnedIsWithin(s: Stores, keys: set<string>)
    ensures Condemned(s, keys) <= keys
  {
    hide Answer;
  }

  lemma HonestCondemned(s: Stores, keys: set<string>, references: set<string>, later: set<string>)
    requires Honest(s.snapshot, references) && Honest(s.locked, later) && |keys| <= MAXIMUM_CANDIDATES
    ensures Condemned(s, keys) == keys - references - later
  {
    hide Answer, Honest;
    HonestAnswer(s.snapshot, keys, references);
    assert keys - keys * references == keys - references;
    SubsetSize(keys - references, keys);
    HonestAnswer(s.locked, keys - references, later);
  }

  lemma WantedAll(keys: seq<string>)
    requires "" !in keys
    ensures Wanted(keys) == Elements(keys)
  {
  }

  lemma NoBlanks(keys: seq<string>, fewer: seq<string>)
    requires "" !in keys && Elements(fewer) <= Elements(keys)
    ensures "" !in fewer
  {
    assert "" in fewer ==> "" in Elements(fewer);
  }

  lemma UnionSize(a: set<string>, b: set<string>)
    requires a !! b
    ensures |a + b| == |a| + |b|
  {
  }

  lemma {:induction false} OrphanBound(keys: seq<string>)
    ensures |Elements(keys)| <= |keys|
  {
    if keys != [] {
      var n := |keys| - 1;
      OrphanBound(keys[..n]);
      assert keys == keys[..n] + [keys[n]];
      assert Elements(keys) == Elements(keys[..n]) + {keys[n]};
    }
  }

  lemma NoKeys(keys: seq<string>)
    requires keys == []
    ensures Elements(keys) == {}
  {
  }

  lemma SomeKeys(keys: seq<string>, i: nat)
    requires i <= |keys|
    ensures Elements(keys[..i]) <= Elements(keys)
  {
  }

  lemma NextKey(keys: seq<string>, i: nat)
    requires Distinct(keys) && i < |keys|
    ensures keys[i] !in Elements(keys[..i])
    ensures Elements(keys[..i + 1]) == Elements(keys[..i]) + {keys[i]}
  {
    assert keys[..i + 1] == keys[..i] + [keys[i]];
  }
}
