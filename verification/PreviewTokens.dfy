/** The in-process table of preview grants and the critical sections that change it. */
module PreviewTokens {
  import opened Sets
  import opened Wrappers

  const MAXIMUM_TOKENS := 4096
  const MAXIMUM_TOKENS_PER_ACTOR := 64
  /** Five minutes, in seconds. */
  const TOKEN_DURATION := 300

  datatype Grant = Grant(resource: string, slug: string, documentID: string,
                         actorCollectionID: string, actorID: string,
                         actorCreatedAt: int, targetCreatedAt: int, expiresAt: int)

  datatype Collection = Collection(id: string, slug: string)

  datatype Deletion = Deletion(collection: Collection, documentID: string)

  datatype Table = Table(grants: map<string, Grant>, epoch: nat)

  datatype PreviewError = Conflict | RateLimited | InvalidToken

  predicate OfActor(g: Grant, collectionID: string, actorID: string) {
    g.actorCollectionID == collectionID && g.actorID == actorID
  }

  /** A grant dies with its target document and with its actor. */
  predicate Names(g: Grant, d: Deletion) {
    || (g.resource == "collection" && g.slug == d.collection.slug && g.documentID == d.documentID)
    || OfActor(g, d.collection.id, d.documentID)
  }

  predicate NamesAny(g: Grant, deletes: seq<Deletion>) {
    exists i | 0 <= i < |deletes| :: Names(g, deletes[i])
  }

  function Spared(grants: map<string, Grant>, deletes: seq<Deletion>): map<string, Grant> {
    map digest | digest in grants && !NamesAny(grants[digest], deletes) :: grants[digest]
  }

  function Unexpired(grants: map<string, Grant>, now: int): map<string, Grant> {
    map digest | digest in grants && grants[digest].expiresAt > now :: grants[digest]
  }

  function TokensOf(grants: map<string, Grant>, collectionID: string, actorID: string): set<string> {
    set digest | digest in grants && OfActor(grants[digest], collectionID, actorID)
  }

  /** Ending a fence: a commit that was attempted ends the epoch, whether or not it succeeded. */
  function Released(t: Table, deletes: seq<Deletion>, commitAttempted: bool): Table {
    if commitAttempted then Table(Spared(t.grants, deletes), t.epoch + 1) else t
  }

  /** Storing a freshly authorised grant, `start` being the epoch its authorisation began in. */
  function Minted(t: Table, start: nat, digest: string, g: Grant, now: int): (Table, Option<PreviewError>) {
    if t.epoch + 1 != start then (t, Some(Conflict))
    else
      var kept := Unexpired(t.grants, now);
      if |TokensOf(kept, g.actorCollectionID, g.actorID)| >= MAXIMUM_TOKENS_PER_ACTOR || |kept| >= MAXIMUM_TOKENS then
        (t.(grants := kept), Some(RateLimited))
      else
        (t.(grants := kept[digest := g]), None)
  }

  function Removed(t: Table, digest: string): Table {
    t.(grants := t.grants - {digest})
  }

  /** A lookup drops a grant it finds expired. */
  function LookedUp(t: Table, digest: string, now: int): (Table, Option<Grant>) {
    if digest !in t.grants then (t, None)
    else if t.grants[digest].expiresAt > now then (t, Some(t.grants[digest]))
    else (Removed(t, digest), None)
  }

  /** Revocation by an authenticated actor touches that actor's own grants only. */
  function Revoked(t: Table, digest: string, collectionID: string, actorID: string, createdAt: int)
    : (Table, Option<PreviewError>)
  {
    if digest !in t.grants then (t, None)
    else if !OfActor(t.grants[digest], collectionID, actorID) || t.grants[digest].actorCreatedAt != createdAt then
      (t, Some(InvalidToken))
    else (Removed(t, digest), None)
  }

  /** At most 4096 grants, and at most 64 for any one actor. */
  ghost predicate Bounded(grants: map<string, Grant>) {
    && |grants| <= MAXIMUM_TOKENS
    && forall c, a :: |TokensOf(grants, c, a)| <= MAXIMUM_TOKENS_PER_ACTOR
  }

  /** Dropping grants keeps the bounds. */
  lemma FewerStayBounded(fewer: map<string, Grant>, grants: map<string, Grant>)
    requires Bounded(grants)
    requires fewer.Keys <= grants.Keys && forall d | d in fewer :: fewer[d] == grants[d]
    ensures Bounded(fewer)
  {
    SubsetSize(fewer.Keys, grants.Keys);
    forall c, a ensures |TokensOf(fewer, c, a)| <= MAXIMUM_TOKENS_PER_ACTOR {
      SubsetSize(TokensOf(fewer, c, a), TokensOf(grants, c, a));
    }
  }

  /** A mint keeps the bounds: for its own actor by the count it made, for others because nothing was added. */
  lemma MintStaysBounded(t: Table, start: nat, digest: string, g: Grant, now: int)
    requires Bounded(t.grants)
    ensures Bounded(Minted(t, start, digest, g, now).0.grants)
  {
    var kept := Unexpired(t.grants, now);
    FewerStayBounded(kept, t.grants);
    var more := kept[digest := g];
    if |TokensOf(kept, g.actorCollectionID, g.actorID)| < MAXIMUM_TOKENS_PER_ACTOR && |kept| < MAXIMUM_TOKENS {
      assert more.Keys == kept.Keys + {digest};
      forall c, a ensures |TokensOf(more, c, a)| <= MAXIMUM_TOKENS_PER_ACTOR {
        if OfActor(g, c, a) {
          SubsetSize(TokensOf(more, c, a), TokensOf(kept, c, a) + {digest});
        } else {
          SubsetSize(TokensOf(more, c, a), TokensOf(kept, c, a));
        }
      }
      assert Bounded(more);
    }
  }

  /** What a mint may change: it drops grants, and adds its own only in the epoch it started in. */
  lemma MintedShape(t: Table, start: nat, digest: string, g: Grant, now: int)
    requires digest !in t.grants
    ensures var (u, error) := Minted(t, start, digest, g, now);
            && u.epoch == t.epoch
            && (forall d | d in u.grants && d != digest :: d in t.grants && u.grants[d] == t.grants[d])
            && (digest in u.grants <==> error.None?)
            && (error.None? ==> start == t.epoch + 1 && u.grants[digest] == g)
  {
  }

  /** The mutex-protected registry; each method is one critical section. */
  class PreviewTokenRegistry {
    var grants: map<string, Grant>
    var epoch: nat

    ghost function State(): Table
      reads this
    {
      Table(grants, epoch)
    }

    constructor ()
      ensures State() == Table(map[], 0)
    {
      grants, epoch := map[], 0;
    }

    method Release(deletes: seq<Deletion>, commitAttempted: bool)
      modifies this
      ensures State() == Released(old(State()), deletes, commitAttempted)
    {
      if !commitAttempted { return; }
      epoch := epoch + 1;
      var remaining := grants.Keys;
      while remaining != {}
        invariant remaining <= old(grants).Keys
        invariant epoch == old(epoch) + 1
        invariant grants == map d | d in old(grants) && (d in remaining || !NamesAny(old(grants)[d], deletes))
                              :: old(grants)[d]
        decreases |remaining|
      {
        var digest :| digest in remaining;
        var grant, i := grants[digest], 0;
        while i < |deletes|
          invariant i <= |deletes| && forall j | 0 <= j < i :: !Names(grant, deletes[j])
          invariant grants == map d | d in old(grants) && (d in remaining || !NamesAny(old(grants)[d], deletes))
                                :: old(grants)[d]
          invariant epoch == old(epoch) + 1
        {
          if Names(grant, deletes[i]) { break; }
          i := i + 1;
        }
        assert i < |deletes| <==> NamesAny(grant, deletes);
        if i < |deletes| { grants := grants - {digest}; }
        remaining := remaining - {digest};
      }
    }

    method Prune(now: int)
      modifies this`grants
      ensures grants == Unexpired(old(grants), now)
    {
      var remaining := grants.Keys;
      while remaining != {}
        invariant remaining <= old(grants).Keys
        invariant grants == map d | d in old(grants) && (d in remaining || old(grants)[d].expiresAt > now)
                              :: old(grants)[d]
        decreases |remaining|
      {
        var digest :| digest in remaining;
        if grants[digest].expiresAt <= now { grants := grants - {digest}; }
        remaining := remaining - {digest};
      }
    }

    method CountOf(collectionID: string, actorID: string) returns (count: nat)
      ensures count == |TokensOf(grants, collectionID, actorID)|
    {
      count := 0;
      ghost var counted: set<string> := {};
      var remaining := grants.Keys;
      while remaining != {}
        invariant remaining <= grants.Keys && count == |counted|
        invariant forall d :: d in counted <==>
                    d in grants && d !in remaining && OfActor(grants[d], collectionID, actorID)
        decreases |remaining|
      {
        var digest :| digest in remaining;
        if OfActor(grants[digest], collectionID, actorID) {
          count, counted := count + 1, counted + {digest};
        }
        remaining := remaining - {digest};
      }
      assert counted == TokensOf(grants, collectionID, actorID);
    }

    method Mint(start: nat, digest: string, grant: Grant, now: int) returns (error: Option<PreviewError>)
      modifies this
      ensures (State(), error) == Minted(old(State()), start, digest, grant, now)
    {
      if epoch + 1 != start { return Some(Conflict); }
      Prune(now);
      var actorTokens := CountOf(grant.actorCollectionID, grant.actorID);
      if actorTokens >= MAXIMUM_TOKENS_PER_ACTOR { return Some(RateLimited); }
      if |grants| >= MAXIMUM_TOKENS { return Some(RateLimited); }
      grants := grants[digest := grant];
      error := None;
    }

    method Lookup(digest: string, now: int) returns (grant: Option<Grant>)
      modifies this`grants
      ensures (State(), grant) == LookedUp(old(State()), digest, now)
    {
      if digest !in grants { return None; }
      grant := Some(grants[digest]);
      if grant.value.expiresAt <= now {
        grants := grants - {digest};
        grant := None;
      }
    }

    method Revoke(digest: string, collectionID: string, actorID: string, createdAt: int)
      returns (error: Option<PreviewError>)
      modifies this`grants
      ensures (State(), error) == Revoked(old(State()), digest, collectionID, actorID, createdAt)
    {
      if digest !in grants { return None; }
      var grant := grants[digest];
      if !OfActor(grant, collectionID, actorID) || grant.actorCreatedAt != createdAt { return Some(InvalidToken); }
      grants := grants - {digest};
      error := None;
    }
  }
}
