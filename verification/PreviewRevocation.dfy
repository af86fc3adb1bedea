/** Who can take a preview grant away, and what is left of it then. */
module PreviewRevocation {
  import opened Wrappers
  import opened PreviewTokens
  import opened PreviewProtocol
  import opened PreviewSafety
  import opened PreviewRuns

  /** The revoking actor is the very one the grant was minted for. */
  predicate Owns(g: Grant, revoker: Seen) {
    revoker.incarnation.key == Document(g.actorCollectionID, g.actorID) && revoker.createdAt == g.actorCreatedAt
  }

  /**
   * A revocation waits for the lock only. By the grant's own actor it removes that grant and no
   * other; by anyone else, or without such a grant, it leaves the table as it is.
   */
  lemma RevocationIsTheOwners(config: Config, s: State, p: nat)
    requires p in s.calls && s.calls[p].Revoking? && s.calls[p].revoker.incarnation.key.Document? && s.fence.Free?
    ensures var digest, revoker := s.calls[p].digest, s.calls[p].revoker;
            var next := Apply(config, s, Revoke(p));
            && next.Some? && next.value.calls[p].Finished? && next.value.table.epoch == s.table.epoch
            && next.value.table.grants ==
                 (if digest in s.table.grants && Owns(s.table.grants[digest], revoker) then s.table.grants - {digest}
                  else s.table.grants)
  {
  }

  /** The answer to the caller: an absent grant counts as revoked, another actor's is refused. */
  lemma RevocationAnswers(t: Table, digest: string, revoker: Seen)
    requires revoker.incarnation.key.Document?
    ensures var key := revoker.incarnation.key;
            Revoked(t, digest, key.collectionID, key.id, revoker.createdAt).1 ==
              if digest in t.grants && !Owns(t.grants[digest], revoker) then Some(InvalidToken) else None
  {
  }

  /** An undisturbed revocation by a stored actor: it is identified, and takes away what it owns. */
  lemma RevocationRuns(config: Config, s: State, p: nat, identity: Key, digest: string)
    requires p !in s.calls && s.fence.Free? && identity.Document? && identity in s.documents
    ensures var revoker := Seen(Incarnation(identity, s.documents[identity].serial), s.documents[identity].createdAt);
            var out := Run(config, s, [IdentifyRevoker(p, identity, digest), Revoke(p)]);
            && out.Some?
            && out.value.table.grants ==
                 (if digest in s.table.grants && Owns(s.table.grants[digest], revoker) then s.table.grants - {digest}
                  else s.table.grants)
  {
    var revoker := Seen(Incarnation(identity, s.documents[identity].serial), s.documents[identity].createdAt);
    var identified := With(s, p, Revoking(digest, revoker));
    RunTwo(config, s, IdentifyRevoker(p, identity, digest), identified, Revoke(p));
    RevocationIsTheOwners(config, identified, p);
    hide Run;
  }

  /** A digest whose grant is gone, with no read of it served since. */
  predicate GoneSince(s: State, t: State, digest: string) {
    && digest in t.origins && digest !in t.table.grants
    && forall q | q in t.calls && t.calls[q].Served? && t.calls[q].ask.digest == digest ::
         q in s.calls && s.calls[q] == t.calls[q]
  }

  lemma ServesOnlyStored(config: Config, s: State, a: Action, q: nat)
    requires Apply(config, s, a).Some?
    requires q in Apply(config, s, a).value.calls && Apply(config, s, a).value.calls[q].Served?
    ensures var c := Apply(config, s, a).value.calls[q];
            (q in s.calls && s.calls[q] == c) || c.ask.digest in s.table.grants
  {
    hide NamesAny, OfActor, TokensOf, KnownRequest, KnownDeletes, KeysOf, Read, Released, Unexpired, Revoked, OriginOf,
      GrantFor, Removed;
  }

  lemma GoneStaysGone(config: Config, first: State, s: State, a: Action, digest: string)
    requires Apply(config, s, a).Some? && GoneSince(first, s, digest)
    ensures GoneSince(first, Apply(config, s, a).value, digest)
  {
    hide Apply, Released;
    StepAges(config, s, a);
    var t := Apply(config, s, a).value;
    forall q | q in t.calls && t.calls[q].Served? && t.calls[q].ask.digest == digest
      ensures q in first.calls && first.calls[q] == t.calls[q]
    {
      ServesOnlyStored(config, s, a, q);
    }
  }

  lemma {:induction false} GoneForGood(config: Config, first: State, s: State, actions: seq<Action>, digest: string)
    requires Run(config, s, actions).Some? && GoneSince(first, s, digest)
    ensures GoneSince(first, Run(config, s, actions).value, digest)
    decreases |actions|
  {
    hide Apply, GoneSince;
    if actions != [] {
      GoneStaysGone(config, first, s, actions[0], digest);
      GoneForGood(config, first, Apply(config, s, actions[0]).value, actions[1..], digest);
    }
  }

  /**
   * In every run, once its actor has revoked a grant, the digest never stands for a grant again, and
   * in every continuation the only reads it served are those served before.
   */
  lemma RevokedIsNeverServed(config: Config, i: State, actions: seq<Action>, p: nat, later: seq<Action>)
    requires OneToOne(config) && Initial(i) && Run(config, i, actions).Some?
    requires var s := Run(config, i, actions).value;
             && p in s.calls && s.calls[p].Revoking? && s.calls[p].revoker.incarnation.key.Document? && s.fence.Free?
             && s.calls[p].digest in s.table.grants && Owns(s.table.grants[s.calls[p].digest], s.calls[p].revoker)
             && Run(config, Apply(config, s, Revoke(p)).value, later).Some?
    ensures var s := Run(config, i, actions).value;
            var u := Run(config, Apply(config, s, Revoke(p)).value, later).value;
            var digest := s.calls[p].digest;
            && digest !in u.table.grants
            && forall q | q in u.calls && u.calls[q].Served? && u.calls[q].ask.digest == digest ::
                 q in s.calls && s.calls[q] == u.calls[q]
  {
    var s := Run(config, i, actions).value;
    RevocationIsTheOwners(config, s, p);
    StoredHasOrigin(config, i, actions, s.calls[p].digest);
    var t := Apply(config, s, Revoke(p)).value;
    assert t.origins == s.origins && t.calls == s.calls[p := Finished];
    hide Run, Apply, Initial, OneToOne, Owns;
    assert GoneSince(s, t, s.calls[p].digest);
    GoneForGood(config, s, t, later, s.calls[p].digest);
  }

  lemma StoredHasOrigin(config: Config, i: State, actions: seq<Action>, digest: string)
    requires OneToOne(config) && Initial(i) && Run(config, i, actions).Some?
    requires digest in Run(config, i, actions).value.table.grants
    ensures digest in Run(config, i, actions).value.origins
  {
    hide OneToOne, Run, Initial, Backed;
    InitialIsSafe(config, i);
    RunKeeps(config, i, actions);
    assert GrantOk(config, Run(config, i, actions).value, digest);
  }

  // ----- what takes a grant away -----

  /** The steps that may drop a grant: its expiry, its actor, a delete of what it names, a stale document. */
  predicate Drops(config: Config, s: State, a: Action, digest: string)
    requires digest in s.table.grants
  {
    var g := s.table.grants[digest];
    match a
    case Store(p, _) => p in s.calls && s.calls[p].Stamped? && g.expiresAt <= s.calls[p].now
    case Resolve(_, _, asked, now) => asked == digest && g.expiresAt <= now
    case Serve(_) => g.expiresAt <= s.clock
    case EndFence =>
      && s.fence.Held? && s.fence.commitAttempted
      && (ActorKey(g) in KeysOf(s.fence.deletes)
          || (g.resource == "collection" && KnownRequest(config, RequestOf(g))
              && TargetKey(config, RequestOf(g)) in KeysOf(s.fence.deletes)))
    case Revoke(p) => p in s.calls && s.calls[p].Revoking? && s.calls[p].digest == digest && Owns(g, s.calls[p].revoker)
    case Retract(p) => p in s.calls && s.calls[p].Retracting? && s.calls[p].digest == digest
    case _ => false
  }

  lemma NamedIsKeyed(config: Config, g: Grant, deletes: seq<Deletion>)
    requires OneToOne(config) && KnownDeletes(config, deletes) && KnownRequest(config, RequestOf(g))
    requires NamesAny(g, deletes)
    ensures ActorKey(g) in KeysOf(deletes)
            || (g.resource == "collection" && TargetKey(config, RequestOf(g)) in KeysOf(deletes))
  {
    var i :| 0 <= i < |deletes| && Names(g, deletes[i]);
    assert Document(deletes[i].collection.id, deletes[i].documentID) in KeysOf(deletes);
  }

  /** In every reachable state nothing else takes a stored grant away or changes it. */
  lemma GrantsSurvive(config: Config, i: State, actions: seq<Action>, a: Action, digest: string)
    requires OneToOne(config) && Initial(i) && Run(config, i, actions).Some?
    requires var s := Run(config, i, actions).value;
             digest in s.table.grants && Apply(config, s, a).Some? && !Drops(config, s, a, digest)
    ensures var s := Run(config, i, actions).value; var t := Apply(config, s, a).value;
            digest in t.table.grants && t.table.grants[digest] == s.table.grants[digest]
  {
    InitialIsSafe(config, i);
    RunKeeps(config, i, actions);
    var s := Run(config, i, actions).value;
    assert GrantOk(config, s, digest);
    hide Run, Initial, OneToOne, Inv;
    if a.EndFence? && s.fence.commitAttempted && NamesAny(s.table.grants[digest], s.fence.deletes) {
      FenceIsKnown(config, s);
      NamedIsKeyed(config, s.table.grants[digest], s.fence.deletes);
    }
    SurvivesStep(config, s, a, digest);
  }

  lemma FenceIsKnown(config: Config, s: State)
    requires Inv(config, s) && s.fence.Held?
    ensures OneToOne(config) && KnownDeletes(config, s.fence.deletes)
  {
  }

  lemma SurvivesStep(config: Config, s: State, a: Action, digest: string)
    requires digest in s.table.grants && digest in s.origins && Apply(config, s, a).Some?
    requires !Drops(config, s, a, digest) || (a.EndFence? && !NamesAny(s.table.grants[digest], s.fence.deletes))
    requires a.EndFence? && s.fence.Held? && s.fence.commitAttempted ==>
               !NamesAny(s.table.grants[digest], s.fence.deletes)
    ensures var t := Apply(config, s, a).value;
            digest in t.table.grants && t.table.grants[digest] == s.table.grants[digest]
  {
    hide NamesAny, TokensOf, KnownRequest, KnownDeletes, KeysOf, Read, GrantFor, OriginOf;
  }

  /** A read retracts a grant only for a document that is missing or has another creation time. */
  lemma RetractsOnlyStale(config: Config, s: State, a: Action, p: nat)
    requires Apply(config, s, a).Some? && p in Apply(config, s, a).value.calls
    requires Apply(config, s, a).value.calls[p].Retracting? && !(p in s.calls && s.calls[p].Retracting?)
    ensures p in s.calls && (s.calls[p].Resolved? || s.calls[p].Checked? || s.calls[p].Found?)
    ensures var g := s.calls[p].ask.grant;
            && Apply(config, s, a).value.calls[p].digest == s.calls[p].ask.digest
            && (|| ActorKey(g) !in s.documents || s.documents[ActorKey(g)].createdAt != g.actorCreatedAt
                || (s.calls[p].Checked? && KnownRequest(config, s.calls[p].ask.request)
                    && TargetKey(config, s.calls[p].ask.request) in s.documents
                    && s.documents[TargetKey(config, s.calls[p].ask.request)].createdAt != g.targetCreatedAt))
  {
    hide NamesAny, OfActor, TokensOf, KnownDeletes, KeysOf, Released, Unexpired, Revoked, OriginOf, GrantFor, Removed,
      Minted, LookedUp;
  }

  /** A retraction removes its grant and no other. */
  lemma RetractionRemoves(config: Config, s: State, p: nat)
    requires p in s.calls && s.calls[p].Retracting? && s.fence.Free?
    ensures var next := Apply(config, s, Retract(p));
            && next.Some? && next.value.calls[p].Finished? && next.value.table.epoch == s.table.epoch
            && next.value.table.grants == s.table.grants - {s.calls[p].digest}
  {
  }

  /** A read with a grant whose actor has been replaced finds that out, and retracts the grant. */
  lemma StaleActorIsNoticed(config: Config, s: State, p: nat, ask: Ask)
    requires p !in s.calls && s.fence.Free? && KnownRequest(config, ask.request) && RequestOf(ask.grant) == ask.request
    requires ask.digest in s.table.grants && s.table.grants[ask.digest] == ask.grant && ask.grant.expiresAt > s.clock
    requires ActorKey(ask.grant) !in s.documents
             || s.documents[ActorKey(ask.grant)].createdAt != ask.grant.actorCreatedAt
    ensures var out := Run(config, s, [Resolve(p, ask.request, ask.digest, s.clock), CheckActor(p, false)]
                                      + [Retract(p)]);
            out.Some? && out.value.table.grants == s.table.grants - {ask.digest}
  {
    var resolved := With(s, p, Resolved(ask));
    var noticed := With(resolved, p, Retracting(ask.digest));
    RunTwo(config, s, Resolve(p, ask.request, ask.digest, s.clock), resolved, CheckActor(p, false));
    RunJoins(config, s, [Resolve(p, ask.request, ask.digest, s.clock), CheckActor(p, false)], [Retract(p)]);
    RunSingle(config, noticed, Retract(p));
    RetractionRemoves(config, noticed, p);
    hide Run;
  }

  /** A read of another document than the grant is for is not resolved, nor is one with an expired or unknown token. */
  lemma OnlyItsRequestResolves(config: Config, s: State, p: nat, request: Request, digest: string, now: int)
    requires Apply(config, s, Resolve(p, request, digest, now)).Some?
    ensures var t := Apply(config, s, Resolve(p, request, digest, now)).value;
            t.calls[p].Resolved? <==>
              && digest in s.table.grants && s.table.grants[digest].expiresAt > now
              && s.table.grants[digest].resource == request.resource && s.table.grants[digest].slug == request.slug
              && s.table.grants[digest].documentID == request.documentID
  {
  }

  /** Creating a document stores it as a life of its own; a key that is taken stays as it is. */
  lemma CreationStores(config: Config, s: State, key: Key, createdAt: int)
    ensures var next := Apply(config, s, Create(key, createdAt));
            && (next.None? <==> key in s.documents)
            && (next.Some? ==>
                  && next.value.documents == s.documents[key := Stored(s.serials, createdAt)]
                  && next.value.serials > s.serials && next.value.table == s.table)
  {
  }

  /** Time only moves forward, and changes nothing else. */
  lemma TimeMovesForward(config: Config, s: State, now: int)
    ensures Apply(config, s, Tick(now)) == if now >= s.clock then Some(s.(clock := now)) else None
  {
  }

  // ----- a delete takes effect -----

  /**
   * A fenced delete that commits removes exactly the deleted documents and, with them, exactly the
   * grants that name one of them, and ends the epoch; one that does not even try changes nothing.
   */
  lemma DeleteTakesEffect(config: Config, s: State, deletes: seq<Deletion>)
    requires s.fence.Free? && KnownDeletes(config, deletes)
    ensures var t := Run(config, s, [BeginFence(deletes), Commit(true)] + [EndFence]);
            && t.Some? && t.value.fence.Free? && t.value.table.epoch == s.table.epoch + 1
            && t.value.documents == s.documents - KeysOf(deletes) && t.value.calls == s.calls
            && forall d :: d in t.value.table.grants <==>
                 && d in s.table.grants
                 && forall i | 0 <= i < |deletes| ::
                      !(s.table.grants[d].resource == "collection"
                        && s.table.grants[d].slug == deletes[i].collection.slug
                        && s.table.grants[d].documentID == deletes[i].documentID)
                      && !(s.table.grants[d].actorCollectionID == deletes[i].collection.id
                           && s.table.grants[d].actorID == deletes[i].documentID)
    ensures Run(config, s, [BeginFence(deletes), EndFence]) == Some(s)
  {
    var held := s.(fence := Held(deletes, false));
    var committed := CommitDeletes(held, KeysOf(deletes)).(fence := Held(deletes, true));
    RunTwo(config, s, BeginFence(deletes), held, EndFence);
    RunTwo(config, s, BeginFence(deletes), held, Commit(true));
    RunJoins(config, s, [BeginFence(deletes), Commit(true)], [EndFence]);
    RunSingle(config, committed, EndFence);
    hide Run, KnownDeletes, KeysOf;
  }

  lemma RunSingle(config: Config, s: State, a: Action)
    ensures Run(config, s, [a]) == Apply(config, s, a)
  {
    hide Apply;
    assert [a][1..] == [];
    assert forall t :: Run(config, t, []) == Some(t);
  }

  // ----- a mint through a transport -----

  /** A transport's snapshot, taken before it authenticates, lets an undisturbed mint through. */
  lemma TransportMintBegins(config: Config, s: State, p: nat, request: Request, identity: Key)
    requires p !in s.calls && s.fence.Free? && KnownRequest(config, request)
    requires identity.Document? && identity in s.documents
    ensures var entry := Entry(request, s.table.epoch + 1, Incarnation(identity, s.documents[identity].serial));
            Run(config, s, [TakeSnapshot(p), Authenticate(p, request, identity)] + [Start(p)])
            == Some(With(s, p, Started(entry, s.table.epoch + 1)))
  {
    var entry := Entry(request, s.table.epoch + 1, Incarnation(identity, s.documents[identity].serial));
    WithTwice(s, p, Snapshotted(s.table.epoch + 1), Authenticated(entry));
    WithTwice(s, p, Authenticated(entry), Started(entry, s.table.epoch + 1));
    RunTwo(config, s, TakeSnapshot(p), With(s, p, Snapshotted(s.table.epoch + 1)), Authenticate(p, request, identity));
    RunJoins(config, s, [TakeSnapshot(p), Authenticate(p, request, identity)], [Start(p)]);
    RunSingle(config, With(s, p, Authenticated(entry)), Start(p));
  }

  /** From there it reads and stores as any other mint, for the very actor it authenticated. */
  lemma TransportMintSucceeds(config: Config, s: State, p: nat, request: Request, identity: Key, digest: string)
    requires p !in s.calls && s.fence.Free? && digest !in s.origins && KnownRequest(config, request)
    requires identity.Document? && identity in s.documents && TargetKey(config, request) in s.documents
    requires HasRoom(s, Incarnation(identity, s.documents[identity].serial))
    ensures var actor, target := Read(s, identity).value, Read(s, TargetKey(config, request)).value;
            var out := Run(config, s, ([TakeSnapshot(p), Authenticate(p, request, identity)] + [Start(p)])
                                      + ([ReadActor(p, false), ReadTarget(p, false)] + [Stamp(p), Store(p, digest)]));
            && out.Some? && digest in out.value.table.grants && digest in out.value.origins
            && out.value.table.grants[digest] == Granted(s, request, identity, TargetKey(config, request))
            && out.value.origins[digest]
               == Origin(actor.incarnation, target.incarnation, Some(actor.incarnation), s.clock)
  {
    hide Run, Apply, HasRoom, Unexpired;
    var entry := Entry(request, s.table.epoch + 1, Incarnation(identity, s.documents[identity].serial));
    var actor, target := Read(s, identity).value, Read(s, TargetKey(config, request)).value;
    TransportMintBegins(config, s, p, request, identity);
    MintReads(config, s, p, entry, s.table.epoch + 1);
    MintEnds(config, s, p, entry, actor, target, digest);
    var a := [TakeSnapshot(p), Authenticate(p, request, identity)] + [Start(p)];
    var b, c := [ReadActor(p, false), ReadTarget(p, false)], [Stamp(p), Store(p, digest)];
    RunJoins(config, s, a, b + c);
    RunJoins(config, Run(config, s, a).value, b, c);
  }
}
