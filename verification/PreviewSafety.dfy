/** What every interleaving of preview mints, reads, deletes and revocations keeps. */
module PreviewSafety {
  import opened Wrappers
  import opened PreviewTokens
  import opened PreviewProtocol

  /**
   * How one state follows another: what was current stays current within an epoch,
   * and every grant kept across the end of an epoch names nothing the fence deleted.
   */
  ghost predicate Later(s: State, t: State) {
    && s.table.epoch <= t.table.epoch
    && (forall d | d in s.origins :: d in t.origins && t.origins[d] == s.origins[d])
    && (s.table.epoch == t.table.epoch ==>
          && (forall x | Current(s, x) :: Current(t, x))
          && (forall k | Doomed(s.fence, k) :: Doomed(t.fence, k)))
    && (forall d | d in t.table.grants && d in s.origins ::
          && d in s.table.grants && s.table.grants[d] == t.table.grants[d]
          && OutlivesEpoch(s, t, s.origins[d].actor) && OutlivesEpoch(s, t, s.origins[d].target))
  }

  predicate OutlivesEpoch(s: State, t: State, x: Incarnation) {
    && (Current(s, x) ==> Current(t, x))
    && (Doomed(s.fence, x.key) ==> Doomed(t.fence, x.key))
  }

  lemma CallKept(config: Config, s: State, t: State, c: Call)
    requires Later(s, t) && CallOk(config, s, c)
    ensures CallOk(config, t, c)
  {
    hide Backed;
  }

  lemma CallAt(config: Config, s: State, p: nat)
    requires Inv(config, s) && p in s.calls
    ensures CallOk(config, s, s.calls[p])
  {
    hide OneToOne, CallOk, GrantOk, Bounded;
  }

  lemma GrantAt(config: Config, s: State, digest: string)
    requires Inv(config, s)
    ensures digest in s.table.grants ==> GrantOk(config, s, digest)
  {
    hide OneToOne, CallOk, GrantOk, Bounded;
  }

  /** The common shape of a step: the state ages, and at most one call moves. */
  lemma StepShape(config: Config, s: State, t: State, p: nat)
    requires Inv(config, s) && Later(s, t)
    requires DocumentsOk(t.documents, t.deleted, t.serials) && Bounded(t.table.grants)
    requires t.fence.Held? ==> KnownDeletes(config, t.fence.deletes)
    requires forall q | q in t.calls && q != p :: q in s.calls && t.calls[q] == s.calls[q]
    requires p in t.calls ==> CallOk(config, t, t.calls[p])
    requires forall d | d in t.table.grants && d !in s.origins :: GrantOk(config, t, d)
    ensures Inv(config, t)
  {
    forall q | q in t.calls ensures CallOk(config, t, t.calls[q]) {
      if q != p { CallKept(config, s, t, s.calls[q]); }
    }
    forall d | d in t.table.grants ensures GrantOk(config, t, d) {
      if d in s.origins { assert GrantOk(config, s, d); }
    }
  }

  lemma CreateKeeps(config: Config, s: State, key: Key, createdAt: int)
    requires Inv(config, s) && Apply(config, s, Create(key, createdAt)).Some?
    ensures Inv(config, Apply(config, s, Create(key, createdAt)).value)
  {
    hide OneToOne, Bounded, CallOk, Backed;
    var t := Apply(config, s, Create(key, createdAt)).value;
    assert forall x | Alive(s.documents, x) :: Alive(t.documents, x);
    forall q | q in t.calls ensures CallOk(config, t, t.calls[q]) { CallKept(config, s, t, s.calls[q]); }
    forall d | d in t.table.grants ensures GrantOk(config, t, d) { assert GrantOk(config, s, d); }
  }

  lemma CommitKeeps(config: Config, s: State, succeeds: bool)
    requires Inv(config, s) && Apply(config, s, Commit(succeeds)).Some?
    ensures Inv(config, Apply(config, s, Commit(succeeds)).value)
  {
    hide OneToOne, Bounded, CallOk, Backed, KnownDeletes, KeysOf;
    var t := Apply(config, s, Commit(succeeds)).value;
    forall q | q in t.calls ensures CallOk(config, t, t.calls[q]) { CallKept(config, s, t, s.calls[q]); }
    forall d | d in t.table.grants ensures GrantOk(config, t, d) { assert GrantOk(config, s, d); }
  }

  /** A grant the purge spares names nothing the fence was asked to delete. */
  lemma SparedIsUnnamed(config: Config, g: Grant, o: Origin, deletes: seq<Deletion>)
    requires OneToOne(config) && Backed(config, g, o) && KnownDeletes(config, deletes)
    requires !NamesAny(g, deletes)
    ensures o.actor.key !in KeysOf(deletes) && o.target.key !in KeysOf(deletes)
  {
    forall i | 0 <= i < |deletes|
      ensures Document(deletes[i].collection.id, deletes[i].documentID) != o.actor.key
      ensures Document(deletes[i].collection.id, deletes[i].documentID) != o.target.key
    {
      assert !Names(g, deletes[i]);
      var slug := deletes[i].collection.slug;
      assert slug in config && config[slug] == deletes[i].collection.id;
    }
  }

  lemma EndFenceKeeps(config: Config, s: State)
    requires Inv(config, s) && Apply(config, s, EndFence).Some?
    ensures Inv(config, Apply(config, s, EndFence).value)
  {
    hide OneToOne, Bounded, CallOk, Backed, KnownDeletes, KeysOf, NamesAny;
    var t := Apply(config, s, EndFence).value;
    FewerStayBounded(t.table.grants, s.table.grants);
    forall d | d in t.table.grants
      ensures d in s.origins && OutlivesEpoch(s, t, s.origins[d].actor) && OutlivesEpoch(s, t, s.origins[d].target)
    {
      assert GrantOk(config, s, d);
      if s.fence.commitAttempted {
        SparedIsUnnamed(config, s.table.grants[d], s.origins[d], s.fence.deletes);
      }
    }
    assert Later(s, t);
    forall q | q in t.calls ensures CallOk(config, t, t.calls[q]) { CallKept(config, s, t, s.calls[q]); }
    forall d | d in t.table.grants ensures GrantOk(config, t, d) { assert GrantOk(config, s, d); }
  }

  /** A step that only reads documents and moves one call. */
  lemma ReadKeeps(config: Config, s: State, t: State, p: nat)
    requires Inv(config, s)
    requires p in t.calls && t == With(s, p, t.calls[p]) && CallOk(config, s, t.calls[p])
    ensures Inv(config, t)
  {
    hide CallOk, Backed, KnownDeletes, KeysOf, DocumentsOk, OneToOne, Bounded;
    forall d | d in t.table.grants ensures GrantOk(config, s, d) {}
    assert Later(s, t);
    CallKept(config, s, t, t.calls[p]);
    StepShape(config, s, t, p);
  }

  lemma BeginMintKeeps(config: Config, s: State, a: Action)
    requires a.TakeSnapshot? || a.Authenticate? || a.CallDirectly? || a.Start?
    requires Inv(config, s) && Apply(config, s, a).Some?
    ensures Inv(config, Apply(config, s, a).value)
  {
    hide OneToOne, Bounded, Backed, KnownDeletes, KeysOf, DocumentsOk, GrantOk;
    assert a.p in s.calls ==> CallOk(config, s, s.calls[a.p]);
    ReadKeeps(config, s, Apply(config, s, a).value, a.p);
  }

  lemma ReadActorKeeps(config: Config, s: State, p: nat, fails: bool)
    requires Inv(config, s) && Apply(config, s, ReadActor(p, fails)).Some?
    ensures Inv(config, Apply(config, s, ReadActor(p, fails)).value)
  {
    hide OneToOne, Bounded, Backed, KnownDeletes, KeysOf, DocumentsOk, GrantOk;
    assert CallOk(config, s, s.calls[p]);
    ReadKeeps(config, s, Apply(config, s, ReadActor(p, fails)).value, p);
  }

  lemma ReadTargetKeeps(config: Config, s: State, p: nat, fails: bool)
    requires Inv(config, s) && Apply(config, s, ReadTarget(p, fails)).Some?
    ensures Inv(config, Apply(config, s, ReadTarget(p, fails)).value)
  {
    hide OneToOne, Bounded, Backed, KnownDeletes, KeysOf, DocumentsOk, GrantOk;
    assert CallOk(config, s, s.calls[p]);
    ReadKeeps(config, s, Apply(config, s, ReadTarget(p, fails)).value, p);
  }

  lemma StampKeeps(config: Config, s: State, p: nat)
    requires Inv(config, s) && Apply(config, s, Stamp(p)).Some?
    ensures Inv(config, Apply(config, s, Stamp(p)).value)
  {
    hide OneToOne, Bounded, Backed, KnownDeletes, KeysOf, DocumentsOk, GrantOk;
    assert CallOk(config, s, s.calls[p]);
    ReadKeeps(config, s, Apply(config, s, Stamp(p)).value, p);
  }

  /** A stored grant names incarnations that are still current, because its epoch is. */
  lemma StoreIsBacked(config: Config, s: State, p: nat, digest: string)
    requires Inv(config, s) && Apply(config, s, Store(p, digest)).Some?
    ensures var t := Apply(config, s, Store(p, digest)).value;
            && CallOk(config, t, t.calls[p])
            && forall d | d in t.table.grants && d !in s.origins :: GrantOk(config, t, d)
  {
    hide OneToOne, Bounded, KnownDeletes, KeysOf, DocumentsOk, Minted, Read;
    var c := s.calls[p];
    assert CallOk(config, s, c);
    var grant := GrantFor(c.entry.request, c.actor, c.target, c.now);
    assert RequestOf(grant) == c.entry.request;
    assert digest in s.table.grants ==> GrantOk(config, s, digest);
    MintedShape(s.table, c.start, digest, grant, c.now);
    forall d | d in s.table.grants ensures d in s.origins { assert GrantOk(config, s, d); }
  }

  lemma StoreAges(config: Config, s: State, p: nat, digest: string)
    requires Inv(config, s) && Apply(config, s, Store(p, digest)).Some?
    ensures Later(s, Apply(config, s, Store(p, digest)).value)
  {
    hide OneToOne, Bounded, KnownDeletes, KeysOf, DocumentsOk, CallOk, Backed, Minted;
    var c := s.calls[p];
    var grant := GrantFor(c.entry.request, c.actor, c.target, c.now);
    assert digest in s.table.grants ==> GrantOk(config, s, digest);
    MintedShape(s.table, c.start, digest, grant, c.now);
  }

  lemma StoreKeeps(config: Config, s: State, p: nat, digest: string)
    requires Inv(config, s) && Apply(config, s, Store(p, digest)).Some?
    ensures Inv(config, Apply(config, s, Store(p, digest)).value)
  {
    hide OneToOne, Bounded, KnownDeletes, KeysOf, DocumentsOk, TokensOf, Later, CallOk, GrantOk, Backed;
    var t := Apply(config, s, Store(p, digest)).value;
    var c := s.calls[p];
    assert CallOk(config, s, c);
    var grant := GrantFor(c.entry.request, c.actor, c.target, c.now);
    MintStaysBounded(s.table, c.start, digest, grant, c.now);
    StoreIsBacked(config, s, p, digest);
    StoreAges(config, s, p, digest);
    StepShape(config, s, t, p);
  }

  /** Steps that only drop grants from the table, while the fence is down. */
  lemma DropKeeps(config: Config, s: State, t: State, p: nat)
    requires Inv(config, s)
    requires p in t.calls && t == With(s.(table := t.table), p, t.calls[p])
    requires t.table.epoch == s.table.epoch && t.table.grants.Keys <= s.table.grants.Keys
    requires forall d | d in t.table.grants :: t.table.grants[d] == s.table.grants[d]
    requires CallOk(config, t, t.calls[p])
    ensures Inv(config, t)
  {
    hide CallOk, Backed, KnownDeletes, KeysOf, DocumentsOk, OneToOne, Bounded;
    FewerStayBounded(t.table.grants, s.table.grants);
    forall d | d in t.table.grants ensures GrantOk(config, s, d) {}
    assert Later(s, t);
    StepShape(config, s, t, p);
  }

  lemma ResolveKeeps(config: Config, s: State, p: nat, request: Request, digest: string, now: int)
    requires Inv(config, s) && Apply(config, s, Resolve(p, request, digest, now)).Some?
    ensures Inv(config, Apply(config, s, Resolve(p, request, digest, now)).value)
  {
    hide OneToOne, Bounded, KnownDeletes, KeysOf, DocumentsOk, Backed;
    assert digest in s.table.grants ==> GrantOk(config, s, digest);
    DropKeeps(config, s, Apply(config, s, Resolve(p, request, digest, now)).value, p);
  }

  /** What is read under the key of a stored grant's origin is that origin, or the origin is doomed. */
  lemma ReadIsSeen(config: Config, s: State, digest: string, expected: Incarnation, seen: Seen)
    requires Read(s, expected.key) == Some(seen)
    requires digest in s.table.grants ==> Current(s, expected)
    ensures SeenOk(s, digest, seen, expected)
  {
    hide KeysOf;
  }

  lemma CheckActorKeeps(config: Config, s: State, p: nat, fails: bool)
    requires Inv(config, s) && Apply(config, s, CheckActor(p, fails)).Some?
    ensures Inv(config, Apply(config, s, CheckActor(p, fails)).value)
  {
    hide Inv, SeenOk, Current;
    var c, t := s.calls[p], Apply(config, s, CheckActor(p, fails)).value;
    CallAt(config, s, p);
    GrantAt(config, s, c.ask.digest);
    if t.calls[p].Checked? {
      ReadIsSeen(config, s, c.ask.digest, s.origins[c.ask.digest].actor, t.calls[p].actor);
    }
    ReadKeeps(config, s, t, p);
  }

  lemma FindDocumentKeeps(config: Config, s: State, p: nat, fails: bool)
    requires Inv(config, s) && Apply(config, s, FindDocument(p, fails)).Some?
    ensures Inv(config, Apply(config, s, FindDocument(p, fails)).value)
  {
    hide Inv, SeenOk, Current;
    var c, t := s.calls[p], Apply(config, s, FindDocument(p, fails)).value;
    CallAt(config, s, p);
    GrantAt(config, s, c.ask.digest);
    if t.calls[p].Found? {
      ReadIsSeen(config, s, c.ask.digest, s.origins[c.ask.digest].target, t.calls[p].document);
    }
    ReadKeeps(config, s, t, p);
  }

  lemma RecheckActorKeeps(config: Config, s: State, p: nat, fails: bool)
    requires Inv(config, s) && Apply(config, s, RecheckActor(p, fails)).Some?
    ensures Inv(config, Apply(config, s, RecheckActor(p, fails)).value)
  {
    hide Inv, SeenOk, Current;
    var c, t := s.calls[p], Apply(config, s, RecheckActor(p, fails)).value;
    CallAt(config, s, p);
    GrantAt(config, s, c.ask.digest);
    if t.calls[p].Rechecked? {
      ReadIsSeen(config, s, c.ask.digest, s.origins[c.ask.digest].actor, t.calls[p].again);
    }
    ReadKeeps(config, s, t, p);
  }

  lemma IdentifyRevokerKeeps(config: Config, s: State, p: nat, identity: Key, digest: string)
    requires Inv(config, s) && Apply(config, s, IdentifyRevoker(p, identity, digest)).Some?
    ensures Inv(config, Apply(config, s, IdentifyRevoker(p, identity, digest)).value)
  {
    hide OneToOne, Bounded, Backed, KnownDeletes, KeysOf, DocumentsOk, GrantOk;
    ReadKeeps(config, s, Apply(config, s, IdentifyRevoker(p, identity, digest)).value, p);
  }

  /**
   * The last lock point of a read: the grant is still stored, so nothing it was
   * minted for has been deleted, and what was read is what was authorised.
   */
  lemma ServeIsAuthorised(config: Config, s: State, p: nat)
    requires Inv(config, s) && Apply(config, s, Serve(p)).Some?
    ensures var t := Apply(config, s, Serve(p)).value;
            t.calls[p].Served? ==>
              var c := t.calls[p];
              && c.ask.digest in s.table.grants && s.table.grants[c.ask.digest] == c.ask.grant
              && c.ask.grant.expiresAt > s.clock && s.fence.Free?
              && c.ask.digest in s.origins
              && Alive(s.documents, s.origins[c.ask.digest].actor) && Alive(s.documents, s.origins[c.ask.digest].target)
              && Authorised(s.origins[c.ask.digest], c.actor, c.document, c.again, s.clock)
  {
    hide OneToOne, Bounded, KnownDeletes, DocumentsOk;
    var c := s.calls[p];
    assert CallOk(config, s, c);
    assert c.ask.digest in s.table.grants ==> GrantOk(config, s, c.ask.digest);
  }

  lemma ServeKeeps(config: Config, s: State, p: nat)
    requires Inv(config, s) && Apply(config, s, Serve(p)).Some?
    ensures Inv(config, Apply(config, s, Serve(p)).value)
  {
    hide OneToOne, Bounded, KnownDeletes, KeysOf, DocumentsOk, Backed, Authorised;
    ServeIsAuthorised(config, s, p);
    assert CallOk(config, s, s.calls[p]);
    DropKeeps(config, s, Apply(config, s, Serve(p)).value, p);
  }

  lemma RevocationKeeps(config: Config, s: State, a: Action)
    requires a.Retract? || a.Revoke?
    requires Inv(config, s) && Apply(config, s, a).Some?
    ensures Inv(config, Apply(config, s, a).value)
  {
    hide OneToOne, Bounded, KnownDeletes, KeysOf, DocumentsOk, Backed;
    DropKeeps(config, s, Apply(config, s, a).value, a.p);
  }

  lemma StepKeeps(config: Config, s: State, a: Action)
    requires Inv(config, s) && Apply(config, s, a).Some?
    ensures Inv(config, Apply(config, s, a).value)
  {
    hide Inv, Apply;
    match a
    case Tick(_) => QuietKeeps(config, s, a);
    case BeginFence(_) => QuietKeeps(config, s, a);
    case Create(key, createdAt) => CreateKeeps(config, s, key, createdAt);
    case Commit(succeeds) => CommitKeeps(config, s, succeeds);
    case EndFence => EndFenceKeeps(config, s);
    case Store(p, digest) => StoreKeeps(config, s, p, digest);
    case Resolve(p, request, digest, now) => ResolveKeeps(config, s, p, request, digest, now);
    case Serve(p) => ServeKeeps(config, s, p);
    case CheckActor(p, fails) => CheckActorKeeps(config, s, p, fails);
    case FindDocument(p, fails) => FindDocumentKeeps(config, s, p, fails);
    case RecheckActor(p, fails) => RecheckActorKeeps(config, s, p, fails);
    case IdentifyRevoker(p, identity, digest) => IdentifyRevokerKeeps(config, s, p, identity, digest);
    case Retract(_) => RevocationKeeps(config, s, a);
    case Revoke(_) => RevocationKeeps(config, s, a);
    case ReadActor(p, fails) => ReadActorKeeps(config, s, p, fails);
    case ReadTarget(p, fails) => ReadTargetKeeps(config, s, p, fails);
    case Stamp(p) => StampKeeps(config, s, p);
    case _ => BeginMintKeeps(config, s, a);
  }

  lemma QuietKeeps(config: Config, s: State, a: Action)
    requires a.Tick? || a.BeginFence?
    requires Inv(config, s) && Apply(config, s, a).Some?
    ensures Inv(config, Apply(config, s, a).value)
  {
    hide OneToOne, Bounded, CallOk, Backed, KnownDeletes, KeysOf, DocumentsOk;
    var t := Apply(config, s, a).value;
    forall q | q in t.calls ensures CallOk(config, t, t.calls[q]) { CallKept(config, s, t, s.calls[q]); }
    forall d | d in t.table.grants ensures GrantOk(config, t, d) { assert GrantOk(config, s, d); }
  }

  lemma {:induction false} RunKeeps(config: Config, s: State, actions: seq<Action>)
    requires Inv(config, s) && Run(config, s, actions).Some?
    ensures Inv(config, Run(config, s, actions).value)
    decreases |actions|
  {
    hide Inv, Apply;
    if actions != [] {
      StepKeeps(config, s, actions[0]);
      RunKeeps(config, Apply(config, s, actions[0]).value, actions[1..]);
    }
  }

  lemma InitialIsSafe(config: Config, s: State)
    requires OneToOne(config) && Initial(s)
    ensures Inv(config, s)
  {
    forall c, a ensures TokensOf(s.table.grants, c, a) == {} {}
  }

  // ----- the results -----

  /**
   * Whenever the registry's lock is free, every grant names an actor and a target that
   * are still the stored ones: no grant outlives a deletion, although mints read
   * documents without holding the lock.
   */
  lemma NoGrantOutlivesItsDocuments(config: Config, s: State, actions: seq<Action>, digest: string)
    requires OneToOne(config) && Initial(s) && Run(config, s, actions).Some?
    requires Run(config, s, actions).value.fence.Free?
    requires digest in Run(config, s, actions).value.table.grants
    ensures var t := Run(config, s, actions).value;
            var g := t.table.grants[digest];
            && digest in t.origins && Backed(config, g, t.origins[digest])
            && Alive(t.documents, t.origins[digest].actor) && t.origins[digest].actor !in t.deleted
            && Alive(t.documents, t.origins[digest].target) && t.origins[digest].target !in t.deleted
  {
    hide OneToOne, Run, Initial, Backed;
    InitialIsSafe(config, s);
    RunKeeps(config, s, actions);
    var t := Run(config, s, actions).value;
    assert GrantOk(config, t, digest);
  }

  /** The table never holds more than 4096 grants, nor more than 64 of one actor. */
  lemma TableIsBounded(config: Config, s: State, actions: seq<Action>, collectionID: string, actorID: string)
    requires OneToOne(config) && Initial(s) && Run(config, s, actions).Some?
    ensures var grants := Run(config, s, actions).value.table.grants;
            |grants| <= 4096 && |TokensOf(grants, collectionID, actorID)| <= 64
  {
    hide OneToOne, Run, Initial, Backed;
    InitialIsSafe(config, s);
    RunKeeps(config, s, actions);
  }

  /**
   * A read that was served showed the very actor and document incarnations authorised
   * at the mint, and was served less than five minutes after it.
   */
  lemma ServedReadsAreAuthorised(config: Config, s: State, actions: seq<Action>, p: nat)
    requires OneToOne(config) && Initial(s) && Run(config, s, actions).Some?
    requires p in Run(config, s, actions).value.calls && Run(config, s, actions).value.calls[p].Served?
    ensures var t := Run(config, s, actions).value;
            var c := t.calls[p];
            && c.ask.digest in t.origins && RequestOf(c.ask.grant) == c.ask.request
            && Backed(config, c.ask.grant, t.origins[c.ask.digest])
            && Authorised(t.origins[c.ask.digest], c.actor, c.document, c.again, c.at)
  {
    hide OneToOne, Run, Initial, Backed;
    InitialIsSafe(config, s);
    RunKeeps(config, s, actions);
    var t := Run(config, s, actions).value;
    assert CallOk(config, t, t.calls[p]);
  }

  /** A deleted incarnation never comes back, even under its own key. */
  lemma DeletedIsForever(config: Config, s: State, actions: seq<Action>, x: Incarnation)
    requires OneToOne(config) && Initial(s) && Run(config, s, actions).Some?
    requires x in Run(config, s, actions).value.deleted
    ensures !Alive(Run(config, s, actions).value.documents, x)
  {
    hide OneToOne, Run, Initial, Backed;
    InitialIsSafe(config, s);
    RunKeeps(config, s, actions);
  }
}
