/**
 * Runs that succeed, an undisturbed mint storing its grant and an undisturbed read being served,
 * and runs that a permanent delete stops.
 */
module PreviewRuns {
  import opened Wrappers
  import opened PreviewTokens
  import opened PreviewProtocol
  import opened PreviewSafety

  /** Two runs in a row are one. */
  lemma {:induction false} RunJoins(config: Config, s: State, first: seq<Action>, later: seq<Action>)
    requires Run(config, s, first).Some?
    ensures Run(config, s, first + later) == Run(config, Run(config, s, first).value, later)
    decreases |first|
  {
    hide Apply;
    if first == [] {
      assert first + later == later;
    } else {
      assert (first + later)[1..] == first[1..] + later;
      RunJoins(config, Apply(config, s, first[0]).value, first[1..], later);
    }
  }

  lemma RunTwo(config: Config, s: State, a: Action, mid: State, b: Action)
    requires Apply(config, s, a) == Some(mid)
    ensures Run(config, s, [a, b]) == Apply(config, mid, b)
  {
    hide Apply;
    assert [a, b][1..] == [b] && [b][1..] == [];
    assert forall t :: Run(config, t, []) == Some(t);
    assert Run(config, mid, [b]) == Apply(config, mid, b);
  }

  lemma WithTwice(s: State, p: nat, c: Call, d: Call)
    ensures With(With(s, p, c), p, d) == With(s, p, d)
  {
    assert s.calls[p := c][p := d] == s.calls[p := d];
  }

  predicate HasRoom(s: State, claimed: Incarnation) {
    var kept := Unexpired(s.table.grants, s.clock);
    && claimed.key.Document? && |kept| < 4096
    && |TokensOf(kept, claimed.key.collectionID, claimed.key.id)| < 64
  }

  lemma MintBegins(config: Config, s: State, p: nat, entry: Entry)
    requires p !in s.calls && s.fence.Free? && entry.snapshot == 0
    requires KnownRequest(config, entry.request) && entry.identity.key.Document?
    ensures Run(config, s, [CallDirectly(p, entry.request, entry.identity), Start(p)])
            == Some(With(s, p, Started(entry, s.table.epoch + 1)))
  {
    WithTwice(s, p, Authenticated(entry), Started(entry, s.table.epoch + 1));
    RunTwo(config, s, CallDirectly(p, entry.request, entry.identity), With(s, p, Authenticated(entry)), Start(p));
  }

  lemma MintReads(config: Config, s: State, p: nat, entry: Entry, start: nat)
    requires KnownRequest(config, entry.request)
    requires entry.identity.key in s.documents && TargetKey(config, entry.request) in s.documents
    ensures var actor, target := Read(s, entry.identity.key).value, Read(s, TargetKey(config, entry.request)).value;
            Run(config, With(s, p, Started(entry, start)), [ReadActor(p, false), ReadTarget(p, false)])
            == Some(With(s, p, TargetRead(entry, start, actor, target)))
  {
    var actor, target := Read(s, entry.identity.key).value, Read(s, TargetKey(config, entry.request)).value;
    WithTwice(s, p, Started(entry, start), ActorRead(entry, start, actor));
    WithTwice(s, p, ActorRead(entry, start, actor), TargetRead(entry, start, actor, target));
    RunTwo(config, With(s, p, Started(entry, start)), ReadActor(p, false),
           With(s, p, ActorRead(entry, start, actor)), ReadTarget(p, false));
  }

  lemma MintEnds(config: Config, s: State, p: nat, entry: Entry, actor: Seen, target: Seen, digest: string)
    requires s.fence.Free? && digest !in s.origins && HasRoom(s, actor.incarnation)
    ensures var grant := GrantFor(entry.request, actor, target, s.clock);
            var out := Run(config, With(s, p, TargetRead(entry, s.table.epoch + 1, actor, target)),
                           [Stamp(p), Store(p, digest)]);
            out == Some(With(s, p, Finished).(
                          table := Table(Unexpired(s.table.grants, s.clock)[digest := grant], s.table.epoch),
                          origins := s.origins[digest := OriginOf(entry, actor, target, s.clock)]))
  {
    hide Unexpired, TokensOf, OriginOf;
    var start := s.table.epoch + 1;
    var read, stamped := TargetRead(entry, start, actor, target), Stamped(entry, start, actor, target, s.clock);
    WithTwice(s, p, read, stamped);
    WithTwice(s, p, stamped, Finished);
    RunTwo(config, With(s, p, read), Stamp(p), With(s, p, stamped), Store(p, digest));
  }

  /** The grant of an authorisation at this time: five minutes, for the documents as they are stored. */
  function Granted(s: State, request: Request, actor: Key, target: Key): Grant
    requires actor.Document? && actor in s.documents && target in s.documents
  {
    Grant(request.resource, request.slug, request.documentID, actor.collectionID, actor.id,
          s.documents[actor].createdAt, s.documents[target].createdAt, s.clock + 300)
  }

  /** Nothing in between, documents present, room in the table: the mint stores its grant. */
  lemma MintSucceeds(config: Config, s: State, p: nat, request: Request, claimed: Incarnation, digest: string)
    requires p !in s.calls && s.fence.Free? && digest !in s.origins
    requires KnownRequest(config, request) && claimed.key.Document?
    requires claimed.key in s.documents && TargetKey(config, request) in s.documents
    requires HasRoom(s, Incarnation(claimed.key, s.documents[claimed.key].serial))
    ensures var actor, target := Read(s, claimed.key).value, Read(s, TargetKey(config, request)).value;
            var out := Run(config, s, [CallDirectly(p, request, claimed), Start(p)]
                                      + ([ReadActor(p, false), ReadTarget(p, false)] + [Stamp(p), Store(p, digest)]));
            && out.Some? && digest in out.value.table.grants && digest in out.value.origins
            && out.value.table.grants[digest] == Granted(s, request, claimed.key, TargetKey(config, request))
            && out.value.origins[digest] == Origin(actor.incarnation, target.incarnation, None, s.clock)
            && out.value.documents == s.documents && out.value.fence.Free? && out.value.clock == s.clock
  {
    hide Run, Apply, HasRoom, Unexpired;
    var entry := Entry(request, 0, claimed);
    var actor, target := Read(s, claimed.key).value, Read(s, TargetKey(config, request)).value;
    MintBegins(config, s, p, entry);
    MintReads(config, s, p, entry, s.table.epoch + 1);
    MintEnds(config, s, p, entry, actor, target, digest);
    var a, b, c := [CallDirectly(p, request, claimed), Start(p)], [ReadActor(p, false), ReadTarget(p, false)],
                   [Stamp(p), Store(p, digest)];
    RunJoins(config, s, a, b + c);
    RunJoins(config, Run(config, s, a).value, b, c);
  }

  lemma ServeBegins(config: Config, s: State, p: nat, ask: Ask)
    requires p !in s.calls && s.fence.Free? && KnownRequest(config, ask.request) && RequestOf(ask.grant) == ask.request
    requires ask.digest in s.table.grants && s.table.grants[ask.digest] == ask.grant && ask.grant.expiresAt > s.clock
    requires ActorKey(ask.grant) in s.documents
    requires s.documents[ActorKey(ask.grant)].createdAt == ask.grant.actorCreatedAt
    ensures Run(config, s, [Resolve(p, ask.request, ask.digest, s.clock), CheckActor(p, false)])
            == Some(With(s, p, Checked(ask, Read(s, ActorKey(ask.grant)).value)))
  {
    var actor := Read(s, ActorKey(ask.grant)).value;
    WithTwice(s, p, Resolved(ask), Checked(ask, actor));
    RunTwo(config, s, Resolve(p, ask.request, ask.digest, s.clock), With(s, p, Resolved(ask)), CheckActor(p, false));
  }

  lemma ServeReads(config: Config, s: State, p: nat, ask: Ask, actor: Seen)
    requires KnownRequest(config, ask.request) && ActorKey(ask.grant) in s.documents
    requires TargetKey(config, ask.request) in s.documents
    requires s.documents[ActorKey(ask.grant)].createdAt == ask.grant.actorCreatedAt
    requires s.documents[TargetKey(config, ask.request)].createdAt == ask.grant.targetCreatedAt
    ensures var document := Read(s, TargetKey(config, ask.request)).value;
            Run(config, With(s, p, Checked(ask, actor)), [FindDocument(p, false), RecheckActor(p, false)])
            == Some(With(s, p, Rechecked(ask, actor, document, Read(s, ActorKey(ask.grant)).value)))
  {
    var document, again := Read(s, TargetKey(config, ask.request)).value, Read(s, ActorKey(ask.grant)).value;
    WithTwice(s, p, Checked(ask, actor), Found(ask, actor, document));
    WithTwice(s, p, Found(ask, actor, document), Rechecked(ask, actor, document, again));
    RunTwo(config, With(s, p, Checked(ask, actor)), FindDocument(p, false),
           With(s, p, Found(ask, actor, document)), RecheckActor(p, false));
  }

  lemma ServeEnds(config: Config, s: State, p: nat, ask: Ask, actor: Seen, document: Seen)
    requires s.fence.Free?
    requires ask.digest in s.table.grants && s.table.grants[ask.digest] == ask.grant && ask.grant.expiresAt > s.clock
    ensures Run(config, With(s, p, Rechecked(ask, actor, document, actor)), [Serve(p)])
            == Some(With(s, p, Served(ask, actor, document, actor, s.clock)))
  {
    var read, served := Rechecked(ask, actor, document, actor), Served(ask, actor, document, actor, s.clock);
    WithTwice(s, p, read, served);
    assert [Serve(p)][1..] == [];
    assert Run(config, With(s, p, served), []) == Some(With(s, p, served));
  }

  /** Nothing in between and an unexpired grant for the stored documents: the read is served. */
  lemma ServeSucceeds(config: Config, s: State, p: nat, ask: Ask)
    requires p !in s.calls && s.fence.Free? && KnownRequest(config, ask.request) && RequestOf(ask.grant) == ask.request
    requires ask.digest in s.table.grants && s.table.grants[ask.digest] == ask.grant && ask.grant.expiresAt > s.clock
    requires ActorKey(ask.grant) in s.documents && TargetKey(config, ask.request) in s.documents
    requires s.documents[ActorKey(ask.grant)].createdAt == ask.grant.actorCreatedAt
    requires s.documents[TargetKey(config, ask.request)].createdAt == ask.grant.targetCreatedAt
    ensures var actor, document := Read(s, ActorKey(ask.grant)).value, Read(s, TargetKey(config, ask.request)).value;
            Run(config, s, [Resolve(p, ask.request, ask.digest, s.clock), CheckActor(p, false)]
                           + ([FindDocument(p, false), RecheckActor(p, false)] + [Serve(p)]))
            == Some(With(s, p, Served(ask, actor, document, actor, s.clock)))
  {
    hide Run, Apply;
    var actor, document := Read(s, ActorKey(ask.grant)).value, Read(s, TargetKey(config, ask.request)).value;
    ServeBegins(config, s, p, ask);
    ServeReads(config, s, p, ask, actor);
    ServeEnds(config, s, p, ask, actor, document);
    var a, b, c := [Resolve(p, ask.request, ask.digest, s.clock), CheckActor(p, false)],
                   [FindDocument(p, false), RecheckActor(p, false)], [Serve(p)];
    RunJoins(config, s, a, b + c);
    RunJoins(config, Run(config, s, a).value, b, c);
  }

  // ----- runs that a delete stops -----

  /** Epoch `start` is over, or ends with the delete in progress, whose commit was attempted. */
  predicate Past(s: State, start: nat) {
    start <= s.table.epoch || (s.fence.Held? && s.fence.commitAttempted && start <= s.table.epoch + 1)
  }

  /** The grant is no longer stored under its digest, or the delete in progress will drop it. */
  predicate Gone(s: State, ask: Ask) {
    && ask.digest in s.origins
    && ((s.fence.Held? && s.fence.commitAttempted && NamesAny(ask.grant, s.fence.deletes))
        || ask.digest !in s.table.grants || s.table.grants[ask.digest] != ask.grant)
  }

  /** A call that began before that delete ended, wherever it has come to. */
  predicate Outdated(s: State, c: Call) {
    match c
    case Snapshotted(snapshot) => 0 < snapshot && Past(s, snapshot)
    case Authenticated(entry) => 0 < entry.snapshot && Past(s, entry.snapshot)
    case Started(_, start) => Past(s, start)
    case ActorRead(_, start, _) => Past(s, start)
    case TargetRead(_, start, _, _) => Past(s, start)
    case Stamped(_, start, _, _, _) => Past(s, start)
    case Resolved(ask) => Gone(s, ask)
    case Checked(ask, _) => Gone(s, ask)
    case Found(ask, _, _) => Gone(s, ask)
    case Rechecked(ask, _, _, _) => Gone(s, ask)
    case Served(_, _, _, _, _) => false
    case Retracting(_) => true
    case Revoking(_, _) => true
    case Finished => true
  }

  /** How a step may change what an outdated call depends on. */
  lemma StepAges(config: Config, s: State, a: Action)
    requires Apply(config, s, a).Some?
    ensures var t := Apply(config, s, a).value;
            && s.table.epoch <= t.table.epoch && s.origins.Keys <= t.origins.Keys
            && (s.fence.Held? && s.fence.commitAttempted ==>
                  t.fence == s.fence || t.table == Released(s.table, s.fence.deletes, true))
            && (forall d | d in s.origins && d in t.table.grants ::
                  d in s.table.grants && t.table.grants[d] == s.table.grants[d])
  {
    hide NamesAny, OfActor, TokensOf, KnownRequest, KnownDeletes, KeysOf, Read;
  }

  lemma PastStays(config: Config, s: State, a: Action, start: nat)
    requires Apply(config, s, a).Some? && Past(s, start)
    ensures Past(Apply(config, s, a).value, start)
  {
    hide Apply, Spared;
    StepAges(config, s, a);
  }

  lemma GoneStays(config: Config, s: State, a: Action, ask: Ask)
    requires Apply(config, s, a).Some? && Gone(s, ask)
    ensures Gone(Apply(config, s, a).value, ask)
  {
    hide Apply, NamesAny;
    StepAges(config, s, a);
  }

  lemma OutdatedStays(config: Config, s: State, a: Action, c: Call)
    requires Apply(config, s, a).Some? && Outdated(s, c)
    ensures Outdated(Apply(config, s, a).value, c)
  {
    hide Apply, Past, Gone;
    match c
    case Snapshotted(snapshot) => PastStays(config, s, a, snapshot);
    case Authenticated(entry) => PastStays(config, s, a, entry.snapshot);
    case Started(_, start) => PastStays(config, s, a, start);
    case ActorRead(_, start, _) => PastStays(config, s, a, start);
    case TargetRead(_, start, _, _) => PastStays(config, s, a, start);
    case Stamped(_, start, _, _, _) => PastStays(config, s, a, start);
    case Resolved(ask) => GoneStays(config, s, a, ask);
    case Checked(ask, _) => GoneStays(config, s, a, ask);
    case Found(ask, _, _) => GoneStays(config, s, a, ask);
    case Rechecked(ask, _, _, _) => GoneStays(config, s, a, ask);
    case _ =>
  }

  /** An outdated call advances to an outdated call: its store conflicts and its read is not served. */
  lemma AdvancesOutdated(config: Config, s: State, a: Action, p: nat)
    requires Apply(config, s, a).Some? && p in s.calls && Outdated(s, s.calls[p])
    ensures var t := Apply(config, s, a).value;
            p in t.calls && (t.calls[p] == s.calls[p] || Outdated(s, t.calls[p]))
  {
    hide NamesAny, OfActor, TokensOf, KnownRequest, KnownDeletes, KeysOf, Read, Released, Unexpired,
      Revoked, OriginOf, GrantFor, Removed;
  }

  lemma {:induction false} OutdatedRuns(config: Config, s: State, actions: seq<Action>, p: nat)
    requires Run(config, s, actions).Some? && p in s.calls && Outdated(s, s.calls[p])
    ensures var t := Run(config, s, actions).value; p in t.calls && Outdated(t, t.calls[p])
    decreases |actions|
  {
    hide Apply, Outdated;
    if actions != [] {
      var t := Apply(config, s, actions[0]).value;
      AdvancesOutdated(config, s, actions[0], p);
      OutdatedStays(config, s, actions[0], t.calls[p]);
      OutdatedRuns(config, t, actions[1..], p);
    }
  }

  /** An outdated mint's store leaves the table and the history as they are. */
  lemma OutdatedStoresNothing(config: Config, s: State, p: nat, digest: string)
    requires p in s.calls && Outdated(s, s.calls[p]) && Apply(config, s, Store(p, digest)).Some?
    ensures Apply(config, s, Store(p, digest)).value == With(s, p, Finished)
  {
    hide Unexpired, TokensOf;
  }

  /** Calls that a delete stops: mints past their first epoch check, or bound by a snapshot, and reads it names. */
  predicate Stopped(c: Call, deletes: seq<Deletion>) {
    || c.Snapshotted? || (c.Authenticated? && c.entry.snapshot != 0)
    || c.Started? || c.ActorRead? || c.TargetRead? || c.Stamped?
    || ((c.Resolved? || c.Checked? || c.Found? || c.Rechecked?) && NamesAny(c.ask.grant, deletes))
  }

  /**
   * Once a delete has attempted its commit, whether or not that succeeded, every mint that had
   * begun and every read whose grant it names is refused: in no continuation does such a mint
   * store a grant or such a read get served, however far they had come and however many steps
   * of any kind they still take.
   */
  lemma AttemptedDeleteRefuses(config: Config, s: State, actions: seq<Action>, later: seq<Action>, p: nat)
    requires OneToOne(config) && Initial(s) && Run(config, s, actions).Some?
    requires var t := Run(config, s, actions).value;
             && t.fence.Held? && t.fence.commitAttempted
             && p in t.calls && Stopped(t.calls[p], t.fence.deletes)
             && Run(config, t, later).Some?
    ensures var u := Run(config, Run(config, s, actions).value, later).value;
            && p in u.calls && !u.calls[p].Served?
            && forall digest ::
                 var next := Apply(config, u, Store(p, digest)); next.Some? ==> next.value == With(u, p, Finished)
  {
    var t := Run(config, s, actions).value;
    BeganBefore(config, s, actions, p);
    hide Run, Apply, Initial, OneToOne, Stopped;
    OutdatedRuns(config, t, later, p);
    var u := Run(config, t, later).value;
    forall digest | Apply(config, u, Store(p, digest)).Some?
      ensures Apply(config, u, Store(p, digest)).value == With(u, p, Finished)
    {
      OutdatedStoresNothing(config, u, p, digest);
    }
  }

  lemma BeganBefore(config: Config, s: State, actions: seq<Action>, p: nat)
    requires OneToOne(config) && Initial(s) && Run(config, s, actions).Some?
    requires var t := Run(config, s, actions).value;
             t.fence.Held? && t.fence.commitAttempted && p in t.calls && Stopped(t.calls[p], t.fence.deletes)
    ensures var t := Run(config, s, actions).value; Outdated(t, t.calls[p])
  {
    hide OneToOne, Run, Initial, Backed, NamesAny;
    InitialIsSafe(config, s);
    RunKeeps(config, s, actions);
    var t := Run(config, s, actions).value;
    assert CallOk(config, t, t.calls[p]);
  }
}
