/**
 * Mints, fenced permanent deletes, preview reads, revocations and document
 * creation, interleaved step by step. Every step is either one critical section
 * of the registry or one read of committed documents made outside its lock.
 */
module PreviewProtocol {
  import opened Wrappers
  import opened PreviewTokens

  datatype Key = Document(collectionID: string, id: string) | Global(slug: string)

  /** One life of a document: a document created again under the same key is another incarnation. */
  datatype Incarnation = Incarnation(key: Key, serial: nat)

  datatype Stored = Stored(serial: nat, createdAt: int)

  /** What a read returned. */
  datatype Seen = Seen(incarnation: Incarnation, createdAt: int)

  datatype Request = Request(resource: string, slug: string, documentID: string)

  /**
   * What an authorisation starts from. `snapshot` is the epoch the transport took
   * before it authenticated `identity`, or zero for a direct caller.
   */
  datatype Entry = Entry(request: Request, snapshot: nat, identity: Incarnation)

  /** What a reader resolved. */
  datatype Ask = Ask(request: Request, digest: string, grant: Grant)

  datatype Call =
    | Snapshotted(snapshot: nat)
    | Authenticated(entry: Entry)
    | Started(entry: Entry, start: nat)
    | ActorRead(entry: Entry, start: nat, actor: Seen)
    | TargetRead(entry: Entry, start: nat, actor: Seen, target: Seen)
    | Stamped(entry: Entry, start: nat, actor: Seen, target: Seen, now: int)
    | Resolved(ask: Ask)
    | Checked(ask: Ask, actor: Seen)
    | Found(ask: Ask, actor: Seen, document: Seen)
    | Rechecked(ask: Ask, actor: Seen, document: Seen, again: Seen)
    | Served(ask: Ask, actor: Seen, document: Seen, again: Seen, at: int)
    | Retracting(digest: string)
    | Revoking(digest: string, revoker: Seen)
    | Finished

  /** The permanent-delete fence holds the registry's lock from before the commit until after it. */
  datatype Fence = Free | Held(deletes: seq<Deletion>, commitAttempted: bool)

  /** What an authorisation established when it stored a grant; history only, never consulted by a step. */
  datatype Origin = Origin(actor: Incarnation, target: Incarnation, identity: Option<Incarnation>, mintedAt: int)

  datatype State = State(
    documents: map<Key, Stored>, deleted: set<Incarnation>, serials: nat,
    table: Table, fence: Fence, clock: int,
    origins: map<string, Origin>, calls: map<nat, Call>)

  /** The collections of a configuration: slug to identifier. */
  type Config = map<string, string>

  predicate OneToOne(config: Config) {
    forall a, b | a in config && b in config :: config[a] == config[b] ==> a == b
  }

  predicate KnownRequest(config: Config, r: Request) {
    r.resource == "collection" ==> r.slug in config
  }

  function TargetKey(config: Config, r: Request): Key
    requires KnownRequest(config, r)
  {
    if r.resource == "collection" then Document(config[r.slug], r.documentID) else Global(r.slug)
  }

  predicate KnownDeletes(config: Config, deletes: seq<Deletion>) {
    forall i | 0 <= i < |deletes| ::
      deletes[i].collection.slug in config && config[deletes[i].collection.slug] == deletes[i].collection.id
  }

  function KeysOf(deletes: seq<Deletion>): set<Key> {
    set i | 0 <= i < |deletes| :: Document(deletes[i].collection.id, deletes[i].documentID)
  }

  function RequestOf(g: Grant): Request {
    Request(g.resource, g.slug, g.documentID)
  }

  function ActorKey(g: Grant): Key {
    Document(g.actorCollectionID, g.actorID)
  }

  /** The grant an authorisation builds from what it read. */
  function GrantFor(r: Request, actor: Seen, target: Seen, now: int): Grant
    requires actor.incarnation.key.Document?
  {
    Grant(r.resource, r.slug, r.documentID, actor.incarnation.key.collectionID, actor.incarnation.key.id,
          actor.createdAt, target.createdAt, now + TOKEN_DURATION)
  }

  function Read(s: State, key: Key): Option<Seen> {
    if key in s.documents then Some(Seen(Incarnation(key, s.documents[key].serial), s.documents[key].createdAt))
    else None
  }

  /** A step; `p` names the call it advances. A read may fail although its document exists. */
  datatype Action =
    | Tick(now: int)
    | Create(key: Key, createdAt: int)
    | BeginFence(deletes: seq<Deletion>)
    | Commit(succeeds: bool)
    | EndFence
    | TakeSnapshot(p: nat)
    | Authenticate(p: nat, request: Request, identity: Key)
    | CallDirectly(p: nat, request: Request, claimed: Incarnation)
    | Start(p: nat)
    | ReadActor(p: nat, fails: bool)
    | ReadTarget(p: nat, fails: bool)
    | Stamp(p: nat)
    | Store(p: nat, digest: string)
    | Resolve(p: nat, request: Request, digest: string, now: int)
    | CheckActor(p: nat, fails: bool)
    | FindDocument(p: nat, fails: bool)
    | RecheckActor(p: nat, fails: bool)
    | Serve(p: nat)
    | Retract(p: nat)
    | IdentifyRevoker(p: nat, identity: Key, digest: string)
    | Revoke(p: nat)

  function With(s: State, p: nat, c: Call): State {
    s.(calls := s.calls[p := c])
  }

  function CommitDeletes(s: State, keys: set<Key>): State {
    s.(documents := s.documents - keys,
       deleted := s.deleted + set k | k in keys && k in s.documents :: Incarnation(k, s.documents[k].serial))
  }

  /** One step, where it is enabled. Steps that take the lock need the fence to be down. */
  function Apply(config: Config, s: State, a: Action): Option<State> {
    match a
    case Tick(now) => if s.clock <= now then Some(s.(clock := now)) else None
    case Create(key, createdAt) =>
      if key in s.documents then None
      else Some(s.(documents := s.documents[key := Stored(s.serials, createdAt)], serials := s.serials + 1))
    case BeginFence(deletes) =>
      if s.fence.Free? && KnownDeletes(config, deletes) then Some(s.(fence := Held(deletes, false))) else None
    case Commit(succeeds) =>
      if !s.fence.Held? || s.fence.commitAttempted then None
      else
        var after := if succeeds then CommitDeletes(s, KeysOf(s.fence.deletes)) else s;
        Some(after.(fence := Held(s.fence.deletes, true)))
    case EndFence =>
      if s.fence.Free? then None
      else Some(s.(table := Released(s.table, s.fence.deletes, s.fence.commitAttempted), fence := Free))
    case TakeSnapshot(p) =>
      if p in s.calls || !s.fence.Free? then None else Some(With(s, p, Snapshotted(s.table.epoch + 1)))
    case Authenticate(p, request, identity) =>
      if p !in s.calls || !s.calls[p].Snapshotted? || !KnownRequest(config, request) || !identity.Document? then None
      else (match Read(s, identity)
            case None => Some(With(s, p, Finished))
            case Some(seen) =>
              Some(With(s, p, Authenticated(Entry(request, s.calls[p].snapshot, seen.incarnation)))))
    case CallDirectly(p, request, claimed) =>
      if p in s.calls || !KnownRequest(config, request) || !claimed.key.Document? then None
      else Some(With(s, p, Authenticated(Entry(request, 0, claimed))))
    case Start(p) =>
      if p !in s.calls || !s.calls[p].Authenticated? || !s.fence.Free? then None
      else
        var entry := s.calls[p].entry;
        var start := s.table.epoch + 1;
        Some(With(s, p, if entry.snapshot != 0 && entry.snapshot != start then Finished else Started(entry, start)))
    case ReadActor(p, fails) =>
      if p !in s.calls || !s.calls[p].Started? then None
      else
        var c := s.calls[p];
        var seen := Read(s, c.entry.identity.key);
        Some(With(s, p, if fails || seen.None? then Finished else ActorRead(c.entry, c.start, seen.value)))
    case ReadTarget(p, fails) =>
      if p !in s.calls || !s.calls[p].ActorRead? || !KnownRequest(config, s.calls[p].entry.request) then None
      else
        var c := s.calls[p];
        var seen := Read(s, TargetKey(config, c.entry.request));
        Some(With(s, p, if fails || seen.None? then Finished else TargetRead(c.entry, c.start, c.actor, seen.value)))
    case Stamp(p) =>
      if p !in s.calls || !s.calls[p].TargetRead? then None
      else
        var c := s.calls[p];
        Some(With(s, p, Stamped(c.entry, c.start, c.actor, c.target, s.clock)))
    case Store(p, digest) =>
      if p !in s.calls || !s.calls[p].Stamped? || !s.calls[p].actor.incarnation.key.Document?
         || digest in s.origins || !s.fence.Free? then None
      else
        var c := s.calls[p];
        var grant := GrantFor(c.entry.request, c.actor, c.target, c.now);
        var (table, error) := Minted(s.table, c.start, digest, grant, c.now);
        var stored := With(s.(table := table), p, Finished);
        Some(if error.Some? then stored
             else stored.(origins := s.origins[digest := OriginOf(c.entry, c.actor, c.target, c.now)]))
    case Resolve(p, request, digest, now) =>
      if p in s.calls || !s.fence.Free? || now > s.clock || !KnownRequest(config, request) then None
      else
        var (table, grant) := LookedUp(s.table, digest, now);
        Some(With(s.(table := table), p,
                  if grant.None? || RequestOf(grant.value) != request then Finished
                  else Resolved(Ask(request, digest, grant.value))))
    case CheckActor(p, fails) =>
      if p !in s.calls || !s.calls[p].Resolved? then None
      else
        var c := s.calls[p];
        var seen := Read(s, ActorKey(c.ask.grant));
        Some(With(s, p,
                  if fails then Finished
                  else if seen.None? || seen.value.createdAt != c.ask.grant.actorCreatedAt then Retracting(c.ask.digest)
                  else Checked(c.ask, seen.value)))
    case FindDocument(p, fails) =>
      if p !in s.calls || !s.calls[p].Checked? || !KnownRequest(config, s.calls[p].ask.request) then None
      else
        var c := s.calls[p];
        var seen := Read(s, TargetKey(config, c.ask.request));
        Some(With(s, p,
                  if fails || seen.None? then Finished
                  else if seen.value.createdAt != c.ask.grant.targetCreatedAt then Retracting(c.ask.digest)
                  else Found(c.ask, c.actor, seen.value)))
    case RecheckActor(p, fails) =>
      if p !in s.calls || !s.calls[p].Found? then None
      else
        var c := s.calls[p];
        var seen := Read(s, ActorKey(c.ask.grant));
        Some(With(s, p,
                  if fails then Finished
                  else if seen.None? || seen.value.createdAt != c.ask.grant.actorCreatedAt then Retracting(c.ask.digest)
                  else Rechecked(c.ask, c.actor, c.document, seen.value)))
    case Serve(p) =>
      if p !in s.calls || !s.calls[p].Rechecked? || !s.fence.Free? then None
      else
        var c := s.calls[p];
        var (table, current) := LookedUp(s.table, c.ask.digest, s.clock);
        Some(With(s.(table := table), p,
                  if current == Some(c.ask.grant) then Served(c.ask, c.actor, c.document, c.again, s.clock)
                  else Finished))
    case Retract(p) =>
      if p !in s.calls || !s.calls[p].Retracting? || !s.fence.Free? then None
      else Some(With(s.(table := Removed(s.table, s.calls[p].digest)), p, Finished))
    case IdentifyRevoker(p, identity, digest) =>
      if p in s.calls || !identity.Document? then None
      else Some(With(s, p, if Read(s, identity).None? then Finished else Revoking(digest, Read(s, identity).value)))
    case Revoke(p) =>
      if p !in s.calls || !s.calls[p].Revoking?
         || !s.calls[p].revoker.incarnation.key.Document? || !s.fence.Free? then None
      else
        var c := s.calls[p];
        var key := c.revoker.incarnation.key;
        var table := Revoked(s.table, c.digest, key.collectionID, key.id, c.revoker.createdAt).0;
        Some(With(s.(table := table), p, Finished))
  }

  function OriginOf(entry: Entry, actor: Seen, target: Seen, now: int): Origin {
    Origin(actor.incarnation, target.incarnation, if entry.snapshot == 0 then None else Some(entry.identity), now)
  }

  /** A run; steps that are not enabled do not occur. */
  function Run(config: Config, s: State, actions: seq<Action>): Option<State>
    decreases |actions|
  {
    if actions == [] then Some(s)
    else
      match Apply(config, s, actions[0])
      case None => None
      case Some(next) => Run(config, next, actions[1..])
  }

  /** A process that has just started: an empty table, over whatever documents are stored. */
  predicate Initial(s: State) {
    && s.table == Table(map[], 0) && s.fence.Free? && s.origins == map[] && s.calls == map[] && s.deleted == {}
    && forall k | k in s.documents :: s.documents[k].serial < s.serials
  }

  // ----- what every step keeps -----

  predicate Alive(documents: map<Key, Stored>, x: Incarnation) {
    x.key in documents && documents[x.key].serial == x.serial
  }

  /** The held fence has tried to delete this document and has not yet dropped its grants. */
  predicate Doomed(fence: Fence, key: Key) {
    fence.Held? && fence.commitAttempted && key in KeysOf(fence.deletes)
  }

  predicate Current(s: State, x: Incarnation) {
    Alive(s.documents, x) || Doomed(s.fence, x.key)
  }

  /** What was read is what was expected, unless the fence is about to drop the expectation. */
  predicate Same(s: State, seen: Incarnation, expected: Incarnation) {
    seen == expected || Doomed(s.fence, expected.key)
  }

  predicate Backed(config: Config, g: Grant, o: Origin) {
    && KnownRequest(config, RequestOf(g))
    && o.actor.key == ActorKey(g) && o.target.key == TargetKey(config, RequestOf(g))
    && g.expiresAt == o.mintedAt + TOKEN_DURATION
    && (o.identity.Some? ==> o.identity.value == o.actor)
  }

  predicate EntryOk(config: Config, s: State, e: Entry) {
    && KnownRequest(config, e.request) && e.identity.key.Document?
    && e.snapshot <= s.table.epoch + 1
    && (e.snapshot == s.table.epoch + 1 ==> Current(s, e.identity))
  }

  predicate MintOk(config: Config, s: State, e: Entry, start: nat) {
    && EntryOk(config, s, e) && start <= s.table.epoch + 1 && (e.snapshot != 0 ==> e.snapshot == start)
  }

  predicate ActorOk(s: State, e: Entry, start: nat, actor: Seen) {
    && actor.incarnation.key == e.identity.key
    && (start == s.table.epoch + 1 ==> Current(s, actor.incarnation))
    && (start == s.table.epoch + 1 && e.snapshot != 0 ==> Same(s, actor.incarnation, e.identity))
  }

  predicate TargetOk(config: Config, s: State, e: Entry, start: nat, target: Seen)
    requires KnownRequest(config, e.request)
  {
    && target.incarnation.key == TargetKey(config, e.request)
    && (start == s.table.epoch + 1 ==> Current(s, target.incarnation))
  }

  predicate AskOk(config: Config, s: State, ask: Ask) {
    && ask.digest in s.origins && Backed(config, ask.grant, s.origins[ask.digest])
    && RequestOf(ask.grant) == ask.request
  }

  /** While the grant is stored, a reader has seen the incarnation the grant was minted for. */
  predicate SeenOk(s: State, digest: string, seen: Seen, expected: Incarnation) {
    && seen.incarnation.key == expected.key
    && (digest in s.table.grants ==> Same(s, seen.incarnation, expected))
  }

  predicate CallOk(config: Config, s: State, c: Call) {
    match c
    case Snapshotted(n) => 1 <= n <= s.table.epoch + 1
    case Authenticated(e) => EntryOk(config, s, e)
    case Started(e, start) => MintOk(config, s, e, start)
    case ActorRead(e, start, actor) => MintOk(config, s, e, start) && ActorOk(s, e, start, actor)
    case TargetRead(e, start, actor, target) =>
      MintOk(config, s, e, start) && ActorOk(s, e, start, actor) && TargetOk(config, s, e, start, target)
    case Stamped(e, start, actor, target, now) =>
      MintOk(config, s, e, start) && ActorOk(s, e, start, actor) && TargetOk(config, s, e, start, target)
    case Resolved(ask) => AskOk(config, s, ask)
    case Checked(ask, actor) =>
      AskOk(config, s, ask) && SeenOk(s, ask.digest, actor, s.origins[ask.digest].actor)
    case Found(ask, actor, document) =>
      && AskOk(config, s, ask) && SeenOk(s, ask.digest, actor, s.origins[ask.digest].actor)
      && SeenOk(s, ask.digest, document, s.origins[ask.digest].target)
    case Rechecked(ask, actor, document, again) =>
      && AskOk(config, s, ask) && SeenOk(s, ask.digest, actor, s.origins[ask.digest].actor)
      && SeenOk(s, ask.digest, document, s.origins[ask.digest].target)
      && SeenOk(s, ask.digest, again, s.origins[ask.digest].actor)
    case Served(ask, actor, document, again, at) =>
      AskOk(config, s, ask) && Authorised(s.origins[ask.digest], actor, document, again, at)
    case Retracting(_) => true
    case Revoking(_, revoker) => true
    case Finished => true
  }

  /** A served read showed the actor and the document the grant was minted for, within its five minutes. */
  predicate Authorised(o: Origin, actor: Seen, document: Seen, again: Seen, at: int) {
    && actor.incarnation == o.actor && again.incarnation == o.actor && document.incarnation == o.target
    && at < o.mintedAt + 300
  }

  predicate GrantOk(config: Config, s: State, digest: string)
    requires digest in s.table.grants
  {
    && digest in s.origins && Backed(config, s.table.grants[digest], s.origins[digest])
    && Current(s, s.origins[digest].actor) && Current(s, s.origins[digest].target)
  }

  predicate DocumentsOk(documents: map<Key, Stored>, deleted: set<Incarnation>, serials: nat) {
    && (forall k | k in documents ::
          documents[k].serial < serials && Incarnation(k, documents[k].serial) !in deleted)
    && forall x | x in deleted :: x.serial < serials
  }

  ghost predicate Inv(config: Config, s: State) {
    && OneToOne(config)
    && DocumentsOk(s.documents, s.deleted, s.serials)
    && (forall d | d in s.table.grants :: GrantOk(config, s, d))
    && (forall p | p in s.calls :: CallOk(config, s, s.calls[p]))
    && Bounded(s.table.grants)
    && (s.fence.Held? ==> KnownDeletes(config, s.fence.deletes))
  }
}
