/**
 * Logins, rotations, API-key creation, password changes and resets, interleaved:
 * each step is one atomic store operation, or one read of the store, of one call.
 * Work that touches nothing shared (hooks, access rules, hashing) has no step of its
 * own; where it can stop a call, the next step carries a flag.
 */
module CredentialProtocol {
  import opened Wrappers
  import opened CredentialStore

  datatype Settings = Settings(
    maxLoginAttempts: nat, lockDuration: nat, verifyEmail: bool, cost: nat, sessionDuration: nat)

  /** The settings of each auth collection. */
  type Config = string -> Settings

  /**
   * What a stored hash was made from. Salts make every generated hash new, so a hash
   * stands for one password; an upgrade starts no new generation, a replacement does.
   */
  datatype Made = Made(password: string, cost: nat, generation: nat)

  /** The password that opened a session, and the stored hash it was checked against. */
  datatype Origin = Origin(password: string, observed: nat)

  datatype Birth = Birth(user: User, createdAt: int, expiresAt: int)

  datatype Call =
    | LoginFound(user: User, password: string, now: int, credential: Credential)
    | LoginRefused(user: User, now: int)
    | LoginMatched(user: User, password: string, now: int, observed: nat)
    | LoginReady(user: User, password: string, now: int, observed: nat, expected: nat)
    | LoggedIn(token: string)
    | RotateFound(token: string, user: User, now: int)
    | Rotated(token: string)
    | ChangeFound(user: User)
    | ChangeReady(user: User, expected: nat, next: string)
    | KeyFound(token: string, user: User, now: int)
    | KeyMade(id: string)
    | Finished

  /** `hashes` says what a hash verifies; the origins, births and spent tokens are history only. */
  datatype State = State(
    store: Store, clock: int, hashes: map<nat, Made>, generations: nat,
    origins: map<string, Origin>, keyOrigins: map<string, Origin>, births: map<string, Birth>,
    issued: set<string>, spent: set<string>, calls: map<nat, Call>)

  datatype Action =
    | Tick(now: int)
    | CreateUser(user: User, password: string, hash: nat)
    | VerifyEmail(collectionID: string, token: string)
    | TrashUser(user: User)
    | RestoreUser(user: User)
    | DeleteUser(user: User)
    | LoginFind(p: nat, user: User, password: string)
    | LoginCompare(p: nat)
    | LoginRecordFailure(p: nat)
    | LoginAdmit(p: nat, permitted: bool)
    | LoginUpgrade(p: nat, hash: nat)
    | LoginCreate(p: nat, token: string, id: string)
    | LoginAfter(p: nat, hooksPass: bool)
    | RotateFind(p: nat, token: string)
    | RotateStore(p: nat, permitted: bool, rotated: string)
    | RotateAfter(p: nat, hooksPass: bool)
    | ChangeFind(p: nat, token: string)
    | ChangeCompare(p: nat, found: User, current: string, next: string, permitted: bool)
    | ChangeStore(p: nat, hash: nat)
    | KeyFind(p: nat, token: string)
    | KeyStore(p: nat, permitted: bool, id: string, tokenHash: string, expiresAt: Option<int>)
    | KeyAfter(p: nat, hooksPass: bool)
    | IssueToken(token: string, issued: AuthToken)
    | UseReset(collectionID: string, token: string, password: string, hash: nat)
    | DropSessions(tokens: set<string>)
    | DropKeys(ids: set<string>)

  function With(s: State, p: nat, c: Call): State {
    s.(calls := s.calls[p := c])
  }

  predicate Matches(s: State, hash: nat, password: string) {
    hash in s.hashes && s.hashes[hash].password == password
  }

  /** Installing a hash the user chose: a new generation. */
  function NewGeneration(s: State, store: Store, hash: nat, password: string, cost: nat): State {
    s.(store := store, hashes := s.hashes[hash := Made(password, cost, s.generations)],
       generations := s.generations + 1)
  }

  function ApplyLogin(config: Config, s: State, a: Action): Option<State>
    requires a.LoginFind? || a.LoginCompare? || a.LoginRecordFailure? || a.LoginAdmit? || a.LoginUpgrade?
             || a.LoginCreate? || a.LoginAfter?
  {
    match a
    case LoginFind(p, user, password) =>
      if p in s.calls then None
      else if user !in s.store.credentials || user !in s.store.active then Some(With(s, p, Finished))
      else Some(With(s, p, LoginFound(user, password, s.clock, s.store.credentials[user])))
    case LoginCompare(p) =>
      if p !in s.calls || !s.calls[p].LoginFound? then None
      else
        var c := s.calls[p];
        var settings := config(c.user.collectionID);
        Some(With(s, p,
                  if !Matches(s, c.credential.hash, c.password) then
                    if settings.maxLoginAttempts > 0 then LoginRefused(c.user, c.now) else Finished
                  else if Locked(c.credential, c.now) || (settings.verifyEmail && !c.credential.verified) then Finished
                  else LoginMatched(c.user, c.password, c.now, c.credential.hash)))
    case LoginRecordFailure(p) =>
      if p !in s.calls || !s.calls[p].LoginRefused? then None
      else
        var c := s.calls[p];
        var settings := config(c.user.collectionID);
        var store := FailureRecorded(s.store, c.user, c.now, settings.maxLoginAttempts, settings.lockDuration);
        Some(With(s.(store := store), p, Finished))
    case LoginAdmit(p, permitted) =>
      if p !in s.calls || !s.calls[p].LoginMatched? then None
      else
        var c := s.calls[p];
        var ready := LoginReady(c.user, c.password, c.now, c.observed, c.observed);
        if !permitted then Some(With(s, p, Finished))
        else if config(c.user.collectionID).maxLoginAttempts == 0 then Some(With(s, p, ready))
        else
          var (store, accepted) := AttemptsReset(s.store, c.user, c.now);
          Some(With(s.(store := store), p, if accepted then ready else Finished))
    case LoginUpgrade(p, hash) =>
      if p !in s.calls || !s.calls[p].LoginReady? || s.calls[p].expected !in s.hashes || hash in s.hashes then None
      else
        var c := s.calls[p];
        var settings := config(c.user.collectionID);
        var made := s.hashes[c.expected];
        if made.cost >= settings.cost then None
        else
          var (store, error) := Swapped(s.store, c.user, c.expected, hash, false);
          Some(if error.Some? then With(s, p, Finished)
               else With(s.(store := store,
                            hashes := s.hashes[hash := Made(c.password, settings.cost, made.generation)]),
                         p, LoginReady(c.user, c.password, c.now, c.observed, hash)))
    case LoginCreate(p, token, id) =>
      if p !in s.calls || !s.calls[p].LoginReady? || s.calls[p].expected !in s.hashes
         || token in s.origins || id in s.births then None
      else
        var c := s.calls[p];
        var settings := config(c.user.collectionID);
        if s.hashes[c.expected].cost < settings.cost then None
        else
          var session := Session(id, c.user, c.now, c.now + settings.sessionDuration, c.now);
          var (store, error) := SessionCreated(s.store, token, session, c.expected);
          Some(if error.Some? then With(s, p, Finished)
               else With(s.(store := store, origins := s.origins[token := Origin(c.password, c.observed)],
                            births := s.births[id := Birth(c.user, session.createdAt, session.expiresAt)]),
                         p, LoggedIn(token)))
    case LoginAfter(p, hooksPass) =>
      if p !in s.calls || !s.calls[p].LoggedIn? then None
      else Some(With(if hooksPass then s else WithoutSession(s, s.calls[p].token), p, Finished))
  }

  function WithoutSession(s: State, token: string): State {
    s.(store := s.store.(sessions := s.store.sessions - {token}))
  }

  function ApplySession(config: Config, s: State, a: Action): Option<State>
    requires a.RotateFind? || a.RotateStore? || a.RotateAfter? || a.KeyFind? || a.KeyStore? || a.KeyAfter?
  {
    match a
    case RotateFind(p, token) =>
      if p in s.calls then None
      else if !LiveSession(s.store, token, s.clock) then Some(With(s, p, Finished))
      else Some(With(s, p, RotateFound(token, s.store.sessions[token].user, s.clock)))
    case RotateStore(p, permitted, rotated) =>
      if p !in s.calls || !s.calls[p].RotateFound? || rotated in s.origins then None
      else
        var c := s.calls[p];
        var (store, error) := SessionRotated(s.store, c.token, c.user, rotated, c.now);
        if !permitted || error.Some? || c.token !in s.origins then Some(With(s, p, Finished))
        else Some(With(s.(store := store, origins := s.origins[rotated := s.origins[c.token]]), p, Rotated(rotated)))
    case RotateAfter(p, hooksPass) =>
      if p !in s.calls || !s.calls[p].Rotated? then None
      else Some(With(if hooksPass then s else WithoutSession(s, s.calls[p].token), p, Finished))
    case KeyFind(p, token) =>
      if p in s.calls then None
      else if !LiveSession(s.store, token, s.clock) then Some(With(s, p, Finished))
      else Some(With(s, p, KeyFound(token, s.store.sessions[token].user, s.clock)))
    case KeyStore(p, permitted, id, tokenHash, expiresAt) =>
      if p !in s.calls || !s.calls[p].KeyFound? || id in s.keyOrigins then None
      else
        var c := s.calls[p];
        var expired := expiresAt.Some? && expiresAt.value <= c.now;
        var (store, error) := KeyCreated(s.store, id, ApiKey(c.user, tokenHash, expiresAt), c.token, c.now);
        if !permitted || expired || error.Some? || c.token !in s.origins then Some(With(s, p, Finished))
        else Some(With(s.(store := store, keyOrigins := s.keyOrigins[id := s.origins[c.token]]), p, KeyMade(id)))
    case KeyAfter(p, hooksPass) =>
      if p !in s.calls || !s.calls[p].KeyMade? then None
      else
        var after := if hooksPass then s
                     else s.(store := s.store.(apiKeys := s.store.apiKeys - {s.calls[p].id}));
        Some(With(after, p, Finished))
  }

  function ApplyPassword(config: Config, s: State, a: Action): Option<State>
    requires a.ChangeFind? || a.ChangeCompare? || a.ChangeStore? || a.IssueToken? || a.UseReset?
  {
    match a
    case ChangeFind(p, token) =>
      if p in s.calls then None
      else if !LiveSession(s.store, token, s.clock) then Some(With(s, p, Finished))
      else Some(With(s, p, ChangeFound(s.store.sessions[token].user)))
    case ChangeCompare(p, found, current, next, permitted) =>
      if p !in s.calls || !s.calls[p].ChangeFound? then None
      else if found !in s.store.credentials || found !in s.store.active || !permitted
              || !Matches(s, s.store.credentials[found].hash, current) then Some(With(s, p, Finished))
      else Some(With(s, p, ChangeReady(s.calls[p].user, s.store.credentials[found].hash, next)))
    case ChangeStore(p, hash) =>
      if p !in s.calls || !s.calls[p].ChangeReady? || hash in s.hashes then None
      else
        var c := s.calls[p];
        var (store, error) := Swapped(s.store, c.user, c.expected, hash, true);
        Some(With(if error.Some? then s
                  else NewGeneration(s, store, hash, c.next, config(c.user.collectionID).cost), p, Finished))
    case IssueToken(token, issued) =>
      if token in s.issued then None
      else Some(s.(store := TokenIssued(s.store, token, issued).0, issued := s.issued + {token}))
    case UseReset(collectionID, token, password, hash) =>
      if hash in s.hashes then None
      else
        var (store, error) := PasswordReset(s.store, collectionID, token, hash, s.clock);
        Some(if error.Some? then s
             else NewGeneration(s, store, hash, password, config(collectionID).cost).(spent := s.spent + {token}))
  }

  function ApplyOther(config: Config, s: State, a: Action): Option<State>
    requires a.Tick? || a.CreateUser? || a.VerifyEmail? || a.TrashUser? || a.RestoreUser? || a.DeleteUser?
             || a.DropSessions? || a.DropKeys?
  {
    match a
    case Tick(now) => if s.clock <= now then Some(s.(clock := now)) else None
    case CreateUser(user, password, hash) =>
      if user in s.store.credentials || hash in s.hashes then None
      else
        var settings := config(user.collectionID);
        var store := s.store.(active := s.store.active + {user},
                              credentials := s.store.credentials[
                                user := Credential(hash, 0, None, !settings.verifyEmail)]);
        Some(NewGeneration(s, store, hash, password, settings.cost))
    case VerifyEmail(collectionID, token) =>
      var (store, error) := EmailVerified(s.store, collectionID, token, s.clock);
      Some(if error.Some? then s else s.(store := store, spent := s.spent + {token}))
    case TrashUser(user) => Some(s.(store := s.store.(active := s.store.active - {user})))
    case RestoreUser(user) => Some(s.(store := s.store.(active := s.store.active + {user})))
    case DeleteUser(user) => Some(s.(store := UserDeleted(s.store, user)))
    case DropSessions(tokens) => Some(s.(store := s.store.(sessions := s.store.sessions - tokens)))
    case DropKeys(ids) => Some(s.(store := s.store.(apiKeys := s.store.apiKeys - ids)))
  }

  function Apply(config: Config, s: State, a: Action): Option<State> {
    if a.LoginFind? || a.LoginCompare? || a.LoginRecordFailure? || a.LoginAdmit? || a.LoginUpgrade?
       || a.LoginCreate? || a.LoginAfter? then ApplyLogin(config, s, a)
    else if a.RotateFind? || a.RotateStore? || a.RotateAfter? || a.KeyFind? || a.KeyStore? || a.KeyAfter? then
      ApplySession(config, s, a)
    else if a.ChangeFind? || a.ChangeCompare? || a.ChangeStore? || a.IssueToken? || a.UseReset? then
      ApplyPassword(config, s, a)
    else ApplyOther(config, s, a)
  }

  /** A run; steps that are not enabled do not occur. */
  function Run(config: Config, s: State, actions: seq<Action>): Option<State>
    decreases |actions|
  {
    if actions == [] then Some(s)
    else
      match Apply(config, s, actions[0])
      case None => None
      case Some(next) => Run(config, next, actions[1..])
  }

  predicate Initial(s: State) {
    && s.store == Store({}, map[], map[], map[], map[])
    && s.hashes == map[] && s.generations == 0 && s.origins == map[] && s.keyOrigins == map[] && s.births == map[]
    && s.issued == {} && s.spent == {} && s.calls == map[]
  }

  // ----- what every step keeps -----

  /** The credential that opened a session or key is still of the user's current password and generation. */
  predicate Fits(hashes: map<nat, Made>, o: Origin, current: nat) {
    && o.observed in hashes && current in hashes
    && hashes[o.observed].generation == hashes[current].generation
    && hashes[current].password == o.password
  }

  predicate HashesOk(credentials: map<User, Credential>, hashes: map<nat, Made>, generations: nat) {
    && (forall u | u in credentials :: credentials[u].hash in hashes)
    && (forall h | h in hashes :: hashes[h].generation < generations)
  }

  predicate SessionsOk(sessions: map<string, Session>, credentials: map<User, Credential>, hashes: map<nat, Made>,
                       origins: map<string, Origin>) {
    forall t | t in sessions ::
      t in origins && sessions[t].user in credentials && Fits(hashes, origins[t], credentials[sessions[t].user].hash)
  }

  /** Each live session still has the expiry it was born with, and no other live token shares its identifier. */
  predicate BirthsOk(config: Config, sessions: map<string, Session>, births: map<string, Birth>) {
    && (forall t | t in sessions ::
          var session := sessions[t];
          && session.id in births && births[session.id] == Birth(session.user, session.createdAt, session.expiresAt)
          && session.expiresAt == session.createdAt + config(session.user.collectionID).sessionDuration)
    && forall t, u | t in sessions && u in sessions && sessions[t].id == sessions[u].id :: t == u
  }

  predicate KeysOk(keys: map<string, ApiKey>, credentials: map<User, Credential>, hashes: map<nat, Made>,
                   keyOrigins: map<string, Origin>) {
    forall k | k in keys ::
      k in keyOrigins && keys[k].user in credentials && Fits(hashes, keyOrigins[k], credentials[keys[k].user].hash)
  }

  predicate TokensOk(tokens: map<string, AuthToken>, issued: set<string>, spent: set<string>) {
    && spent <= issued && (forall t | t in tokens :: t in issued && t !in spent)
  }

  predicate CallOk(hashes: map<nat, Made>, c: Call) {
    match c
    case LoginFound(_, _, _, credential) => credential.hash in hashes
    case LoginMatched(_, password, _, observed) => observed in hashes && hashes[observed].password == password
    case LoginReady(_, password, _, observed, expected) => Fits(hashes, Origin(password, observed), expected)
    case _ => true
  }

  predicate CallsOk(hashes: map<nat, Made>, calls: map<nat, Call>) {
    forall p | p in calls :: CallOk(hashes, calls[p])
  }

  ghost predicate Inv(config: Config, s: State) {
    && HashesOk(s.store.credentials, s.hashes, s.generations)
    && SessionsOk(s.store.sessions, s.store.credentials, s.hashes, s.origins)
    && BirthsOk(config, s.store.sessions, s.births)
    && KeysOk(s.store.apiKeys, s.store.credentials, s.hashes, s.keyOrigins)
    && TokensOk(s.store.tokens, s.issued, s.spent)
    && CallsOk(s.hashes, s.calls)
  }
}
