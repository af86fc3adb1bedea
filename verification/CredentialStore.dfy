/** The atomic operations the authentication flows ask of a store. */
module CredentialStore {
  import opened Wrappers

  datatype User = User(collectionID: string, id: string)

  /** Private credential state; a password hash is an opaque value, compared for equality. */
  datatype Credential = Credential(hash: nat, failures: nat, lockedUntil: Option<int>, verified: bool)

  datatype Session = Session(id: string, user: User, createdAt: int, expiresAt: int, lastSeenAt: int)

  datatype ApiKey = ApiKey(user: User, tokenHash: string, expiresAt: Option<int>)

  datatype Purpose = ForReset | ForVerification

  datatype AuthToken = AuthToken(user: User, purpose: Purpose, expiresAt: int)

  /** Sessions and single-use tokens are keyed by the digest of their secret, API keys by their public identifier. */
  datatype Store = Store(
    active: set<User>, credentials: map<User, Credential>, sessions: map<string, Session>,
    apiKeys: map<string, ApiKey>, tokens: map<string, AuthToken>)

  datatype StoreError = NotFound | Conflict

  function SessionsExcept(sessions: map<string, Session>, user: User): map<string, Session> {
    map t | t in sessions && sessions[t].user != user :: sessions[t]
  }

  function KeysExcept(keys: map<string, ApiKey>, user: User): map<string, ApiKey> {
    map k | k in keys && keys[k].user != user :: keys[k]
  }

  function TokensExcept(tokens: map<string, AuthToken>, user: User, purposes: set<Purpose>): map<string, AuthToken> {
    map t | t in tokens && (tokens[t].user != user || tokens[t].purpose !in purposes) :: tokens[t]
  }

  predicate Locked(c: Credential, now: int) {
    c.lockedUntil.Some? && c.lockedUntil.value > now
  }

  function Unlocked(c: Credential): Credential {
    c.(failures := 0, lockedUntil := None)
  }

  /** Installing a hash clears the lockout; only a replacement by the user revokes sessions and keys. */
  function Replaced(s: Store, user: User, hash: nat, revoke: bool): Store
    requires user in s.credentials
  {
    var kept := s.(credentials := s.credentials[user := Unlocked(s.credentials[user]).(hash := hash)]);
    if revoke then
      kept.(sessions := SessionsExcept(s.sessions, user), apiKeys := KeysExcept(s.apiKeys, user))
    else kept
  }

  /** Replacement and upgrade, both compare-and-swap on the exact stored hash. */
  function Swapped(s: Store, user: User, expected: nat, hash: nat, revoke: bool): (Store, Option<StoreError>) {
    if user !in s.credentials || user !in s.active then (s, Some(NotFound))
    else if s.credentials[user].hash != expected then (s, Some(Conflict))
    else (Replaced(s, user, hash, revoke), None)
  }

  /** The token is one this collection issued for this purpose, and it has not expired. */
  predicate Usable(tokens: map<string, AuthToken>, collectionID: string, token: string, purpose: Purpose, now: int) {
    token in tokens && tokens[token].user.collectionID == collectionID && tokens[token].purpose == purpose
    && tokens[token].expiresAt > now
  }

  function PasswordReset(s: Store, collectionID: string, token: string, hash: nat, now: int)
    : (Store, Option<StoreError>)
  {
    if !Usable(s.tokens, collectionID, token, ForReset, now) || s.tokens[token].user !in s.credentials then
      (s, Some(NotFound))
    else (Replaced(s, s.tokens[token].user, hash, true).(tokens := s.tokens - {token}), None)
  }

  function EmailVerified(s: Store, collectionID: string, token: string, now: int): (Store, Option<StoreError>) {
    if !Usable(s.tokens, collectionID, token, ForVerification, now) || s.tokens[token].user !in s.credentials then
      (s, Some(NotFound))
    else
      var user := s.tokens[token].user;
      (s.(tokens := s.tokens - {token},
          credentials := s.credentials[user := s.credentials[user].(verified := true)]), None)
  }

  function SessionCreated(s: Store, token: string, session: Session, expected: nat): (Store, Option<StoreError>) {
    if session.user !in s.active || session.user !in s.credentials then (s, Some(NotFound))
    else if s.credentials[session.user].hash != expected then (s, Some(Conflict))
    else (s.(sessions := s.sessions[token := session]), None)
  }

  predicate LiveSession(s: Store, token: string, now: int) {
    token in s.sessions && s.sessions[token].expiresAt > now
  }

  /** Rotation moves the stored record to the new digest and touches it; nothing else of it changes. */
  function SessionRotated(s: Store, token: string, user: User, rotated: string, now: int): (Store, Option<StoreError>) {
    if !LiveSession(s, token, now) || s.sessions[token].user != user || user !in s.active then (s, Some(NotFound))
    else
      var record := s.sessions[token].(lastSeenAt := now);
      (s.(sessions := (s.sessions - {token})[rotated := record]), None)
  }

  function KeyCreated(s: Store, id: string, key: ApiKey, session: string, now: int): (Store, Option<StoreError>) {
    if key.user !in s.active || key.user !in s.credentials
       || !LiveSession(s, session, now) || s.sessions[session].user != key.user then (s, Some(NotFound))
    else (s.(apiKeys := s.apiKeys[id := key]), None)
  }

  /** A new token replaces the user's earlier ones for the same purpose. */
  function TokenIssued(s: Store, token: string, issued: AuthToken): (Store, Option<StoreError>) {
    if issued.user !in s.active then (s, Some(NotFound))
    else (s.(tokens := TokensExcept(s.tokens, issued.user, {issued.purpose})[token := issued]), None)
  }

  function FailureRecorded(s: Store, user: User, now: int, maximum: nat, duration: nat): Store {
    if user !in s.credentials || Locked(s.credentials[user], now) then s
    else
      var c := s.credentials[user];
      var failures := (if c.lockedUntil.Some? then 0 else c.failures) + 1;
      s.(credentials := s.credentials[user :=
           c.(failures := failures, lockedUntil := if failures >= maximum then Some(now + duration) else None)])
  }

  function AttemptsReset(s: Store, user: User, now: int): (Store, bool) {
    if user !in s.credentials || Locked(s.credentials[user], now) then (s, false)
    else (s.(credentials := s.credentials[user := Unlocked(s.credentials[user])]), true)
  }

  /** Failed attempts at these times, in order. */
  function FailuresRecorded(s: Store, user: User, times: seq<int>, maximum: nat, duration: nat): Store {
    if times == [] then s
    else
      var n := |times| - 1;
      FailureRecorded(FailuresRecorded(s, user, times[..n], maximum, duration), user, times[n], maximum, duration)
  }

  /**
   * From a cleared credential, fewer failures than the maximum are only counted; the one
   * that reaches it locks the credential for the duration, and then neither further
   * failures nor a matching password change it until that time.
   */
  lemma {:induction false} LockoutAfterMaximum(s: Store, user: User, times: seq<int>, maximum: nat, duration: nat,
                                               now: int)
    requires user in s.credentials && s.credentials[user] == Unlocked(s.credentials[user])
    requires |times| <= maximum
    ensures var t := FailuresRecorded(s, user, times, maximum, duration);
            && t == s.(credentials := t.credentials) && t.credentials.Keys == s.credentials.Keys
            && t.credentials[user].hash == s.credentials[user].hash && t.credentials[user].failures == |times|
            && t.credentials[user].lockedUntil
               == (if times != [] && |times| == maximum then Some(times[maximum - 1] + duration) else None)
            && (times != [] && |times| == maximum && now < times[maximum - 1] + duration ==>
                  FailureRecorded(t, user, now, maximum, duration) == t && AttemptsReset(t, user, now) == (t, false))
  {
    if times != [] {
      LockoutAfterMaximum(s, user, times[..|times| - 1], maximum, duration, now);
    }
  }

  /** A hard delete takes the credential and everything that hangs on it. */
  function UserDeleted(s: Store, user: User): Store {
    Store(s.active - {user}, s.credentials - {user}, SessionsExcept(s.sessions, user),
          KeysExcept(s.apiKeys, user), TokensExcept(s.tokens, user, {ForReset, ForVerification}))
  }

  /** The in-memory adapter: every method runs under the store's mutex. */
  class MemoryStore {
    var active: set<User>
    var credentials: map<User, Credential>
    var sessions: map<string, Session>
    var apiKeys: map<string, ApiKey>
    var tokens: map<string, AuthToken>

    ghost function State(): Store
      reads this
    {
      Store(active, credentials, sessions, apiKeys, tokens)
    }

    constructor ()
      ensures State() == Store({}, map[], map[], map[], map[])
    {
      active, credentials, sessions, apiKeys, tokens := {}, map[], map[], map[], map[];
    }

    method FindCredential(user: User) returns (found: Option<Credential>)
      ensures found == if user in credentials && user in active then Some(credentials[user]) else None
    {
      found := if user in credentials && user in active then Some(credentials[user]) else None;
    }

    method FindSession(token: string, now: int) returns (found: Option<Session>)
      ensures found == if LiveSession(State(), token, now) then Some(sessions[token]) else None
    {
      found := if token in sessions && sessions[token].expiresAt > now then Some(sessions[token]) else None;
    }

    method CreateCredential(user: User, credential: Credential)
      modifies this`active, this`credentials
      ensures active == old(active) + {user} && credentials == old(credentials)[user := credential]
    {
      active, credentials := active + {user}, credentials[user := credential];
    }

    method SetActive(user: User, present: bool)
      modifies this`active
      ensures active == if present then old(active) + {user} else old(active) - {user}
    {
      active := if present then active + {user} else active - {user};
    }

    method DeleteSessions(dropped: set<string>)
      modifies this`sessions
      ensures sessions == old(sessions) - dropped
    {
      sessions := sessions - dropped;
    }

    method DeleteKeys(dropped: set<string>)
      modifies this`apiKeys
      ensures apiKeys == old(apiKeys) - dropped
    {
      apiKeys := apiKeys - dropped;
    }

    method RevokeSessions(user: User)
      modifies this`sessions
      ensures sessions == SessionsExcept(old(sessions), user)
    {
      var remaining := sessions.Keys;
      while remaining != {}
        invariant remaining <= old(sessions).Keys
        invariant sessions == map t | t in old(sessions) && (t in remaining || old(sessions)[t].user != user)
                                :: old(sessions)[t]
        decreases |remaining|
      {
        var token :| token in remaining;
        if sessions[token].user == user { sessions := sessions - {token}; }
        remaining := remaining - {token};
      }
    }

    method RevokeKeys(user: User)
      modifies this`apiKeys
      ensures apiKeys == KeysExcept(old(apiKeys), user)
    {
      var remaining := apiKeys.Keys;
      while remaining != {}
        invariant remaining <= old(apiKeys).Keys
        invariant apiKeys == map k | k in old(apiKeys) && (k in remaining || old(apiKeys)[k].user != user)
                               :: old(apiKeys)[k]
        decreases |remaining|
      {
        var id :| id in remaining;
        if apiKeys[id].user == user { apiKeys := apiKeys - {id}; }
        remaining := remaining - {id};
      }
    }

    method RevokeTokens(user: User, purposes: set<Purpose>)
      modifies this`tokens
      ensures tokens == TokensExcept(old(tokens), user, purposes)
    {
      var remaining := tokens.Keys;
      while remaining != {}
        invariant remaining <= old(tokens).Keys
        invariant tokens == map t | t in old(tokens)
                              && (t in remaining || old(tokens)[t].user != user || old(tokens)[t].purpose !in purposes)
                              :: old(tokens)[t]
        decreases |remaining|
      {
        var token :| token in remaining;
        if tokens[token].user == user && tokens[token].purpose in purposes { tokens := tokens - {token}; }
        remaining := remaining - {token};
      }
    }

    method ReplacePasswordHash(user: User, hash: nat, revoke: bool)
      requires user in credentials
      modifies this
      ensures State() == Replaced(old(State()), user, hash, revoke)
    {
      credentials := credentials[user := Unlocked(credentials[user]).(hash := hash)];
      if revoke {
        RevokeSessions(user);
        RevokeKeys(user);
      }
    }

    method ChangePasswordHash(user: User, expected: nat, hash: nat) returns (error: Option<StoreError>)
      modifies this
      ensures (State(), error) == Swapped(old(State()), user, expected, hash, true)
    {
      if user !in credentials || user !in active { return Some(NotFound); }
      if credentials[user].hash != expected { return Some(Conflict); }
      ReplacePasswordHash(user, hash, true);
      error := None;
    }

    method UpgradePasswordHash(user: User, expected: nat, hash: nat) returns (error: Option<StoreError>)
      modifies this
      ensures (State(), error) == Swapped(old(State()), user, expected, hash, false)
    {
      if user !in credentials || user !in active { return Some(NotFound); }
      if credentials[user].hash != expected { return Some(Conflict); }
      ReplacePasswordHash(user, hash, false);
      error := None;
    }

    method ResetPasswordWithToken(collectionID: string, token: string, hash: nat, now: int)
      returns (error: Option<StoreError>)
      modifies this
      ensures (State(), error) == PasswordReset(old(State()), collectionID, token, hash, now)
    {
      if token !in tokens { return Some(NotFound); }
      var record := tokens[token];
      if record.user.collectionID != collectionID || record.purpose != ForReset || record.expiresAt <= now {
        return Some(NotFound);
      }
      if record.user !in credentials { return Some(NotFound); }
      tokens := tokens - {token};
      ReplacePasswordHash(record.user, hash, true);
      error := None;
    }

    method VerifyEmailWithToken(collectionID: string, token: string, now: int) returns (error: Option<StoreError>)
      modifies this
      ensures (State(), error) == EmailVerified(old(State()), collectionID, token, now)
    {
      if token !in tokens { return Some(NotFound); }
      var record := tokens[token];
      if record.user.collectionID != collectionID || record.purpose != ForVerification || record.expiresAt <= now {
        return Some(NotFound);
      }
      if record.user !in credentials { return Some(NotFound); }
      tokens := tokens - {token};
      credentials := credentials[record.user := credentials[record.user].(verified := true)];
      error := None;
    }

    method CreateSession(token: string, session: Session, expected: nat) returns (error: Option<StoreError>)
      modifies this`sessions
      ensures (State(), error) == SessionCreated(old(State()), token, session, expected)
    {
      if session.user !in active || session.user !in credentials { return Some(NotFound); }
      if credentials[session.user].hash != expected { return Some(Conflict); }
      sessions := sessions[token := session];
      error := None;
    }

    method RotateSession(token: string, user: User, rotated: string, now: int) returns (error: Option<StoreError>)
      modifies this`sessions
      ensures (State(), error) == SessionRotated(old(State()), token, user, rotated, now)
    {
      if token !in sessions || sessions[token].expiresAt <= now { return Some(NotFound); }
      if sessions[token].user != user || user !in active { return Some(NotFound); }
      var record := sessions[token].(lastSeenAt := now);
      sessions := sessions - {token};
      sessions := sessions[rotated := record];
      error := None;
    }

    method CreateAPIKey(id: string, key: ApiKey, session: string, now: int) returns (error: Option<StoreError>)
      modifies this`apiKeys
      ensures (State(), error) == KeyCreated(old(State()), id, key, session, now)
    {
      if key.user !in active || key.user !in credentials { return Some(NotFound); }
      if session !in sessions || sessions[session].user != key.user || sessions[session].expiresAt <= now {
        return Some(NotFound);
      }
      apiKeys := apiKeys[id := key];
      error := None;
    }

    method CreateAuthToken(token: string, issued: AuthToken) returns (error: Option<StoreError>)
      modifies this`tokens
      ensures (State(), error) == TokenIssued(old(State()), token, issued)
    {
      if issued.user !in active { return Some(NotFound); }
      RevokeTokens(issued.user, {issued.purpose});
      tokens := tokens[token := issued];
      error := None;
    }

    method RecordFailedLogin(user: User, now: int, maximum: nat, duration: nat)
      returns (recorded: Result<Credential, StoreError>)
      modifies this`credentials
      ensures State() == FailureRecorded(old(State()), user, now, maximum, duration)
      ensures recorded == if user in credentials then Ok(credentials[user]) else Err(NotFound)
    {
      if user !in credentials { return Err(NotFound); }
      var credential := credentials[user];
      if Locked(credential, now) { return Ok(credential); }
      if credential.lockedUntil.Some? { credential := credential.(failures := 0, lockedUntil := None); }
      credential := credential.(failures := credential.failures + 1);
      if credential.failures >= maximum { credential := credential.(lockedUntil := Some(now + duration)); }
      credentials := credentials[user := credential];
      return Ok(credential);
    }

    method ResetLoginAttempts(user: User, now: int) returns (accepted: Result<bool, StoreError>)
      modifies this`credentials
      ensures State() == AttemptsReset(old(State()), user, now).0
      ensures accepted == if user in credentials then Ok(AttemptsReset(old(State()), user, now).1) else Err(NotFound)
    {
      if user !in credentials { return Err(NotFound); }
      if Locked(credentials[user], now) { return Ok(false); }
      credentials := credentials[user := Unlocked(credentials[user])];
      accepted := Ok(true);
    }

    method DeleteUser(user: User)
      modifies this
      ensures State() == UserDeleted(old(State()), user)
    {
      active, credentials := active - {user}, credentials - {user};
      RevokeSessions(user);
      RevokeTokens(user, {ForReset, ForVerification});
      RevokeKeys(user);
    }
  }
}
