/** What every interleaving of the authentication flows keeps. */
module CredentialSafety {
  import opened CredentialStore
  import opened CredentialProtocol

  lemma CallsGrow(hashes: map<nat, Made>, more: map<nat, Made>, calls: map<nat, Call>, p: nat, c: Call)
    requires CallsOk(hashes, calls) && CallOk(more, c)
    requires forall h | h in hashes :: h in more && more[h] == hashes[h]
    ensures CallsOk(more, calls[p := c])
  {
    forall q | q in calls ensures CallOk(more, calls[q]) { assert CallOk(hashes, calls[q]); }
  }

  lemma CallAt(hashes: map<nat, Made>, calls: map<nat, Call>, p: nat)
    requires CallsOk(hashes, calls)
    ensures p in calls ==> CallOk(hashes, calls[p])
  {
  }

  /** Dropping sessions or keys keeps what holds of the rest. */
  lemma FewerSessions(config: Config, fewer: map<string, Session>, sessions: map<string, Session>,
                      credentials: map<User, Credential>, hashes: map<nat, Made>,
                      origins: map<string, Origin>, births: map<string, Birth>)
    requires SessionsOk(sessions, credentials, hashes, origins) && BirthsOk(config, sessions, births)
    requires forall t | t in fewer :: t in sessions && fewer[t] == sessions[t]
    ensures SessionsOk(fewer, credentials, hashes, origins) && BirthsOk(config, fewer, births)
  {
    hide Fits;
  }

  /**
   * Installing a new hash: sessions and keys of other users are untouched; those of this
   * user are gone, unless the hash only raises the cost of the password already in force.
   */
  lemma Reinstalled(s: Store, user: User, hash: nat, revoke: bool, hashes: map<nat, Made>, made: Made,
                    origins: map<string, Origin>, keyOrigins: map<string, Origin>)
    requires user in s.credentials && s.credentials[user].hash in hashes && hash !in hashes
    requires SessionsOk(s.sessions, s.credentials, hashes, origins)
    requires KeysOk(s.apiKeys, s.credentials, hashes, keyOrigins)
    requires revoke || (made.generation == hashes[s.credentials[user].hash].generation
                        && made.password == hashes[s.credentials[user].hash].password)
    ensures var t := Replaced(s, user, hash, revoke);
            && SessionsOk(t.sessions, t.credentials, hashes[hash := made], origins)
            && KeysOk(t.apiKeys, t.credentials, hashes[hash := made], keyOrigins)
  {
  }

  lemma LoginReadKeeps(config: Config, s: State, a: Action)
    requires a.LoginFind? || a.LoginCompare?
    requires Inv(config, s) && ApplyLogin(config, s, a).Some?
    ensures Inv(config, ApplyLogin(config, s, a).value)
  {
    hide CallsOk, BirthsOk, TokensOk, SessionsOk, KeysOk;
    CallAt(s.hashes, s.calls, a.p);
    CallsGrow(s.hashes, s.hashes, s.calls, a.p, ApplyLogin(config, s, a).value.calls[a.p]);
  }

  /** The lockout counters are no part of what sessions and keys rest on. */
  lemma SameHashes(s: Store, user: User, c: Credential, hashes: map<nat, Made>, generations: nat,
                   origins: map<string, Origin>, keyOrigins: map<string, Origin>)
    requires user in s.credentials && c.hash == s.credentials[user].hash
    requires HashesOk(s.credentials, hashes, generations)
    requires SessionsOk(s.sessions, s.credentials, hashes, origins)
    requires KeysOk(s.apiKeys, s.credentials, hashes, keyOrigins)
    ensures HashesOk(s.credentials[user := c], hashes, generations)
    ensures SessionsOk(s.sessions, s.credentials[user := c], hashes, origins)
    ensures KeysOk(s.apiKeys, s.credentials[user := c], hashes, keyOrigins)
  {
    hide Fits;
  }

  lemma LoginRecordFailureKeeps(config: Config, s: State, p: nat)
    requires Inv(config, s) && ApplyLogin(config, s, LoginRecordFailure(p)).Some?
    ensures Inv(config, ApplyLogin(config, s, LoginRecordFailure(p)).value)
  {
    hide CallsOk, BirthsOk, TokensOk, SessionsOk, KeysOk, HashesOk;
    var t := ApplyLogin(config, s, LoginRecordFailure(p)).value;
    CallAt(s.hashes, s.calls, p);
    CallsGrow(s.hashes, s.hashes, s.calls, p, t.calls[p]);
    var user := s.calls[p].user;
    if user in s.store.credentials {
      SameHashes(s.store, user, t.store.credentials[user], s.hashes, s.generations, s.origins, s.keyOrigins);
    }
  }

  lemma LoginAdmitKeeps(config: Config, s: State, p: nat, permitted: bool)
    requires Inv(config, s) && ApplyLogin(config, s, LoginAdmit(p, permitted)).Some?
    ensures Inv(config, ApplyLogin(config, s, LoginAdmit(p, permitted)).value)
  {
    hide CallsOk, BirthsOk, TokensOk, SessionsOk, KeysOk, HashesOk;
    var t := ApplyLogin(config, s, LoginAdmit(p, permitted)).value;
    CallAt(s.hashes, s.calls, p);
    CallsGrow(s.hashes, s.hashes, s.calls, p, t.calls[p]);
    var user := s.calls[p].user;
    if user in s.store.credentials {
      SameHashes(s.store, user, t.store.credentials[user], s.hashes, s.generations, s.origins, s.keyOrigins);
    }
  }

  lemma LoginAfterKeeps(config: Config, s: State, p: nat, hooksPass: bool)
    requires Inv(config, s) && ApplyLogin(config, s, LoginAfter(p, hooksPass)).Some?
    ensures Inv(config, ApplyLogin(config, s, LoginAfter(p, hooksPass)).value)
  {
    hide CallsOk, BirthsOk, TokensOk, SessionsOk, KeysOk, HashesOk;
    var t := ApplyLogin(config, s, LoginAfter(p, hooksPass)).value;
    CallsGrow(s.hashes, s.hashes, s.calls, p, Finished);
    FewerSessions(config, t.store.sessions, s.store.sessions, s.store.credentials, s.hashes, s.origins, s.births);
  }

  lemma LoginUpgradeKeeps(config: Config, s: State, p: nat, hash: nat)
    requires Inv(config, s) && ApplyLogin(config, s, LoginUpgrade(p, hash)).Some?
    ensures Inv(config, ApplyLogin(config, s, LoginUpgrade(p, hash)).value)
  {
    hide CallsOk, BirthsOk, TokensOk, SessionsOk, KeysOk;
    var t := ApplyLogin(config, s, LoginUpgrade(p, hash)).value;
    var c := s.calls[p];
    CallAt(s.hashes, s.calls, p);
    CallsGrow(s.hashes, t.hashes, s.calls, p, t.calls[p]);
    if t.calls[p].LoginReady? {
      Reinstalled(s.store, c.user, hash, false, s.hashes, t.hashes[hash], s.origins, s.keyOrigins);
    }
  }

  lemma LoginCreateKeeps(config: Config, s: State, p: nat, token: string, id: string)
    requires Inv(config, s) && ApplyLogin(config, s, LoginCreate(p, token, id)).Some?
    ensures Inv(config, ApplyLogin(config, s, LoginCreate(p, token, id)).value)
  {
    hide CallsOk, TokensOk, KeysOk, SessionsOk, BirthsOk;
    var t := ApplyLogin(config, s, LoginCreate(p, token, id)).value;
    var c := s.calls[p];
    CallAt(s.hashes, s.calls, p);
    CallsGrow(s.hashes, s.hashes, s.calls, p, t.calls[p]);
    if t.calls[p].LoggedIn? {
      Opened(s.store.sessions, token, t.store.sessions[token], s.store.credentials,
             s.hashes, s.origins, t.origins[token]);
      Born(config, s.store.sessions, token, t.store.sessions[token], s.births);
    }
  }

  /** A session opened with the hash in force fits it. */
  lemma Opened(sessions: map<string, Session>, token: string, session: Session, credentials: map<User, Credential>,
               hashes: map<nat, Made>, origins: map<string, Origin>, o: Origin)
    requires SessionsOk(sessions, credentials, hashes, origins) && token !in origins
    requires session.user in credentials && Fits(hashes, o, credentials[session.user].hash)
    ensures SessionsOk(sessions[token := session], credentials, hashes, origins[token := o])
  {
    hide Fits;
  }

  lemma Born(config: Config, sessions: map<string, Session>, token: string, session: Session,
             births: map<string, Birth>)
    requires BirthsOk(config, sessions, births) && session.id !in births
    requires session.expiresAt == session.createdAt + config(session.user.collectionID).sessionDuration
    ensures BirthsOk(config, sessions[token := session],
                     births[session.id := Birth(session.user, session.createdAt, session.expiresAt)])
  {
  }

  lemma RotateKeeps(config: Config, s: State, p: nat, permitted: bool, rotated: string)
    requires Inv(config, s) && ApplySession(config, s, RotateStore(p, permitted, rotated)).Some?
    ensures Inv(config, ApplySession(config, s, RotateStore(p, permitted, rotated)).value)
  {
    hide CallsOk, TokensOk, KeysOk, Fits;
    var t := ApplySession(config, s, RotateStore(p, permitted, rotated)).value;
    CallsGrow(s.hashes, s.hashes, s.calls, p, t.calls[p]);
  }

  predicate KeyFits(s: State, token: string, user: User) {
    && token in s.origins && user in s.store.credentials
    && Fits(s.hashes, s.origins[token], s.store.credentials[user].hash)
  }

  lemma SessionFits(s: State, token: string)
    requires SessionsOk(s.store.sessions, s.store.credentials, s.hashes, s.origins) && token in s.store.sessions
    ensures KeyFits(s, token, s.store.sessions[token].user)
  {
  }

  lemma SessionFindKeeps(config: Config, s: State, a: Action)
    requires a.RotateFind? || a.KeyFind?
    requires Inv(config, s) && ApplySession(config, s, a).Some?
    ensures Inv(config, ApplySession(config, s, a).value)
  {
    hide CallsOk, TokensOk, BirthsOk, SessionsOk, KeysOk, HashesOk;
    CallsGrow(s.hashes, s.hashes, s.calls, a.p, ApplySession(config, s, a).value.calls[a.p]);
  }

  lemma SessionAfterKeeps(config: Config, s: State, a: Action)
    requires a.RotateAfter? || a.KeyAfter?
    requires Inv(config, s) && ApplySession(config, s, a).Some?
    ensures Inv(config, ApplySession(config, s, a).value)
  {
    hide CallsOk, TokensOk, BirthsOk, SessionsOk, HashesOk, Fits;
    var t := ApplySession(config, s, a).value;
    CallsGrow(s.hashes, s.hashes, s.calls, a.p, Finished);
    FewerSessions(config, t.store.sessions, s.store.sessions, s.store.credentials, s.hashes, s.origins, s.births);
  }

  lemma KeyStoreKeeps(config: Config, s: State, a: Action)
    requires a.KeyStore?
    requires Inv(config, s) && ApplySession(config, s, a).Some?
    ensures Inv(config, ApplySession(config, s, a).value)
  {
    hide CallsOk, TokensOk, BirthsOk, SessionsOk, HashesOk, Fits;
    var t := ApplySession(config, s, a).value;
    CallsGrow(s.hashes, s.hashes, s.calls, a.p, t.calls[a.p]);
    if t.calls[a.p].KeyMade? {
      SessionFits(s, s.calls[a.p].token);
    }
  }

  lemma ChangeReadKeeps(config: Config, s: State, a: Action)
    requires a.ChangeFind? || a.ChangeCompare?
    requires Inv(config, s) && ApplyPassword(config, s, a).Some?
    ensures Inv(config, ApplyPassword(config, s, a).value)
  {
    hide CallsOk, TokensOk, BirthsOk, SessionsOk, KeysOk;
    CallsGrow(s.hashes, s.hashes, s.calls, a.p, ApplyPassword(config, s, a).value.calls[a.p]);
  }

  /** A new generation installed by the user. */
  lemma NewGenerationKeeps(config: Config, s: State, user: User, hash: nat, password: string, cost: nat, p: nat)
    requires Inv(config, s) && user in s.store.credentials && hash !in s.hashes
    ensures var t := NewGeneration(s, Replaced(s.store, user, hash, true), hash, password, cost);
            Inv(config, t) && Inv(config, With(t, p, Finished))
  {
    hide TokensOk, SessionsOk, KeysOk, BirthsOk;
    var t := NewGeneration(s, Replaced(s.store, user, hash, true), hash, password, cost);
    FewerSessions(config, t.store.sessions, s.store.sessions, s.store.credentials, s.hashes, s.origins, s.births);
    Reinstalled(s.store, user, hash, true, s.hashes, t.hashes[hash], s.origins, s.keyOrigins);
    CallsGrow(s.hashes, t.hashes, s.calls, p, Finished);
    forall q | q in s.calls ensures CallOk(t.hashes, s.calls[q]) { assert CallOk(s.hashes, s.calls[q]); }
  }

  lemma ChangeStoreKeeps(config: Config, s: State, p: nat, hash: nat)
    requires Inv(config, s) && ApplyPassword(config, s, ChangeStore(p, hash)).Some?
    ensures Inv(config, ApplyPassword(config, s, ChangeStore(p, hash)).value)
  {
    hide SessionsOk, KeysOk, BirthsOk, TokensOk, HashesOk, Replaced;
    var c := s.calls[p];
    CallsGrow(s.hashes, s.hashes, s.calls, p, Finished);
    if c.user in s.store.credentials {
      NewGenerationKeeps(config, s, c.user, hash, c.next, config(c.user.collectionID).cost, p);
    }
  }

  lemma IssueTokenKeeps(config: Config, s: State, token: string, issued: AuthToken)
    requires Inv(config, s) && ApplyPassword(config, s, IssueToken(token, issued)).Some?
    ensures Inv(config, ApplyPassword(config, s, IssueToken(token, issued)).value)
  {
    hide SessionsOk, KeysOk, BirthsOk, HashesOk, CallsOk;
  }

  lemma UseResetKeeps(config: Config, s: State, collectionID: string, token: string, password: string, hash: nat)
    requires Inv(config, s) && ApplyPassword(config, s, UseReset(collectionID, token, password, hash)).Some?
    ensures Inv(config, ApplyPassword(config, s, UseReset(collectionID, token, password, hash)).value)
  {
    hide SessionsOk, KeysOk, BirthsOk, HashesOk, CallsOk, Replaced;
    if token in s.store.tokens && s.store.tokens[token].user in s.store.credentials {
      var user := s.store.tokens[token].user;
      ReplacedKeepsTokens(s.store, user, hash);
      NewGenerationKeeps(config, s, user, hash, password, config(collectionID).cost, 0);
    }
  }

  lemma ReplacedKeepsTokens(s: Store, user: User, hash: nat)
    ensures user in s.credentials ==> Replaced(s, user, hash, true).tokens == s.tokens
  {
  }

  lemma OtherKeeps(config: Config, s: State, a: Action)
    requires a.Tick? || a.TrashUser? || a.RestoreUser? || a.DeleteUser? || a.DropSessions? || a.DropKeys?
    requires Inv(config, s) && ApplyOther(config, s, a).Some?
    ensures Inv(config, ApplyOther(config, s, a).value)
  {
    hide Fits, BirthsOk, CallsOk;
    var t := ApplyOther(config, s, a).value;
    FewerSessions(config, t.store.sessions, s.store.sessions, s.store.credentials, s.hashes, s.origins, s.births);
  }

  lemma VerifyEmailKeeps(config: Config, s: State, collectionID: string, token: string)
    requires Inv(config, s) && ApplyOther(config, s, VerifyEmail(collectionID, token)).Some?
    ensures Inv(config, ApplyOther(config, s, VerifyEmail(collectionID, token)).value)
  {
    hide Fits, BirthsOk, CallsOk;
  }

  lemma CreateUserKeeps(config: Config, s: State, user: User, password: string, hash: nat)
    requires Inv(config, s) && ApplyOther(config, s, CreateUser(user, password, hash)).Some?
    ensures Inv(config, ApplyOther(config, s, CreateUser(user, password, hash)).value)
  {
    hide BirthsOk, TokensOk;
    var t := ApplyOther(config, s, CreateUser(user, password, hash)).value;
    forall q | q in s.calls ensures CallOk(t.hashes, s.calls[q]) { assert CallOk(s.hashes, s.calls[q]); }
  }

  lemma StepKeeps(config: Config, s: State, a: Action)
    requires Inv(config, s) && Apply(config, s, a).Some?
    ensures Inv(config, Apply(config, s, a).value)
  {
    hide Inv, ApplyLogin, ApplySession, ApplyPassword, ApplyOther;
    match a
    case LoginUpgrade(p, hash) => LoginUpgradeKeeps(config, s, p, hash);
    case LoginCreate(p, token, id) => LoginCreateKeeps(config, s, p, token, id);
    case LoginFind(_, _, _) => LoginReadKeeps(config, s, a);
    case LoginCompare(_) => LoginReadKeeps(config, s, a);
    case LoginRecordFailure(p) => LoginRecordFailureKeeps(config, s, p);
    case LoginAdmit(p, permitted) => LoginAdmitKeeps(config, s, p, permitted);
    case LoginAfter(p, hooksPass) => LoginAfterKeeps(config, s, p, hooksPass);
    case RotateStore(p, permitted, rotated) => RotateKeeps(config, s, p, permitted, rotated);
    case RotateFind(_, _) => SessionFindKeeps(config, s, a);
    case RotateAfter(_, _) => SessionAfterKeeps(config, s, a);
    case KeyFind(_, _) => SessionFindKeeps(config, s, a);
    case KeyStore(_, _, _, _, _) => KeyStoreKeeps(config, s, a);
    case KeyAfter(_, _) => SessionAfterKeeps(config, s, a);
    case ChangeFind(_, _) => ChangeReadKeeps(config, s, a);
    case ChangeCompare(_, _, _, _, _) => ChangeReadKeeps(config, s, a);
    case ChangeStore(p, hash) => ChangeStoreKeeps(config, s, p, hash);
    case IssueToken(token, issued) => IssueTokenKeeps(config, s, token, issued);
    case UseReset(collectionID, token, password, hash) => UseResetKeeps(config, s, collectionID, token, password, hash);
    case CreateUser(user, password, hash) => CreateUserKeeps(config, s, user, password, hash);
    case VerifyEmail(collectionID, token) => VerifyEmailKeeps(config, s, collectionID, token);
    case _ => OtherKeeps(config, s, a);
  }

  lemma {:induction false} RunKeeps(config: Config, s: State, actions: seq<Action>)
    requires Inv(config, s) && Run(config, s, actions).Some?
    ensures Inv(config, Run(config, s, actions).value)
    decreases |actions|
  {
    hide Inv, Apply;
    if actions != [] {
      StepKeeps(config, s, actions[0]);
      RunKeeps(config, Apply(config, s, actions[0]).value, actions[1..]);
    }
  }

  lemma InitialIsSafe(config: Config, s: State)
    requires Initial(s)
    ensures Inv(config, s)
  {
  }

  // ----- the results -----

  /**
   * A live session was opened with the password now in force, checked against a hash of
   * the current generation: no login that checked an older password leaves one behind.
   */
  lemma SessionsBelongToTheCurrentPassword(config: Config, s: State, actions: seq<Action>, token: string)
    requires Initial(s) && Run(config, s, actions).Some?
    requires token in Run(config, s, actions).value.store.sessions
    ensures var t := Run(config, s, actions).value;
            var user := t.store.sessions[token].user;
            && user in t.store.credentials && token in t.origins
            && var current := t.store.credentials[user].hash;
            && Matches(t, current, t.origins[token].password)
            && t.origins[token].observed in t.hashes
            && t.hashes[t.origins[token].observed].generation == t.hashes[current].generation
  {
    hide Run;
    InitialIsSafe(config, s);
    RunKeeps(config, s, actions);
  }

  /** An API key was created by a session opened with the password now in force. */
  lemma KeysBelongToTheCurrentPassword(config: Config, s: State, actions: seq<Action>, id: string)
    requires Initial(s) && Run(config, s, actions).Some?
    requires id in Run(config, s, actions).value.store.apiKeys
    ensures var t := Run(config, s, actions).value;
            var user := t.store.apiKeys[id].user;
            && user in t.store.credentials && id in t.keyOrigins
            && var current := t.store.credentials[user].hash;
            && Matches(t, current, t.keyOrigins[id].password)
            && t.keyOrigins[id].observed in t.hashes
            && t.hashes[t.keyOrigins[id].observed].generation == t.hashes[current].generation
  {
    hide Run;
    InitialIsSafe(config, s);
    RunKeeps(config, s, actions);
  }

  /**
   * Rotation moves a session, it never prolongs or duplicates it: every live token carries
   * the expiry its identifier was born with, and an identifier has at most one live token.
   */
  lemma RotationKeepsTheLifetime(config: Config, s: State, actions: seq<Action>, token: string, other: string)
    requires Initial(s) && Run(config, s, actions).Some?
    requires token in Run(config, s, actions).value.store.sessions
    requires other in Run(config, s, actions).value.store.sessions
    ensures var t := Run(config, s, actions).value;
            var session := t.store.sessions[token];
            && session.id in t.births
            && t.births[session.id] == Birth(session.user, session.createdAt, session.expiresAt)
            && session.expiresAt == session.createdAt + config(session.user.collectionID).sessionDuration
            && (session.id == t.store.sessions[other].id ==> token == other)
  {
    hide Run;
    InitialIsSafe(config, s);
    RunKeeps(config, s, actions);
  }

  /** A reset or verification token that was used is gone for good. */
  lemma AuthTokensWorkOnce(config: Config, s: State, actions: seq<Action>, token: string)
    requires Initial(s) && Run(config, s, actions).Some?
    requires token in Run(config, s, actions).value.spent
    ensures token !in Run(config, s, actions).value.store.tokens
  {
    hide Run;
    InitialIsSafe(config, s);
    RunKeeps(config, s, actions);
  }

  // ----- what a password change cuts off -----

  /** From here on, the user's credential, if there is one, is of generation `floor` or a later one. */
  predicate AtLeast(s: State, user: User, floor: nat) {
    && floor <= s.generations
    && (user in s.store.credentials ==>
          s.store.credentials[user].hash in s.hashes && s.hashes[s.store.credentials[user].hash].generation >= floor)
  }

  lemma UpgradeKeepsFloor(config: Config, s: State, a: Action, user: User, floor: nat)
    requires a.LoginUpgrade?
    requires AtLeast(s, user, floor) && ApplyLogin(config, s, a).Some?
    ensures AtLeast(ApplyLogin(config, s, a).value, user, floor)
  {
  }

  lemma LoginKeepsFloor(config: Config, s: State, a: Action, user: User, floor: nat)
    requires a.LoginFind? || a.LoginCompare? || a.LoginRecordFailure? || a.LoginAdmit?
             || a.LoginCreate? || a.LoginAfter?
    requires AtLeast(s, user, floor) && ApplyLogin(config, s, a).Some?
    ensures AtLeast(ApplyLogin(config, s, a).value, user, floor)
  {
    hide Matches, Locked;
  }

  lemma SessionKeepsFloor(config: Config, s: State, a: Action, user: User, floor: nat)
    requires a.RotateFind? || a.RotateStore? || a.RotateAfter? || a.KeyFind? || a.KeyStore? || a.KeyAfter?
    requires AtLeast(s, user, floor) && ApplySession(config, s, a).Some?
    ensures AtLeast(ApplySession(config, s, a).value, user, floor)
  {
  }

  lemma PasswordKeepsFloor(config: Config, s: State, a: Action, user: User, floor: nat)
    requires a.ChangeFind? || a.ChangeCompare? || a.ChangeStore? || a.IssueToken? || a.UseReset?
    requires AtLeast(s, user, floor) && ApplyPassword(config, s, a).Some?
    ensures AtLeast(ApplyPassword(config, s, a).value, user, floor)
  {
    hide Matches, SessionsExcept, KeysExcept, TokensExcept;
  }

  lemma OtherKeepsFloor(config: Config, s: State, a: Action, user: User, floor: nat)
    requires a.Tick? || a.CreateUser? || a.VerifyEmail? || a.TrashUser? || a.RestoreUser? || a.DeleteUser?
             || a.DropSessions? || a.DropKeys?
    requires AtLeast(s, user, floor) && ApplyOther(config, s, a).Some?
    ensures AtLeast(ApplyOther(config, s, a).value, user, floor)
  {
    hide SessionsExcept, KeysExcept, TokensExcept;
  }

  lemma StepKeepsFloor(config: Config, s: State, a: Action, user: User, floor: nat)
    requires AtLeast(s, user, floor) && Apply(config, s, a).Some?
    ensures AtLeast(Apply(config, s, a).value, user, floor)
  {
    hide AtLeast, ApplyLogin, ApplySession, ApplyPassword, ApplyOther;
    if a.LoginUpgrade? {
      UpgradeKeepsFloor(config, s, a, user, floor);
    } else if a.LoginFind? || a.LoginCompare? || a.LoginRecordFailure? || a.LoginAdmit?
              || a.LoginCreate? || a.LoginAfter? {
      LoginKeepsFloor(config, s, a, user, floor);
    } else if a.RotateFind? || a.RotateStore? || a.RotateAfter? || a.KeyFind? || a.KeyStore? || a.KeyAfter? {
      SessionKeepsFloor(config, s, a, user, floor);
    } else if a.ChangeFind? || a.ChangeCompare? || a.ChangeStore? || a.IssueToken? || a.UseReset? {
      PasswordKeepsFloor(config, s, a, user, floor);
    } else {
      OtherKeepsFloor(config, s, a, user, floor);
    }
  }

  lemma {:induction false} RunKeepsFloor(config: Config, s: State, actions: seq<Action>, user: User, floor: nat)
    requires Inv(config, s) && AtLeast(s, user, floor) && Run(config, s, actions).Some?
    ensures AtLeast(Run(config, s, actions).value, user, floor)
    decreases |actions|
  {
    hide Inv, Apply, AtLeast;
    if actions != [] {
      StepKeeps(config, s, actions[0]);
      StepKeepsFloor(config, s, actions[0], user, floor);
      RunKeepsFloor(config, Apply(config, s, actions[0]).value, actions[1..], user, floor);
    }
  }

  /** The step that replaced a user's password: a change or a used reset token that was accepted. */
  predicate ReplacesPassword(s: State, t: State, user: User) {
    && user in t.store.credentials && t.store.credentials[user].hash in t.hashes
    && t.hashes[t.store.credentials[user].hash].generation == s.generations
  }

  /** An accepted change or reset is such a step, for the user it names. */
  lemma AcceptedReplacements(config: Config, s: State, a: Action)
    requires Apply(config, s, a).Some?
    ensures a.ChangeStore? && Swapped(s.store, s.calls[a.p].user, s.calls[a.p].expected, a.hash, true).1.None?
            ==> ReplacesPassword(s, Apply(config, s, a).value, s.calls[a.p].user)
    ensures a.UseReset? && PasswordReset(s.store, a.collectionID, a.token, a.hash, s.clock).1.None?
            ==> ReplacesPassword(s, Apply(config, s, a).value, s.store.tokens[a.token].user)
  {
    hide SessionsExcept, KeysExcept, TokensExcept;
  }

  /**
   * After a password was replaced, whatever was interleaved before and comes after: every
   * live session and API key of the user rests on a login that checked the new password
   * or a later one, never one read before the replacement.
   */
  lemma ReplacementCutsOff(config: Config, s: State, before: seq<Action>, change: Action, after: seq<Action>,
                          user: User,
                           token: string, id: string)
    requires Initial(s) && Run(config, s, before).Some?
    requires Apply(config, Run(config, s, before).value, change).Some?
    requires ReplacesPassword(Run(config, s, before).value,
                              Apply(config, Run(config, s, before).value, change).value, user)
    requires Run(config, Apply(config, Run(config, s, before).value, change).value, after).Some?
    ensures var replaced := Run(config, s, before).value;
            var t := Run(config, Apply(config, replaced, change).value, after).value;
            && (token in t.store.sessions && t.store.sessions[token].user == user ==>
                  token in t.origins && t.origins[token].observed in t.hashes
                  && t.hashes[t.origins[token].observed].generation >= replaced.generations
                  && t.origins[token].observed !in replaced.hashes)
            && (id in t.store.apiKeys && t.store.apiKeys[id].user == user ==>
                  id in t.keyOrigins && t.keyOrigins[id].observed in t.hashes
                  && t.hashes[t.keyOrigins[id].observed].generation >= replaced.generations
                  && t.keyOrigins[id].observed !in replaced.hashes)
  {
    hide Run, Apply, BirthsOk, TokensOk, CallsOk;
    InitialIsSafe(config, s);
    RunKeeps(config, s, before);
    var replaced := Run(config, s, before).value;
    var changed := Apply(config, replaced, change).value;
    StepKeeps(config, replaced, change);
    StepGrowsHashes(config, replaced, change);
    RunKeeps(config, changed, after);
    RunGrowsHashes(config, changed, after);
    RunKeepsFloor(config, changed, after, user, replaced.generations);
  }

  /** A hash keeps what it was made from. */
  predicate HashesGrow(s: State, t: State) {
    s.generations <= t.generations && forall h | h in s.hashes :: h in t.hashes && t.hashes[h] == s.hashes[h]
  }

  lemma LoginGrowsHashes(config: Config, s: State, a: Action)
    requires a.LoginFind? || a.LoginCompare? || a.LoginRecordFailure? || a.LoginAdmit? || a.LoginUpgrade?
             || a.LoginCreate? || a.LoginAfter?
    requires ApplyLogin(config, s, a).Some?
    ensures HashesGrow(s, ApplyLogin(config, s, a).value)
  {
    hide Matches, Locked, Swapped, SessionCreated, AttemptsReset, FailureRecorded;
  }

  lemma SessionGrowsHashes(config: Config, s: State, a: Action)
    requires a.RotateFind? || a.RotateStore? || a.RotateAfter? || a.KeyFind? || a.KeyStore? || a.KeyAfter?
    requires ApplySession(config, s, a).Some?
    ensures HashesGrow(s, ApplySession(config, s, a).value)
  {
    hide SessionRotated, KeyCreated, LiveSession;
  }

  lemma PasswordGrowsHashes(config: Config, s: State, a: Action)
    requires a.ChangeFind? || a.ChangeCompare? || a.ChangeStore? || a.IssueToken? || a.UseReset?
    requires ApplyPassword(config, s, a).Some?
    ensures HashesGrow(s, ApplyPassword(config, s, a).value)
  {
    hide Matches, Swapped, PasswordReset, TokenIssued;
  }

  lemma StepGrowsHashes(config: Config, s: State, a: Action)
    requires Apply(config, s, a).Some?
    ensures HashesGrow(s, Apply(config, s, a).value)
  {
    hide HashesGrow, ApplyLogin, ApplySession, ApplyPassword, ApplyOther;
    if a.LoginFind? || a.LoginCompare? || a.LoginRecordFailure? || a.LoginAdmit? || a.LoginUpgrade?
       || a.LoginCreate? || a.LoginAfter? {
      LoginGrowsHashes(config, s, a);
    } else if a.RotateFind? || a.RotateStore? || a.RotateAfter? || a.KeyFind? || a.KeyStore? || a.KeyAfter? {
      SessionGrowsHashes(config, s, a);
    } else if a.ChangeFind? || a.ChangeCompare? || a.ChangeStore? || a.IssueToken? || a.UseReset? {
      PasswordGrowsHashes(config, s, a);
    } else {
      OtherGrowsHashes(config, s, a);
    }
  }

  lemma OtherGrowsHashes(config: Config, s: State, a: Action)
    requires a.Tick? || a.CreateUser? || a.VerifyEmail? || a.TrashUser? || a.RestoreUser? || a.DeleteUser?
             || a.DropSessions? || a.DropKeys?
    requires ApplyOther(config, s, a).Some?
    ensures HashesGrow(s, ApplyOther(config, s, a).value)
  {
    hide UserDeleted;
  }

  lemma {:induction false} RunGrowsHashes(config: Config, s: State, actions: seq<Action>)
    requires Run(config, s, actions).Some?
    ensures HashesGrow(s, Run(config, s, actions).value)
    decreases |actions|
  {
    hide Apply;
    if actions != [] {
      StepGrowsHashes(config, s, actions[0]);
      RunGrowsHashes(config, Apply(config, s, actions[0]).value, actions[1..]);
    }
  }

  // ----- a token that is gone stays gone -----

  /** The token was issued, and no session answers to it any more. */
  predicate Dead(s: State, token: string) {
    token in s.origins && token !in s.store.sessions
  }

  lemma LoginKeepsDead(config: Config, s: State, a: Action, token: string)
    requires a.LoginFind? || a.LoginCompare? || a.LoginRecordFailure? || a.LoginAdmit? || a.LoginUpgrade?
             || a.LoginCreate? || a.LoginAfter?
    requires Dead(s, token) && ApplyLogin(config, s, a).Some?
    ensures Dead(ApplyLogin(config, s, a).value, token)
  {
    hide Matches, Locked;
  }

  lemma SessionKeepsDead(config: Config, s: State, a: Action, token: string)
    requires a.RotateFind? || a.RotateStore? || a.RotateAfter? || a.KeyFind? || a.KeyStore? || a.KeyAfter?
    requires Dead(s, token) && ApplySession(config, s, a).Some?
    ensures Dead(ApplySession(config, s, a).value, token)
  {
    hide LiveSession;
  }

  lemma PasswordKeepsDead(config: Config, s: State, a: Action, token: string)
    requires a.ChangeFind? || a.ChangeCompare? || a.ChangeStore? || a.IssueToken? || a.UseReset?
    requires Dead(s, token) && ApplyPassword(config, s, a).Some?
    ensures Dead(ApplyPassword(config, s, a).value, token)
  {
    hide Matches, KeysExcept, TokensExcept;
  }

  lemma OtherKeepsDead(config: Config, s: State, a: Action, token: string)
    requires a.Tick? || a.CreateUser? || a.VerifyEmail? || a.TrashUser? || a.RestoreUser? || a.DeleteUser?
             || a.DropSessions? || a.DropKeys?
    requires Dead(s, token) && ApplyOther(config, s, a).Some?
    ensures Dead(ApplyOther(config, s, a).value, token)
  {
    hide KeysExcept, TokensExcept;
  }

  lemma StepKeepsDead(config: Config, s: State, a: Action, token: string)
    requires Dead(s, token) && Apply(config, s, a).Some?
    ensures Dead(Apply(config, s, a).value, token)
  {
    hide Dead, ApplyLogin, ApplySession, ApplyPassword, ApplyOther;
    if a.LoginFind? || a.LoginCompare? || a.LoginRecordFailure? || a.LoginAdmit? || a.LoginUpgrade?
       || a.LoginCreate? || a.LoginAfter? {
      LoginKeepsDead(config, s, a, token);
    } else if a.RotateFind? || a.RotateStore? || a.RotateAfter? || a.KeyFind? || a.KeyStore? || a.KeyAfter? {
      SessionKeepsDead(config, s, a, token);
    } else if a.ChangeFind? || a.ChangeCompare? || a.ChangeStore? || a.IssueToken? || a.UseReset? {
      PasswordKeepsDead(config, s, a, token);
    } else {
      OtherKeepsDead(config, s, a, token);
    }
  }

  /** A token that was rotated away, revoked or logged out never opens a session again. */
  lemma {:induction false} DeadTokensStayDead(config: Config, s: State, actions: seq<Action>, token: string)
    requires Dead(s, token) && Run(config, s, actions).Some?
    ensures Dead(Run(config, s, actions).value, token)
    decreases |actions|
  {
    hide Dead, Apply;
    if actions != [] {
      StepKeepsDead(config, s, actions[0], token);
      DeadTokensStayDead(config, Apply(config, s, actions[0]).value, actions[1..], token);
    }
  }

  /** An accepted rotation kills the old token at once. */
  lemma RotationKillsTheOldToken(config: Config, s: State, p: nat, rotated: string)
    requires p in s.calls && s.calls[p].RotateFound? && Apply(config, s, RotateStore(p, true, rotated)).Some?
    ensures var t := Apply(config, s, RotateStore(p, true, rotated)).value;
            t.calls[p] == Rotated(rotated) ==>
              && Dead(t, s.calls[p].token) && rotated in t.store.sessions
              && t.store.sessions[rotated] == s.store.sessions[s.calls[p].token].(lastSeenAt := s.calls[p].now)
  {
  }
}
