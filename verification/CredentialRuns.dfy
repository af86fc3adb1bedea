/** Flows that succeed undisturbed, and logins that are refused however they are interleaved. */
module CredentialRuns {
  import opened Wrappers
  import opened CredentialStore
  import opened CredentialProtocol
  import opened CredentialSafety

  lemma {:induction false} RunJoins(config: Config, s: State, first: seq<Action>, later: seq<Action>)
    requires Run(config, s, first).Some?
    ensures Run(config, s, first + later) == Run(config, Run(config, s, first).value, later)
    decreases |first|
  {
    hide Apply;
    if first == [] {
      assert first + later == later;
    } else {
      assert (first + later)[1..] == first[1..] + later;
      RunJoins(config, Apply(config, s, first[0]).value, first[1..], later);
    }
  }

  lemma RunOne(config: Config, s: State, a: Action)
    ensures Run(config, s, [a]) == Apply(config, s, a)
  {
    hide Apply;
    assert [a][1..] == [];
    assert forall t :: Run(config, t, []) == Some(t);
  }

  lemma RunTwo(config: Config, s: State, a: Action, mid: State, b: Action)
    requires Apply(config, s, a) == Some(mid)
    ensures Run(config, s, [a, b]) == Apply(config, mid, b)
  {
    hide Apply;
    assert [a, b][1..] == [b];
    RunOne(config, mid, b);
  }

  lemma WithTwice(s: State, p: nat, c: Call, d: Call)
    ensures With(With(s, p, c), p, d) == With(s, p, d)
  {
    assert s.calls[p := c][p := d] == s.calls[p := d];
  }

  // ----- login -----

  /** The password is the one the hash was made from. */
  predicate MadeFrom(s: State, hash: nat, password: string) {
    hash in s.hashes && s.hashes[hash].password == password
  }

  /** The user may log in now with this password. */
  predicate MayLogIn(config: Config, s: State, user: User, password: string) {
    && user in s.store.active && user in s.store.credentials
    && MadeFrom(s, s.store.credentials[user].hash, password)
    && (match s.store.credentials[user].lockedUntil
        case None => true
        case Some(until) => until <= s.clock)
    && (config(user.collectionID).verifyEmail ==> s.store.credentials[user].verified)
  }

  lemma LoginMatches(config: Config, s: State, p: nat, user: User, password: string)
    requires p !in s.calls && MayLogIn(config, s, user, password)
    ensures Run(config, s, [LoginFind(p, user, password), LoginCompare(p)])
            == Some(With(s, p, LoginMatched(user, password, s.clock, s.store.credentials[user].hash)))
  {
    var credential := s.store.credentials[user];
    WithTwice(s, p, LoginFound(user, password, s.clock, credential),
              LoginMatched(user, password, s.clock, credential.hash));
    RunTwo(config, s, LoginFind(p, user, password), With(s, p, LoginFound(user, password, s.clock, credential)),
           LoginCompare(p));
  }

  /** What admission leaves: with a lockout configured, the failures are cleared. */
  function Admitted(config: Config, s: State, user: User): State
    requires user in s.store.credentials
  {
    if config(user.collectionID).maxLoginAttempts == 0 then s
    else
      var cleared := s.store.credentials[user].(failures := 0, lockedUntil := None);
      s.(store := s.store.(credentials := s.store.credentials[user := cleared]))
  }

  lemma LoginIsAdmitted(config: Config, s: State, p: nat, user: User, password: string)
    requires MayLogIn(config, s, user, password)
    ensures var hash := s.store.credentials[user].hash;
            Apply(config, With(s, p, LoginMatched(user, password, s.clock, hash)), LoginAdmit(p, true))
            == Some(With(Admitted(config, s, user), p, LoginReady(user, password, s.clock, hash, hash)))
  {
    var hash := s.store.credentials[user].hash;
    WithTwice(s, p, LoginMatched(user, password, s.clock, hash), LoginReady(user, password, s.clock, hash, hash));
    WithTwice(Admitted(config, s, user), p, LoginMatched(user, password, s.clock, hash),
              LoginReady(user, password, s.clock, hash, hash));
  }

  /** The session a login at this time stores. */
  function NewSession(config: Config, user: User, id: string, now: int): Session {
    Session(id, user, now, now + config(user.collectionID).sessionDuration, now)
  }

  lemma LoginStores(config: Config, s: State, p: nat, user: User, password: string, observed: nat, expected: nat,
                    token: string, id: string)
    requires user in s.store.active && user in s.store.credentials && s.store.credentials[user].hash == expected
    requires expected in s.hashes && s.hashes[expected].cost >= config(user.collectionID).cost
    requires token !in s.origins && id !in s.births
    ensures Run(config, With(s, p, LoginReady(user, password, s.clock, observed, expected)),
                [LoginCreate(p, token, id), LoginAfter(p, true)])
            == Some(With(WithSession(config, s, user, password, observed, token, id), p, Finished))
  {
    var ready := With(s, p, LoginReady(user, password, s.clock, observed, expected));
    var stored := WithSession(config, s, user, password, observed, token, id);
    WithTwice(stored, p, LoginReady(user, password, s.clock, observed, expected), LoggedIn(token));
    WithTwice(stored, p, LoggedIn(token), Finished);
    assert Apply(config, ready, LoginCreate(p, token, id)) == Some(With(stored, p, LoggedIn(token)));
    RunTwo(config, ready, LoginCreate(p, token, id), With(stored, p, LoggedIn(token)), LoginAfter(p, true));
  }

  lemma LoginUpgrades(config: Config, s: State, p: nat, user: User, password: string, hash: nat)
    requires user in s.store.active && user in s.store.credentials && hash !in s.hashes
    requires s.store.credentials[user].hash in s.hashes && TooCheap(config, s, user)
    ensures var expected := s.store.credentials[user].hash;
            Apply(config, With(s, p, LoginReady(user, password, s.clock, expected, expected)), LoginUpgrade(p, hash))
            == Some(With(Upgraded(config, s, user, password, hash), p,
                         LoginReady(user, password, s.clock, expected, hash)))
  {
    var expected := s.store.credentials[user].hash;
    WithTwice(Upgraded(config, s, user, password, hash), p, LoginReady(user, password, s.clock, expected, expected),
              LoginReady(user, password, s.clock, expected, hash));
  }

  /** The steps of an undisturbed login; `hash` is the upgraded one, where the stored one is too cheap. */
  function LoginSteps(config: Config, s: State, p: nat, user: User, password: string, hash: nat, token: string,
                      id: string): seq<Action>
    requires MayLogIn(config, s, user, password)
  {
    [LoginFind(p, user, password), LoginCompare(p)]
    + ([LoginAdmit(p, true)]
       + ((if TooCheap(config, s, user) then [LoginUpgrade(p, hash)] else [])
          + [LoginCreate(p, token, id), LoginAfter(p, true)]))
  }

  predicate TooCheap(config: Config, s: State, user: User)
    requires user in s.store.credentials && s.store.credentials[user].hash in s.hashes
  {
    s.hashes[s.store.credentials[user].hash].cost < config(user.collectionID).cost
  }

  /** The state with the session and its history. */
  function WithSession(config: Config, s: State, user: User, password: string, observed: nat, token: string,
                       id: string): State {
    var session := NewSession(config, user, id, s.clock);
    s.(store := s.store.(sessions := s.store.sessions[token := session]),
       origins := s.origins[token := Origin(password, observed)],
       births := s.births[id := Birth(user, session.createdAt, session.expiresAt)])
  }

  /** The state with the upgraded hash. */
  function Upgraded(config: Config, s: State, user: User, password: string, hash: nat): State
    requires user in s.store.credentials && s.store.credentials[user].hash in s.hashes
  {
    var upgraded := s.store.credentials[user].(hash := hash, failures := 0, lockedUntil := None);
    s.(store := s.store.(credentials := s.store.credentials[user := upgraded]),
       hashes := s.hashes[hash := Made(password, config(user.collectionID).cost,
                                       s.hashes[s.store.credentials[user].hash].generation)])
  }

  lemma RunFour(config: Config, s: State, a: seq<Action>, s1: State, b: Action, s2: State, c: seq<Action>, s3: State,
                d: seq<Action>)
    requires Run(config, s, a) == Some(s1) && Apply(config, s1, b) == Some(s2) && Run(config, s2, c) == Some(s3)
    ensures Run(config, s, a + ([b] + (c + d))) == Run(config, s3, d)
  {
    hide Run, Apply;
    RunOne(config, s1, b);
    RunJoins(config, s2, c, d);
    RunJoins(config, s1, [b], c + d);
    RunJoins(config, s, a, [b] + (c + d));
  }

  /** The state in which the session is created. */
  function Checked(config: Config, s: State, user: User, password: string, hash: nat): State
    requires user in s.store.credentials && s.store.credentials[user].hash in s.hashes
  {
    var admitted := Admitted(config, s, user);
    if TooCheap(config, s, user) then Upgraded(config, admitted, user, password, hash) else admitted
  }

  lemma AdmittedFacts(config: Config, s: State, user: User)
    requires user in s.store.credentials
    ensures var t := Admitted(config, s, user);
            && t == s.(store := s.store.(credentials := t.store.credentials))
            && t.store.credentials.Keys == s.store.credentials.Keys
            && t.store.credentials[user].hash == s.store.credentials[user].hash
            && forall u | u in s.store.credentials && u != user :: t.store.credentials[u] == s.store.credentials[u]
  {
  }

  lemma UpgradedFacts(config: Config, s: State, user: User, password: string, hash: nat)
    requires user in s.store.credentials && s.store.credentials[user].hash in s.hashes && hash !in s.hashes
    ensures var t := Upgraded(config, s, user, password, hash);
            && t == s.(store := s.store.(credentials := t.store.credentials), hashes := t.hashes)
            && t.store.credentials.Keys == s.store.credentials.Keys && t.store.credentials[user].hash == hash
            && (forall u | u in s.store.credentials && u != user :: t.store.credentials[u] == s.store.credentials[u])
            && hash in t.hashes
            && t.hashes[hash] == Made(password, config(user.collectionID).cost,
                                      s.hashes[s.store.credentials[user].hash].generation)
  {
  }

  lemma PlainLoginEnds(config: Config, s: State, p: nat, user: User, password: string, hash: nat, token: string,
                       id: string)
    requires p !in s.calls && MayLogIn(config, s, user, password) && !TooCheap(config, s, user)
    requires hash !in s.hashes && token !in s.origins && id !in s.births
    ensures Run(config, s, LoginSteps(config, s, p, user, password, hash, token, id))
            == Some(With(WithSession(config, Checked(config, s, user, password, hash), user, password,
                                     s.store.credentials[user].hash, token, id), p, Finished))
  {
    hide Run, Apply, Admitted, Upgraded, WithSession;
    var observed, admitted := s.store.credentials[user].hash, Admitted(config, s, user);
    var ready := With(admitted, p, LoginReady(user, password, s.clock, observed, observed));
    LoginMatches(config, s, p, user, password);
    LoginIsAdmitted(config, s, p, user, password);
    AdmittedFacts(config, s, user);
    LoginStores(config, admitted, p, user, password, observed, observed, token, id);
    RunNothing(config, ready);
    RunFour(config, s, [LoginFind(p, user, password), LoginCompare(p)],
            With(s, p, LoginMatched(user, password, s.clock, observed)), LoginAdmit(p, true), ready, [], ready,
            [LoginCreate(p, token, id), LoginAfter(p, true)]);
  }

  lemma UpgradingLoginEnds(config: Config, s: State, p: nat, user: User, password: string, hash: nat, token: string,
                           id: string)
    requires p !in s.calls && MayLogIn(config, s, user, password) && TooCheap(config, s, user)
    requires hash !in s.hashes && token !in s.origins && id !in s.births
    ensures Run(config, s, LoginSteps(config, s, p, user, password, hash, token, id))
            == Some(With(WithSession(config, Checked(config, s, user, password, hash), user, password,
                                     s.store.credentials[user].hash, token, id), p, Finished))
  {
    hide Run, Apply, Admitted, Upgraded, WithSession;
    var observed, admitted := s.store.credentials[user].hash, Admitted(config, s, user);
    var ready := With(admitted, p, LoginReady(user, password, s.clock, observed, observed));
    LoginMatches(config, s, p, user, password);
    LoginIsAdmitted(config, s, p, user, password);
    AdmittedFacts(config, s, user);
    LoginUpgrades(config, admitted, p, user, password, hash);
    UpgradedFacts(config, admitted, user, password, hash);
    var upgraded := Upgraded(config, admitted, user, password, hash);
    LoginStores(config, upgraded, p, user, password, observed, hash, token, id);
    RunOne(config, ready, LoginUpgrade(p, hash));
    RunFour(config, s, [LoginFind(p, user, password), LoginCompare(p)],
            With(s, p, LoginMatched(user, password, s.clock, observed)), LoginAdmit(p, true), ready,
            [LoginUpgrade(p, hash)], With(upgraded, p, LoginReady(user, password, s.clock, observed, hash)),
            [LoginCreate(p, token, id), LoginAfter(p, true)]);
  }

  lemma RunNothing(config: Config, s: State)
    ensures Run(config, s, []) == Some(s)
  {
  }

  /**
   * The session is stored with its expiry and nothing else of the store has changed, but for the
   * user's own credential: its hash is of the same password and generation, at the configured cost.
   */
  ghost predicate LoggedInAs(config: Config, s: State, t: State, user: User, password: string, token: string,
                             id: string)
    requires user in s.store.credentials && s.store.credentials[user].hash in s.hashes
  {
    && t.store.sessions == s.store.sessions[token := NewSession(config, user, id, s.clock)]
    && t.store.active == s.store.active && t.store.apiKeys == s.store.apiKeys && t.store.tokens == s.store.tokens
    && t.store.credentials.Keys == s.store.credentials.Keys
    && (forall u | u in s.store.credentials && u != user :: t.store.credentials[u] == s.store.credentials[u])
    && var before, now := s.store.credentials[user].hash, t.store.credentials[user].hash;
       && now in t.hashes && t.hashes[now].password == password
       && t.hashes[now].generation == s.hashes[before].generation
       && t.hashes[now].cost >= config(user.collectionID).cost
       && (s.hashes[before].cost >= config(user.collectionID).cost ==> now == before)
  }

  lemma SessionIsStored(config: Config, s: State, user: User, password: string, hash: nat, token: string, id: string)
    requires user in s.store.credentials && MadeFrom(s, s.store.credentials[user].hash, password) && hash !in s.hashes
    ensures LoggedInAs(config, s, WithSession(config, Checked(config, s, user, password, hash), user, password,
                                              s.store.credentials[user].hash, token, id), user, password, token, id)
  {
    AdmittedFacts(config, s, user);
    hide Admitted, Upgraded;
    if TooCheap(config, s, user) { UpgradedFacts(config, Admitted(config, s, user), user, password, hash); }
  }

  /**
   * From every state, an undisturbed login with the password in force, of an active user who is not
   * locked and is verified where that is asked, ends with the session stored.
   */
  lemma LoginSucceeds(config: Config, s: State, p: nat, user: User, password: string, hash: nat, token: string,
                      id: string)
    requires p !in s.calls && MayLogIn(config, s, user, password)
    requires hash !in s.hashes && token !in s.origins && id !in s.births
    ensures var out := Run(config, s, LoginSteps(config, s, p, user, password, hash, token, id));
            && out.Some? && out.value.calls == s.calls[p := Finished]
            && LoggedInAs(config, s, out.value, user, password, token, id)
  {
    hide Run, LoginSteps, LoggedInAs, Admitted, Upgraded;
    if TooCheap(config, s, user) {
      UpgradingLoginEnds(config, s, p, user, password, hash, token, id);
    } else {
      PlainLoginEnds(config, s, p, user, password, hash, token, id);
    }
    SessionIsStored(config, s, user, password, hash, token, id);
    var t := WithSession(config, Checked(config, s, user, password, hash), user, password,
                         s.store.credentials[user].hash, token, id);
    CallsKept(config, s, user, password, hash, token, id);
    CallsDoNotMatter(config, s, t, p, user, password, token, id);
  }

  lemma CallsKept(config: Config, s: State, user: User, password: string, hash: nat, token: string, id: string)
    requires user in s.store.credentials && s.store.credentials[user].hash in s.hashes
    ensures WithSession(config, Checked(config, s, user, password, hash), user, password,
                        s.store.credentials[user].hash, token, id).calls == s.calls
  {
  }

  lemma CallsDoNotMatter(config: Config, s: State, t: State, p: nat, user: User, password: string, token: string,
                         id: string)
    requires user in s.store.credentials && s.store.credentials[user].hash in s.hashes
    requires LoggedInAs(config, s, t, user, password, token, id)
    ensures LoggedInAs(config, s, With(t, p, Finished), user, password, token, id)
  {
  }

  // ----- refused logins -----

  /** What was found does not let this login through. */
  predicate Barred(config: Config, s: State, c: Call)
    requires c.LoginFound?
  {
    || (c.credential.hash in s.hashes && s.hashes[c.credential.hash].password != c.password)
    || (c.credential.lockedUntil.Some? && c.credential.lockedUntil.value > c.now)
    || (config(c.user.collectionID).verifyEmail && !c.credential.verified)
  }

  /** A login that is, or will be, refused. */
  predicate TurnedAway(config: Config, s: State, p: nat) {
    p in s.calls && AtLogin(s.calls[p]) && (s.calls[p].LoginFound? ==> Barred(config, s, s.calls[p]))
  }

  lemma LoginTurnsAway(config: Config, s: State, a: Action, p: nat)
    requires a.LoginFind? || a.LoginCompare? || a.LoginRecordFailure? || a.LoginAdmit? || a.LoginUpgrade?
             || a.LoginCreate? || a.LoginAfter?
    requires ApplyLogin(config, s, a).Some? && TurnedAway(config, s, p)
    ensures var t := ApplyLogin(config, s, a).value;
            p in t.calls && (t.calls[p] == s.calls[p] || t.calls[p].LoginRefused? || t.calls[p].Finished?)
  {
    hide Swapped, SessionCreated, AttemptsReset, FailureRecorded;
  }

  predicate AtLogin(c: Call) {
    c.LoginFound? || c.LoginRefused? || c.Finished?
  }

  lemma SessionsLeaveLogins(config: Config, s: State, a: Action, p: nat)
    requires a.RotateFind? || a.RotateStore? || a.RotateAfter? || a.KeyFind? || a.KeyStore? || a.KeyAfter?
    requires ApplySession(config, s, a).Some? && p in s.calls && AtLogin(s.calls[p])
    ensures var t := ApplySession(config, s, a).value; p in t.calls && t.calls[p] == s.calls[p]
  {
    hide SessionRotated, KeyCreated, LiveSession;
  }

  lemma PasswordsLeaveLogins(config: Config, s: State, a: Action, p: nat)
    requires a.ChangeFind? || a.ChangeCompare? || a.ChangeStore? || a.IssueToken? || a.UseReset?
    requires ApplyPassword(config, s, a).Some? && p in s.calls && AtLogin(s.calls[p])
    ensures var t := ApplyPassword(config, s, a).value; p in t.calls && t.calls[p] == s.calls[p]
  {
    hide Swapped, PasswordReset, TokenIssued, Matches, LiveSession;
  }

  lemma OthersLeaveLogins(config: Config, s: State, a: Action, p: nat)
    requires !(a.LoginFind? || a.LoginCompare? || a.LoginRecordFailure? || a.LoginAdmit? || a.LoginUpgrade?
               || a.LoginCreate? || a.LoginAfter?)
    requires Apply(config, s, a).Some? && p in s.calls && AtLogin(s.calls[p])
    ensures var t := Apply(config, s, a).value; p in t.calls && t.calls[p] == s.calls[p]
  {
    if a.RotateFind? || a.RotateStore? || a.RotateAfter? || a.KeyFind? || a.KeyStore? || a.KeyAfter? {
      SessionsLeaveLogins(config, s, a, p);
      hide ApplySession, AtLogin;
    } else if a.ChangeFind? || a.ChangeCompare? || a.ChangeStore? || a.IssueToken? || a.UseReset? {
      PasswordsLeaveLogins(config, s, a, p);
      hide ApplyPassword, AtLogin;
    } else {
      hide EmailVerified, UserDeleted, AtLogin;
    }
  }

  lemma StepTurnsAway(config: Config, s: State, a: Action, p: nat)
    requires Apply(config, s, a).Some? && TurnedAway(config, s, p)
    ensures TurnedAway(config, Apply(config, s, a).value, p)
  {
    StepGrowsHashes(config, s, a);
    if a.LoginFind? || a.LoginCompare? || a.LoginRecordFailure? || a.LoginAdmit? || a.LoginUpgrade?
       || a.LoginCreate? || a.LoginAfter? {
      LoginTurnsAway(config, s, a, p);
    } else {
      OthersLeaveLogins(config, s, a, p);
    }
    hide ApplyLogin, ApplySession, ApplyPassword, ApplyOther;
  }

  lemma {:induction false} RunTurnsAway(config: Config, s: State, actions: seq<Action>, p: nat)
    requires Run(config, s, actions).Some? && TurnedAway(config, s, p)
    ensures TurnedAway(config, Run(config, s, actions).value, p)
    decreases |actions|
  {
    hide Apply, TurnedAway;
    if actions != [] {
      StepTurnsAway(config, s, actions[0], p);
      RunTurnsAway(config, Apply(config, s, actions[0]).value, actions[1..], p);
    }
  }

  /**
   * In every run, a login that found a credential with another password, still locked, or not
   * verified where that is asked, is never admitted and stores no session, whatever is interleaved
   * with it, a reset of that very lock included; a user who is not there is not found at all.
   */
  lemma BarredLoginsNeverSucceed(config: Config, i: State, actions: seq<Action>, p: nat, user: User, password: string,
                                 later: seq<Action>)
    requires Initial(i) && Run(config, i, actions).Some? && p !in Run(config, i, actions).value.calls
    requires !MayLogIn(config, Run(config, i, actions).value, user, password)
    requires Run(config, Apply(config, Run(config, i, actions).value, LoginFind(p, user, password)).value, later).Some?
    ensures var u := Run(config, Apply(config, Run(config, i, actions).value, LoginFind(p, user, password)).value,
                         later).value;
            && p in u.calls && !u.calls[p].LoginMatched? && !u.calls[p].LoginReady? && !u.calls[p].LoggedIn?
            && forall token, id :: Apply(config, u, LoginCreate(p, token, id)).None?
  {
    var s := Run(config, i, actions).value;
    InitialIsSafe(config, i);
    RunKeeps(config, i, actions);
    FoundIsBarred(config, s, p, user, password);
    hide Run, Apply, MayLogIn;
    var t := Apply(config, s, LoginFind(p, user, password)).value;
    RunTurnsAway(config, t, later, p);
    var u := Run(config, t, later).value;
    forall token, id ensures Apply(config, u, LoginCreate(p, token, id)).None? {
      NotReady(config, u, p, token, id);
    }
  }

  lemma FoundIsBarred(config: Config, s: State, p: nat, user: User, password: string)
    requires Inv(config, s) && p !in s.calls && !MayLogIn(config, s, user, password)
    ensures TurnedAway(config, Apply(config, s, LoginFind(p, user, password)).value, p)
  {
    hide SessionsOk, KeysOk, BirthsOk, TokensOk, CallsOk;
  }

  lemma NotReady(config: Config, u: State, p: nat, token: string, id: string)
    requires p in u.calls && !u.calls[p].LoginReady?
    ensures Apply(config, u, LoginCreate(p, token, id)).None?
  {
  }

  /** Where lockouts are configured, a login with another password is counted. */
  lemma WrongPasswordIsCounted(config: Config, s: State, p: nat, user: User, password: string)
    requires p !in s.calls && user in s.store.active && user in s.store.credentials
    requires s.store.credentials[user].hash in s.hashes
    requires s.hashes[s.store.credentials[user].hash].password != password
    requires config(user.collectionID).maxLoginAttempts > 0 && s.store.credentials[user].lockedUntil.None?
    ensures var out := Run(config, s, [LoginFind(p, user, password), LoginCompare(p)] + [LoginRecordFailure(p)]);
            var n := s.store.credentials[user].failures + 1;
            && out.Some? && out.value.calls == s.calls[p := Finished]
            && out.value.store == s.store.(credentials := s.store.credentials[user :=
                 s.store.credentials[user].(failures := n,
                   lockedUntil := if n >= config(user.collectionID).maxLoginAttempts then
                                    Some(s.clock + config(user.collectionID).lockDuration) else None)])
  {
    var found, refused := LoginFound(user, password, s.clock, s.store.credentials[user]), LoginRefused(user, s.clock);
    WithTwice(s, p, found, refused);
    RunTwo(config, s, LoginFind(p, user, password), With(s, p, found), LoginCompare(p));
    RunJoins(config, s, [LoginFind(p, user, password), LoginCompare(p)], [LoginRecordFailure(p)]);
    RunOne(config, With(s, p, refused), LoginRecordFailure(p));
    hide Run;
  }

  // ----- the other flows -----

  lemma RunThree(config: Config, s: State, a: Action, s1: State, b: Action, s2: State, c: Action)
    requires Apply(config, s, a) == Some(s1) && Apply(config, s1, b) == Some(s2)
    ensures Run(config, s, [a, b] + [c]) == Apply(config, s2, c)
  {
    hide Run, Apply;
    RunTwo(config, s, a, s1, b);
    RunJoins(config, s, [a, b], [c]);
    RunOne(config, s2, c);
  }

  function Moved(s: State, token: string, rotated: string): State
    requires token in s.store.sessions && token in s.origins
  {
    s.(store := s.store.(sessions :=
         (s.store.sessions - {token})[rotated := s.store.sessions[token].(lastSeenAt := s.clock)]),
       origins := s.origins[rotated := s.origins[token]])
  }

  lemma RotationStores(config: Config, s: State, p: nat, token: string, rotated: string)
    requires token in s.store.sessions && s.store.sessions[token].expiresAt > s.clock
    requires s.store.sessions[token].user in s.store.active && token in s.origins && rotated !in s.origins
    ensures var user := s.store.sessions[token].user;
            Apply(config, With(s, p, RotateFound(token, user, s.clock)), RotateStore(p, true, rotated))
            == Some(With(Moved(s, token, rotated), p, Rotated(rotated)))
  {
    WithTwice(Moved(s, token, rotated), p, RotateFound(token, s.store.sessions[token].user, s.clock), Rotated(rotated));
  }

  lemma SessionIsFound(config: Config, s: State, p: nat, token: string)
    requires p !in s.calls && token in s.store.sessions && s.store.sessions[token].expiresAt > s.clock
    ensures Apply(config, s, RotateFind(p, token))
            == Some(With(s, p, RotateFound(token, s.store.sessions[token].user, s.clock)))
    ensures Apply(config, s, KeyFind(p, token))
            == Some(With(s, p, KeyFound(token, s.store.sessions[token].user, s.clock)))
    ensures Apply(config, s, ChangeFind(p, token)) == Some(With(s, p, ChangeFound(s.store.sessions[token].user)))
  {
  }

  lemma HooksPass(config: Config, s: State, p: nat, c: Call)
    requires c.Rotated? || c.KeyMade?
    ensures c.Rotated? ==> Apply(config, With(s, p, c), RotateAfter(p, true)) == Some(With(s, p, Finished))
    ensures c.KeyMade? ==> Apply(config, With(s, p, c), KeyAfter(p, true)) == Some(With(s, p, Finished))
  {
    WithTwice(s, p, c, Finished);
  }

  /** An undisturbed rotation moves the live session to its new token and touches nothing else in the store. */
  lemma RotationSucceeds(config: Config, s: State, p: nat, token: string, rotated: string)
    requires p !in s.calls && token in s.store.sessions && s.store.sessions[token].expiresAt > s.clock
    requires s.store.sessions[token].user in s.store.active && token in s.origins && rotated !in s.origins
    ensures var out := Run(config, s, [RotateFind(p, token), RotateStore(p, true, rotated)] + [RotateAfter(p, true)]);
            && out.Some? && out.value.calls == s.calls[p := Finished]
            && out.value.store == s.store.(sessions :=
                 (s.store.sessions - {token})[rotated := s.store.sessions[token].(lastSeenAt := s.clock)])
  {
    hide Run, Apply;
    var found := With(s, p, RotateFound(token, s.store.sessions[token].user, s.clock));
    SessionIsFound(config, s, p, token);
    RotationStores(config, s, p, token, rotated);
    HooksPass(config, Moved(s, token, rotated), p, Rotated(rotated));
    RunThree(config, s, RotateFind(p, token), found, RotateStore(p, true, rotated),
             With(Moved(s, token, rotated), p, Rotated(rotated)), RotateAfter(p, true));
  }

  function WithKey(s: State, token: string, id: string, tokenHash: string, expiresAt: Option<int>): State
    requires token in s.store.sessions && token in s.origins
  {
    s.(store := s.store.(apiKeys :=
         s.store.apiKeys[id := ApiKey(s.store.sessions[token].user, tokenHash, expiresAt)]),
       keyOrigins := s.keyOrigins[id := s.origins[token]])
  }

  lemma KeyStores(config: Config, s: State, p: nat, token: string, id: string, tokenHash: string,
                  expiresAt: Option<int>)
    requires token in s.store.sessions && s.store.sessions[token].expiresAt > s.clock
    requires s.store.sessions[token].user in s.store.active && s.store.sessions[token].user in s.store.credentials
    requires token in s.origins && id !in s.keyOrigins && (expiresAt.Some? ==> expiresAt.value > s.clock)
    ensures var user := s.store.sessions[token].user;
            Apply(config, With(s, p, KeyFound(token, user, s.clock)), KeyStore(p, true, id, tokenHash, expiresAt))
            == Some(With(WithKey(s, token, id, tokenHash, expiresAt), p, KeyMade(id)))
  {
    WithTwice(WithKey(s, token, id, tokenHash, expiresAt), p, KeyFound(token, s.store.sessions[token].user, s.clock),
              KeyMade(id));
  }

  /** Under a live session, an undisturbed creation stores the key for the session's user, and nothing else. */
  lemma KeyCreationSucceeds(config: Config, s: State, p: nat, token: string, id: string, tokenHash: string,
                            expiresAt: Option<int>)
    requires p !in s.calls && token in s.store.sessions && s.store.sessions[token].expiresAt > s.clock
    requires s.store.sessions[token].user in s.store.active && s.store.sessions[token].user in s.store.credentials
    requires token in s.origins && id !in s.keyOrigins && (expiresAt.Some? ==> expiresAt.value > s.clock)
    ensures var out := Run(config, s, [KeyFind(p, token), KeyStore(p, true, id, tokenHash, expiresAt)]
                                      + [KeyAfter(p, true)]);
            && out.Some? && out.value.calls == s.calls[p := Finished]
            && out.value.store == s.store.(apiKeys :=
                 s.store.apiKeys[id := ApiKey(s.store.sessions[token].user, tokenHash, expiresAt)])
  {
    hide Run, Apply;
    var found := With(s, p, KeyFound(token, s.store.sessions[token].user, s.clock));
    var made := WithKey(s, token, id, tokenHash, expiresAt);
    SessionIsFound(config, s, p, token);
    KeyStores(config, s, p, token, id, tokenHash, expiresAt);
    HooksPass(config, made, p, KeyMade(id));
    RunThree(config, s, KeyFind(p, token), found, KeyStore(p, true, id, tokenHash, expiresAt),
             With(made, p, KeyMade(id)), KeyAfter(p, true));
  }

  /** The store after a user's password was replaced: the new hash, no failures, no session, no key. */
  ghost predicate PasswordReplaced(s: State, t: State, user: User, hash: nat, password: string, cost: nat) {
    && user in s.store.credentials
    && t.store.credentials
       == s.store.credentials[user := Credential(hash, 0, None, s.store.credentials[user].verified)]
    && t.hashes == s.hashes[hash := Made(password, cost, s.generations)] && t.generations == s.generations + 1
    && (forall x :: x in t.store.sessions <==> x in s.store.sessions && s.store.sessions[x].user != user)
    && (forall x | x in t.store.sessions :: t.store.sessions[x] == s.store.sessions[x])
    && (forall k :: k in t.store.apiKeys <==> k in s.store.apiKeys && s.store.apiKeys[k].user != user)
    && (forall k | k in t.store.apiKeys :: t.store.apiKeys[k] == s.store.apiKeys[k])
    && t.store.active == s.store.active
  }

  lemma ChangeCompares(config: Config, s: State, p: nat, user: User, current: string, next: string)
    requires user in s.store.active && user in s.store.credentials
    requires MadeFrom(s, s.store.credentials[user].hash, current)
    ensures Apply(config, With(s, p, ChangeFound(user)), ChangeCompare(p, user, current, next, true))
            == Some(With(s, p, ChangeReady(user, s.store.credentials[user].hash, next)))
  {
    WithTwice(s, p, ChangeFound(user), ChangeReady(user, s.store.credentials[user].hash, next));
  }

  lemma ChangeStores(config: Config, s: State, p: nat, user: User, next: string, hash: nat)
    requires user in s.store.active && user in s.store.credentials && hash !in s.hashes
    ensures var out := Apply(config, With(s, p, ChangeReady(user, s.store.credentials[user].hash, next)),
                             ChangeStore(p, hash));
            && out.Some? && out.value.calls == s.calls[p := Finished] && out.value.store.tokens == s.store.tokens
            && PasswordReplaced(s, out.value, user, hash, next, config(user.collectionID).cost)
  {
    var ready := ChangeReady(user, s.store.credentials[user].hash, next);
    assert s.calls[p := ready][p := Finished] == s.calls[p := Finished];
  }

  /** An undisturbed change with the current password replaces it and cuts off sessions and keys of the user only. */
  lemma ChangeSucceeds(config: Config, s: State, p: nat, token: string, current: string, next: string, hash: nat)
    requires p !in s.calls && token in s.store.sessions && s.store.sessions[token].expiresAt > s.clock
    requires var user := s.store.sessions[token].user;
             && user in s.store.active && user in s.store.credentials
             && MadeFrom(s, s.store.credentials[user].hash, current)
    requires hash !in s.hashes
    ensures var user := s.store.sessions[token].user;
            var out := Run(config, s, [ChangeFind(p, token), ChangeCompare(p, user, current, next, true)]
                                      + [ChangeStore(p, hash)]);
            && out.Some? && out.value.calls == s.calls[p := Finished] && out.value.store.tokens == s.store.tokens
            && PasswordReplaced(s, out.value, user, hash, next, config(user.collectionID).cost)
  {
    hide Run, Apply, PasswordReplaced;
    var user := s.store.sessions[token].user;
    SessionIsFound(config, s, p, token);
    ChangeCompares(config, s, p, user, current, next);
    ChangeStores(config, s, p, user, next, hash);
    RunThree(config, s, ChangeFind(p, token), With(s, p, ChangeFound(user)),
             ChangeCompare(p, user, current, next, true),
             With(s, p, ChangeReady(user, s.store.credentials[user].hash, next)), ChangeStore(p, hash));
  }

  /** A wrong current password changes nothing. */
  lemma ChangeNeedsThePassword(config: Config, s: State, p: nat, user: User, found: User, current: string, next: string,
                               permitted: bool)
    requires p in s.calls && s.calls[p] == ChangeFound(user)
    requires !permitted || found !in s.store.active || found !in s.store.credentials
             || !MadeFrom(s, s.store.credentials[found].hash, current)
    ensures Apply(config, s, ChangeCompare(p, found, current, next, permitted)) == Some(With(s, p, Finished))
  {
  }

  /** An issued reset token that has not expired resets the password once. */
  lemma ResetSucceeds(config: Config, s: State, user: User, token: string, expiresAt: int, password: string, hash: nat)
    requires user in s.store.active && user in s.store.credentials
    requires token !in s.issued && expiresAt > s.clock && hash !in s.hashes
    ensures var issue := IssueToken(token, AuthToken(user, ForReset, expiresAt));
            var out := Run(config, s, [issue, UseReset(user.collectionID, token, password, hash)]);
            && out.Some? && out.value.calls == s.calls && token !in out.value.store.tokens && token in out.value.spent
            && PasswordReplaced(s, out.value, user, hash, password, config(user.collectionID).cost)
  {
    var issue := IssueToken(token, AuthToken(user, ForReset, expiresAt));
    RunTwo(config, s, issue, Apply(config, s, issue).value, UseReset(user.collectionID, token, password, hash));
    hide Run;
  }

  /** A token that is not there, expired, of another collection or for another purpose changes nothing. */
  lemma ResetNeedsItsToken(config: Config, s: State, collectionID: string, token: string, password: string, hash: nat)
    requires hash !in s.hashes
    requires || token !in s.store.tokens || s.store.tokens[token].expiresAt <= s.clock
             || s.store.tokens[token].user.collectionID != collectionID
             || s.store.tokens[token].purpose == ForVerification
    ensures Apply(config, s, UseReset(collectionID, token, password, hash)) == Some(s)
  {
  }

  /** An issued token takes the place of the user's others for the same purpose. */
  lemma TokenIsIssued(config: Config, s: State, token: string, issued: AuthToken)
    requires issued.user in s.store.active && token !in s.issued
    ensures var out := Apply(config, s, IssueToken(token, issued));
            && out.Some?
            && out.value == s.(store := s.store.(tokens := out.value.store.tokens), issued := s.issued + {token})
            && token in out.value.store.tokens && out.value.store.tokens[token] == issued
            && forall x | x != token :: x in out.value.store.tokens <==>
                 && x in s.store.tokens
                 && !(s.store.tokens[x].user == issued.user && s.store.tokens[x].purpose == issued.purpose)
  {
  }

  /** A usable verification token verifies its user, and does nothing else but be used up. */
  lemma TokenVerifies(config: Config, s: State, user: User, token: string)
    requires token in s.store.tokens && s.store.tokens[token].user == user && user in s.store.credentials
    requires s.store.tokens[token].purpose == ForVerification && s.store.tokens[token].expiresAt > s.clock
    ensures Apply(config, s, VerifyEmail(user.collectionID, token))
            == Some(s.(store := s.store.(tokens := s.store.tokens - {token},
                                         credentials := s.store.credentials[user :=
                                           s.store.credentials[user].(verified := true)]),
                       spent := s.spent + {token}))
  {
  }

  /** An issued verification token verifies the user, once. */
  lemma VerificationSucceeds(config: Config, s: State, user: User, token: string, expiresAt: int)
    requires user in s.store.active && user in s.store.credentials && token !in s.issued && expiresAt > s.clock
    ensures var issue := IssueToken(token, AuthToken(user, ForVerification, expiresAt));
            var out := Run(config, s, [issue, VerifyEmail(user.collectionID, token)]);
            && out.Some? && token !in out.value.store.tokens && token in out.value.spent
            && out.value.store.credentials == s.store.credentials[user := s.store.credentials[user].(verified := true)]
            && out.value.store.sessions == s.store.sessions && out.value.store.apiKeys == s.store.apiKeys
  {
    hide Run, Apply;
    var issue := IssueToken(token, AuthToken(user, ForVerification, expiresAt));
    TokenIsIssued(config, s, token, AuthToken(user, ForVerification, expiresAt));
    var issued := Apply(config, s, issue).value;
    TokenVerifies(config, issued, user, token);
    RunTwo(config, s, issue, issued, VerifyEmail(user.collectionID, token));
  }

  // ----- what refusals and failed hooks leave -----

  /** A step that access rules or hooks refuse ends its call and changes nothing else. */
  lemma RefusalsChangeNothing(config: Config, s: State, p: nat, rotated: string, id: string, tokenHash: string,
                              expiresAt: Option<int>)
    requires p in s.calls
    ensures s.calls[p].LoginMatched? ==> Apply(config, s, LoginAdmit(p, false)) == Some(With(s, p, Finished))
    ensures s.calls[p].RotateFound? && rotated !in s.origins ==>
              Apply(config, s, RotateStore(p, false, rotated)) == Some(With(s, p, Finished))
    ensures s.calls[p].KeyFound? && id !in s.keyOrigins ==>
              && Apply(config, s, KeyStore(p, false, id, tokenHash, expiresAt)) == Some(With(s, p, Finished))
              && (expiresAt.Some? && expiresAt.value <= s.calls[p].now ==>
                    Apply(config, s, KeyStore(p, true, id, tokenHash, expiresAt)) == Some(With(s, p, Finished)))
  {
  }

  /** When hooks fail after the fact, exactly the session or key just made is taken back. */
  lemma FailedHooksTakeBack(config: Config, s: State, p: nat)
    requires p in s.calls
    ensures s.calls[p].LoggedIn? ==>
              Apply(config, s, LoginAfter(p, false))
              == Some(With(s.(store := s.store.(sessions := s.store.sessions - {s.calls[p].token})), p, Finished))
    ensures s.calls[p].Rotated? ==>
              Apply(config, s, RotateAfter(p, false))
              == Some(With(s.(store := s.store.(sessions := s.store.sessions - {s.calls[p].token})), p, Finished))
    ensures s.calls[p].KeyMade? ==>
              Apply(config, s, KeyAfter(p, false))
              == Some(With(s.(store := s.store.(apiKeys := s.store.apiKeys - {s.calls[p].id})), p, Finished))
  {
  }

  // ----- a user's life -----

  /** Time only moves forward, and changes nothing else. */
  lemma TimeMovesForward(config: Config, s: State, now: int)
    ensures Apply(config, s, Tick(now)) == if now >= s.clock then Some(s.(clock := now)) else None
  {
  }

  /**
   * A new user is active, has the given password in a generation of its own and starts unverified
   * where verification is asked.
   */
  lemma CreationStoresUser(config: Config, s: State, user: User, password: string, hash: nat)
    requires user !in s.store.credentials && hash !in s.hashes
    ensures var out := Apply(config, s, CreateUser(user, password, hash));
            && out.Some? && out.value.store.active == s.store.active + {user}
            && out.value.store.credentials
               == s.store.credentials[user := Credential(hash, 0, None, !config(user.collectionID).verifyEmail)]
            && out.value.store.sessions == s.store.sessions && out.value.store.apiKeys == s.store.apiKeys
            && out.value.hashes == s.hashes[hash := Made(password, config(user.collectionID).cost, s.generations)]
            && out.value.generations == s.generations + 1
  {
  }

  /** A trashed user keeps everything but may not act until restored. */
  lemma TrashAndRestore(config: Config, s: State, user: User)
    ensures Apply(config, s, TrashUser(user))
            == Some(s.(store := s.store.(active := set u | u in s.store.active && u != user)))
    ensures Apply(config, s, RestoreUser(user)) == Some(s.(store := s.store.(active := s.store.active + {user})))
  {
    assert s.store.active - {user} == set u | u in s.store.active && u != user;
  }

  /** Nothing of the user is left, and everything of the others. */
  ghost predicate OnlyOthers(s: Store, t: Store, user: User) {
    && t.active == s.active - {user}
    && t.credentials.Keys == s.credentials.Keys - {user}
    && (forall u | u in t.credentials :: t.credentials[u] == s.credentials[u])
    && (forall x :: x in t.sessions <==> x in s.sessions && s.sessions[x].user != user)
    && (forall x | x in t.sessions :: t.sessions[x] == s.sessions[x])
    && (forall x :: x in t.apiKeys <==> x in s.apiKeys && s.apiKeys[x].user != user)
    && (forall x | x in t.apiKeys :: t.apiKeys[x] == s.apiKeys[x])
    && (forall x :: x in t.tokens <==> x in s.tokens && s.tokens[x].user != user)
    && (forall x | x in t.tokens :: t.tokens[x] == s.tokens[x])
  }

  lemma StoreDeletion(s: Store, user: User)
    ensures OnlyOthers(s, UserDeleted(s, user), user)
  {
    assert forall purpose: Purpose :: purpose.ForReset? || purpose.ForVerification?;
    assert forall x | x in s.tokens :: s.tokens[x].purpose == ForReset || s.tokens[x].purpose == ForVerification;
  }

  /** A deletion takes the credential, the sessions, the keys and the tokens of the user. */
  lemma DeletionTakesAll(config: Config, s: State, user: User)
    ensures var out := Apply(config, s, DeleteUser(user));
            out.Some? && out.value == s.(store := out.value.store) && OnlyOthers(s.store, out.value.store, user)
  {
    StoreDeletion(s.store, user);
    hide OnlyOthers, UserDeleted;
  }

  /** Dropping takes exactly what it names; logout, expiry and pruning are such steps. */
  lemma DroppingIsExact(config: Config, s: State, tokens: set<string>, ids: set<string>)
    ensures Apply(config, s, DropSessions(tokens))
            == Some(s.(store := s.store.(sessions :=
                 map t | t in s.store.sessions && t !in tokens :: s.store.sessions[t])))
    ensures Apply(config, s, DropKeys(ids))
            == Some(s.(store := s.store.(apiKeys := map k | k in s.store.apiKeys && k !in ids :: s.store.apiKeys[k])))
  {
    assert s.store.sessions - tokens == map t | t in s.store.sessions && t !in tokens :: s.store.sessions[t];
    assert s.store.apiKeys - ids == map k | k in s.store.apiKeys && k !in ids :: s.store.apiKeys[k];
  }

  /** Tokens are issued to active users only. */
  lemma IssueNeedsActive(config: Config, s: State, token: string, issued: AuthToken)
    requires issued.user !in s.store.active
    ensures var out := Apply(config, s, IssueToken(token, issued)); out.Some? ==> out.value.store == s.store
  {
  }

  /** A lock that has run out starts the count again, and then a password in force is let in. */
  lemma LocksRunOut(s: Store, user: User, now: int, maximum: nat, duration: nat)
    requires user in s.credentials && s.credentials[user].lockedUntil.Some?
    requires s.credentials[user].lockedUntil.value <= now
    ensures var t := FailureRecorded(s, user, now, maximum, duration);
            && t.credentials[user].failures == 1 && t.credentials[user].hash == s.credentials[user].hash
            && t.credentials[user].lockedUntil == (if 1 >= maximum then Some(now + duration) else None)
    ensures var (t, accepted) := AttemptsReset(s, user, now);
            && accepted && t.credentials[user].failures == 0 && t.credentials[user].lockedUntil.None?
            && t.credentials[user].hash == s.credentials[user].hash
  {
  }
}
