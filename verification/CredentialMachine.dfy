/**
 * The credential flows driving the mutable store: each step makes the store call the flow makes
 * there and keeps what the flow has learnt. The steps are the protocol's, so its results hold of
 * the object after any interleaving.
 */
module CredentialMachine {
  import opened Wrappers
  import opened CredentialStore
  import opened CredentialProtocol
  import opened CredentialSafety

  class Machine {
    const config: Config
    const store: MemoryStore
    var clock: int
    var hashes: map<nat, Made>
    var generations: nat
    var origins: map<string, Origin>
    var keyOrigins: map<string, Origin>
    var births: map<string, Birth>
    var issued: set<string>
    var spent: set<string>
    var calls: map<nat, Call>

    /** The protocol state this object is in. */
    ghost function Contents(): State
      reads this, store
    {
      State(store.State(), clock, hashes, generations, origins, keyOrigins, births, issued, spent, calls)
    }

    constructor (config: Config, now: int)
      ensures fresh(store) && this.config == config && Initial(Contents())
    {
      this.config, clock, generations := config, now, 0;
      hashes, origins, keyOrigins, births, calls := map[], map[], map[], map[], map[];
      issued, spent := {}, {};
      store := new MemoryStore();
    }

    /** A password the user chose was hashed and installed. */
    method BeginGeneration(hash: nat, password: string, cost: nat)
      modifies this`hashes, this`generations
      ensures hashes == old(hashes)[hash := Made(password, cost, old(generations))]
      ensures generations == old(generations) + 1
    {
      hashes, generations := hashes[hash := Made(password, cost, generations)], generations + 1;
    }

    method PerformLogin(a: Action) returns (done: bool)
      requires a.LoginFind? || a.LoginCompare? || a.LoginRecordFailure? || a.LoginAdmit?
      modifies this`calls, store
      ensures done <==> ApplyLogin(config, old(Contents()), a).Some?
      ensures Contents() == if done then ApplyLogin(config, old(Contents()), a).value else old(Contents())
    {
      hide FailureRecorded;
      match a {
        case LoginFind(p, user, password) =>
          if p in calls { return false; }
          var credential := store.FindCredential(user);
          calls := calls[p := if credential.None? then Finished
                              else LoginFound(user, password, clock, credential.value)];
        case LoginCompare(p) =>
          if p !in calls || !calls[p].LoginFound? { return false; }
          var c := calls[p];
          var settings := config(c.user.collectionID);
          if !(c.credential.hash in hashes && hashes[c.credential.hash].password == c.password) {
            calls := calls[p := if settings.maxLoginAttempts > 0 then LoginRefused(c.user, c.now) else Finished];
          } else if Locked(c.credential, c.now) || (settings.verifyEmail && !c.credential.verified) {
            calls := calls[p := Finished];
          } else {
            calls := calls[p := LoginMatched(c.user, c.password, c.now, c.credential.hash)];
          }
        case LoginRecordFailure(p) =>
          if p !in calls || !calls[p].LoginRefused? { return false; }
          var c := calls[p];
          var settings := config(c.user.collectionID);
          var _ := store.RecordFailedLogin(c.user, c.now, settings.maxLoginAttempts, settings.lockDuration);
          calls := calls[p := Finished];
        case LoginAdmit(p, permitted) =>
          if p !in calls || !calls[p].LoginMatched? { return false; }
          var c := calls[p];
          if !permitted {
            calls := calls[p := Finished];
          } else {
            var accepted := Ok(true);
            if config(c.user.collectionID).maxLoginAttempts > 0 {
              accepted := store.ResetLoginAttempts(c.user, c.now);
            }
            calls := calls[p := if accepted == Ok(true) then
                                  LoginReady(c.user, c.password, c.now, c.observed, c.observed)
                                else Finished];
          }
      }
      return true;
    }

    method PerformUpgrade(p: nat, hash: nat) returns (done: bool)
      modifies this`calls, this`hashes, store
      ensures done <==> ApplyLogin(config, old(Contents()), LoginUpgrade(p, hash)).Some?
      ensures Contents() == if done then ApplyLogin(config, old(Contents()), LoginUpgrade(p, hash)).value
                            else old(Contents())
    {
      if p !in calls || !calls[p].LoginReady? || calls[p].expected !in hashes || hash in hashes { return false; }
      var c := calls[p];
      var settings, made := config(c.user.collectionID), hashes[c.expected];
      if made.cost >= settings.cost { return false; }
      var error := store.UpgradePasswordHash(c.user, c.expected, hash);
      if error.Some? {
        calls := calls[p := Finished];
      } else {
        hashes := hashes[hash := Made(c.password, settings.cost, made.generation)];
        calls := calls[p := LoginReady(c.user, c.password, c.now, c.observed, hash)];
      }
      return true;
    }

    method PerformCreate(p: nat, token: string, id: string) returns (done: bool)
      modifies this`calls, this`origins, this`births, store
      ensures done <==> ApplyLogin(config, old(Contents()), LoginCreate(p, token, id)).Some?
      ensures Contents() == if done then ApplyLogin(config, old(Contents()), LoginCreate(p, token, id)).value
                            else old(Contents())
    {
      if p !in calls || !calls[p].LoginReady? || calls[p].expected !in hashes || token in origins || id in births {
        return false;
      }
      var c := calls[p];
      var settings := config(c.user.collectionID);
      if hashes[c.expected].cost < settings.cost { return false; }
      var session := Session(id, c.user, c.now, c.now + settings.sessionDuration, c.now);
      RefusedCreation(store.State(), token, session, c.expected);
      hide SessionCreated;
      var error := store.CreateSession(token, session, c.expected);
      if error.Some? {
        calls := calls[p := Finished];
      } else {
        origins := origins[token := Origin(c.password, c.observed)];
        births := births[id := Birth(c.user, session.createdAt, session.expiresAt)];
        calls := calls[p := LoggedIn(token)];
      }
      return true;
    }

    /** A login whose later hooks fail takes its session back. */
    method PerformAfter(p: nat, hooksPass: bool) returns (done: bool)
      modifies this`calls, store
      ensures done <==> ApplyLogin(config, old(Contents()), LoginAfter(p, hooksPass)).Some?
      ensures Contents() == if done then ApplyLogin(config, old(Contents()), LoginAfter(p, hooksPass)).value
                            else old(Contents())
    {
      if p !in calls || !calls[p].LoggedIn? { return false; }
      if !hooksPass { store.DeleteSessions({calls[p].token}); }
      calls := calls[p := Finished];
      return true;
    }

    method PerformRotation(a: Action) returns (done: bool)
      requires a.RotateFind? || a.RotateStore? || a.RotateAfter?
      modifies this`calls, this`origins, store
      requires SessionsKnown(store.sessions, origins)
      ensures done <==> ApplySession(config, old(Contents()), a).Some?
      ensures Contents() == if done then ApplySession(config, old(Contents()), a).value else old(Contents())
    {
      match a {
        case RotateFind(p, token) =>
          if p in calls { return false; }
          var session := store.FindSession(token, clock);
          calls := calls[p := if session.None? then Finished else RotateFound(token, session.value.user, clock)];
        case RotateStore(p, permitted, rotated) =>
          if p !in calls || !calls[p].RotateFound? || rotated in origins { return false; }
          var c := calls[p];
          var error := Some(NotFound);
          if permitted { error := store.RotateSession(c.token, c.user, rotated, c.now); }
          if error.Some? {
            calls := calls[p := Finished];
          } else {
            origins, calls := origins[rotated := origins[c.token]], calls[p := Rotated(rotated)];
          }
        case RotateAfter(p, hooksPass) =>
          if p !in calls || !calls[p].Rotated? { return false; }
          if !hooksPass { store.DeleteSessions({calls[p].token}); }
          calls := calls[p := Finished];
      }
      return true;
    }

    method PerformKey(a: Action) returns (done: bool)
      requires a.KeyFind? || a.KeyStore? || a.KeyAfter?
      modifies this`calls, this`keyOrigins, store
      requires SessionsKnown(store.sessions, origins)
      ensures done <==> ApplySession(config, old(Contents()), a).Some?
      ensures Contents() == if done then ApplySession(config, old(Contents()), a).value else old(Contents())
    {
      match a {
        case KeyFind(p, token) =>
          if p in calls { return false; }
          var session := store.FindSession(token, clock);
          calls := calls[p := if session.None? then Finished else KeyFound(token, session.value.user, clock)];
        case KeyStore(p, permitted, id, tokenHash, expiresAt) =>
          if p !in calls || !calls[p].KeyFound? || id in keyOrigins { return false; }
          var c := calls[p];
          var error := Some(NotFound);
          if permitted && !(expiresAt.Some? && expiresAt.value <= c.now) {
            error := store.CreateAPIKey(id, ApiKey(c.user, tokenHash, expiresAt), c.token, c.now);
          }
          if error.Some? {
            calls := calls[p := Finished];
          } else {
            keyOrigins, calls := keyOrigins[id := origins[c.token]], calls[p := KeyMade(id)];
          }
        case KeyAfter(p, hooksPass) =>
          if p !in calls || !calls[p].KeyMade? { return false; }
          if !hooksPass { store.DeleteKeys({calls[p].id}); }
          calls := calls[p := Finished];
      }
      return true;
    }

    method PerformChange(a: Action) returns (done: bool)
      requires a.ChangeFind? || a.ChangeCompare? || a.ChangeStore?
      modifies this`calls, this`hashes, this`generations, store
      ensures done <==> ApplyPassword(config, old(Contents()), a).Some?
      ensures Contents() == if done then ApplyPassword(config, old(Contents()), a).value else old(Contents())
    {
      match a {
        case ChangeFind(p, token) =>
          if p in calls { return false; }
          var session := store.FindSession(token, clock);
          calls := calls[p := if session.None? then Finished else ChangeFound(session.value.user)];
        case ChangeCompare(p, found, current, next, permitted) =>
          if p !in calls || !calls[p].ChangeFound? { return false; }
          var credential := store.FindCredential(found);
          if credential.None? || !permitted
             || !(credential.value.hash in hashes && hashes[credential.value.hash].password == current) {
            calls := calls[p := Finished];
          } else {
            calls := calls[p := ChangeReady(calls[p].user, credential.value.hash, next)];
          }
        case ChangeStore(p, hash) =>
          if p !in calls || !calls[p].ChangeReady? || hash in hashes { return false; }
          var c := calls[p];
          var error := store.ChangePasswordHash(c.user, c.expected, hash);
          if error.None? { BeginGeneration(hash, c.next, config(c.user.collectionID).cost); }
          calls := calls[p := Finished];
      }
      return true;
    }

    method PerformToken(a: Action) returns (done: bool)
      requires a.IssueToken? || a.UseReset?
      modifies this`issued, this`spent, this`hashes, this`generations, store
      ensures done <==> ApplyPassword(config, old(Contents()), a).Some?
      ensures Contents() == if done then ApplyPassword(config, old(Contents()), a).value else old(Contents())
    {
      match a {
        case IssueToken(token, entry) =>
          if token in issued { return false; }
          var _ := store.CreateAuthToken(token, entry);
          issued := issued + {token};
        case UseReset(collectionID, token, password, hash) =>
          if hash in hashes { return false; }
          var error := store.ResetPasswordWithToken(collectionID, token, hash, clock);
          if error.None? {
            BeginGeneration(hash, password, config(collectionID).cost);
            spent := spent + {token};
          }
      }
      return true;
    }

    method PerformOther(a: Action) returns (done: bool)
      requires a.Tick? || a.CreateUser? || a.VerifyEmail? || a.TrashUser? || a.RestoreUser? || a.DeleteUser?
               || a.DropSessions? || a.DropKeys?
      modifies this`clock, this`spent, this`hashes, this`generations, store
      ensures done <==> ApplyOther(config, old(Contents()), a).Some?
      ensures Contents() == if done then ApplyOther(config, old(Contents()), a).value else old(Contents())
    {
      match a {
        case Tick(now) =>
          if now < clock { return false; }
          clock := now;
        case CreateUser(user, password, hash) =>
          if user in store.credentials || hash in hashes { return false; }
          var settings := config(user.collectionID);
          store.CreateCredential(user, Credential(hash, 0, None, !settings.verifyEmail));
          BeginGeneration(hash, password, settings.cost);
        case VerifyEmail(collectionID, token) =>
          var error := store.VerifyEmailWithToken(collectionID, token, clock);
          if error.None? { spent := spent + {token}; }
        case TrashUser(user) => store.SetActive(user, false);
        case RestoreUser(user) => store.SetActive(user, true);
        case DeleteUser(user) => store.DeleteUser(user);
        case DropSessions(tokens) => store.DeleteSessions(tokens);
        case DropKeys(ids) => store.DeleteKeys(ids);
      }
      return true;
    }

    /** One step of any flow, or nothing where the step is not enabled. */
    method Perform(a: Action) returns (done: bool)
      requires SessionsKnown(store.sessions, origins)
      modifies this, store
      ensures done <==> Apply(config, old(Contents()), a).Some?
      ensures Contents() == if done then Apply(config, old(Contents()), a).value else old(Contents())
    {
      hide ApplyLogin, ApplySession, ApplyPassword, ApplyOther;
      if a.LoginFind? || a.LoginCompare? || a.LoginRecordFailure? || a.LoginAdmit? {
        done := PerformLogin(a);
      } else if a.LoginUpgrade? {
        done := PerformUpgrade(a.p, a.hash);
      } else if a.LoginCreate? {
        done := PerformCreate(a.p, a.token, a.id);
      } else if a.LoginAfter? {
        done := PerformAfter(a.p, a.hooksPass);
      } else if a.RotateFind? || a.RotateStore? || a.RotateAfter? {
        done := PerformRotation(a);
      } else if a.KeyFind? || a.KeyStore? || a.KeyAfter? {
        done := PerformKey(a);
      } else if a.ChangeFind? || a.ChangeCompare? || a.ChangeStore? {
        done := PerformChange(a);
      } else if a.IssueToken? || a.UseReset? {
        done := PerformToken(a);
      } else {
        done := PerformOther(a);
      }
    }

    /**
     * Any interleaving of flows over the mutable store, started as a new process and stopped at
     * the first step that is not enabled: the object ends as the protocol's run does, and every
     * session it holds belongs to its user's password in force.
     */
    method Play(actions: seq<Action>) returns (played: nat)
      requires Initial(Contents())
      modifies this, store
      ensures played <= |actions| && Run(config, old(Contents()), actions[..played]) == Some(Contents())
      ensures played < |actions| ==> Apply(config, Contents(), actions[played]).None?
      ensures forall t | t in store.sessions ::
                && t in origins && store.sessions[t].user in store.credentials
                && Fits(hashes, origins[t], store.credentials[store.sessions[t].user].hash)
      ensures forall k | k in store.apiKeys ::
                && k in keyOrigins && store.apiKeys[k].user in store.credentials
                && Fits(hashes, keyOrigins[k], store.credentials[store.apiKeys[k].user].hash)
    {
      hide Run, Apply, Inv, Initial;
      ghost var start := Contents();
      InitialIsSafe(config, start);
      RunNothing(config, start);
      played := 0;
      while played < |actions|
        invariant played <= |actions| && Run(config, start, actions[..played]) == Some(Contents())
        invariant Inv(config, Contents())
      {
        InvariantParts(config, Contents());
        ghost var before := Contents();
        var done := Perform(actions[played]);
        if !done {
          InvariantParts(config, before);
          return;
        }
        StepKeeps(config, before, actions[played]);
        RunOneMore(config, start, actions, played);
        played := played + 1;
      }
      InvariantParts(config, Contents());
    }
  }

  lemma RefusedCreation(s: Store, token: string, session: Session, expected: nat)
    ensures var (t, error) := SessionCreated(s, token, session, expected);
            (error.Some? ==> t == s) && t == s.(sessions := t.sessions)
  {
  }

  /** Every session's token has a recorded origin. */
  predicate SessionsKnown(sessions: map<string, Session>, origins: map<string, Origin>) {
    forall t | t in sessions :: t in origins
  }

  lemma InvariantParts(config: Config, s: State)
    requires Inv(config, s)
    ensures SessionsKnown(s.store.sessions, s.origins)
    ensures forall t | t in s.store.sessions ::
              && t in s.origins && s.store.sessions[t].user in s.store.credentials
              && Fits(s.hashes, s.origins[t], s.store.credentials[s.store.sessions[t].user].hash)
    ensures forall k | k in s.store.apiKeys ::
              && k in s.keyOrigins && s.store.apiKeys[k].user in s.store.credentials
              && Fits(s.hashes, s.keyOrigins[k], s.store.credentials[s.store.apiKeys[k].user].hash)
  {
    hide Fits, BirthsOk, HashesOk, TokensOk, CallsOk;
  }

  lemma RunNothing(config: Config, s: State)
    ensures Run(config, s, []) == Some(s)
  {
  }

  lemma {:induction false} RunOneMore(config: Config, s: State, actions: seq<Action>, n: nat)
    requires n < |actions| && Run(config, s, actions[..n]).Some?
    ensures Run(config, s, actions[..n + 1]) == Apply(config, Run(config, s, actions[..n]).value, actions[n])
    decreases n
  {
    hide Apply;
    if n == 0 {
      assert actions[..1][1..] == [];
    } else {
      assert actions[..n][1..] == actions[1..][..n - 1] && actions[..n + 1][1..] == actions[1..][..n];
      RunOneMore(config, Apply(config, s, actions[0]).value, actions[1..], n - 1);
    }
  }
}
