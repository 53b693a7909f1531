/** Coroutines on one event loop that share a cached login token and the lock around logging in.
    Each step is the code between two awaits. No static token is configured; a token stands for
    the login that produced it. */
module TokenProtocol {
  import ApiClient
  import opened Wrappers

  type Task = nat
  type Client = nat

  /** Where a coroutine is suspended.
      - `Entering`: about to open its client, which asks for a token
      - `WaitToken`: found no cached token and waits for the lock
      - `TokenLogin`: holds the lock, its login is in flight
      - `Idle`: between requests on an open client
      - `FirstGet`: the first GET of an attempt is in flight
      - `WaitRefresh`: got a 401 at `since` and waits for the lock
      - `RefreshLogin`: holds the lock, its login is in flight
      - `SecondGet`: the GET after the refresh is in flight, sent with `token`
      - `Backoff`: sleeps before the next attempt
      - `Done`: finished or failed */
  datatype Place =
    | Entering
    | WaitToken
    | TokenLogin(login: nat)
    | Idle
    | FirstGet
    | WaitRefresh(since: nat)
    | RefreshLogin(since: nat, login: nat)
    | SecondGet(since: nat, token: nat)
    | Backoff
    | Done

  /** A coroutine, the client it uses, and what its current request has done so far. */
  datatype Proc = Proc(place: Place, client: Client, attempts: nat, gets: nat, logins: nat)

  datatype Outcome = InFlight | Succeeded | Failed

  datatype Login = Login(started: nat, outcome: Outcome)

  /** The module's globals, the open clients' Authorization tokens, the coroutines, and a history:
      all logins in order of their start, how many refreshes began, how many logins failed. */
  datatype State = State(now: nat, cached: Option<nat>, holder: Option<Task>, headers: map<Client, nat>,
                         procs: map<Task, Proc>, logins: seq<Login>, refreshes: nat, failed: nat)

  // ---------- Steps ----------

  function Move(s: State, t: Task, p: Proc): State {
    s.(now := s.now + 1, procs := s.procs[t := p])
  }

  function NewLogin(s: State): Login {
    Login(s.now, InFlight)
  }

  function Finish(s: State, login: nat, outcome: Outcome): seq<Login>
    requires login < |s.logins|
  {
    s.logins[login := s.logins[login].(outcome := outcome)]
  }

  /** Opening with a cached token. */
  ghost predicate EnterCached(s: State, s': State, t: Task) {
    && t in s.procs && s.procs[t].place.Entering? && s.cached.Some?
    && s' == Move(s, t, s.procs[t].(place := Idle)).(headers := s.headers[s.procs[t].client := s.cached.value])
  }

  ghost predicate EnterWait(s: State, s': State, t: Task) {
    && t in s.procs && s.procs[t].place.Entering? && s.cached.None?
    && s' == Move(s, t, s.procs[t].(place := WaitToken))
  }

  /** Inside the lock a token has appeared meanwhile: it is used and the lock released. */
  ghost predicate RecheckCached(s: State, s': State, t: Task) {
    && t in s.procs && s.procs[t].place.WaitToken? && s.holder.None? && s.cached.Some?
    && s' == Move(s, t, s.procs[t].(place := Idle)).(headers := s.headers[s.procs[t].client := s.cached.value])
  }

  ghost predicate StartTokenLogin(s: State, s': State, t: Task) {
    && t in s.procs && s.procs[t].place.WaitToken? && s.holder.None? && s.cached.None?
    && s' == Move(s, t, s.procs[t].(place := TokenLogin(|s.logins|)))
             .(holder := Some(t), logins := s.logins + [NewLogin(s)])
  }

  /** The login answers: the token is cached, the lock released and the client opened with it. */
  ghost predicate TokenLoginOk(s: State, s': State, t: Task) {
    && t in s.procs && s.procs[t].place.TokenLogin? && s.procs[t].place.login < |s.logins|
    && var l := s.procs[t].place.login;
       s' == Move(s, t, s.procs[t].(place := Idle))
             .(holder := None, cached := Some(l), logins := Finish(s, l, Succeeded),
               headers := s.headers[s.procs[t].client := l])
  }

  ghost predicate TokenLoginFail(s: State, s': State, t: Task) {
    && t in s.procs && s.procs[t].place.TokenLogin? && s.procs[t].place.login < |s.logins|
    && var l := s.procs[t].place.login;
       s' == Move(s, t, s.procs[t].(place := Done))
             .(holder := None, logins := Finish(s, l, Failed), failed := s.failed + 1)
  }

  /** A request begins: counters start over and the first GET goes out. */
  ghost predicate StartRequest(s: State, s': State, t: Task) {
    && t in s.procs && s.procs[t].place.Idle? && s.procs[t].client in s.headers
    && s' == Move(s, t, s.procs[t].(place := FirstGet, attempts := 1, gets := 1, logins := 0))
  }

  /** An answer that is not an error, or a 404, ends the request. */
  ghost predicate GetOk(s: State, s': State, t: Task) {
    && t in s.procs && (s.procs[t].place.FirstGet? || s.procs[t].place.SecondGet?)
    && s' == Move(s, t, s.procs[t].(place := Idle))
  }

  /** Any other error status; after a refresh also a second 401. The third attempt's error is raised. */
  ghost predicate GetError(s: State, s': State, t: Task) {
    && t in s.procs && (s.procs[t].place.FirstGet? || s.procs[t].place.SecondGet?)
    && s' == Move(s, t, s.procs[t].(place := if s.procs[t].attempts < ApiClient.MAX_ATTEMPTS then Backoff else Done))
  }

  ghost predicate GetUnauthorized(s: State, s': State, t: Task) {
    && t in s.procs && s.procs[t].place.FirstGet?
    && s' == Move(s, t, s.procs[t].(place := WaitRefresh(s.now)))
  }

  ghost predicate Retry(s: State, s': State, t: Task) {
    && t in s.procs && s.procs[t].place.Backoff? && s.procs[t].client in s.headers
    && s' == Move(s, t, s.procs[t].(place := FirstGet, attempts := s.procs[t].attempts + 1,
                                    gets := s.procs[t].gets + 1))
  }

  /** Under the lock the cached token is dropped and a login started, whatever was cached. */
  ghost predicate StartRefresh(s: State, s': State, t: Task) {
    && t in s.procs && s.procs[t].place.WaitRefresh? && s.holder.None?
    && s' == Move(s, t, s.procs[t].(place := RefreshLogin(s.procs[t].place.since, |s.logins|),
                                    logins := s.procs[t].logins + 1))
             .(holder := Some(t), cached := None, logins := s.logins + [NewLogin(s)], refreshes := s.refreshes + 1)
  }

  /** The header is rewritten and the second GET sent before the next await. */
  ghost predicate RefreshOk(s: State, s': State, t: Task) {
    && t in s.procs && s.procs[t].place.RefreshLogin? && s.procs[t].place.login < |s.logins|
    && var RefreshLogin(since, l) := s.procs[t].place;
       s' == Move(s, t, s.procs[t].(place := SecondGet(since, l), gets := s.procs[t].gets + 1))
             .(holder := None, cached := Some(l), logins := Finish(s, l, Succeeded),
               headers := s.headers[s.procs[t].client := l])
  }

  /** A failed login leaves nothing cached. An HTTP error is retried like any other error status. */
  ghost predicate RefreshFail(s: State, s': State, t: Task) {
    && t in s.procs && s.procs[t].place.RefreshLogin? && s.procs[t].place.login < |s.logins|
    && s' == Move(s, t, s.procs[t].(place := if s.procs[t].attempts < ApiClient.MAX_ATTEMPTS then Backoff else Done))
             .(holder := None, logins := Finish(s, s.procs[t].place.login, Failed), failed := s.failed + 1)
  }

  /** A transport error, a malformed answer or a cancellation while the login is in flight is raised. */
  ghost predicate RefreshAbort(s: State, s': State, t: Task) {
    && t in s.procs && s.procs[t].place.RefreshLogin? && s.procs[t].place.login < |s.logins|
    && s' == Move(s, t, s.procs[t].(place := Done))
             .(holder := None, logins := Finish(s, s.procs[t].place.login, Failed), failed := s.failed + 1)
  }

  /** Cancellation, or an error outside the protocol, while the coroutine does not hold the lock. */
  ghost predicate Abandon(s: State, s': State, t: Task) {
    && t in s.procs && !s.procs[t].place.TokenLogin? && !s.procs[t].place.RefreshLogin?
    && s' == Move(s, t, s.procs[t].(place := Done))
  }

  /** A new coroutine that will open its own client. */
  ghost predicate Spawn(s: State, s': State, t: Task, c: Client) {
    t !in s.procs && s' == Move(s, t, Proc(Entering, c, 0, 0, 0))
  }

  /** A new coroutine on a client that is already open. */
  ghost predicate Share(s: State, s': State, t: Task, c: Client) {
    t !in s.procs && c in s.headers && s' == Move(s, t, Proc(Idle, c, 0, 0, 0))
  }

  ghost predicate LoginBegins(s: State, s': State, t: Task) {
    StartTokenLogin(s, s', t) || StartRefresh(s, s', t)
  }

  ghost predicate LoginSucceeds(s: State, s': State, t: Task) {
    TokenLoginOk(s, s', t) || RefreshOk(s, s', t)
  }

  ghost predicate LoginFails(s: State, s': State, t: Task) {
    TokenLoginFail(s, s', t) || RefreshFail(s, s', t) || RefreshAbort(s, s', t)
  }

  /** The steps that touch the logins. */
  ghost predicate LoginStep(s: State, s': State, t: Task) {
    LoginBegins(s, s', t) || LoginSucceeds(s, s', t) || LoginFails(s, s', t)
  }

  /** The steps that only read the token cache and send requests. */
  ghost predicate OtherStep(s: State, s': State, t: Task) {
    EnterCached(s, s', t) || EnterWait(s, s', t) || RecheckCached(s, s', t)
    || StartRequest(s, s', t) || GetOk(s, s', t) || GetError(s, s', t) || GetUnauthorized(s, s', t)
    || Retry(s, s', t) || Abandon(s, s', t)
  }

  ghost predicate Next(s: State, s': State) {
    || (exists t :: LoginStep(s, s', t))
    || (exists t :: OtherStep(s, s', t))
    || (exists t, c :: Spawn(s, s', t, c))
    || (exists t, c :: Share(s, s', t, c))
  }

  function Start(): State {
    State(0, None, None, map[], map[], [], 0, 0)
  }

  /** A run of the event loop: any interleaving of any number of coroutines. */
  ghost predicate IsRun(run: seq<State>) {
    && |run| > 0 && run[0] == Start()
    && forall i :: 0 <= i < |run| - 1 ==> Next(run[i], run[i + 1])
  }

  // ---------- Invariants ----------

  function LoginOf(p: Place): Option<nat> {
    if p.TokenLogin? || p.RefreshLogin? then Some(p.login) else None
  }

  /** The coroutine holding the lock is the one whose login is in flight, and there is no other login in flight. */
  ghost predicate LockInv(s: State) {
    && (forall t :: t in s.procs && LoginOf(s.procs[t].place).Some? ==> s.holder == Some(t))
    && (s.holder.Some? ==> s.holder.value in s.procs && LoginOf(s.procs[s.holder.value].place).Some?)
    && (forall i :: 0 <= i < |s.logins| && s.logins[i].outcome.InFlight? ==>
          s.holder.Some? && s.holder.value in s.procs && LoginOf(s.procs[s.holder.value].place) == Some(i))
    && (forall t :: t in s.procs && LoginOf(s.procs[t].place).Some? ==>
          LoginOf(s.procs[t].place).value < |s.logins| && s.logins[LoginOf(s.procs[t].place).value].outcome.InFlight?)
  }

  ghost predicate Issued(s: State, token: nat) {
    token < |s.logins| && s.logins[token].outcome.Succeeded?
  }

  /** Every token in use came from a login that succeeded. */
  ghost predicate TokenInv(s: State) {
    && (s.cached.Some? ==> Issued(s, s.cached.value))
    && (forall c :: c in s.headers ==> Issued(s, s.headers[c]))
    && (forall t :: t in s.procs && s.procs[t].place.SecondGet? ==> Issued(s, s.procs[t].place.token))
  }

  /** A login is paid for by a refresh, by a failure, or once by a cached or coming token. */
  ghost predicate CountInv(s: State) {
    |s.logins| <= s.refreshes + s.failed + (if s.cached.Some? || s.holder.Some? then 1 else 0)
  }

  /** A login that answers a 401 started after it. */
  ghost predicate AfterChallenge(now: nat, logins: seq<Login>, p: Place) {
    && (p.WaitRefresh? ==> p.since < now)
    && (p.RefreshLogin? ==> p.login < |logins| && p.since < logins[p.login].started)
    && (p.SecondGet? ==> p.token < |logins| && p.since < logins[p.token].started)
  }

  ghost predicate ClockInv(s: State) {
    forall t :: t in s.procs ==> AfterChallenge(s.now, s.logins, s.procs[t].place)
  }

  /** Per request: at most one login and two GETs an attempt, one GET less before the second goes out. */
  ghost predicate Spent(p: Proc) {
    && p.attempts <= ApiClient.MAX_ATTEMPTS && p.logins <= p.attempts && p.gets <= 2 * p.attempts
    && (p.place.FirstGet? || p.place.WaitRefresh? ==>
          p.attempts > 0 && p.logins < p.attempts && p.gets < 2 * p.attempts)
    && (p.place.RefreshLogin? ==> p.gets < 2 * p.attempts)
    && (p.place.Backoff? ==> p.attempts < ApiClient.MAX_ATTEMPTS)
  }

  ghost predicate RequestInv(s: State) {
    forall t :: t in s.procs ==> Spent(s.procs[t])
  }

  ghost predicate Inv(s: State) {
    LockInv(s) && TokenInv(s) && CountInv(s) && ClockInv(s) && RequestInv(s)
  }

  // ---------- Each step keeps them ----------

  /** What a step leaves alone. */
  ghost predicate OthersKept(s: State, s': State, t: Task) {
    && t in s.procs && s'.procs.Keys == s.procs.Keys && s.now < s'.now
    && (forall u :: u in s.procs && u != t ==> s'.procs[u] == s.procs[u])
  }

  lemma StepMovesOne(s: State, s': State, t: Task)
    requires LoginStep(s, s', t) || OtherStep(s, s', t)
    ensures OthersKept(s, s', t)
  {
    hide OthersKept;
    if LoginStep(s, s', t) {
      LoginMovesOne(s, s', t);
    } else {
      OtherMovesOne(s, s', t);
    }
  }

  lemma LoginMovesOne(s: State, s': State, t: Task)
    requires LoginStep(s, s', t)
    ensures OthersKept(s, s', t)
  {
  }

  lemma OtherMovesOne(s: State, s': State, t: Task)
    requires OtherStep(s, s', t)
    ensures OthersKept(s, s', t)
  {
  }

  lemma BeginKeepsLock(s: State, s': State, t: Task)
    requires LockInv(s) && LoginBegins(s, s', t)
    ensures LockInv(s')
  {
  }

  lemma SuccessKeepsLock(s: State, s': State, t: Task)
    requires LockInv(s) && LoginSucceeds(s, s', t)
    ensures LockInv(s')
  {
  }

  lemma FailureKeepsLock(s: State, s': State, t: Task)
    requires LockInv(s) && LoginFails(s, s', t)
    ensures LockInv(s')
  {
  }

  lemma OtherStepEffect(s: State, s': State, t: Task)
    requires OtherStep(s, s', t)
    ensures s'.logins == s.logins && s'.holder == s.holder && s'.cached == s.cached
    ensures s'.refreshes == s.refreshes && s'.failed == s.failed
    ensures s'.headers == s.headers
      || (s.cached.Some? && s'.headers == s.headers[s.procs[t].client := s.cached.value])
    ensures LoginOf(s.procs[t].place).None? && LoginOf(s'.procs[t].place).None?
    ensures s'.procs[t].place.SecondGet? ==> s.procs[t].place == s'.procs[t].place
    ensures s'.procs[t].place.WaitRefresh? ==> s'.procs[t].place.since < s'.now
  {
  }

  lemma OtherStepKeepsLock(s: State, s': State, t: Task)
    requires LockInv(s) && OtherStep(s, s', t)
    ensures LockInv(s')
  {
    hide OtherStep, LoginStep;
    OtherStepEffect(s, s', t);
    StepMovesOne(s, s', t);
  }

  /** A login's outcome does not change once it has succeeded, nor does its start. */
  ghost predicate LoginsGrow(logins: seq<Login>, logins': seq<Login>) {
    && |logins| <= |logins'|
    && (forall i :: 0 <= i < |logins| ==> logins'[i].started == logins[i].started)
    && (forall i :: 0 <= i < |logins| && logins[i].outcome.Succeeded? ==> logins'[i].outcome.Succeeded?)
  }

  lemma LoginsOnlyGrow(s: State, s': State, t: Task)
    requires LockInv(s) && LoginStep(s, s', t)
    ensures LoginsGrow(s.logins, s'.logins)
  {
    if LoginBegins(s, s', t) {
      hide LockInv, LoginSucceeds, LoginFails;
      LoginAdded(s.logins, NewLogin(s));
    } else {
      hide LoginBegins, LoginsGrow;
      var l := LoginOf(s.procs[t].place).value;
      LoginFinished(s, l, s'.logins[l].outcome);
    }
  }

  lemma LoginAdded(logins: seq<Login>, login: Login)
    ensures LoginsGrow(logins, logins + [login])
  {
  }

  lemma LoginFinished(s: State, l: nat, outcome: Outcome)
    requires l < |s.logins| && s.logins[l].outcome.InFlight?
    ensures LoginsGrow(s.logins, Finish(s, l, outcome))
  {
  }

  lemma LoginStepEffect(s: State, s': State, t: Task)
    requires LockInv(s) && LoginStep(s, s', t) && t in s'.procs
    ensures s'.cached.Some? ==> Issued(s', s'.cached.value) || s'.cached == s.cached
    ensures s'.headers == s.headers
      || (t in s.procs && s'.cached.Some? && s'.headers == s.headers[s.procs[t].client := s'.cached.value])
    ensures s'.procs[t].place.SecondGet? ==> s'.cached == Some(s'.procs[t].place.token)
  {
    hide LockInv;
    if LoginSucceeds(s, s', t) {
      SuccessEffect(s, s', t);
    }
  }

  lemma SuccessEffect(s: State, s': State, t: Task)
    requires LoginSucceeds(s, s', t)
    ensures s'.cached.Some? && Issued(s', s'.cached.value)
    ensures t in s.procs && s'.headers == s.headers[s.procs[t].client := s'.cached.value]
    ensures t in s'.procs && (s'.procs[t].place.SecondGet? ==> s'.procs[t].place.token == s'.cached.value)
  {
  }

  lemma LoginStepKeepsTokens(s: State, s': State, t: Task)
    requires LockInv(s) && TokenInv(s) && LoginStep(s, s', t)
    ensures TokenInv(s')
  {
    hide LoginStep, OtherStep, LockInv;
    LoginsOnlyGrow(s, s', t);
    StepMovesOne(s, s', t);
    LoginStepEffect(s, s', t);
    assert forall k :: Issued(s, k) ==> Issued(s', k);
  }

  lemma OtherStepKeepsTokens(s: State, s': State, t: Task)
    requires TokenInv(s) && OtherStep(s, s', t)
    ensures TokenInv(s')
  {
    hide OtherStep, LoginStep;
    OtherStepEffect(s, s', t);
    StepMovesOne(s, s', t);
    assert forall k :: Issued(s, k) ==> Issued(s', k);
  }

  lemma StepKeepsCount(s: State, s': State, t: Task)
    requires LockInv(s) && CountInv(s) && LoginStep(s, s', t)
    ensures CountInv(s')
  {
  }

  lemma ChallengeStays(now: nat, logins: seq<Login>, now': nat, logins': seq<Login>, p: Place)
    requires AfterChallenge(now, logins, p) && now <= now' && LoginsGrow(logins, logins')
    ensures AfterChallenge(now', logins', p)
  {
  }

  lemma MovedAfterChallenge(s: State, s': State, t: Task)
    requires LoginStep(s, s', t) && AfterChallenge(s.now, s.logins, s.procs[t].place)
    ensures AfterChallenge(s'.now, s'.logins, s'.procs[t].place)
  {
  }

  lemma StepKeepsClock(s: State, s': State, t: Task)
    requires LockInv(s) && ClockInv(s) && (LoginStep(s, s', t) || OtherStep(s, s', t))
    ensures ClockInv(s')
  {
    hide LoginStep, OtherStep, LockInv, AfterChallenge, LoginsGrow;
    StepMovesOne(s, s', t);
    if LoginStep(s, s', t) {
      LoginsOnlyGrow(s, s', t);
      MovedAfterChallenge(s, s', t);
    } else {
      OtherStepEffect(s, s', t);
      SameLoginsGrow(s.logins);
      OtherAfterChallenge(s, s', t);
    }
    forall u | u in s'.procs ensures AfterChallenge(s'.now, s'.logins, s'.procs[u].place) {
      if u != t {
        ChallengeStays(s.now, s.logins, s'.now, s'.logins, s.procs[u].place);
      }
    }
  }

  lemma SameLoginsGrow(logins: seq<Login>)
    ensures LoginsGrow(logins, logins)
  {
  }

  lemma OtherAfterChallenge(s: State, s': State, t: Task)
    requires OtherStep(s, s', t) && AfterChallenge(s.now, s.logins, s.procs[t].place)
    ensures AfterChallenge(s'.now, s'.logins, s'.procs[t].place)
  {
  }

  lemma LoginStepSpends(s: State, s': State, t: Task)
    requires LoginStep(s, s', t) && Spent(s.procs[t])
    ensures Spent(s'.procs[t])
  {
  }

  lemma OtherStepSpends(s: State, s': State, t: Task)
    requires OtherStep(s, s', t) && Spent(s.procs[t])
    ensures Spent(s'.procs[t])
  {
    if StartRequest(s, s', t) || Retry(s, s', t) {
      hide EnterCached, EnterWait, RecheckCached, GetOk, GetError, GetUnauthorized, Abandon;
      assert s'.procs[t].place.FirstGet?;
    } else {
      hide StartRequest, Retry;
      assert s'.procs[t] == s.procs[t].(place := s'.procs[t].place);
    }
  }

  lemma StepKeepsRequests(s: State, s': State, t: Task)
    requires RequestInv(s) && (LoginStep(s, s', t) || OtherStep(s, s', t))
    ensures RequestInv(s')
  {
    hide LoginStep, OtherStep, Spent;
    StepMovesOne(s, s', t);
    if LoginStep(s, s', t) {
      LoginStepSpends(s, s', t);
    } else {
      OtherStepSpends(s, s', t);
    }
  }

  lemma ArrivalKeepsInv(s: State, s': State, t: Task, c: Client)
    requires Inv(s) && (Spawn(s, s', t, c) || Share(s, s', t, c))
    ensures Inv(s')
  {
    ArrivalKeepsLock(s, s', t, c);
    ArrivalKeepsClock(s, s', t, c);
    assert forall k :: Issued(s, k) ==> Issued(s', k);
  }

  lemma ArrivalKeepsLock(s: State, s': State, t: Task, c: Client)
    requires LockInv(s) && (Spawn(s, s', t, c) || Share(s, s', t, c))
    ensures LockInv(s')
  {
  }

  lemma ArrivalKeepsClock(s: State, s': State, t: Task, c: Client)
    requires ClockInv(s) && (Spawn(s, s', t, c) || Share(s, s', t, c))
    ensures ClockInv(s')
  {
    SameLoginsGrow(s.logins);
    forall u | u in s'.procs ensures AfterChallenge(s'.now, s'.logins, s'.procs[u].place) {
      if u != t {
        ChallengeStays(s.now, s.logins, s'.now, s'.logins, s.procs[u].place);
      }
    }
  }

  lemma LoginStepKeepsInv(s: State, s': State, t: Task)
    requires Inv(s) && LoginStep(s, s', t)
    ensures Inv(s')
  {
    hide LockInv, TokenInv, CountInv, ClockInv, RequestInv, LoginBegins, LoginSucceeds, LoginFails;
    if LoginBegins(s, s', t) {
      BeginKeepsLock(s, s', t);
    } else if LoginSucceeds(s, s', t) {
      SuccessKeepsLock(s, s', t);
    } else {
      FailureKeepsLock(s, s', t);
    }
    LoginStepKeepsTokens(s, s', t);
    StepKeepsCount(s, s', t);
    StepKeepsClock(s, s', t);
    StepKeepsRequests(s, s', t);
  }

  lemma OtherStepKeepsInv(s: State, s': State, t: Task)
    requires Inv(s) && OtherStep(s, s', t)
    ensures Inv(s')
  {
    hide LockInv, TokenInv, ClockInv, RequestInv, OtherStep, LoginStep;
    OtherStepKeepsLock(s, s', t);
    OtherStepKeepsTokens(s, s', t);
    OtherStepEffect(s, s', t);
    StepKeepsClock(s, s', t);
    StepKeepsRequests(s, s', t);
  }

  lemma NextKeepsInv(s: State, s': State)
    requires Inv(s) && Next(s, s')
    ensures Inv(s')
  {
    hide LoginStep, OtherStep, Spawn, Share, Inv;
    if t :| LoginStep(s, s', t) {
      LoginStepKeepsInv(s, s', t);
    } else if t :| OtherStep(s, s', t) {
      OtherStepKeepsInv(s, s', t);
    } else if t, c :| Spawn(s, s', t, c) {
      ArrivalKeepsInv(s, s', t, c);
    } else {
      var t, c :| Share(s, s', t, c);
      ArrivalKeepsInv(s, s', t, c);
    }
  }

  lemma {:induction false} RunKeepsInv(run: seq<State>, i: nat)
    requires IsRun(run) && i < |run|
    ensures Inv(run[i])
  {
    if i > 0 {
      hide Inv, Next;
      RunKeepsInv(run, i - 1);
      assert Next(run[i - 1], run[i - 1 + 1]);
      NextKeepsInv(run[i - 1], run[i]);
    }
  }

  // ---------- What holds in every interleaving ----------

  ghost predicate LoginInFlight(s: State, i: int) {
    0 <= i < |s.logins| && s.logins[i].outcome.InFlight?
  }

  /** At most one login is in flight. */
  lemma OneLoginAtATime(run: seq<State>, i: nat, a: nat, b: nat)
    requires IsRun(run) && i < |run| && LoginInFlight(run[i], a) && LoginInFlight(run[i], b)
    ensures a == b
  {
    RunKeepsInv(run, i);
  }

  /** Every cached token and every client's header token came from a login that succeeded. */
  lemma TokensComeFromLogins(run: seq<State>, i: nat)
    requires IsRun(run) && i < |run|
    ensures run[i].cached.Some? ==> Issued(run[i], run[i].cached.value)
    ensures forall c :: c in run[i].headers ==> Issued(run[i], run[i].headers[c])
  {
    RunKeepsInv(run, i);
  }

  /** Logins number at most one more than the refreshes and the failed logins together. */
  lemma LoginsBounded(run: seq<State>, i: nat)
    requires IsRun(run) && i < |run|
    ensures |run[i].logins| <= 1 + run[i].refreshes + run[i].failed
  {
    RunKeepsInv(run, i);
  }

  /** Any number of cold callers, without a failure or a refresh, share one login and its token. */
  lemma ColdCallersShareOneLogin(run: seq<State>, i: nat)
    requires IsRun(run) && i < |run| && run[i].refreshes == 0 && run[i].failed == 0
    ensures |run[i].logins| <= 1
    ensures forall c :: c in run[i].headers ==> run[i].headers[c] == 0
  {
    RunKeepsInv(run, i);
  }

  /** The GET that follows a 401 carries a token whose login started after that 401. */
  lemma RetriedWithFreshToken(run: seq<State>, i: nat, t: Task)
    requires IsRun(run) && i < |run| && t in run[i].procs && run[i].procs[t].place.SecondGet?
    ensures var SecondGet(since, token) := run[i].procs[t].place;
      Issued(run[i], token) && since < run[i].logins[token].started
  {
    RunKeepsInv(run, i);
  }

  /** At this step the coroutine's GET after a refresh goes out. */
  ghost predicate SendsSecondGet(s: State, s': State, t: Task) {
    && t in s'.procs && s'.procs[t].place.SecondGet?
    && (t in s.procs ==> s.procs[t].place != s'.procs[t].place)
  }

  lemma SecondGetSent(s: State, s': State, t: Task)
    requires Next(s, s') && SendsSecondGet(s, s', t)
    ensures RefreshOk(s, s', t)
  {
    hide LoginStep, OtherStep;
    if u :| LoginStep(s, s', u) {
      StepMovesOne(s, s', u);
      assert u == t;
      RefreshSends(s, s', t);
    } else if u :| OtherStep(s, s', u) {
      StepMovesOne(s, s', u);
      OtherStepEffect(s, s', u);
    }
  }

  lemma RefreshSends(s: State, s': State, t: Task)
    requires LoginStep(s, s', t) && s'.procs[t].place.SecondGet?
    ensures RefreshOk(s, s', t)
  {
  }

  /** At every step of every run in which such a GET goes out, its token is the one in the client's
      header, and the login it came from started after the 401. */
  lemma HeaderIsFreshWhenSent(run: seq<State>, i: nat, t: Task)
    requires IsRun(run) && i + 1 < |run| && SendsSecondGet(run[i], run[i + 1], t)
    ensures var SecondGet(since, token) := run[i + 1].procs[t].place;
      var client := run[i + 1].procs[t].client;
      && client in run[i + 1].headers && run[i + 1].headers[client] == token
      && Issued(run[i + 1], token) && since < run[i + 1].logins[token].started
  {
    hide Next;
    assert Next(run[i], run[i + 1]);
    SecondGetSent(run[i], run[i + 1], t);
    RetriedWithFreshToken(run, i + 1, t);
  }

  /** One request makes at most three attempts, six GETs and three logins. */
  lemma RequestsBounded(run: seq<State>, i: nat, t: Task)
    requires IsRun(run) && i < |run| && t in run[i].procs
    ensures run[i].procs[t].attempts <= 3 && run[i].procs[t].gets <= 6 && run[i].procs[t].logins <= 3
  {
    RunKeepsInv(run, i);
    assert Spent(run[i].procs[t]);
  }

  /** The lock never blocks everyone: while a coroutine waits for it, the holder's login can answer, or,
      if there is no holder, the waiting coroutine itself can go on. */
  lemma WaitersProgress(run: seq<State>, i: nat, t: Task) returns (s': State)
    requires IsRun(run) && i < |run| && t in run[i].procs
    requires run[i].procs[t].place.WaitToken? || run[i].procs[t].place.WaitRefresh?
    ensures if run[i].holder.Some? then LoginSucceeds(run[i], s', run[i].holder.value)
            else LoginBegins(run[i], s', t) || RecheckCached(run[i], s', t)
  {
    RunKeepsInv(run, i);
    var s := run[i];
    if s.holder.Some? {
      var u := s.holder.value;
      s' := LoginAnswers(s, u);
    } else {
      s' := LockTaken(s, t);
    }
  }

  lemma LoginAnswers(s: State, u: Task) returns (s': State)
    requires LockInv(s) && s.holder == Some(u)
    ensures LoginSucceeds(s, s', u)
  {
    var l := LoginOf(s.procs[u].place).value;
    if s.procs[u].place.TokenLogin? {
      s' := Move(s, u, s.procs[u].(place := Idle))
            .(holder := None, cached := Some(l), logins := Finish(s, l, Succeeded),
              headers := s.headers[s.procs[u].client := l]);
      assert TokenLoginOk(s, s', u);
    } else {
      s' := Move(s, u, s.procs[u].(place := SecondGet(s.procs[u].place.since, l), gets := s.procs[u].gets + 1))
            .(holder := None, cached := Some(l), logins := Finish(s, l, Succeeded),
              headers := s.headers[s.procs[u].client := l]);
      assert RefreshOk(s, s', u);
    }
  }

  lemma LockTaken(s: State, t: Task) returns (s': State)
    requires t in s.procs && s.holder.None? && (s.procs[t].place.WaitToken? || s.procs[t].place.WaitRefresh?)
    ensures LoginBegins(s, s', t) || RecheckCached(s, s', t)
  {
    if s.procs[t].place.WaitRefresh? {
      s' := Move(s, t, s.procs[t].(place := RefreshLogin(s.procs[t].place.since, |s.logins|),
                                   logins := s.procs[t].logins + 1))
            .(holder := Some(t), cached := None, logins := s.logins + [NewLogin(s)], refreshes := s.refreshes + 1);
      assert StartRefresh(s, s', t);
    } else if s.cached.Some? {
      s' := Move(s, t, s.procs[t].(place := Idle)).(headers := s.headers[s.procs[t].client := s.cached.value]);
    } else {
      s' := Move(s, t, s.procs[t].(place := TokenLogin(|s.logins|)))
            .(holder := Some(t), logins := s.logins + [NewLogin(s)]);
      assert StartTokenLogin(s, s', t);
    }
  }

  // ---------- An ordinary run ----------

  lemma Extended(run: seq<State>, s': State)
    requires IsRun(run) && Next(run[|run| - 1], s')
    ensures IsRun(run + [s'])
  {
    hide Next;
    var longer := run + [s'];
    forall i | 0 <= i < |longer| - 1 ensures Next(longer[i], longer[i + 1]) {
      if i + 1 < |run| {
        assert Next(run[i], run[i + 1]);
      }
    }
  }

  /** Two cold clients: the first logs in, the second waits and takes over the cached token. */
  lemma TwoColdClients() returns (run: seq<State>)
    ensures IsRun(run)
    ensures var s := run[|run| - 1];
      && s.now == 7 && s.cached == Some(0) && s.holder == None && s.headers == map[0 := 0, 1 := 0]
      && s.procs == map[0 := Proc(Idle, 0, 0, 0, 0), 1 := Proc(Idle, 1, 0, 0, 0)]
      && s.logins == [Login(4, Succeeded)] && s.refreshes == 0 && s.failed == 0
  {
    var cold0, cold1 := Proc(Entering, 0, 0, 0, 0), Proc(Entering, 1, 0, 0, 0);
    var s0 := State(0, None, None, map[], map[], [], 0, 0);
    var s1 := s0.(now := 1, procs := map[0 := cold0]);
    var s2 := s1.(now := 2, procs := map[0 := cold0, 1 := cold1]);
    var s3 := s2.(now := 3, procs := s2.procs[0 := cold0.(place := WaitToken)]);
    var s4 := s3.(now := 4, procs := s3.procs[1 := cold1.(place := WaitToken)]);
    var s5 := s4.(now := 5, procs := s4.procs[0 := cold0.(place := TokenLogin(0))], holder := Some(0),
                  logins := [Login(4, InFlight)]);
    var s6 := s5.(now := 6, procs := s5.procs[0 := cold0.(place := Idle)], holder := None, cached := Some(0),
                  logins := [Login(4, Succeeded)], headers := map[0 := 0]);
    var s7 := s6.(now := 7, procs := s6.procs[1 := cold1.(place := Idle)], headers := map[0 := 0, 1 := 0]);
    assert Spawn(s0, s1, 0, 0);
    assert Spawn(s1, s2, 1, 1);
    assert EnterWait(s2, s3, 0) && OtherStep(s2, s3, 0);
    assert EnterWait(s3, s4, 1) && OtherStep(s3, s4, 1);
    assert StartTokenLogin(s4, s5, 0) && LoginStep(s4, s5, 0);
    assert TokenLoginOk(s5, s6, 0) && LoginStep(s5, s6, 0);
    assert RecheckCached(s6, s7, 1) && OtherStep(s6, s7, 1);
    run := [s0, s1, s2, s3, s4, s5, s6, s7];
  }

  /** An open client's request meets an error status, is retried after a pause, and meets a 401. */
  lemma ErrorRetried(run: seq<State>, t: Task, c: Client) returns (longer: seq<State>)
    requires IsRun(run) && t in run[|run| - 1].procs && run[|run| - 1].procs[t] == Proc(Idle, c, 0, 0, 0)
    requires c in run[|run| - 1].headers
    ensures IsRun(longer)
    ensures var s := run[|run| - 1];
      longer[|longer| - 1] ==
        s.(now := s.now + 4, procs := s.procs[t := Proc(WaitRefresh(s.now + 3), c, 2, 2, 0)])
  {
    hide Next;
    var s := run[|run| - 1];
    var s1 := s.(now := s.now + 1, procs := s.procs[t := Proc(FirstGet, c, 1, 1, 0)]);
    var s2 := s1.(now := s.now + 2, procs := s.procs[t := Proc(Backoff, c, 1, 1, 0)]);
    var s3 := s2.(now := s.now + 3, procs := s.procs[t := Proc(FirstGet, c, 2, 2, 0)]);
    var s4 := s3.(now := s.now + 4, procs := s.procs[t := Proc(WaitRefresh(s.now + 3), c, 2, 2, 0)]);
    OtherNext(s, s1, t) by { assert StartRequest(s, s1, t); }
    OtherNext(s1, s2, t) by { assert GetError(s1, s2, t); }
    OtherNext(s2, s3, t) by { assert Retry(s2, s3, t); }
    OtherNext(s3, s4, t) by { assert GetUnauthorized(s3, s4, t); }
    longer := FourMore(run, s1, s2, s3, s4);
  }

  lemma FourMore(run: seq<State>, a: State, b: State, c: State, d: State) returns (longer: seq<State>)
    requires IsRun(run) && Next(run[|run| - 1], a) && Next(a, b) && Next(b, c) && Next(c, d)
    ensures IsRun(longer) && longer[|longer| - 1] == d
  {
    hide Next;
    Extended(run, a);
    Extended(run + [a], b);
    Extended(run + [a] + [b], c);
    Extended(run + [a] + [b] + [c], d);
    longer := run + [a] + [b] + [c] + [d];
  }

  /** The 401 is answered by a login, the second GET goes out with its token, and its answer ends the request. */
  lemma UnauthorizedRefreshed(run: seq<State>, t: Task, p: Proc) returns (longer: seq<State>)
    requires IsRun(run) && t in run[|run| - 1].procs && run[|run| - 1].procs[t] == p
    requires p.place.WaitRefresh? && run[|run| - 1].holder == None
    ensures IsRun(longer)
    ensures var s := run[|run| - 1];
      longer[|longer| - 1] ==
        State(s.now + 3, Some(|s.logins|), None, s.headers[p.client := |s.logins|],
              s.procs[t := Proc(Idle, p.client, p.attempts, p.gets + 1, p.logins + 1)],
              s.logins + [Login(s.now, Succeeded)], s.refreshes + 1, s.failed)
  {
    hide Next;
    var s, n, since := run[|run| - 1], |run[|run| - 1].logins|, p.place.since;
    var s1 := s.(now := s.now + 1,
                 procs := s.procs[t := Proc(RefreshLogin(since, n), p.client, p.attempts, p.gets, p.logins + 1)],
                 holder := Some(t), cached := None, logins := s.logins + [Login(s.now, InFlight)],
                 refreshes := s.refreshes + 1);
    var s2 := s1.(now := s.now + 2,
                  procs := s.procs[t := Proc(SecondGet(since, n), p.client, p.attempts, p.gets + 1, p.logins + 1)],
                  holder := None, cached := Some(n), logins := s.logins + [Login(s.now, Succeeded)],
                  headers := s.headers[p.client := n]);
    var s3 := s2.(now := s.now + 3,
                  procs := s.procs[t := Proc(Idle, p.client, p.attempts, p.gets + 1, p.logins + 1)]);
    LoginNext(s, s1, t) by { assert StartRefresh(s, s1, t); }
    LoginNext(s1, s2, t) by { assert RefreshOk(s1, s2, t); }
    OtherNext(s2, s3, t) by { assert GetOk(s2, s3, t); }
    Extended(run, s1);
    Extended(run + [s1], s2);
    Extended(run + [s1] + [s2], s3);
    longer := run + [s1] + [s2] + [s3];
  }

  lemma OtherNext(s: State, s': State, t: Task)
    requires OtherStep(s, s', t)
    ensures Next(s, s')
  {
    hide LoginStep, OtherStep;
  }

  lemma LoginNext(s: State, s': State, t: Task)
    requires LoginStep(s, s', t)
    ensures Next(s, s')
  {
    hide LoginStep, OtherStep;
  }
}
