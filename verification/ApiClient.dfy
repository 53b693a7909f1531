/** One client's requests without interruption: token acquisition, refresh on 401, and retries.
    What other coroutines may do in between is the subject of `TokenProtocol`. */
module ApiClient {
  import opened PythonText
  import opened Wrappers

  datatype Token = StaticToken(text: Str) | LoginToken(login: nat)

  datatype LoginReply = TokenGranted | LoginHttpError | LoginOtherError

  /** A GET's response, or none: a transport error. */
  datatype Reply = Status(code: int) | NoReply

  /** `reply(n)` answers the n-th GET and `login(n)` the n-th login of the process. */
  datatype Net = Net(reply: nat -> Reply, login: nat -> LoginReply)

  /** What goes over the wire, with the boundaries between attempts. */
  datatype Event = AttemptBegins | Sent(token: Token, reply: Reply) | LoggedIn(login: nat) | LoginRefused(login: nat)

  datatype Failure = HttpStatusError | OtherError

  datatype Answer = Payload | NotFound | Raised(failure: Failure)

  /** The module's cached token, the logins and GETs so far, the client's header, and the history. */
  datatype Context = Context(cached: Option<nat>, logins: nat, gets: nat, header: Token, events: seq<Event>)

  const MAX_ATTEMPTS: nat := 3

  predicate Blank(s: Str) {
    forall i :: 0 <= i < |s| ==> IsSpace(s[i])
  }

  predicate IsSuccess(status: int) {
    200 <= status <= 299
  }

  // ---------- Specification ----------

  /** A login: its token is cached, or the cache stays as it is. */
  function Login(net: Net, c: Context): (Context, Option<Failure>) {
    match net.login(c.logins)
    case TokenGranted =>
      (c.(cached := Some(c.logins), logins := c.logins + 1, events := c.events + [LoggedIn(c.logins)]), None)
    case LoginHttpError =>
      (c.(logins := c.logins + 1, events := c.events + [LoginRefused(c.logins)]), Some(HttpStatusError))
    case LoginOtherError =>
      (c.(logins := c.logins + 1, events := c.events + [LoginRefused(c.logins)]), Some(OtherError))
  }

  /** The token a client opens with: the static one unless blank, else the cached one, else a new one. */
  function Opened(net: Net, staticToken: Str, c: Context): (Context, Option<Failure>) {
    if !Blank(staticToken) then (c.(header := StaticToken(staticToken)), None)
    else if c.cached.Some? then (c.(header := LoginToken(c.cached.value)), None)
    else
      var (after, failure) := Login(net, c);
      (if failure.None? then after.(header := LoginToken(c.logins)) else after, failure)
  }

  /** With any static text configured, a blank one too, a refresh does nothing. */
  function Refreshed(net: Net, staticToken: Str, c: Context): (Context, Option<Failure>) {
    if staticToken != [] then (c, None)
    else
      var (after, failure) := Login(net, c.(cached := None));
      (if failure.None? then after.(header := LoginToken(c.logins)) else after, failure)
  }

  function SendGet(net: Net, c: Context): Context {
    c.(gets := c.gets + 1, events := c.events + [Sent(c.header, net.reply(c.gets))])
  }

  const UNAUTHORIZED := Status(401)

  function AnswerOf(reply: Reply): Answer {
    match reply
    case NoReply => Raised(OtherError)
    case Status(code) =>
      if code == 404 then NotFound else if IsSuccess(code) then Payload else Raised(HttpStatusError)
  }

  /** A GET, and after a 401 a refresh and a second GET. */
  function Attempt(net: Net, staticToken: Str, before: Context): (Context, Answer) {
    var c := before.(events := before.events + [AttemptBegins]);
    var first := SendGet(net, c);
    if net.reply(c.gets) != UNAUTHORIZED then (first, AnswerOf(net.reply(c.gets)))
    else
      var (fresh', failure) := Refreshed(net, staticToken, first);
      if failure.Some? then (fresh', Raised(failure.value))
      else (SendGet(net, fresh'), AnswerOf(net.reply(fresh'.gets)))
  }

  /** Only HTTP errors are tried again. */
  function Request(net: Net, staticToken: Str, c: Context, left: nat): (Context, Answer)
    requires left > 0
    decreases left
  {
    var (after, answer) := Attempt(net, staticToken, c);
    if answer == Raised(HttpStatusError) && left > 1 then Request(net, staticToken, after, left - 1)
    else (after, answer)
  }

  // ---------- The client ----------

  class OMClient {
    const net: Net
    const staticToken: Str
    var cached: Option<nat>
    var logins: nat
    var gets: nat
    var header: Token
    var events: seq<Event>

    constructor (net: Net, staticToken: Str, cached: Option<nat>, logins: nat)
      ensures this.net == net && this.staticToken == staticToken
      ensures Now() == Context(cached, logins, 0, StaticToken([]), [])
    {
      this.net, this.staticToken, this.cached, this.logins := net, staticToken, cached, logins;
      gets, header, events := 0, StaticToken([]), [];
    }

    ghost function Now(): Context
      reads this
    {
      Context(cached, logins, gets, header, events)
    }

    method AcquireToken() returns (failure: Option<Failure>)
      modifies this
      ensures (Now(), failure) == Login(net, old(Now()))
    {
      var reply, number := net.login(logins), logins;
      logins := logins + 1;
      if reply.TokenGranted? {
        cached := Some(number);
        events := events + [LoggedIn(number)];
        failure := None;
      } else {
        events := events + [LoginRefused(number)];
        failure := Some(if reply.LoginHttpError? then HttpStatusError else OtherError);
      }
    }

    method Open() returns (failure: Option<Failure>)
      modifies this
      ensures (Now(), failure) == Opened(net, staticToken, old(Now()))
    {
      failure := None;
      if !Blank(staticToken) {
        header := StaticToken(staticToken);
      } else if cached.Some? {
        header := LoginToken(cached.value);
      } else {
        failure := AcquireToken();
        if failure.None? {
          header := LoginToken(cached.value);
        }
      }
    }

    method RefreshAuth() returns (failure: Option<Failure>)
      modifies this
      ensures (Now(), failure) == Refreshed(net, staticToken, old(Now()))
    {
      failure := None;
      if staticToken != [] {
        return;
      }
      cached := None;
      failure := AcquireToken();
      if failure.None? {
        header := LoginToken(cached.value);
      }
    }

    method Send() returns (reply: Reply)
      modifies this
      ensures Now() == SendGet(net, old(Now())) && reply == net.reply(old(gets))
    {
      reply := net.reply(gets);
      events := events + [Sent(header, reply)];
      gets := gets + 1;
    }

    method TryGet() returns (answer: Answer)
      modifies this
      ensures (Now(), answer) == Attempt(net, staticToken, old(Now()))
    {
      events := events + [AttemptBegins];
      var reply := Send();
      if reply == UNAUTHORIZED {
        var failure := RefreshAuth();
        if failure.Some? {
          return Raised(failure.value);
        }
        reply := Send();
      }
      answer := AnswerOf(reply);
    }

    method Get() returns (answer: Answer)
      modifies this
      ensures (Now(), answer) == Request(net, staticToken, old(Now()), 3)
    {
      var attempt := 1;
      answer := TryGet();
      while answer == Raised(HttpStatusError) && attempt < MAX_ATTEMPTS
        invariant 1 <= attempt <= MAX_ATTEMPTS
        invariant Request(net, staticToken, old(Now()), MAX_ATTEMPTS) ==
          if answer == Raised(HttpStatusError) && attempt < MAX_ATTEMPTS
          then Request(net, staticToken, Now(), MAX_ATTEMPTS - attempt) else (Now(), answer)
        decreases MAX_ATTEMPTS - attempt
      {
        answer := TryGet();
        attempt := attempt + 1;
      }
    }
  }

  // ---------- What a request does ----------

  lemma AttemptBounded(net: Net, staticToken: Str, c: Context)
    ensures var after := Attempt(net, staticToken, c).0;
      && c.gets < after.gets <= c.gets + 2 && c.logins <= after.logins <= c.logins + 1
      && (staticToken != [] ==> after.logins == c.logins)
  {
  }

  /** At most two GETs and one login an attempt, and no login with a static token. */
  lemma {:induction false} RequestBounded(net: Net, staticToken: Str, c: Context, left: nat)
    requires left > 0
    ensures var after := Request(net, staticToken, c, left).0;
      && c.gets < after.gets <= c.gets + 2 * left && c.logins <= after.logins <= c.logins + left
      && (staticToken != [] ==> after.logins == c.logins)
    decreases left
  {
    hide Attempt;
    var (after, answer) := Attempt(net, staticToken, c);
    AttemptBounded(net, staticToken, c);
    if answer == Raised(HttpStatusError) && left > 1 {
      RequestBounded(net, staticToken, after, left - 1);
    }
  }

  /** Which event may come directly before a GET. */
  predicate MayPrecede(staticToken: Str, prior: Event, e: Event) {
    e.Sent? ==>
      && (prior.LoggedIn? ==> e.token == LoginToken(prior.login))
      && (prior.Sent? ==> prior.reply == UNAUTHORIZED && staticToken != [] && e.token == prior.token)
      && !prior.LoginRefused?
  }

  /** In a history, a GET directly after a login carries that login's token, and, with no static
      text, none follows a 401 of its own attempt without a login in between. */
  ghost predicate FreshAfter401(staticToken: Str, events: seq<Event>) {
    forall i :: 0 < i < |events| ==> MayPrecede(staticToken, events[i - 1], events[i])
  }

  lemma FreshAppend(staticToken: Str, events: seq<Event>, e: Event)
    requires FreshAfter401(staticToken, events)
    requires events != [] ==> MayPrecede(staticToken, events[|events| - 1], e)
    ensures FreshAfter401(staticToken, events + [e])
  {
  }

  lemma AttemptFresh(net: Net, staticToken: Str, c: Context)
    requires FreshAfter401(staticToken, c.events)
    ensures FreshAfter401(staticToken, Attempt(net, staticToken, c).0.events)
  {
    hide FreshAfter401;
    var begun := c.(events := c.events + [AttemptBegins]);
    FreshAppend(staticToken, c.events, AttemptBegins);
    var first := SendGet(net, begun);
    FreshAppend(staticToken, begun.events, first.events[|begun.events|]);
    if net.reply(c.gets) == UNAUTHORIZED {
      var second := Refreshed(net, staticToken, first).0;
      if staticToken == [] {
        FreshAppend(staticToken, first.events, second.events[|first.events|]);
      }
      if Refreshed(net, staticToken, first).1.None? {
        FreshAppend(staticToken, second.events, Sent(second.header, net.reply(second.gets)));
      }
    }
  }

  /** The GET after a 401 is always authorised by the login in between. */
  lemma {:induction false} RequestFresh(net: Net, staticToken: Str, c: Context, left: nat)
    requires left > 0 && FreshAfter401(staticToken, c.events)
    ensures FreshAfter401(staticToken, Request(net, staticToken, c, left).0.events)
    decreases left
  {
    hide Attempt, FreshAfter401;
    var (after, answer) := Attempt(net, staticToken, c);
    AttemptFresh(net, staticToken, c);
    if answer == Raised(HttpStatusError) && left > 1 {
      RequestFresh(net, staticToken, after, left - 1);
    }
  }

  /** How an answer relates to the last GET's reply and the last login. */
  ghost predicate Justified(net: Net, after: Context, answer: Answer) {
    && after.gets > 0
    && var last := net.reply(after.gets - 1);
      && (answer.NotFound? <==> last == Status(404))
      && (answer.Payload? <==> last.Status? && 200 <= last.code <= 299)
      && (last.NoReply? ==> answer == Raised(OtherError))
      && (answer == Raised(OtherError) ==>
            last.NoReply? || (after.logins > 0 && net.login(after.logins - 1) == LoginOtherError))
  }

  lemma AttemptJustified(net: Net, staticToken: Str, c: Context)
    ensures var (after, answer) := Attempt(net, staticToken, c); Justified(net, after, answer)
  {
  }

  /** The answer is a missing entity iff the last reply is a 404 and a payload iff it is a success; an
      HTTP error is raised only after the last attempt, any other error as soon as a GET gets no response
      or a login meets it. */
  lemma {:induction false} RequestAnswers(net: Net, staticToken: Str, c: Context, left: nat)
    requires left > 0
    ensures var (after, answer) := Request(net, staticToken, c, left);
      && Justified(net, after, answer)
      && (answer == Raised(HttpStatusError) ==> Attempts(after.events) == Attempts(c.events) + left)
    decreases left
  {
    hide Attempt, Justified, Attempts;
    var (after, answer) := Attempt(net, staticToken, c);
    AttemptJustified(net, staticToken, c);
    AttemptCounted(net, staticToken, c);
    if answer == Raised(HttpStatusError) && left > 1 {
      RequestAnswers(net, staticToken, after, left - 1);
    }
  }

  function Attempts(events: seq<Event>): nat {
    if events == [] then 0
    else Attempts(events[..|events| - 1]) + (if events[|events| - 1].AttemptBegins? then 1 else 0)
  }

  lemma AttemptsAppend(events: seq<Event>, e: Event)
    ensures Attempts(events + [e]) == Attempts(events) + (if e.AttemptBegins? then 1 else 0)
  {
    assert (events + [e])[..|events|] == events;
  }

  lemma AttemptCounted(net: Net, staticToken: Str, c: Context)
    ensures Attempts(Attempt(net, staticToken, c).0.events) == Attempts(c.events) + 1
  {
    hide Attempts;
    var begun := c.(events := c.events + [AttemptBegins]);
    AttemptsAppend(c.events, AttemptBegins);
    var first := SendGet(net, begun);
    AttemptsAppend(begun.events, first.events[|begun.events|]);
    var second := Refreshed(net, staticToken, first).0;
    if second.events != first.events {
      AttemptsAppend(first.events, second.events[|first.events|]);
    }
    AttemptsAppend(second.events, Sent(second.header, net.reply(second.gets)));
  }

  // ---------- Static text and refreshing ----------

  /** The second GET of an attempt, sent after the first one met a 401. */
  ghost predicate Resent(events: seq<Event>, i: int, j: int) {
    && 0 <= i < j < |events| && events[i].Sent? && events[j].Sent? && events[i].reply == UNAUTHORIZED
    && forall k :: i < k < j ==> !events[k].AttemptBegins?
  }

  /** A login token, from a later login than `prior` if that is one too. */
  predicate Newer(prior: Token, token: Token) {
    token.LoginToken? && (prior.LoginToken? ==> prior.login < token.login)
  }

  ghost predicate ResentIff(events: seq<Event>, low: nat, renews: bool) {
    forall i, j :: low <= i && Resent(events, i, j) ==> (Newer(events[i].token, events[j].token) <==> renews)
  }

  /** Every login that is already in use lies in the past. */
  ghost predicate Known(c: Context) {
    && (c.header.LoginToken? ==> c.header.login < c.logins)
    && (c.cached.Some? ==> c.cached.value < c.logins)
  }

  /** The events `before` with the header's GETs and nothing else after them. */
  ghost predicate SentOnlyWith(header: Token, before: seq<Event>, events: seq<Event>) {
    && before <= events
    && forall i :: |before| <= i < |events| ==>
         events[i].AttemptBegins? || (events[i].Sent? && events[i].token == header)
  }

  lemma SentOnlyJoins(header: Token, a: seq<Event>, b: seq<Event>, c: seq<Event>)
    requires SentOnlyWith(header, a, b) && SentOnlyWith(header, b, c)
    ensures SentOnlyWith(header, a, c)
  {
  }

  lemma AttemptKeepsToken(net: Net, staticToken: Str, c: Context)
    requires staticToken != []
    ensures var after := Attempt(net, staticToken, c).0;
      && after.header == c.header && after.logins == c.logins && after.cached == c.cached
      && SentOnlyWith(c.header, c.events, after.events)
  {
  }

  /** With any static text configured, a request sends every GET with the header it began with: no 401
      makes it log in. */
  lemma {:induction false} StaticTextKeepsToken(net: Net, staticToken: Str, c: Context, left: nat)
    requires left > 0 && staticToken != []
    ensures var after := Request(net, staticToken, c, left).0;
      && after.header == c.header && after.logins == c.logins && after.cached == c.cached
      && SentOnlyWith(c.header, c.events, after.events)
    decreases left
  {
    hide Attempt, SentOnlyWith;
    var (after, answer) := Attempt(net, staticToken, c);
    AttemptKeepsToken(net, staticToken, c);
    if answer == Raised(HttpStatusError) && left > 1 {
      StaticTextKeepsToken(net, staticToken, after, left - 1);
      SentOnlyJoins(c.header, c.events, after.events, Request(net, staticToken, after, left - 1).0.events);
    }
  }

  /** A blank but nonempty static token is ignored when a client opens and honoured when it refreshes: the
      client opens with a login's token and keeps it, whatever replies its requests meet. */
  lemma BlankStaticTokenNeverRefreshed(net: Net, staticToken: Str, c: Context, left: nat)
    requires left > 0 && staticToken != [] && Blank(staticToken) && Opened(net, staticToken, c).1.None?
    ensures var start := Opened(net, staticToken, c).0;
      var after := Request(net, staticToken, start, left).0;
      && start.header == (if c.cached.Some? then LoginToken(c.cached.value) else LoginToken(c.logins))
      && after.header == start.header && after.logins == start.logins
      && SentOnlyWith(start.header, start.events, after.events)
  {
    StaticTextKeepsToken(net, staticToken, Opened(net, staticToken, c).0, left);
  }

  /** A 401 of the GET that comes next leads to a second GET: a refresh does nothing or gets a token. */
  predicate WillResend(net: Net, staticToken: Str, c: Context) {
    net.reply(c.gets) == UNAUTHORIZED && (staticToken != [] || net.login(c.logins) == TokenGranted)
  }

  /** The events one attempt adds. */
  lemma AttemptAdds(net: Net, staticToken: Str, c: Context) returns (added: seq<Event>)
    requires Known(c)
    ensures Attempt(net, staticToken, c).0.events == c.events + added && Known(Attempt(net, staticToken, c).0)
    ensures added != [] && added[0] == AttemptBegins && ResentIff(added, 0, staticToken == [])
    ensures WillResend(net, staticToken, c) ==> exists j: nat :: Resent(added, 1, j)
  {
    var first := Sent(c.header, net.reply(c.gets));
    if net.reply(c.gets) != UNAUTHORIZED {
      added := [AttemptBegins, first];
    } else if staticToken != [] {
      added := [AttemptBegins, first, Sent(c.header, net.reply(c.gets + 1))];
      assert Resent(added, 1, 2);
    } else if net.login(c.logins) == TokenGranted {
      var fresh' := LoginToken(c.logins);
      added := [AttemptBegins, first, LoggedIn(c.logins), Sent(fresh', net.reply(c.gets + 1))];
      assert Resent(added, 1, 3);
    } else {
      added := [AttemptBegins, first, LoginRefused(c.logins)];
    }
  }

  /** An attempt's GETs pair up within the attempt. */
  lemma ResentApart(before: seq<Event>, added: seq<Event>, low: nat, renews: bool)
    requires low <= |before| && ResentIff(before, low, renews)
    requires added != [] && added[0] == AttemptBegins && ResentIff(added, 0, renews)
    ensures ResentIff(before + added, low, renews)
  {
    var all, n := before + added, |before|;
    forall i, j | low <= i && Resent(all, i, j) ensures Newer(all[i].token, all[j].token) <==> renews {
      NotAcross(before, added, i, j);
      if j < n {
        ResentWithin(before, added, i, j);
      } else {
        ResentAfter(before, added, i, j);
      }
    }
  }

  lemma NotAcross(before: seq<Event>, added: seq<Event>, i: nat, j: nat)
    requires Resent(before + added, i, j) && added != [] && added[0] == AttemptBegins
    ensures j < |before| || i >= |before|
  {
    assert (before + added)[|before|] == AttemptBegins;
  }

  lemma ResentWithin(before: seq<Event>, added: seq<Event>, i: nat, j: nat)
    requires Resent(before + added, i, j) && j < |before|
    ensures Resent(before, i, j)
  {
    var all := before + added;
    assert forall k :: i <= k <= j ==> all[k] == before[k];
  }

  lemma ResentAfter(before: seq<Event>, added: seq<Event>, i: nat, j: nat)
    requires Resent(before + added, i, j) && i >= |before|
    ensures Resent(added, i - |before|, j - |before|)
  {
    var all, n := before + added, |before|;
    assert all[i] == added[i - n] && all[j] == added[j - n];
    forall k | i - n < k < j - n ensures !added[k].AttemptBegins? {
      assert all[n + k] == added[k];
    }
  }

  lemma ResentStays(before: seq<Event>, events: seq<Event>, i: nat, j: nat)
    requires before <= events && Resent(before, i, j)
    ensures Resent(events, i, j)
  {
    assert forall k :: i <= k <= j ==> events[k] == before[k];
  }

  lemma {:induction false} RequestResends(net: Net, staticToken: Str, c: Context, left: nat, low: nat)
    requires left > 0 && Known(c)
    requires low <= |c.events| && ResentIff(c.events, low, staticToken == [])
    ensures var after := Request(net, staticToken, c, left).0;
      c.events <= after.events && ResentIff(after.events, low, staticToken == [])
    decreases left
  {
    hide Attempt, ResentIff, Known;
    var (after, answer) := Attempt(net, staticToken, c);
    var added := AttemptAdds(net, staticToken, c);
    ResentApart(c.events, added, low, staticToken == []);
    if answer == Raised(HttpStatusError) && left > 1 {
      RequestResends(net, staticToken, after, left - 1, low);
    }
  }

  lemma FirstAttemptResends(net: Net, staticToken: Str, c: Context, left: nat) returns (i: nat, j: nat)
    requires left > 0 && Known(c) && WillResend(net, staticToken, c)
    ensures i >= |c.events| && Resent(Request(net, staticToken, c, left).0.events, i, j)
  {
    hide Attempt, Resent, ResentIff, Known;
    var (after, answer) := Attempt(net, staticToken, c);
    var added := AttemptAdds(net, staticToken, c);
    var k: nat :| Resent(added, 1, k);
    i, j := |c.events| + 1, |c.events| + k;
    ResentShifts(c.events, added, 1, k);
    if answer == Raised(HttpStatusError) && left > 1 {
      NothingResent(after.events);
      RequestResends(net, staticToken, after, left - 1, |after.events|);
      ResentStays(after.events, Request(net, staticToken, after, left - 1).0.events, i, j);
    }
  }

  lemma ResentShifts(before: seq<Event>, added: seq<Event>, i: nat, j: nat)
    requires Resent(added, i, j)
    ensures Resent(before + added, |before| + i, |before| + j)
  {
    var all, n := before + added, |before|;
    assert forall k :: i <= k <= j ==> all[n + k] == added[k];
    forall k | n + i < k < n + j ensures !all[k].AttemptBegins? {
      assert all[k] == added[k - n];
    }
  }

  lemma NothingResent(events: seq<Event>)
    ensures forall renews :: ResentIff(events, |events|, renews)
  {
  }

  /** In every network, a GET sent again after a 401 carries a newer token iff no static text is
      configured; and a request whose first GET meets a 401 does send one again, unless its login is
      refused. */
  lemma RefreshRenewsExactly(net: Net, staticToken: Str, c: Context, left: nat)
    requires left > 0 && Known(c)
    ensures var events := Request(net, staticToken, c, left).0.events;
      && (forall i, j :: |c.events| <= i && Resent(events, i, j) ==>
            (Newer(events[i].token, events[j].token) <==> staticToken == []))
      && (WillResend(net, staticToken, c) ==> exists i, j :: |c.events| <= i && Resent(events, i, j))
  {
    hide Request, Resent;
    NothingResent(c.events);
    RequestResends(net, staticToken, c, left, |c.events|);
    if WillResend(net, staticToken, c) {
      var i, j := FirstAttemptResends(net, staticToken, c, left);
    }
  }

  /** Opening a client keeps the logins in use in the past, so what is said of known contexts holds of
      the requests of every client. */
  lemma OpenedKnown(net: Net, staticToken: Str, c: Context)
    requires Known(c) && Opened(net, staticToken, c).1.None?
    ensures Known(Opened(net, staticToken, c).0)
  {
  }

  /** One space is such a token: its client meets a 401 and sends the old token again, even where a login
      would be granted. */
  lemma SpaceTokenResent(net: Net, c: Context) returns (i: nat, j: nat)
    requires Known(c) && c.cached.Some? && net.reply(c.gets) == UNAUTHORIZED
    ensures var events := Request(net, [32], Opened(net, [32], c).0, MAX_ATTEMPTS).0.events;
      i >= |c.events| && Resent(events, i, j)
      && events[i].token == events[j].token == LoginToken(c.cached.value)
  {
    var space: Str := [32];
    assert Blank(space) && space != [];
    var start := Opened(net, space, c).0;
    OpenedKnown(net, space, c);
    BlankStaticTokenNeverRefreshed(net, space, c, MAX_ATTEMPTS);
    i, j := FirstAttemptResends(net, space, start, MAX_ATTEMPTS);
  }

  // ---------- What comes of ordinary replies ----------

  /** A client opens with a static token that is not blank, else with the cached one, else it logs in, and
      then the token is cached for others. */
  lemma OpensWith(net: Net, staticToken: Str, c: Context)
    ensures var (after, failure) := Opened(net, staticToken, c);
      if exists i :: 0 <= i < |staticToken| && !IsSpace(staticToken[i]) then
        failure.None? && after == c.(header := StaticToken(staticToken))
      else if c.cached.Some? then
        failure.None? && after == c.(header := LoginToken(c.cached.value))
      else if net.login(c.logins).TokenGranted? then
        && failure.None? && after.header == LoginToken(c.logins) && after.cached == Some(c.logins)
        && after.logins == c.logins + 1
      else
        && failure == Some(if net.login(c.logins).LoginHttpError? then HttpStatusError else OtherError)
        && after.header == c.header && after.cached.None? && after.logins == c.logins + 1
  {
  }

  /** A first reply that is a success, a 404 or missing ends the request: one GET and no login. */
  lemma FirstReplyDecides(net: Net, staticToken: Str, c: Context, reply: Reply)
    requires net.reply(c.gets) == reply
    ensures var (after, answer) := Request(net, staticToken, c, 3);
      && (reply.Status? && 200 <= reply.code <= 299 ==> answer == Payload)
      && (reply == Status(404) ==> answer == NotFound)
      && (reply == NoReply ==> answer == Raised(OtherError))
      && (reply.NoReply? || reply.code == 404 || 200 <= reply.code <= 299 ==>
            && after.gets == c.gets + 1 && after.logins == c.logins
            && after.header == c.header && after.cached == c.cached)
  {
  }

  /** A first 401 without static text drops the cached token and logs in. Granted, the second reply
      decides, and the token is cached and in the header; a refusal by an HTTP error is tried again, any
      other failure is raised. */
  lemma UnauthorizedLogsIn(net: Net, c: Context, reply: Reply)
    requires net.reply(c.gets) == Status(401) && net.reply(c.gets + 1) == reply
    ensures var (after, answer) := Request(net, [], c, 3);
      && (net.login(c.logins) == TokenGranted && reply.Status? && 200 <= reply.code <= 299 ==>
            && answer == Payload && after.gets == c.gets + 2 && after.logins == c.logins + 1
            && after.header == LoginToken(c.logins) && after.cached == Some(c.logins))
      && (net.login(c.logins) == LoginOtherError ==>
            && answer == Raised(OtherError) && after.gets == c.gets + 1 && after.logins == c.logins + 1
            && after.header == c.header && after.cached.None?)
      && (net.login(c.logins) == LoginHttpError && reply.Status? && 200 <= reply.code <= 299 ==>
            && answer == Payload && after.gets == c.gets + 2 && after.logins == c.logins + 1
            && after.header == c.header && after.cached.None?)
  {
  }

  predicate IsOtherError(reply: Reply) {
    reply.Status? && reply.code != 401 && reply.code != 404 && !(200 <= reply.code <= 299)
  }

  /** Other error statuses are tried again: a success on the third GET is the answer, a third error is raised. */
  lemma ErrorsTriedThrice(net: Net, staticToken: Str, c: Context, a: Reply, b: Reply, last: Reply)
    requires net.reply(c.gets) == a && net.reply(c.gets + 1) == b && net.reply(c.gets + 2) == last
    requires IsOtherError(a) && IsOtherError(b)
    ensures var (after, answer) := Request(net, staticToken, c, 3);
      && (last.Status? && 200 <= last.code <= 299 ==> answer == Payload)
      && (IsOtherError(last) ==> answer == Raised(HttpStatusError))
      && (last.Status? && last.code != 401 ==> after.gets == c.gets + 3 && after.logins == c.logins)
  {
    var one := Attempt(net, staticToken, c).0;
    var two := Attempt(net, staticToken, one).0;
    assert one.gets == c.gets + 1 && two.gets == c.gets + 2;
    assert Request(net, staticToken, c, 3) == Request(net, staticToken, one, 2) == Request(net, staticToken, two, 1);
  }
}
