/** The browser's API client with single-flight token refresh: frontend/src/lib/utils.ts,
    and the sign-in and sign-out of frontend/src/stores/auth.ts that it shares tokens with.
    JavaScript runs one continuation at a time, so a step of this machine is the
    code between two awaits, and any order of enabled steps is an interleaving.
    Replies of the server are inputs. */
module TokenRefresh {
  import opened Wrappers

  type Token = string

  datatype Reply = Ok | Unauthorized | OtherError | NetworkFailure

  /** A run of tryRefreshToken().finally(...): waiting for the reply or its body;
      then returned, with the finally callback still queued; then settled. */
  datatype Refresh = Fetching | Reading | Returned(token: Option<Token>) | Settled(token: Option<Token>)

  datatype Phase = AwaitingReply | AwaitingRefresh | AwaitingRetry | Finished

  /** One call of api: how often its request was sent, the refresh it awaited and
      the token it retried with, if any. */
  datatype Call = Call(authPath: bool, sent: nat, phase: Phase, joined: Option<nat>, retried: Option<Token>)

  datatype State = State(
    isRefreshing: bool,
    refreshPromise: Option<nat>,
    token: Option<Token>,
    refreshToken: Option<Token>,
    refreshes: seq<Refresh>,
    starters: seq<nat>,          // the call that started each refresh
    calls: seq<Call>)

  /** SignIn and SignOut write and clear the stored tokens; they may come from another
      tab, which shares them. */
  datatype Event =
    | SignIn(access: Token, refreshWith: Token)
    | SignOut
    | Start(authPath: bool)
    | GotReply(call: nat, reply: Reply)
    | GotRefreshReply(refresh: nat, ok: bool)
    | GotRefreshBody(refresh: nat, tokens: Option<(Token, Token)>)
    | RanFinally(refresh: nat)
    | Resumed(call: nat)
    | GotRetryReply(call: nat, reply: Reply)

  /** A page that has just been loaded, with whatever tokens are stored. */
  function Loaded(token: Option<Token>, refreshToken: Option<Token>): State {
    State(false, None, token, refreshToken, [], [], [])
  }

  predicate Enabled(s: State, e: Event) {
    match e
    case SignIn(_, _) => true
    case SignOut => true
    case Start(_) => true
    case GotReply(c, _) => c < |s.calls| && s.calls[c].phase == AwaitingReply
    case GotRefreshReply(r, _) => r < |s.refreshes| && s.refreshes[r].Fetching?
    case GotRefreshBody(r, _) => r < |s.refreshes| && s.refreshes[r].Reading?
    case RanFinally(r) => r < |s.refreshes| && s.refreshes[r].Returned?
    case Resumed(c) =>
      && c < |s.calls| && s.calls[c].phase == AwaitingRefresh
      && (s.calls[c].joined.Some? ==>
            s.calls[c].joined.value < |s.refreshes| && s.refreshes[s.calls[c].joined.value].Settled?)
    case GotRetryReply(c, _) => c < |s.calls| && s.calls[c].phase == AwaitingRetry
  }

  function SetCall(s: State, c: nat, call: Call): State
    requires c < |s.calls|
  {
    s.(calls := s.calls[c := call])
  }

  function SetRefresh(s: State, r: nat, refresh: Refresh): State
    requires r < |s.refreshes|
  {
    s.(refreshes := s.refreshes[r := refresh])
  }

  /** The synchronous start of a refresh: without a refresh token it returns at once. */
  function BeginRefresh(s: State, starter: nat): State {
    s.(isRefreshing := true, refreshPromise := Some(|s.refreshes|),
    refreshes := s.refreshes + [if s.refreshToken.None? then Returned(None) else Fetching],
    starters := s.starters + [starter])
  }

  function LogOut(s: State): State { s.(token := None, refreshToken := None) }

  function Step(s: State, e: Event): State
    requires Enabled(s, e)
  {
    match e
    case SignIn(access, refresh) => s.(token := Some(access), refreshToken := Some(refresh))
    case SignOut => LogOut(s)
    case Start(authPath) => s.(calls := s.calls + [Call(authPath, 1, AwaitingReply, None, None)])
    case GotReply(c, reply) =>
      if reply.Unauthorized? && !s.calls[c].authPath then
        var s1 := if s.isRefreshing then s else BeginRefresh(s, c);
        SetCall(s1, c, s.calls[c].(phase := AwaitingRefresh, joined := s1.refreshPromise))
      else
        SetCall(s, c, s.calls[c].(phase := Finished))
    case GotRefreshReply(r, ok) => SetRefresh(s, r, if ok then Reading else Returned(None))
    case GotRefreshBody(r, None) => SetRefresh(s, r, Returned(None))
    case GotRefreshBody(r, Some((access, refresh))) =>
      SetRefresh(s.(token := Some(access), refreshToken := Some(refresh)), r, Returned(Some(access)))
    case RanFinally(r) =>
      SetRefresh(s.(isRefreshing := false, refreshPromise := None), r, Settled(s.refreshes[r].token))
    case Resumed(c) =>
      var joined := s.calls[c].joined;
      var newToken := if joined.Some? then s.refreshes[joined.value].token else None;
      if newToken.Some? then
        SetCall(s, c, s.calls[c].(phase := AwaitingRetry, sent := s.calls[c].sent + 1, retried := newToken))
      else
        SetCall(LogOut(s), c, s.calls[c].(phase := Finished))
    case GotRetryReply(c, reply) =>
      var s1 := if reply.Ok? || reply.NetworkFailure? then s else LogOut(s);
      SetCall(s1, c, s.calls[c].(phase := Finished))
  }

  // ----- The client -----

  class ApiClient {
    var isRefreshing: bool
    var refreshPromise: Option<nat>
    var token: Option<Token>
    var refreshToken: Option<Token>
    var refreshes: seq<Refresh>
    var calls: seq<Call>
    ghost var starters: seq<nat>

    ghost function View(): State
      reads this
    {
      State(isRefreshing, refreshPromise, token, refreshToken, refreshes, starters, calls)
    }

    constructor (token: Option<Token>, refreshToken: Option<Token>)
      ensures View() == Loaded(token, refreshToken)
    {
      isRefreshing, refreshPromise := false, None;
      this.token, this.refreshToken := token, refreshToken;
      refreshes, starters, calls := [], [], [];
    }

    /** login, verify2FA and register, once they have both tokens. */
    method StoreTokens(access: Token, refresh: Token)
      modifies this
      ensures View() == Step(old(View()), SignIn(access, refresh))
    {
      token := Some(access);
      refreshToken := Some(refresh);
    }

    /** logout, and loadUser when it fails. */
    method RemoveTokens()
      modifies this
      ensures View() == Step(old(View()), SignOut)
    {
      token, refreshToken := None, None;
    }

    /** api(path, ...) up to its first await. */
    method Api(authPath: bool) returns (c: nat)
      modifies this
      ensures c == old(|calls|) && View() == Step(old(View()), Start(authPath))
    {
      c := |calls|;
      calls := calls + [Call(authPath, 1, AwaitingReply, None, None)];
    }

    /** api, from the reply to its first request up to the next await or its end. */
    method OnReply(c: nat, reply: Reply)
      requires Enabled(View(), GotReply(c, reply))
      modifies this
      ensures View() == Step(old(View()), GotReply(c, reply))
    {
      var call := calls[c];
      if reply == Unauthorized && !call.authPath {
        if !isRefreshing {
          isRefreshing := true;
          var r := TryRefreshToken();
          starters := starters + [c];
          refreshPromise := Some(r);
        }
        calls := calls[c := call.(phase := AwaitingRefresh, joined := refreshPromise)];
      } else {
        calls := calls[c := call.(phase := Finished)];
      }
    }

    /** tryRefreshToken up to its first await. */
    method TryRefreshToken() returns (r: nat)
      modifies this`refreshes
      ensures r == old(|refreshes|)
      ensures refreshes == old(refreshes) + [if refreshToken.None? then Returned(None) else Fetching]
    {
      r := |refreshes|;
      refreshes := refreshes + [if refreshToken.None? then Returned(None) else Fetching];
    }

    method OnRefreshReply(r: nat, ok: bool)
      requires Enabled(View(), GotRefreshReply(r, ok))
      modifies this
      ensures View() == Step(old(View()), GotRefreshReply(r, ok))
    {
      refreshes := refreshes[r := if ok then Reading else Returned(None)];
    }

    method OnRefreshBody(r: nat, tokens: Option<(Token, Token)>)
      requires Enabled(View(), GotRefreshBody(r, tokens))
      modifies this
      ensures View() == Step(old(View()), GotRefreshBody(r, tokens))
    {
      if tokens.None? {
        refreshes := refreshes[r := Returned(None)];
      } else {
        var (access, refresh) := tokens.value;
        token := Some(access);
        refreshToken := Some(refresh);
        refreshes := refreshes[r := Returned(Some(access))];
      }
    }

    /** The finally callback, after which the promise others await resolves. */
    method OnFinally(r: nat)
      requires Enabled(View(), RanFinally(r))
      modifies this
      ensures View() == Step(old(View()), RanFinally(r))
    {
      isRefreshing := false;
      refreshPromise := None;
      refreshes := refreshes[r := Settled(refreshes[r].token)];
    }

    /** api, resumed by the refresh it awaited. */
    method OnResumed(c: nat)
      requires Enabled(View(), Resumed(c))
      modifies this
      ensures View() == Step(old(View()), Resumed(c))
    {
      var call := calls[c];
      var newToken := None;
      if call.joined.Some? { newToken := refreshes[call.joined.value].token; }
      if newToken.Some? {
        calls := calls[c := call.(phase := AwaitingRetry, sent := call.sent + 1, retried := newToken)];
      } else {
        token, refreshToken := None, None;
        calls := calls[c := call.(phase := Finished)];
      }
    }

    method OnRetryReply(c: nat, reply: Reply)
      requires Enabled(View(), GotRetryReply(c, reply))
      modifies this
      ensures View() == Step(old(View()), GotRetryReply(c, reply))
    {
      if reply == OtherError || reply == Unauthorized {
        token, refreshToken := None, None;
      }
      calls := calls[c := calls[c].(phase := Finished)];
    }
  }

  // ----- Every interleaving -----

  /** Exactly the flagged refresh, if any, is outstanding. */
  ghost predicate SingleFlight(s: State) {
    && (s.isRefreshing <==> s.refreshPromise.Some?)
    && (forall r | 0 <= r < |s.refreshes| :: !s.refreshes[r].Settled? <==> s.refreshPromise == Some(r))
    && (s.refreshPromise.Some? ==> s.refreshPromise.value < |s.refreshes|)
  }

  ghost predicate CallOk(refreshes: seq<Refresh>, c: Call) {
    && (c.joined.Some? ==> c.joined.value < |refreshes|)
    && (c.retried.Some? ==>
          c.joined.Some? && refreshes[c.joined.value] == Settled(c.retried))
    && c.sent == (if c.retried.Some? then 2 else 1)
    && match c.phase
       case AwaitingReply => c.joined.None? && c.retried.None?
       case AwaitingRefresh => c.joined.Some? && c.retried.None?
       case AwaitingRetry => c.retried.Some?
       case Finished => true
  }

  ghost predicate CallsOk(s: State) {
    forall c | 0 <= c < |s.calls| :: CallOk(s.refreshes, s.calls[c])
  }

  /** Each refresh was started by a call of its own, which awaited it. */
  ghost predicate StartersOk(s: State) {
    && |s.starters| == |s.refreshes|
    && (forall r | 0 <= r < |s.refreshes| ::
          s.starters[r] < |s.calls| && s.calls[s.starters[r]].joined == Some(r))
  }

  ghost predicate Inv(s: State) { SingleFlight(s) && CallsOk(s) && StartersOk(s) }

  /** Refreshes are added, and a settled one never changes again. */
  ghost predicate Kept(before: seq<Refresh>, after: seq<Refresh>) {
    && |before| <= |after|
    && (forall r | 0 <= r < |before| && before[r].Settled? :: after[r] == before[r])
  }

  lemma StepKeepsFlight(s: State, e: Event)
    requires SingleFlight(s) && Enabled(s, e)
    ensures SingleFlight(Step(s, e)) && Kept(s.refreshes, Step(s, e).refreshes)
  {
  }

  lemma StepKeepsCalls(s: State, e: Event)
    requires Inv(s) && Enabled(s, e)
    ensures CallsOk(Step(s, e))
  {
    var s' := Step(s, e);
    StepKeepsFlight(s, e);
    forall c | 0 <= c < |s'.calls| ensures CallOk(s'.refreshes, s'.calls[c]) {
      if c < |s.calls| {
        assert CallOk(s.refreshes, s.calls[c]);
        assert CallOk(s'.refreshes, s.calls[c]);
      }
    }
  }

  lemma StepKeepsStarters(s: State, e: Event)
    requires Inv(s) && Enabled(s, e)
    ensures StartersOk(Step(s, e))
  {
    hide SingleFlight;
    if e.GotReply? {
      ReplyKeepsStarters(s, e);
    } else {
      hide CallOk;
    }
  }

  /** A call that starts a refresh has none yet. */
  lemma ReplyKeepsStarters(s: State, e: Event)
    requires CallsOk(s) && StartersOk(s) && e.GotReply? && Enabled(s, e)
    ensures StartersOk(Step(s, e))
  {
    assert CallOk(s.refreshes, s.calls[e.call]);
  }

  lemma StepKeepsInv(s: State, e: Event)
    requires Inv(s) && Enabled(s, e)
    ensures Inv(Step(s, e))
  {
    StepKeepsFlight(s, e);
    StepKeepsCalls(s, e);
    StepKeepsStarters(s, e);
  }

  /** A run takes enabled steps only. */
  predicate IsRun(s: State, events: seq<Event>)
    decreases events
  {
    events == [] || (Enabled(s, events[0]) && IsRun(Step(s, events[0]), events[1..]))
  }

  function Run(s: State, events: seq<Event>): State
    requires IsRun(s, events)
    decreases events
  {
    if events == [] then s else Run(Step(s, events[0]), events[1..])
  }

  lemma {:induction false} RunKeepsInv(s: State, events: seq<Event>)
    requires Inv(s) && IsRun(s, events)
    ensures Inv(Run(s, events))
    decreases events
  {
    if events != [] {
      StepKeepsInv(s, events[0]);
      RunKeepsInv(Step(s, events[0]), events[1..]);
    }
  }

  /** After any interleaving, from any stored tokens and with any signing in and out:
      at most one refresh is outstanding, and the flag is set exactly when the promise is
      there; every retry used the token that the call's own refresh returned; no request
      is sent more than twice, and it is sent twice exactly if it was retried; and two
      refreshes were never started by the same call. */
  lemma SingleFlightTheorem(token: Option<Token>, refreshToken: Option<Token>, events: seq<Event>)
    requires IsRun(Loaded(token, refreshToken), events)
    ensures var s := Run(Loaded(token, refreshToken), events);
            && (s.isRefreshing <==> s.refreshPromise.Some?)
            && (forall i, j | 0 <= i < j < |s.refreshes| :: s.refreshes[i].Settled? || s.refreshes[j].Settled?)
            && (forall c | 0 <= c < |s.calls| :: s.calls[c].sent == if s.calls[c].retried.Some? then 2 else 1)
            && (forall c | 0 <= c < |s.calls| && s.calls[c].retried.Some? ::
                  && s.calls[c].joined.Some? && s.calls[c].joined.value < |s.refreshes|
                  && s.refreshes[s.calls[c].joined.value] == Settled(s.calls[c].retried))
            && |s.starters| == |s.refreshes|
            && (forall i, j | 0 <= i < j < |s.starters| :: s.starters[i] != s.starters[j])
  {
    RunKeepsInv(Loaded(token, refreshToken), events);
    var s := Run(Loaded(token, refreshToken), events);
    assert forall c | 0 <= c < |s.calls| :: CallOk(s.refreshes, s.calls[c]);
  }

  /** A call never joins a refresh that is already over, even within the gap between
      the refresh returning and its finally callback. */
  lemma JoinsOutstanding(s: State, c: nat)
    requires Inv(s) && Enabled(s, GotReply(c, Unauthorized)) && !s.calls[c].authPath
    ensures var s' := Step(s, GotReply(c, Unauthorized));
            var joined := s'.calls[c].joined;
            && joined.Some? && joined.value < |s'.refreshes| && !s'.refreshes[joined.value].Settled?
            && (s.isRefreshing ==> s'.refreshes == s.refreshes)
  {
    StepKeepsInv(s, GotReply(c, Unauthorized));
  }

  /** No waiter is stranded: whenever a call waits, a step of its own refresh, or the
      call's resumption, is enabled. */
  lemma WaiterCanProceed(token: Option<Token>, refreshToken: Option<Token>, events: seq<Event>, c: nat)
    requires IsRun(Loaded(token, refreshToken), events)
    requires var s := Run(Loaded(token, refreshToken), events);
             c < |s.calls| && s.calls[c].phase == AwaitingRefresh
    ensures var s := Run(Loaded(token, refreshToken), events);
            var r := s.calls[c].joined.GetOr(0);
            || Enabled(s, Resumed(c)) || Enabled(s, RanFinally(r))
            || Enabled(s, GotRefreshReply(r, true)) || Enabled(s, GotRefreshBody(r, None))
  {
    RunKeepsInv(Loaded(token, refreshToken), events);
    var s := Run(Loaded(token, refreshToken), events);
    assert CallOk(s.refreshes, s.calls[c]);
  }

  // ----- When the stored tokens change -----

  /** The event is a refresh that got both tokens. */
  predicate Renews(e: Event) { e.GotRefreshBody? && e.tokens.Some? }

  /** The event ends a call whose refresh came to nothing, or whose retry the server turned
      down; a retry that got no answer at all is not that. */
  predicate SendsToLogin(s: State, e: Event) {
    || (e.Resumed? && e.call < |s.calls|
        && match s.calls[e.call].joined
           case None => true
           case Some(r) => r < |s.refreshes| && s.refreshes[r] == Settled(None))
    || (e.GotRetryReply? && (e.reply == Unauthorized || e.reply == OtherError))
  }

  /** The stored tokens are replaced by a sign-in and a successful refresh, cleared by a
      sign-out, a failed refresh and a refused retry, and otherwise stay as they are: in
      particular when a retry succeeds or is lost on the network. */
  lemma TokensAfter(s: State, e: Event)
    requires Enabled(s, e)
    ensures var after := Step(s, e);
            && (e.SignIn? ==> after.token == Some(e.access) && after.refreshToken == Some(e.refreshWith))
            && (Renews(e) ==> after.token == Some(e.tokens.value.0) && after.refreshToken == Some(e.tokens.value.1))
            && (e.SignOut? || SendsToLogin(s, e) ==> after.token == None && after.refreshToken == None)
            && (!e.SignIn? && !Renews(e) && !e.SignOut? && !SendsToLogin(s, e) ==>
                  after.token == s.token && after.refreshToken == s.refreshToken)
  {
  }

  /** No event of the run signs out or sends the user to the login page. */
  predicate NeverDropped(s: State, events: seq<Event>)
    requires IsRun(s, events)
    decreases events
  {
    events == [] ||
    (!events[0].SignOut? && !SendsToLogin(s, events[0]) && NeverDropped(Step(s, events[0]), events[1..]))
  }

  /** A page loses its tokens only that way: over any run without it they stay stored, and
      are those of the last sign-in or successful refresh. */
  lemma {:induction false} StaysSignedIn(s: State, events: seq<Event>)
    requires IsRun(s, events) && NeverDropped(s, events) && s.token.Some? && s.refreshToken.Some?
    ensures (Run(s, events).token, Run(s, events).refreshToken)
         == LastStored((s.token, s.refreshToken), events)
    ensures Run(s, events).token.Some? && Run(s, events).refreshToken.Some?
    decreases events
  {
    hide Step, Enabled;
    if events != [] {
      TokensAfter(s, events[0]);
      StaysSignedIn(Step(s, events[0]), events[1..]);
    }
  }

  function LastStored(stored: (Option<Token>, Option<Token>), events: seq<Event>): (Option<Token>, Option<Token>)
    decreases events
  {
    if events == [] then stored
    else LastStored(match events[0]
                    case SignIn(access, refresh) => (Some(access), Some(refresh))
                    case GotRefreshBody(_, Some((access, refresh))) => (Some(access), Some(refresh))
                    case _ => stored, events[1..])
  }

  // ----- Which calls are refreshed and retried -----

  /** Calls on the sign-in paths are sent once and never wait for a refresh. */
  ghost predicate AuthCallsOk(s: State) {
    forall c | 0 <= c < |s.calls| && s.calls[c].authPath ::
      s.calls[c].sent == 1 && s.calls[c].joined.None? && s.calls[c].retried.None?
      && (s.calls[c].phase == AwaitingReply || s.calls[c].phase == Finished)
  }

  lemma {:induction false} AuthCallsNeverRetried(s: State, events: seq<Event>)
    requires AuthCallsOk(s) && IsRun(s, events)
    ensures AuthCallsOk(Run(s, events))
    decreases events
  {
    if events != [] { AuthCallsNeverRetried(Step(s, events[0]), events[1..]); }
  }

  /** What a first reply does.  A 401 outside the sign-in paths makes the call wait for the
      refresh under way, or for one it starts, which asks the server exactly if a refresh
      token is stored; every other reply ends the call, and no other call is touched. */
  lemma AfterReply(s: State, c: nat, reply: Reply)
    requires Inv(s) && Enabled(s, GotReply(c, reply))
    ensures var after := Step(s, GotReply(c, reply));
            && |after.calls| == |s.calls| && (forall d | 0 <= d < |s.calls| && d != c :: after.calls[d] == s.calls[d])
            && after.calls[c].sent == s.calls[c].sent && after.calls[c].retried == s.calls[c].retried
            && if reply == Unauthorized && !s.calls[c].authPath then
                 && after.calls[c].phase == AwaitingRefresh && after.isRefreshing
                 && (if s.isRefreshing
                     then after.refreshes == s.refreshes && after.calls[c].joined == s.refreshPromise
                     else after.refreshes == s.refreshes + [if s.refreshToken == None then Returned(None) else Fetching]
                          && after.calls[c].joined == Some(|s.refreshes|))
               else
                 && after.calls[c].phase == Finished
                 && after.refreshes == s.refreshes && after.isRefreshing == s.isRefreshing
  {
  }

  /** A call is sent again exactly if the refresh it waited for got a token, and with that
      token; otherwise, and after the retry's reply whatever it is, the call is over. */
  lemma AfterRefresh(s: State, c: nat, reply: Reply)
    requires Inv(s)
    ensures Enabled(s, Resumed(c)) ==>
              var call, after := s.calls[c], Step(s, Resumed(c)).calls[c];
              && call.joined.Some? && call.joined.value < |s.refreshes|
              && (after.sent == call.sent + 1 <==> s.refreshes[call.joined.value] != Settled(None))
              && (after.sent != call.sent + 1 ==> after.sent == call.sent && after.phase == Finished)
              && (after.sent == call.sent + 1 ==>
                    after.phase == AwaitingRetry && s.refreshes[call.joined.value] == Settled(after.retried))
    ensures Enabled(s, GotRetryReply(c, reply)) ==>
              Step(s, GotRetryReply(c, reply)).calls[c] == s.calls[c].(phase := Finished)
  {
    if c < |s.calls| { assert CallOk(s.refreshes, s.calls[c]); }
  }

  /** A refresh yields a token exactly if its reply was good and its body held both. */
  lemma RefreshYields(s: State, r: nat, ok: bool, tokens: Option<(Token, Token)>)
    ensures Enabled(s, GotRefreshReply(r, ok)) ==>
              Step(s, GotRefreshReply(r, ok)).refreshes[r] == if ok then Reading else Returned(None)
    ensures Enabled(s, GotRefreshBody(r, tokens)) ==>
              Step(s, GotRefreshBody(r, tokens)).refreshes[r]
              == Returned(if tokens.Some? then Some(tokens.value.0) else None)
    ensures Enabled(s, RanFinally(r)) ==>
              var after := Step(s, RanFinally(r));
              after.refreshes[r] == Settled(s.refreshes[r].token) && !after.isRefreshing && after.refreshPromise == None
  {
  }

  // ----- Sharing does happen -----

  /** Two calls turned down with 401, one refresh that answers, and both calls' retries. */
  function SharedRefresh(access: Token, refresh: Token): seq<Event> {
    [Start(false), Start(false), GotReply(0, Unauthorized), GotReply(1, Unauthorized),
     GotRefreshReply(0, true), GotRefreshBody(0, Some((access, refresh))), RanFinally(0), Resumed(1), Resumed(0)]
  }

  lemma RunStep(s: State, e: Event, rest: seq<Event>)
    requires Enabled(s, e)
    ensures IsRun(s, [e] + rest) <==> IsRun(Step(s, e), rest)
    ensures IsRun(s, [e] + rest) ==> Run(s, [e] + rest) == Run(Step(s, e), rest)
  {
    assert ([e] + rest)[1..] == rest;
  }

  function Sent(): Call { Call(false, 1, AwaitingReply, None, None) }

  function Waiting(): Call { Call(false, 1, AwaitingRefresh, Some(0), None) }

  function Retried(access: Token): Call { Call(false, 2, AwaitingRetry, Some(0), Some(access)) }

  /** One step after the other. */
  ghost predicate Leads(s: State, e: Event, f: Event, t: State) {
    Enabled(s, e) && Enabled(Step(s, e), f) && Step(Step(s, e), f) == t
  }

  lemma TwoSent(s: State)
    requires s.calls == []
    ensures Leads(s, Start(false), Start(false), s.(calls := [Sent(), Sent()]))
  {
    assert Step(s, Start(false)) == s.(calls := [Sent()]);
  }

  lemma TwoTurnedDown(s: State)
    requires s.calls == [Sent(), Sent()] && s.refreshes == [] && s.starters == []
    requires !s.isRefreshing && s.refreshToken.Some?
    ensures Leads(s, GotReply(0, Unauthorized), GotReply(1, Unauthorized),
                  State(true, Some(0), s.token, s.refreshToken, [Fetching], [0], [Waiting(), Waiting()]))
  {
    assert Step(s, GotReply(0, Unauthorized))
        == State(true, Some(0), s.token, s.refreshToken, [Fetching], [0], [Waiting(), Sent()]);
  }

  lemma Answered(s: State, access: Token, refresh: Token)
    requires s.refreshes == [Fetching]
    ensures Leads(s, GotRefreshReply(0, true), GotRefreshBody(0, Some((access, refresh))),
                  s.(token := Some(access), refreshToken := Some(refresh), refreshes := [Returned(Some(access))]))
  {
    assert Step(s, GotRefreshReply(0, true)) == s.(refreshes := [Reading]);
  }

  lemma Finally(s: State, access: Token)
    requires s.refreshes == [Returned(Some(access))]
    ensures Enabled(s, RanFinally(0))
    ensures Step(s, RanFinally(0))
         == s.(isRefreshing := false, refreshPromise := None, refreshes := [Settled(Some(access))])
  {
  }

  lemma TwoRetried(s: State, access: Token)
    requires s.calls == [Waiting(), Waiting()] && s.refreshes == [Settled(Some(access))]
    ensures Leads(s, Resumed(1), Resumed(0), s.(calls := [Retried(access), Retried(access)]))
  {
    assert Step(s, Resumed(1)) == s.(calls := [Waiting(), Retried(access)]);
  }

  /** From a page with any refresh token stored, two calls can share one refresh: both
      wait for it, both are sent a second time, and both with the token it returned. */
  lemma TwoCallsShareOneRefresh(token: Option<Token>, stored: Token, access: Token, refresh: Token)
    ensures var s0 := Loaded(token, Some(stored));
            IsRun(s0, SharedRefresh(access, refresh))
            && Run(s0, SharedRefresh(access, refresh))
               == State(false, None, Some(access), Some(refresh), [Settled(Some(access))], [0],
                        [Retried(access), Retried(access)])
  {
    hide IsRun, Run, Leads, Step;
    var events := SharedRefresh(access, refresh);
    var s0 := Loaded(token, Some(stored));
    var s2 := s0.(calls := [Sent(), Sent()]);
    var s4 := State(true, Some(0), token, Some(stored), [Fetching], [0], [Waiting(), Waiting()]);
    var s6 := State(true, Some(0), Some(access), Some(refresh), [Returned(Some(access))], [0], [Waiting(), Waiting()]);
    var s7 := State(false, None, Some(access), Some(refresh), [Settled(Some(access))], [0], [Waiting(), Waiting()]);
    TwoSent(s0);
    TwoTurnedDown(s2);
    Answered(s4, access, refresh);
    Finally(s6, access);
    TwoRetried(s7, access);
    FollowNine(s0, s2, s4, s6, s7, s7.(calls := [Retried(access), Retried(access)]), events);
  }

  lemma TwoMore(s: State, t: State, e: Event, f: Event, rest: seq<Event>)
    requires Leads(s, e, f, t)
    ensures IsRun(s, [e, f] + rest) <==> IsRun(t, rest)
    ensures IsRun(t, rest) ==> Run(s, [e, f] + rest) == Run(t, rest)
  {
    RunStep(s, e, [f] + rest);
    RunStep(Step(s, e), f, rest);
    assert [e, f] + rest == [e] + ([f] + rest);
  }

  lemma FollowNine(s0: State, s2: State, s4: State, s6: State, s7: State, s9: State, events: seq<Event>)
    requires |events| == 9
    requires Leads(s0, events[0], events[1], s2) && Leads(s2, events[2], events[3], s4)
    requires Leads(s4, events[4], events[5], s6) && Enabled(s6, events[6]) && Step(s6, events[6]) == s7
    requires Leads(s7, events[7], events[8], s9)
    ensures IsRun(s0, events) && Run(s0, events) == s9
  {
    hide Step, Enabled, Leads;
    TwoMore(s7, s9, events[7], events[8], []);
    assert [events[7], events[8]] + [] == events[7..];
    RunStep(s6, events[6], events[7..]);
    assert [events[6]] + events[7..] == events[6..];
    TwoMore(s4, s6, events[4], events[5], events[6..]);
    assert [events[4], events[5]] + events[6..] == events[4..];
    TwoMore(s2, s4, events[2], events[3], events[4..]);
    assert [events[2], events[3]] + events[4..] == events[2..];
    TwoMore(s0, s2, events[0], events[1], events[2..]);
    assert [events[0], events[1]] + events[2..] == events;
  }
}
