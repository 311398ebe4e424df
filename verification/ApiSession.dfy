/** The client's session (client/src/services) composed with the server's token rotation.

Any number of `apiFetch` calls run concurrently.  Those that meet a 401 share one refresh, whose
request runs through the server's three database steps while requests of other clients interleave. */
module ApiSession {
  import opened Prelude
  import opened RefreshRotation
  import opened SessionStore

  type Access = string
  type CallId = nat
  type Flight = nat

  // ----------------------------------------------------------------- api.ts ---

  /** One refresh: loading the token, its request on the way and in the server, the reply. */
  datatype Phase =
    | Loading
    | Sent(jti: Jti)
    | AtServer(jti: Jti)
    | Consumed(jti: Jti)                       // the server has revoked the token
    | Accepted(newJti: Jti, access: Access)    // the reply is on its way back
    | Rejected                                 // the server has refused the token
    | Failed                                   // the server answers with an error that says nothing of the token
    | Saving(access: Access)

  /** One `apiFetch` call. */
  datatype Call = Asked | Waiting(flight: Flight) | Resumed(renewed: Option<Access>) | Retried | Done

  datatype World = World(
    server: State,
    home: Jti,                       // the login token of this client
    chain: set<Jti>,                 // history: the tokens minted from it
    access: Option<Access>,
    stored: Stored,
    inFlight: Option<Flight>,        // the module variable refreshInFlight
    flights: map<Flight, Phase>,     // the refreshes that are running
    started: nat,
    calls: map<CallId, Call>,
    requests: map<CallId, nat>,      // history: how often each call has sent its request
    presented: seq<Jti>,             // history: refresh tokens sent, in order
    lost: nat)                       // history: "lost" events emitted

  /** `unauthorized`: the answer is a 401 and the call may refresh; any other answer, or none, ends the call.
  A refresh reads and revokes at the server in steps of `RefreshRotation`; `Other` is a step of another client.
  `ServerFails`: the route's rate limiter (429), the database (503) or any other error ends the request. */
  datatype Action =
    | Fetch(id: CallId)
    | Reply(id: CallId, unauthorized: bool)
    | LoadToken(flight: Flight, diskWorks: bool)
    | ServerRead(flight: Flight, now: int)
    | ServerRevoke(flight: Flight)
    | ServerIssue(flight: Flight, newJti: Jti, expiresAt: int, access: Access)
    | ServerFails(flight: Flight)
    | RefreshReply(flight: Flight, diskWorks: bool)
    | Settle(flight: Flight)
    | Resume(id: CallId)
    | RetryReply(id: CallId)
    | Other(e: Event)

  /** `refreshInFlight` is reset and every call that awaits the refresh gets its result. */
  function Ended(w: World, f: Flight, result: Option<Access>): World {
    w.(flights := w.flights - {f}, inFlight := None,
       calls := map id | id in w.calls :: if w.calls[id] == Waiting(f) then Resumed(result) else w.calls[id])
  }

  /** A new refresh, before anybody waits for it. */
  function Started(w: World): World {
    w.(inFlight := Some(w.started), flights := w.flights[w.started := Loading], started := w.started + 1)
  }

  /** `refreshAccessToken`: a call joins the running refresh, or starts one. */
  function JoinRefresh(w: World, id: CallId): World {
    match w.inFlight
    case Some(f) => w.(calls := w.calls[id := Waiting(f)])
    case None =>
      Started(w).(calls := w.calls[id := Waiting(w.started)])
  }

  /** What other clients may do to the server: anything that leaves this client's tokens alone.  Their
  requests have negative numbers. */
  predicate LeavesChainAlone(w: World, e: Event) {
    match e
    case Login(_, newJti, _) => true
    case Present(req, jti, _) => req < 0 && jti !in w.chain
    case TryRevoke(req) => req < 0
    case Issue(req, _, _) => req < 0
    case Drop(req) => req < 0
    case Logout(jti) => jti !in w.chain
    case LogoutAll(user) => w.home in w.server.table && user != w.server.table[w.home].user
  }

  function SetPhase(w: World, f: Flight, p: Phase): World {
    w.(flights := w.flights[f := p])
  }

  /** The request is sent and its reply not yet delivered. */
  predicate InRequest(p: Phase) {
    p.Sent? || p.AtServer? || p.Consumed? || p.Accepted?
  }

  function Perform(w: World, a: Action): World {
    match a
    case Fetch(id) =>
      if id in w.calls then w else w.(calls := w.calls[id := Asked], requests := w.requests[id := 1])
    case Reply(id, unauthorized) =>
      if id !in w.calls || w.calls[id] != Asked then w
      else if unauthorized then JoinRefresh(w, id)
      else w.(calls := w.calls[id := Done])
    case LoadToken(f, diskWorks) =>
      if f !in w.flights || w.flights[f] != Loading then w
      else
        var token := Loaded(w.stored, diskWorks);
        var w1 := w.(stored := AfterLoad(w.stored, diskWorks));
        if token.None? then Ended(w1, f, None)
        else SetPhase(w1, f, Sent(token.value)).(presented := w.presented + [token.value])
    case ServerRead(f, now) =>
      if f !in w.flights || !w.flights[f].Sent? then w
      else
        var j := w.flights[f].jti;
        if j in w.server.table && w.server.table[j].expiresAt < now then w  // expiry is outside this model
        else if Acceptable(w.server.table, j, now) then
          SetPhase(w.(server := Step(w.server, Present(f, j, now))), f, AtServer(j))
        else SetPhase(w, f, Rejected)
    case ServerRevoke(f) =>
      if f !in w.flights || !w.flights[f].AtServer? then w
      else
        var j := w.flights[f].jti;
        SetPhase(w.(server := Step(w.server, TryRevoke(f))), f,
                 if Live(w.server.table, j) then Consumed(j) else Rejected)
    case ServerIssue(f, newJti, expiresAt, access) =>
      if f !in w.flights || !w.flights[f].Consumed? || newJti in w.server.table then w
      else SetPhase(w.(server := Step(w.server, Issue(f, newJti, expiresAt)), chain := w.chain + {newJti}),
                    f, Accepted(newJti, access))
    case ServerFails(f) =>
      if f !in w.flights || !InRequest(w.flights[f]) then w
      else SetPhase(w.(server := Step(w.server, Drop(f))), f, Failed)
    case RefreshReply(f, diskWorks) =>
      if f !in w.flights then w
      else
        (match w.flights[f]
        case Accepted(newJti, access) =>
          SetPhase(w.(access := Some(access), stored := Saved(w.stored, newJti, diskWorks)), f, Saving(access))
        case Rejected | Failed =>                // `!res.ok`: the client does not look at the status
          Ended(w.(access := None, stored := Cleared(w.stored, diskWorks), lost := w.lost + 1), f, None)
        case _ => w)
    case Settle(f) =>
      if f !in w.flights || !w.flights[f].Saving? then w else Ended(w, f, Some(w.flights[f].access))
    case Resume(id) =>
      if id !in w.calls || !w.calls[id].Resumed? then w
      else if w.calls[id].renewed.Some? then
        w.(calls := w.calls[id := Retried],
           requests := w.requests[id := (if id in w.requests then w.requests[id] else 0) + 1])
      else w.(calls := w.calls[id := Done])
    case RetryReply(id) =>
      if id !in w.calls || w.calls[id] != Retried then w else w.(calls := w.calls[id := Done])
    case Other(e) =>
      if LeavesChainAlone(w, e) then w.(server := Step(w.server, e)) else w
  }

  function Play(w: World, actions: seq<Action>): World
    decreases |actions|
  {
    if actions == [] then w else Perform(Play(w, actions[..|actions| - 1]), actions[|actions| - 1])
  }

  /** api.ts: the module variables and the stretches of code between two awaits, each of which does to
  them what the corresponding action does to the world. */
  class ApiClient {
    var accessToken: Option<Access>
    var refreshInFlight: Option<Flight>
    var started: nat
    const session: Session

    constructor (session: Session)
      ensures accessToken == None && refreshInFlight == None && started == 0 && this.session == session
    {
      accessToken, refreshInFlight, started := None, None, 0;
      this.session := session;
    }

    ghost predicate Shows(w: World)
      reads this, session
    {
      accessToken == w.access && refreshInFlight == w.inFlight && started == w.started && session.Value() == w.stored
    }

    /** A call that met a 401 gets the running refresh to wait for, or a new one. */
    method RefreshAccessToken(id: CallId, ghost w: World) returns (flight: Flight)
      requires Shows(w) && id in w.calls && w.calls[id] == Asked
      modifies this
      ensures Shows(Perform(w, Reply(id, true))) && Perform(w, Reply(id, true)).calls[id] == Waiting(flight)
    {
      if refreshInFlight.None? {
        refreshInFlight, started := Some(started), started + 1;
      }
      flight := refreshInFlight.value;
    }

    method BeginRefresh(flight: Flight, diskWorks: bool, ghost w: World) returns (token: Option<Jti>)
      requires Shows(w) && flight in w.flights && w.flights[flight] == Loading
      modifies this, session
      ensures var w' := Perform(w, LoadToken(flight, diskWorks));
              && Shows(w')
              && match token case None => flight !in w'.flights
                             case Some(j) =>
                               w'.flights == w.flights[flight := Sent(j)] && w'.presented == w.presented + [j]
    {
      token := session.LoadRefreshToken(diskWorks);
      if token.None? {
        refreshInFlight := None;
      }
    }

    /** The refresh's reply: a new pair of tokens, or anything else. */
    method EndRefresh(flight: Flight, pair: Option<(Access, Jti)>, diskWorks: bool, ghost w: World)
        returns (renewed: Option<Access>, lost: bool)
      requires Shows(w) && flight in w.flights
      requires match pair case None => w.flights[flight].Rejected? || w.flights[flight].Failed?
                          case Some((access, j)) => w.flights[flight] == Accepted(j, access)
      modifies this, session
      ensures var w' := Perform(Perform(w, RefreshReply(flight, diskWorks)), Settle(flight));
              && Shows(w') && flight !in w'.flights && w'.lost == w.lost + (if lost then 1 else 0)
              && forall id :: id in w.calls && w.calls[id] == Waiting(flight) ==> w'.calls[id] == Resumed(renewed)
      ensures renewed == accessToken == (if pair.Some? then Some(pair.value.0) else None)
      ensures lost <==> pair.None?
    {
      if pair.None? {
        session.ClearSession(diskWorks);
        accessToken, refreshInFlight := None, None;
        return None, true;
      }
      accessToken := Some(pair.value.0);
      session.SaveRefreshToken(pair.value.1, diskWorks);
      refreshInFlight := None;
      return Some(pair.value.0), false;
    }
  }

  /** Right after a login: the new token is stored, in memory or at least in the secure store. */
  ghost predicate AfterLogin(w: World) {
    && Inv(w.server) && Live(w.server.table, w.home) && w.home !in w.server.parent
    && (forall j :: j in w.server.parent ==> w.server.parent[j] != w.home)
    && (forall r :: r in w.server.pending ==> r < 0 && w.server.pending[r].jti != w.home)
    && w.chain == {w.home} && Current(w.stored) == Some(w.home)
    && w.inFlight == None && w.flights == map[] && w.calls == map[] && w.requests == map[]
    && w.presented == [] && w.lost == 0
  }

  // -------------------------------------------------------------- the invariant ---

  /** The chain is the client's own: closed under rotation, with one root, and no other client's request on it. */
  ghost predicate ChainInv(w: World) {
    && Inv(w.server)
    && w.home in w.chain && w.home !in w.server.parent && w.chain <= w.server.table.Keys
    && (forall j :: j in w.chain && j !in w.server.parent ==> j == w.home)
    && (forall j :: j in w.server.parent ==> (j in w.chain <==> w.server.parent[j] in w.chain))
    && (forall j :: j in w.chain ==> w.server.table[j].user == w.server.table[w.home].user)
    && (forall r :: r in w.server.pending ==> if r < 0 then w.server.pending[r].jti !in w.chain else r in w.flights)
  }

  ghost predicate PhaseInv(w: World, f: Flight, p: Phase) {
    Current(w.stored).Some? &&
    var cur := Current(w.stored).value;
    match p
    case Loading => f !in w.server.pending && Live(w.server.table, cur)
    case Sent(j) => f !in w.server.pending && Live(w.server.table, cur) && j == cur
    case AtServer(j) =>
      f in w.server.pending && w.server.pending[f] == Checked(j) && Live(w.server.table, cur) && j == cur
    case Consumed(j) => f in w.server.pending && w.server.pending[f] == Won(j) && j == cur
    case Accepted(n, _) => f !in w.server.pending && n in w.chain && Live(w.server.table, n)
    case Rejected => false
    case Failed => f !in w.server.pending
    case Saving(_) => f !in w.server.pending && Live(w.server.table, cur)
  }

  /** At most one refresh runs, and the stored token is live except while the server rotates it. */
  ghost predicate FlightInv(w: World) {
    && Current(w.stored).Some? && Current(w.stored).value in w.chain
    && (match w.inFlight
        case None => w.flights == map[] && Live(w.server.table, Current(w.stored).value)
        case Some(f) => w.flights.Keys == {f} && f < w.started && PhaseInv(w, f, w.flights[f]))
  }

  predicate MayBeLive(p: Phase, presented: Jti) {
    p.Failed? || p == Sent(presented) || p == AtServer(presented)
  }

  /** Every token presented before is dead, except the one that is being presented, or whose request failed. */
  ghost predicate PresentedInv(w: World) {
    && (forall i, k :: 0 <= i < k < |w.presented| ==> w.presented[i] != w.presented[k])
    && (forall i :: 0 <= i < |w.presented| ==> w.presented[i] in w.server.table)
    && (forall i :: 0 <= i < |w.presented| && Live(w.server.table, w.presented[i]) ==>
          w.inFlight.Some? && w.inFlight.value in w.flights
          && MayBeLive(w.flights[w.inFlight.value], w.presented[i]))
    && w.lost == 0
  }

  ghost predicate CallsInv(w: World) {
    && w.requests.Keys == w.calls.Keys
    && (forall id :: id in w.calls ==> 1 <= w.requests[id] <= 2)
    && (forall id :: id in w.calls && (w.calls[id].Asked? || w.calls[id].Waiting? || w.calls[id].Resumed?) ==>
          w.requests[id] == 1)
    && (forall id :: id in w.calls && w.calls[id].Waiting? ==> w.calls[id].flight in w.flights)
  }

  ghost predicate WorldInv(w: World) {
    ChainInv(w) && FlightInv(w) && PresentedInv(w) && CallsInv(w)
  }

  lemma TheFlight(w: World, f: Flight)
    requires FlightInv(w) && f in w.flights
    ensures w.inFlight == Some(f) && PhaseInv(w, f, w.flights[f]) && !w.flights[f].Rejected?
  {
    assert f in w.flights.Keys;
  }

  /** Steps that only concern the calls. */
  lemma CallsMayChange(w: World, calls: map<CallId, Call>, requests: map<CallId, nat>)
    requires WorldInv(w) && CallsInv(w.(calls := calls, requests := requests))
    ensures WorldInv(w.(calls := calls, requests := requests))
  {}

  lemma FetchKeepsInv(w: World, id: CallId)
    requires WorldInv(w)
    ensures WorldInv(Perform(w, Fetch(id)))
  {
    CallStepKeepsCalls(w, Fetch(id));
    if id !in w.calls { CallsMayChange(w, w.calls[id := Asked], w.requests[id := 1]); }
  }

  lemma CallStepKeepsCalls(w: World, a: Action)
    requires CallsInv(w) && (a.Fetch? || a.Resume? || a.RetryReply?)
    ensures CallsInv(Perform(w, a))
  {
    match a
    case Fetch(id) => if id !in w.calls { CallMoves(w, id, Asked, 1); }
    case Resume(id) => ResumeKeepsCalls(w, id);
    case RetryReply(id) => if id in w.calls && w.calls[id] == Retried { CallMoves(w, id, Done, w.requests[id]); }
  }

  lemma CallMoves(w: World, id: CallId, call: Call, n: nat)
    requires CallsInv(w) && 1 <= n <= 2 && !call.Waiting? && (call.Asked? || call.Resumed? ==> n == 1)
    ensures CallsInv(w.(calls := w.calls[id := call], requests := w.requests[id := n]))
    ensures id in w.requests && w.requests[id] == n ==> w.requests[id := n] == w.requests
  {}

  lemma ResumeKeepsCalls(w: World, id: CallId)
    requires CallsInv(w)
    ensures CallsInv(Perform(w, Resume(id)))
  {
    if id in w.calls && w.calls[id].Resumed? {
      if w.calls[id].renewed.Some? {
        CallMoves(w, id, Retried, w.requests[id] + 1);
      } else {
        CallMoves(w, id, Done, w.requests[id]);
      }
    }
  }

  lemma ResumeKeepsInv(w: World, id: CallId)
    requires WorldInv(w)
    ensures WorldInv(Perform(w, Resume(id)))
  {
    var w' := Perform(w, Resume(id));
    assert CallsInv(w') by { CallStepKeepsCalls(w, Resume(id)); }
    CallsMayChange(w, w'.calls, w'.requests);
  }

  lemma RetryReplyKeepsInv(w: World, id: CallId)
    requires WorldInv(w)
    ensures WorldInv(Perform(w, RetryReply(id)))
  {
    CallStepKeepsCalls(w, RetryReply(id));
    CallsMayChange(w, Perform(w, RetryReply(id)).calls, w.requests);
  }

  lemma ReplyKeepsInv(w: World, id: CallId, unauthorized: bool)
    requires WorldInv(w)
    ensures WorldInv(Perform(w, Reply(id, unauthorized)))
  {
    if id in w.calls && w.calls[id] == Asked {
      if !unauthorized {
        CallMoves(w, id, Done, w.requests[id]);
        CallsMayChange(w, w.calls[id := Done], w.requests);
      } else if w.inFlight.Some? {
        CallWaits(w, id, w.inFlight.value);
        CallsMayChange(w, w.calls[id := Waiting(w.inFlight.value)], w.requests);
      } else {
        var started := Started(w);
        StartKeepsInv(w);
        CallWaits(started, id, w.started);
        CallsMayChange(started, started.calls[id := Waiting(w.started)], started.requests);
      }
    }
  }

  lemma CallWaits(w: World, id: CallId, f: Flight)
    requires CallsInv(w) && id in w.calls && w.calls[id] == Asked && f in w.flights
    ensures CallsInv(w.(calls := w.calls[id := Waiting(f)]))
  {}

  lemma StartKeepsInv(w: World)
    requires WorldInv(w) && w.inFlight == None
    ensures WorldInv(Started(w))
  {}

  /** A refresh that is not rotating a token may end; the awaiting calls move on. */
  lemma EndKeepsInv(w: World, f: Flight, result: Option<Access>)
    requires WorldInv(w) && f in w.flights && (w.flights[f].Loading? || w.flights[f].Saving?)
    ensures WorldInv(Ended(w, f, result))
  {}

  /** Moving the token between memory and secure store changes nothing else. */
  lemma StoredMayMove(w: World, stored: Stored)
    requires WorldInv(w) && Current(stored) == Current(w.stored)
    ensures WorldInv(w.(stored := stored))
  {}

  lemma LoadKeepsInv(w: World, f: Flight, diskWorks: bool)
    requires WorldInv(w)
    ensures WorldInv(Perform(w, LoadToken(f, diskWorks)))
  {
    if f in w.flights && w.flights[f].Loading? {
      var w1 := w.(stored := AfterLoad(w.stored, diskWorks));
      StoredMayMove(w, AfterLoad(w.stored, diskWorks));
      LoadedKeepsInv(w1, f, Loaded(w.stored, diskWorks));
    }
  }

  lemma LoadedKeepsInv(w: World, f: Flight, token: Option<Jti>)
    requires WorldInv(w) && f in w.flights && w.flights[f].Loading?
    requires token.Some? ==> Current(w.stored) == token
    ensures WorldInv(if token.None? then Ended(w, f, None)
                     else SetPhase(w, f, Sent(token.value)).(presented := w.presented + [token.value]))
  {
    match token
    case None => EndKeepsInv(w, f, None);
    case Some(j) => SendKeepsInv(w, f, j);
  }

  lemma SendKeepsInv(w: World, f: Flight, j: Jti)
    requires WorldInv(w) && f in w.flights && w.flights[f].Loading? && Current(w.stored) == Some(j)
    ensures WorldInv(SetPhase(w, f, Sent(j)).(presented := w.presented + [j]))
  {
    SendKeepsPresented(w, f, j);
    SendKeepsRest(w, f, j);
  }

  lemma SendKeepsRest(w: World, f: Flight, j: Jti)
    requires WorldInv(w) && f in w.flights && w.flights[f].Loading? && Current(w.stored) == Some(j)
    ensures var w' := SetPhase(w, f, Sent(j)).(presented := w.presented + [j]);
            ChainInv(w') && FlightInv(w') && CallsInv(w')
  {}

  lemma SendKeepsPresented(w: World, f: Flight, j: Jti)
    requires FlightInv(w) && PresentedInv(w) && f in w.flights && w.flights[f].Loading? && Current(w.stored) == Some(j)
    ensures PresentedInv(SetPhase(w, f, Sent(j)).(presented := w.presented + [j]))
  {
    assert Live(w.server.table, j);
    assert forall i :: 0 <= i < |w.presented| ==> w.presented[i] != j;
  }

  lemma ServerReadKeepsInv(w: World, f: Flight, now: int)
    requires WorldInv(w)
    ensures WorldInv(Perform(w, ServerRead(f, now)))
  {
    if f in w.flights && w.flights[f].Sent? {
      StepKeepsInv(w.server, Present(f, w.flights[f].jti, now));
      ServerReadKeepsRest(w, f, now);
    }
  }

  lemma ServerReadKeepsRest(w: World, f: Flight, now: int)
    requires WorldInv(w) && f in w.flights && w.flights[f].Sent?
    ensures var w' := Perform(w, ServerRead(f, now)); FlightInv(w') && PresentedInv(w') && CallsInv(w')
  {
    TheFlight(w, f);
  }

  lemma ServerRevokeKeepsInv(w: World, f: Flight)
    requires WorldInv(w)
    ensures WorldInv(Perform(w, ServerRevoke(f)))
  {
    if f in w.flights && w.flights[f].AtServer? {
      TryRevokeKeepsInv(w.server, f);
      ServerRevokeKeepsChain(w, f);
      ServerRevokeKeepsRest(w, f);
    }
  }

  lemma ServerRevokeKeepsChain(w: World, f: Flight)
    requires ChainInv(w) && f in w.flights && w.flights[f].AtServer? && Inv(Step(w.server, TryRevoke(f)))
    ensures ChainInv(Perform(w, ServerRevoke(f)))
  {
    RevokeChangesLittle(w.server, f);
    LittleKeepsChain(w, Step(w.server, TryRevoke(f)), Perform(w, ServerRevoke(f)).flights);
  }

  /** The same history, rows of the same users, and no request that was not there. */
  ghost predicate LittleChanged(s: State, s': State) {
    && s'.parent == s.parent && s'.table.Keys == s.table.Keys
    && (forall j :: j in s.table ==> s'.table[j].user == s.table[j].user)
    && (forall r :: r in s'.pending ==> r in s.pending && s'.pending[r].jti == s.pending[r].jti)
  }

  lemma RevokeChangesLittle(s: State, r: Req)
    ensures LittleChanged(s, Step(s, TryRevoke(r)))
  {}

  lemma LittleKeepsChain(w: World, s: State, flights: map<Flight, Phase>)
    requires ChainInv(w) && Inv(s) && LittleChanged(w.server, s) && flights.Keys == w.flights.Keys
    ensures ChainInv(w.(server := s, flights := flights))
  {}

  lemma ServerRevokeKeepsRest(w: World, f: Flight)
    requires WorldInv(w) && f in w.flights && w.flights[f].AtServer?
    ensures var w' := Perform(w, ServerRevoke(f)); FlightInv(w') && PresentedInv(w') && CallsInv(w')
  {}

  lemma ServerIssueKeepsInv(w: World, f: Flight, newJti: Jti, expiresAt: int, access: Access)
    requires WorldInv(w)
    ensures WorldInv(Perform(w, ServerIssue(f, newJti, expiresAt, access)))
  {
    if f in w.flights && w.flights[f].Consumed? && newJti !in w.server.table {
      IssueKeepsInv(w.server, f, newJti, expiresAt);
      IssueKeepsChain(w, f, newJti, expiresAt, access);
      IssueKeepsRest(w, f, newJti, expiresAt, access);
    }
  }

  lemma IssueKeepsChain(w: World, f: Flight, newJti: Jti, expiresAt: int, access: Access)
    requires ChainInv(w) && FlightInv(w) && f in w.flights && w.flights[f].Consumed? && newJti !in w.server.table
    requires Inv(Step(w.server, Issue(f, newJti, expiresAt)))
    ensures ChainInv(Perform(w, ServerIssue(f, newJti, expiresAt, access)))
  {
    assert w.server.pending[f].jti in w.chain;
    ChainGrows(w, f, newJti, expiresAt);
  }

  lemma ChainGrows(w: World, f: Flight, newJti: Jti, expiresAt: int)
    requires ChainInv(w) && 0 <= f && f in w.server.pending && w.server.pending[f].Won? && newJti !in w.server.table
    requires w.server.pending[f].jti in w.chain && f in w.flights
    requires Inv(Step(w.server, Issue(f, newJti, expiresAt)))
    ensures ChainInv(w.(server := Step(w.server, Issue(f, newJti, expiresAt)), chain := w.chain + {newJti}))
  {}

  lemma IssueKeepsRest(w: World, f: Flight, newJti: Jti, expiresAt: int, access: Access)
    requires WorldInv(w) && f in w.flights && w.flights[f].Consumed? && newJti !in w.server.table
    ensures var w' := Perform(w, ServerIssue(f, newJti, expiresAt, access));
            FlightInv(w') && PresentedInv(w') && CallsInv(w')
  {
    TheFlight(w, f);
    IssueKeepsPresented(w, f, newJti, expiresAt, access);
  }

  lemma IssueKeepsPresented(w: World, f: Flight, newJti: Jti, expiresAt: int, access: Access)
    requires Current(w.stored).Some? && PresentedInv(w) && w.inFlight == Some(f)
    requires f in w.flights && w.flights[f].Consumed? && newJti !in w.server.table
    requires f in w.server.pending && w.server.pending[f].Won?
    ensures PresentedInv(Perform(w, ServerIssue(f, newJti, expiresAt, access)))
  {}

  /** A failure only touches the request. */
  lemma FailureKeepsInv(w: World, f: Flight)
    requires WorldInv(w)
    ensures WorldInv(Perform(w, ServerFails(f)))
  {
    if f in w.flights && InRequest(w.flights[f]) {
      PresentKeepsInv(w.server, Drop(f));
      LittleKeepsChain(w, Step(w.server, Drop(f)), Perform(w, ServerFails(f)).flights);
      FailureKeepsRest(w, f);
    }
  }

  lemma FailureKeepsRest(w: World, f: Flight)
    requires WorldInv(w) && f in w.flights && InRequest(w.flights[f])
    ensures var w' := Perform(w, ServerFails(f)); FlightInv(w') && PresentedInv(w') && CallsInv(w')
  {
    TheFlight(w, f);
  }

  /** An error reply that says nothing of the token reaches the client. */
  predicate DeliversFailure(w: World, a: Action) {
    a.RefreshReply? && a.flight in w.flights && w.flights[a.flight].Failed?
  }

  lemma RefreshReplyKeepsInv(w: World, f: Flight, diskWorks: bool)
    requires WorldInv(w) && !DeliversFailure(w, RefreshReply(f, diskWorks))
    ensures WorldInv(Perform(w, RefreshReply(f, diskWorks)))
  {
    if f in w.flights {
      TheFlight(w, f);
      if w.flights[f].Accepted? {
        ReplyKeepsChain(w, f, diskWorks);
        ReplyKeepsRest(w, f, diskWorks);
      }
    }
  }

  lemma ReplyKeepsChain(w: World, f: Flight, diskWorks: bool)
    requires ChainInv(w) && f in w.flights && w.flights[f].Accepted?
    ensures ChainInv(Perform(w, RefreshReply(f, diskWorks)))
  {}

  lemma ReplyKeepsRest(w: World, f: Flight, diskWorks: bool)
    requires FlightInv(w) && PresentedInv(w) && CallsInv(w) && f in w.flights && w.flights[f].Accepted?
    ensures var w' := Perform(w, RefreshReply(f, diskWorks)); FlightInv(w') && PresentedInv(w') && CallsInv(w')
  {}

  lemma SettleKeepsInv(w: World, f: Flight)
    requires WorldInv(w)
    ensures WorldInv(Perform(w, Settle(f)))
  {
    if f in w.flights && w.flights[f].Saving? { EndKeepsInv(w, f, Some(w.flights[f].access)); }
  }

  /** What a step of another client leaves as it was. */
  ghost predicate Undisturbed(w: World, s: State) {
    RowsUndisturbed(w.chain, w.server.table, s.table) && HistoryUndisturbed(w, s) && RequestsUndisturbed(w, s)
  }

  ghost predicate RowsUndisturbed(chain: set<Jti>, t: Table, t': Table) {
    && t.Keys <= t'.Keys
    && (forall j :: j in chain ==> j in t && t'[j] == t[j])
    && (forall j :: j in t && j !in chain && Live(t', j) ==> Live(t, j))
  }

  ghost predicate HistoryUndisturbed(w: World, s: State) {
    && w.server.parent.Keys <= s.parent.Keys
    && (forall j :: j in w.server.parent ==> s.parent[j] == w.server.parent[j])
    && (forall j :: j in s.parent && j !in w.server.parent ==> j !in w.server.table && s.parent[j] !in w.chain)
  }

  ghost predicate RequestsUndisturbed(w: World, s: State) {
    && (forall r :: r in s.pending && r < 0 ==> s.pending[r].jti !in w.chain)
    && (forall r :: 0 <= r ==> (r in s.pending <==> r in w.server.pending))
    && (forall r :: 0 <= r && r in s.pending ==> s.pending[r] == w.server.pending[r])
  }

  /** A step of another client can only concern its own requests' tokens. */
  ghost predicate OwnsRequests(w: World) {
    && w.chain <= w.server.table.Keys && w.server.parent.Keys <= w.server.table.Keys
    && (forall r :: r in w.server.pending && r < 0 ==> w.server.pending[r].jti !in w.chain)
  }

  lemma RevokingLeavesRows(chain: set<Jti>, t: Table, j: Jti)
    requires chain <= t.Keys && j !in chain
    ensures RowsUndisturbed(chain, t, Revoked(t, j))
  {}

  lemma CreatingLeavesRows(chain: set<Jti>, t: Table, user: User, j: Jti, expiresAt: int)
    requires chain <= t.Keys && j !in t
    ensures RowsUndisturbed(chain, t, Created(t, user, j, expiresAt))
  {}

  lemma RevokingAllLeavesRows(chain: set<Jti>, t: Table, user: User)
    requires chain <= t.Keys && forall j :: j in chain ==> t[j].user != user
    ensures RowsUndisturbed(chain, t, AllRevoked(t, user))
  {}

  lemma OthersLeaveRows(w: World, e: Event)
    requires OwnsRequests(w) && LeavesChainAlone(w, e) && w.home in w.server.table
    requires forall j :: j in w.chain ==> w.server.table[j].user == w.server.table[w.home].user
    ensures RowsUndisturbed(w.chain, w.server.table, Step(w.server, e).table)
  {
    var t := w.server.table;
    match e
    case Login(user, j, expiresAt) => if j !in t { CreatingLeavesRows(w.chain, t, user, j, expiresAt); }
    case Present(_, _, _) =>
    case TryRevoke(r) => if r in w.server.pending { RevokingLeavesRows(w.chain, t, w.server.pending[r].jti); }
    case Issue(r, j, expiresAt) =>
      if r in w.server.pending && w.server.pending[r].Won? && j !in t {
        CreatingLeavesRows(w.chain, t, Step(w.server, e).table[j].user, j, expiresAt);
      }
    case Drop(_) =>
    case Logout(j) => RevokingLeavesRows(w.chain, t, j);
    case LogoutAll(user) => RevokingAllLeavesRows(w.chain, t, user);
  }

  lemma OthersLeaveHistory(w: World, e: Event)
    requires OwnsRequests(w) && LeavesChainAlone(w, e)
    ensures HistoryUndisturbed(w, Step(w.server, e))
  {
    if e.Issue? {
      OthersIssueLeavesHistory(w, e);
    } else {
      OnlyIssuesHaveParents(w.server, e);
    }
  }

  lemma OthersIssueLeavesHistory(w: World, e: Event)
    requires OwnsRequests(w) && LeavesChainAlone(w, e) && e.Issue?
    ensures HistoryUndisturbed(w, Step(w.server, e))
  {}

  lemma OnlyIssuesHaveParents(s: State, e: Event)
    requires !e.Issue?
    ensures Step(s, e).parent == s.parent
  {
    match e
    case Login(_, _, _) =>
    case Present(_, _, _) =>
    case TryRevoke(_) =>
    case Drop(_) =>
    case Logout(_) =>
    case LogoutAll(_) =>
  }

  lemma OthersLeaveRequests(w: World, e: Event)
    requires OwnsRequests(w) && LeavesChainAlone(w, e)
    ensures RequestsUndisturbed(w, Step(w.server, e))
  {
    match e
    case Present(_, _, _) => PresentLeavesRequests(w, e);
    case TryRevoke(_) => RevokeLeavesRequests(w, e);
    case Issue(_, _, _) => PresentLeavesRequests(w, e);
    case Drop(_) => PresentLeavesRequests(w, e);
    case _ =>
  }

  lemma PresentLeavesRequests(w: World, e: Event)
    requires OwnsRequests(w) && LeavesChainAlone(w, e) && (e.Present? || e.Issue? || e.Drop?)
    ensures RequestsUndisturbed(w, Step(w.server, e))
  {}

  lemma RevokeLeavesRequests(w: World, e: Event)
    requires OwnsRequests(w) && LeavesChainAlone(w, e) && e.TryRevoke?
    ensures RequestsUndisturbed(w, Step(w.server, e))
  {}

  lemma OthersLeaveUndisturbed(w: World, e: Event)
    requires ChainInv(w) && LeavesChainAlone(w, e)
    ensures Undisturbed(w, Step(w.server, e))
  {
    assert OwnsRequests(w);
    OthersLeaveRows(w, e);
    OthersLeaveHistory(w, e);
    OthersLeaveRequests(w, e);
  }

  lemma UndisturbedKeepsChain(w: World, s: State)
    requires ChainInv(w) && Inv(s) && Undisturbed(w, s)
    ensures ChainInv(w.(server := s))
  {}

  lemma UndisturbedKeepsRest(w: World, s: State)
    requires WorldInv(w) && Undisturbed(w, s)
    ensures var w' := w.(server := s); FlightInv(w') && PresentedInv(w') && CallsInv(w')
  {}

  lemma OtherKeepsInv(w: World, e: Event)
    requires WorldInv(w)
    ensures WorldInv(Perform(w, Other(e)))
  {
    if LeavesChainAlone(w, e) {
      StepKeepsInv(w.server, e);
      OthersLeaveUndisturbed(w, e);
      UndisturbedKeepsChain(w, Step(w.server, e));
      UndisturbedKeepsRest(w, Step(w.server, e));
    }
  }

  lemma PerformKeepsInv(w: World, a: Action)
    requires WorldInv(w) && !DeliversFailure(w, a)
    ensures WorldInv(Perform(w, a))
  {
    match a
    case Fetch(id) => FetchKeepsInv(w, id);
    case Reply(id, u) => ReplyKeepsInv(w, id, u);
    case LoadToken(f, d) => LoadKeepsInv(w, f, d);
    case ServerRead(f, now) => ServerReadKeepsInv(w, f, now);
    case ServerRevoke(f) => ServerRevokeKeepsInv(w, f);
    case ServerIssue(f, n, x, t) => ServerIssueKeepsInv(w, f, n, x, t);
    case ServerFails(f) => FailureKeepsInv(w, f);
    case RefreshReply(f, d) => RefreshReplyKeepsInv(w, f, d);
    case Settle(f) => SettleKeepsInv(w, f);
    case Resume(id) => ResumeKeepsInv(w, id);
    case RetryReply(id) => RetryReplyKeepsInv(w, id);
    case Other(e) => OtherKeepsInv(w, e);
  }

  /** Some action of the run delivers an error reply that says nothing of the token. */
  predicate FailureDelivered(w: World, actions: seq<Action>)
    decreases |actions|
  {
    actions != []
    && (FailureDelivered(w, actions[..|actions| - 1])
        || DeliversFailure(Play(w, actions[..|actions| - 1]), actions[|actions| - 1]))
  }

  lemma LossIsReported(w: World, a: Action)
    ensures Perform(w, a).lost >= w.lost && (DeliversFailure(w, a) ==> Perform(w, a).lost > w.lost)
  {
    match a
    case _ =>
  }

  lemma {:induction false} PlayKeepsInv(w: World, actions: seq<Action>)
    requires WorldInv(w)
    ensures if FailureDelivered(w, actions) then Play(w, actions).lost > 0 else WorldInv(Play(w, actions))
    decreases |actions|
  {
    if actions != [] {
      var init, a := actions[..|actions| - 1], actions[|actions| - 1];
      PlayKeepsInv(w, init);
      LossIsReported(Play(w, init), a);
      if !FailureDelivered(w, actions) { PerformKeepsInv(Play(w, init), a); }
    }
  }

  // ---------------------------------------------------- what every run keeps ---

  ghost predicate OneFlight(w: World) {
    match w.inFlight
    case None => w.flights == map[]
    case Some(f) => w.flights.Keys == {f} && f < w.started
  }

  /** What even a run with failed refreshes keeps. */
  ghost predicate Orderly(w: World) {
    Inv(w.server) && OneFlight(w) && CallsInv(w)
  }

  lemma EndKeepsOrder(w: World, f: Flight, result: Option<Access>)
    requires OneFlight(w) && CallsInv(w) && f in w.flights
    ensures OneFlight(Ended(w, f, result)) && CallsInv(Ended(w, f, result))
  {
    assert f in w.flights.Keys;
  }

  lemma ReplyKeepsOrder(w: World, id: CallId, unauthorized: bool)
    requires OneFlight(w) && CallsInv(w)
    ensures OneFlight(Perform(w, Reply(id, unauthorized))) && CallsInv(Perform(w, Reply(id, unauthorized)))
  {
    if id in w.calls && w.calls[id] == Asked {
      if !unauthorized {
        CallMoves(w, id, Done, w.requests[id]);
      } else if w.inFlight.Some? {
        assert w.inFlight.value in w.flights.Keys;
        CallWaits(w, id, w.inFlight.value);
      } else {
        CallWaits(Started(w), id, w.started);
      }
    }
  }

  lemma ServerKeepsOrder(w: World, a: Action)
    requires Inv(w.server)
    ensures Inv(Perform(w, a).server)
  {
    match a
    case ServerRead(f, now) =>
      if f in w.flights && w.flights[f].Sent? { StepKeepsInv(w.server, Present(f, w.flights[f].jti, now)); }
    case ServerRevoke(f) => StepKeepsInv(w.server, TryRevoke(f));
    case ServerIssue(f, newJti, expiresAt, _) => StepKeepsInv(w.server, Issue(f, newJti, expiresAt));
    case ServerFails(f) => StepKeepsInv(w.server, Drop(f));
    case Other(e) => StepKeepsInv(w.server, e);
    case _ =>
  }

  lemma PerformKeepsOrder(w: World, a: Action)
    requires OneFlight(w) && CallsInv(w)
    ensures OneFlight(Perform(w, a)) && CallsInv(Perform(w, a))
  {
    match a
    case Fetch(_) => CallStepKeepsCalls(w, a);
    case Resume(_) => CallStepKeepsCalls(w, a);
    case RetryReply(_) => CallStepKeepsCalls(w, a);
    case Reply(id, unauthorized) => ReplyKeepsOrder(w, id, unauthorized);
    case Other(_) =>
    case _ => RefreshKeepsOrder(w, a);
  }

  /** A step of a refresh moves it to another phase, or ends it. */
  lemma RefreshKeepsOrder(w: World, a: Action)
    requires OneFlight(w) && CallsInv(w)
    requires a.LoadToken? || a.ServerRead? || a.ServerRevoke? || a.ServerIssue? || a.ServerFails? || a.RefreshReply?
             || a.Settle?
    ensures OneFlight(Perform(w, a)) && CallsInv(Perform(w, a))
  {
    match a
    case LoadToken(_, _) => LoadKeepsOrder(w, a);
    case RefreshReply(_, _) => ReplyEndsInOrder(w, a);
    case Settle(f) =>
      if f in w.flights && w.flights[f].Saving? { EndKeepsOrder(w, f, Some(w.flights[f].access)); }
    case _ => ServerStepIsInPlace(w, a);
  }

  lemma LoadKeepsOrder(w: World, a: Action)
    requires OneFlight(w) && CallsInv(w) && a.LoadToken?
    ensures OneFlight(Perform(w, a)) && CallsInv(Perform(w, a))
  {
    if a.flight in w.flights { EndKeepsOrder(w, a.flight, None); }
  }

  lemma ReplyEndsInOrder(w: World, a: Action)
    requires OneFlight(w) && CallsInv(w) && a.RefreshReply?
    ensures OneFlight(Perform(w, a)) && CallsInv(Perform(w, a))
  {
    if a.flight in w.flights { EndKeepsOrder(w, a.flight, None); }
  }

  lemma ServerStepIsInPlace(w: World, a: Action)
    requires a.ServerRead? || a.ServerRevoke? || a.ServerIssue? || a.ServerFails?
    ensures var w' := Perform(w, a);
            && w'.flights.Keys == w.flights.Keys && w'.inFlight == w.inFlight && w'.started == w.started
            && w'.calls == w.calls && w'.requests == w.requests
  {}

  lemma {:induction false} PlayKeepsOrder(w: World, actions: seq<Action>)
    requires Orderly(w)
    ensures Orderly(Play(w, actions))
    decreases |actions|
  {
    if actions != [] {
      var init, a := actions[..|actions| - 1], actions[|actions| - 1];
      PlayKeepsOrder(w, init);
      ServerKeepsOrder(Play(w, init), a);
      PerformKeepsOrder(Play(w, init), a);
    }
  }

  /** The chain is what the server's history says: the tokens whose root is the client's login. */
  lemma {:induction false} ChainIsByRoot(w: World, j: Jti)
    requires ChainInv(w) && j in w.server.table
    ensures Root(w.server, j) == w.home <==> j in w.chain
    decreases w.server.rank[j]
  {
    if j in w.server.parent { ChainIsByRoot(w, w.server.parent[j]); }
  }

  lemma LoginIsSound(w: World)
    requires AfterLogin(w)
    ensures WorldInv(w)
  {}

  /** An unrevoked token of the login's chain. */
  ghost predicate OfLogin(w: World, home: Jti, j: Jti) {
    HistoryInv(w.server) && Live(w.server.table, j) && Root(w.server, j) == home
  }

  lemma StoredIsTheLiveOne(w: World)
    requires WorldInv(w) && w.flights == map[]
    ensures forall j :: OfLogin(w, w.home, j) <==> Current(w.stored) == Some(j)
  {
    var current := Current(w.stored).value;
    ChainIsByRoot(w, current);
    forall j
      ensures OfLogin(w, w.home, j) <==> Current(w.stored) == Some(j)
    {
      if OfLogin(w, w.home, j) { LiveIsUnique(w.server, j, current); }
    }
  }

  /** The composed session, for every run after a login.  At most one refresh is running, every call
  sends its request at most twice, and at most one token of the chain is unrevoked.  The session is
  reported lost exactly when an error reply that says nothing of the token was delivered; until then no
  refresh token is presented twice, and whenever no refresh runs the stored token is the unrevoked one. */
  lemma SessionIsSafe(w0: World, actions: seq<Action>)
    requires AfterLogin(w0)
    ensures var w := Play(w0, actions);
            && |w.flights| <= 1
            && (forall id :: id in w.calls ==> id in w.requests && w.requests[id] <= 2)
            && HistoryInv(w.server)
            && (forall i, j :: OfLogin(w, w0.home, i) && OfLogin(w, w0.home, j) ==> i == j)
            && (w.lost > 0 <==> FailureDelivered(w0, actions))
            && (w.lost == 0 ==> forall i, k :: 0 <= i < k < |w.presented| ==> w.presented[i] != w.presented[k])
            && (w.lost == 0 && w.flights == map[] ==>
                  forall j :: OfLogin(w, w0.home, j) <==> Current(w.stored) == Some(j))
  {
    LoginIsSound(w0);
    PlayKeepsInv(w0, actions);
    PlayKeepsOrder(w0, actions);
    var w := Play(w0, actions);
    HomeStays(w0, actions);
    if w.inFlight.Some? { assert w.flights.Keys == {w.inFlight.value}; }
    assert |w.flights| == |w.flights.Keys|;
    forall i, j | OfLogin(w, w0.home, i) && OfLogin(w, w0.home, j)
      ensures i == j
    {
      LiveIsUnique(w.server, i, j);
    }
    if w.lost == 0 && w.flights == map[] { StoredIsTheLiveOne(w); }
  }

  // ------------------------------------------------ runs in which things fail ---

  lemma {:induction false} PlayCons(w: World, a: Action, rest: seq<Action>)
    ensures Play(w, [a] + rest) == Play(Perform(w, a), rest)
  {
    if rest == [] {
      assert ([a] + rest)[..0] == [] && Play(w, []) == w;
    } else {
      assert ([a] + rest)[..|rest|] == [a] + rest[..|rest| - 1];
      PlayCons(w, a, rest[..|rest| - 1]);
    }
  }

  lemma PlayThree(w: World, a: Action, b: Action, c: Action, rest: seq<Action>)
    ensures Play(w, [a, b, c] + rest) == Play(Perform(Perform(Perform(w, a), b), c), rest)
  {
    assert [a, b, c] + rest == [a] + ([b] + ([c] + rest));
    PlayCons(w, a, [b] + ([c] + rest));
    PlayCons(Perform(w, a), b, [c] + rest);
    PlayCons(Perform(Perform(w, a), b), c, rest);
  }

  lemma PlayTwo(w: World, a: Action, b: Action)
    ensures Play(w, [a, b]) == Perform(Perform(w, a), b)
  {
    assert [a, b] == [a] + [b] && [b] == [b] + [];
    PlayCons(w, a, [b]);
    PlayCons(Perform(w, a), b, []);
  }

  /** The first call after a login meets a 401 and sends the login token. */
  function FirstSent(w0: World, id: CallId): World {
    w0.(calls := map[id := Waiting(w0.started)], requests := map[id := 1], inFlight := Some(w0.started),
        flights := map[w0.started := Sent(w0.home)], started := w0.started + 1,
        stored := AfterLoad(w0.stored, true), presented := [w0.home])
  }

  function FirstActions(f: Flight, id: CallId): seq<Action> {
    [Fetch(id), Reply(id, true), LoadToken(f, true)]
  }

  lemma FirstRefresh(w0: World, id: CallId)
    requires AfterLogin(w0)
    ensures Perform(Perform(Perform(w0, Fetch(id)), Reply(id, true)), LoadToken(w0.started, true)) == FirstSent(w0, id)
  {
    var begun := Perform(Perform(w0, Fetch(id)), Reply(id, true));
    assert begun.flights == map[w0.started := Loading];
  }

  lemma FirstRefreshThen(w0: World, id: CallId, rest: seq<Action>)
    requires AfterLogin(w0)
    ensures Play(w0, FirstActions(w0.started, id) + rest) == Play(FirstSent(w0, id), rest)
  {
    FirstRefresh(w0, id);
    PlayThree(w0, Fetch(id), Reply(id, true), LoadToken(w0.started, true), rest);
  }

  /** It does happen: one call's refresh is turned away, say by the rate limiter, before the server looks
  at the token.  The client gives the session up although the token is as good as before. */
  lemma FailureLosesSession(w0: World, id: CallId, diskWorks: bool)
    requires AfterLogin(w0)
    ensures var f := w0.started;
            var w := Play(w0, FirstActions(f, id) + [ServerFails(f), RefreshReply(f, diskWorks)]);
            && w.flights == map[] && w.server == w0.server && Live(w.server.table, w0.home)
            && w.lost == 1 && w.access == None && w.calls == map[id := Resumed(None)]
            && w.stored.memory == None && (diskWorks ==> Current(w.stored) == None)
  {
    var f := w0.started;
    FirstRefreshThen(w0, id, [ServerFails(f), RefreshReply(f, diskWorks)]);
    TurnedAway(FirstSent(w0, id), f, diskWorks);
  }

  lemma TurnedAway(w: World, f: Flight, diskWorks: bool)
    requires f in w.flights && w.flights[f].Sent? && f !in w.server.pending
    ensures var w' := Play(w, [ServerFails(f), RefreshReply(f, diskWorks)]);
            && w'.flights == w.flights - {f} && w'.server == w.server && w'.lost == w.lost + 1 && w'.access == None
            && w'.stored == Cleared(w.stored, diskWorks) && w'.calls.Keys == w.calls.Keys
            && forall id :: id in w.calls && w.calls[id] == Waiting(f) ==> w'.calls[id] == Resumed(None)
  {
    PlayTwo(w, ServerFails(f), RefreshReply(f, diskWorks));
    DropNothing(w.server, f);
    assert Perform(w, ServerFails(f)) == SetPhase(w, f, Failed);
    assert w.flights[f := Failed] - {f} == w.flights - {f};
  }

  lemma DropNothing(s: State, r: Req)
    requires r !in s.pending
    ensures Step(s, Drop(r)) == s
  {}

  // ------------------------------------------------------- restarts of the app ---

  /** A new pair of tokens reaches the client. */
  predicate Renews(w: World, a: Action) {
    a.RefreshReply? && a.flight in w.flights && w.flights[a.flight].Accepted?
  }

  /** The last renewal that was delivered reached the secure store; the login's own save did. */
  predicate LastSaveWorked(w: World, actions: seq<Action>)
    decreases |actions|
  {
    actions == []
    || var init, a := actions[..|actions| - 1], actions[|actions| - 1];
       if Renews(Play(w, init), a) then a.diskWorks else LastSaveWorked(w, init)
  }

  /** On disk is a token of the chain: the current one exactly if the last save worked, and never one
  whose delivery is still outstanding. */
  ghost predicate DiskInv(w: World, worked: bool) {
    && w.stored.disk.Some? && w.stored.disk.value in w.chain
    && (worked <==> w.stored.disk == Current(w.stored))
    && forall f :: f in w.flights && w.flights[f].Accepted? ==> w.flights[f].newJti != w.stored.disk.value
  }

  lemma PerformKeepsDisk(w: World, a: Action, worked: bool)
    requires WorldInv(w) && !DeliversFailure(w, a) && DiskInv(w, worked)
    ensures DiskInv(Perform(w, a), if Renews(w, a) then a.diskWorks else worked)
  {
    match a
    case LoadToken(f, d) => LoadKeepsDisk(w, f, d, worked);
    case RefreshReply(f, d) => ReplyKeepsDisk(w, f, d, worked);
    case _ =>
      OnlyRepliesStore(w, a);
      forall f | f in Perform(w, a).flights && Perform(w, a).flights[f].Accepted?
        ensures Perform(w, a).flights[f].newJti != w.stored.disk.value
      {
        AcceptedIsNew(w, a, f);
      }
  }

  lemma LoadKeepsDisk(w: World, f: Flight, diskWorks: bool, worked: bool)
    requires DiskInv(w, worked)
    ensures DiskInv(Perform(w, LoadToken(f, diskWorks)), worked)
  {}

  lemma ReplyKeepsDisk(w: World, f: Flight, diskWorks: bool, worked: bool)
    requires FlightInv(w) && !DeliversFailure(w, RefreshReply(f, diskWorks)) && DiskInv(w, worked)
    ensures var a := RefreshReply(f, diskWorks);
            DiskInv(Perform(w, a), if Renews(w, a) then diskWorks else worked)
  {
    if f in w.flights {
      TheFlight(w, f);
      if w.flights[f].Accepted? {
        DeliveryKeepsDisk(w, f, diskWorks, worked);
      } else {
        assert Perform(w, RefreshReply(f, diskWorks)) == w;
      }
    }
  }

  lemma DeliveryKeepsDisk(w: World, f: Flight, diskWorks: bool, worked: bool)
    requires w.flights.Keys == {f} && w.flights[f].Accepted? && w.flights[f].newJti in w.chain && DiskInv(w, worked)
    ensures DiskInv(Perform(w, RefreshReply(f, diskWorks)), diskWorks)
  {
    var p := w.flights[f];
    var w' := SetPhase(w.(access := Some(p.access), stored := Saved(w.stored, p.newJti, diskWorks)), f,
                       Saving(p.access));
    assert Perform(w, RefreshReply(f, diskWorks)) == w';
    assert w.stored.disk != Some(p.newJti);
  }

  lemma OnlyRepliesStore(w: World, a: Action)
    requires !a.LoadToken? && !a.RefreshReply?
    ensures Perform(w, a).stored == w.stored && w.chain <= Perform(w, a).chain
  {}

  /** A reply is on its way since before, or carries a token that is new to the chain. */
  lemma AcceptedIsNew(w: World, a: Action, f: Flight)
    requires w.chain <= w.server.table.Keys && f in Perform(w, a).flights && Perform(w, a).flights[f].Accepted?
    ensures (f in w.flights && w.flights[f] == Perform(w, a).flights[f])
            || Perform(w, a).flights[f].newJti !in w.chain
  {}

  lemma {:induction false} PlayKeepsDisk(w: World, actions: seq<Action>)
    requires WorldInv(w) && DiskInv(w, true) && !FailureDelivered(w, actions)
    ensures DiskInv(Play(w, actions), LastSaveWorked(w, actions))
    decreases |actions|
  {
    if actions != [] {
      var init, a := actions[..|actions| - 1], actions[|actions| - 1];
      PlayKeepsInv(w, init);
      PlayKeepsDisk(w, init);
      PerformKeepsDisk(Play(w, init), a, LastSaveWorked(w, init));
    }
  }

  /** Whenever no refresh runs, a restart of the app finds on disk a token that the server still honours
  exactly if the last renewal's save reached the secure store; otherwise the disk holds a token that a
  later renewal has consumed. */
  lemma RestartKeepsSessionIff(w0: World, actions: seq<Action>)
    requires AfterLogin(w0) && w0.stored.disk == Some(w0.home)
    requires Play(w0, actions).flights == map[] && !FailureDelivered(w0, actions)
    ensures var w := Play(w0, actions);
            var found := Loaded(Do(w.stored, Restart), true);
            && found.Some? && found.value in w.chain
            && (Live(w.server.table, found.value) <==> LastSaveWorked(w0, actions))
            && (found == Current(w.stored) <==> LastSaveWorked(w0, actions))
  {
    LoginIsSound(w0);
    LoginIsOnDisk(w0);
    PlayKeepsInv(w0, actions);
    PlayKeepsDisk(w0, actions);
    DiskAtRest(Play(w0, actions), LastSaveWorked(w0, actions));
  }

  lemma LoginIsOnDisk(w: World)
    requires AfterLogin(w) && w.stored.disk == Some(w.home)
    ensures DiskInv(w, true)
  {}

  lemma DiskAtRest(w: World, worked: bool)
    requires WorldInv(w) && w.flights == map[] && DiskInv(w, worked)
    ensures var found := Loaded(Do(w.stored, Restart), true);
            && found.Some? && found.value in w.chain
            && (Live(w.server.table, found.value) <==> worked)
            && (found == Current(w.stored) <==> worked)
  {
    var disk, current := w.stored.disk.value, Current(w.stored).value;
    ChainIsByRoot(w, disk);
    ChainIsByRoot(w, current);
    LiveIsUnique(w.server, disk, current);
  }

  /** The run in which that goes wrong: one call's refresh is answered, and the new token fails to reach
  the secure store. */
  function UnsavedRenewal(f: Flight, id: CallId, j: Jti, now: int, access: Access): seq<Action> {
    FirstActions(f, id) + ([ServerRead(f, now), ServerRevoke(f), ServerIssue(f, j, now, access)]
                           + [RefreshReply(f, false), Settle(f)])
  }

  /** It does happen: after it a restart comes back with the consumed login token, which the server
  refuses, while the token it honours is lost. */
  lemma RestartLosesSession(w0: World, id: CallId, j: Jti, now: int, access: Access)
    requires AfterLogin(w0) && w0.stored.disk == Some(w0.home) && j !in w0.server.table
    requires w0.server.table[w0.home].expiresAt >= now
    ensures var w := Play(w0, UnsavedRenewal(w0.started, id, j, now, access));
            && w.flights == map[] && w.lost == 0 && Current(w.stored) == Some(j) && Live(w.server.table, j)
            && Loaded(Do(w.stored, Restart), true) == Some(w0.home) && !Acceptable(w.server.table, w0.home, now)
  {
    var f := w0.started;
    FirstRefreshThen(w0, id, [ServerRead(f, now), ServerRevoke(f), ServerIssue(f, j, now, access)]
                             + [RefreshReply(f, false), Settle(f)]);
    UnsavedFrom(FirstSent(w0, id), f, w0.home, j, now, access);
  }

  lemma UnsavedFrom(w: World, f: Flight, j: Jti, newJti: Jti, now: int, access: Access)
    requires f in w.flights && w.flights[f] == Sent(j) && f !in w.server.pending
    requires Acceptable(w.server.table, j, now) && newJti !in w.server.table
    ensures var w' := Play(w, [ServerRead(f, now), ServerRevoke(f), ServerIssue(f, newJti, now, access)]
                              + [RefreshReply(f, false), Settle(f)]);
            && w'.flights == w.flights - {f} && w'.lost == w.lost && w'.stored == Stored(Some(newJti), w.stored.disk)
            && Live(w'.server.table, newJti) && !Live(w'.server.table, j)
  {
    PlayThree(w, ServerRead(f, now), ServerRevoke(f), ServerIssue(f, newJti, now, access),
              [RefreshReply(f, false), Settle(f)]);
    RotationGoesThrough(w, f, j, newJti, now, access);
    SaveFails(Perform(Perform(Perform(w, ServerRead(f, now)), ServerRevoke(f)), ServerIssue(f, newJti, now, access)),
              f, newJti, access);
  }

  lemma RotationGoesThrough(w: World, f: Flight, j: Jti, newJti: Jti, now: int, access: Access)
    requires f in w.flights && w.flights[f] == Sent(j) && f !in w.server.pending
    requires Acceptable(w.server.table, j, now) && newJti !in w.server.table
    ensures var w' := Perform(Perform(Perform(w, ServerRead(f, now)), ServerRevoke(f)),
                              ServerIssue(f, newJti, now, access));
            && w'.flights == w.flights[f := Accepted(newJti, access)] && w'.stored == w.stored && w'.lost == w.lost
            && Live(w'.server.table, newJti) && !Live(w'.server.table, j)
  {
    var checked := Perform(w, ServerRead(f, now));
    ReadGoesThrough(w, f, j, now);
    RevokeGoesThrough(checked, f, j);
    IssueGoesThrough(Perform(checked, ServerRevoke(f)), f, j, newJti, now, access);
  }

  lemma ReadGoesThrough(w: World, f: Flight, j: Jti, now: int)
    requires f in w.flights && w.flights[f] == Sent(j) && f !in w.server.pending && Acceptable(w.server.table, j, now)
    ensures var w' := Perform(w, ServerRead(f, now));
            && w'.flights == w.flights[f := AtServer(j)] && w'.stored == w.stored && w'.lost == w.lost
            && w'.server.table == w.server.table && w'.server.pending == w.server.pending[f := Checked(j)]
  {}

  lemma RevokeGoesThrough(w: World, f: Flight, j: Jti)
    requires f in w.flights && w.flights[f] == AtServer(j) && Live(w.server.table, j)
    requires f in w.server.pending && w.server.pending[f] == Checked(j)
    ensures var w' := Perform(w, ServerRevoke(f));
            && w'.flights == w.flights[f := Consumed(j)] && w'.stored == w.stored && w'.lost == w.lost
            && w'.server.table == w.server.table[j := w.server.table[j].(revoked := true)]
            && w'.server.pending == w.server.pending[f := Won(j)]
  {
    RevokeChecked(w.server, f, j);
  }

  lemma IssueGoesThrough(w: World, f: Flight, j: Jti, newJti: Jti, expiresAt: int, access: Access)
    requires f in w.flights && w.flights[f] == Consumed(j) && j in w.server.table && w.server.table[j].revoked
    requires f in w.server.pending && w.server.pending[f] == Won(j) && newJti !in w.server.table
    ensures var w' := Perform(w, ServerIssue(f, newJti, expiresAt, access));
            && w'.flights == w.flights[f := Accepted(newJti, access)] && w'.stored == w.stored && w'.lost == w.lost
            && Live(w'.server.table, newJti) && !Live(w'.server.table, j)
  {}

  lemma SaveFails(w: World, f: Flight, j: Jti, access: Access)
    requires f in w.flights && w.flights[f] == Accepted(j, access)
    ensures var w' := Play(w, [RefreshReply(f, false), Settle(f)]);
            && w'.flights == w.flights - {f} && w'.server == w.server && w'.lost == w.lost
            && w'.stored == Stored(Some(j), w.stored.disk)
  {
    PlayTwo(w, RefreshReply(f, false), Settle(f));
    var saving := Perform(w, RefreshReply(f, false));
    assert saving.flights == w.flights[f := Saving(access)];
  }

  // ------------------------------------------------------------------ progress ---

  /** How many actions a refresh still needs. */
  function ToGo(p: Phase): nat {
    match p
    case Loading => 6
    case Sent(_) => 5
    case AtServer(_) => 4
    case Consumed(_) => 3
    case Accepted(_, _) => 2
    case Rejected => 1
    case Failed => 1
    case Saving(_) => 1
  }

  function NextAction(f: Flight, p: Phase, now: int, newJti: Jti, expiresAt: int, access: Access): Action {
    match p
    case Loading => LoadToken(f, true)
    case Sent(_) => ServerRead(f, now)
    case AtServer(_) => ServerRevoke(f)
    case Consumed(_) => ServerIssue(f, newJti, expiresAt, access)
    case Accepted(_, _) => RefreshReply(f, true)
    case Rejected => RefreshReply(f, true)
    case Failed => RefreshReply(f, true)
    case Saving(_) => Settle(f)
  }

  /** Before the server has revoked the token. */
  lemma EarlyAdvances(w: World, f: Flight, now: int, newJti: Jti, expiresAt: int, access: Access)
    requires f in w.flights && ToGo(w.flights[f]) > 3 && Current(w.stored).Some? && PhaseInv(w, f, w.flights[f])
    requires w.server.table[Current(w.stored).value].expiresAt >= now
    ensures var w' := Perform(w, NextAction(f, w.flights[f], now, newJti, expiresAt, access));
            && f in w'.flights && ToGo(w'.flights[f]) == ToGo(w.flights[f]) - 1 && w'.calls == w.calls
            && !w'.flights[f].Failed?
            && w'.server.table.Keys == w.server.table.Keys
            && Current(w'.stored) == Current(w.stored)
            && w'.server.table[Current(w.stored).value].expiresAt == w.server.table[Current(w.stored).value].expiresAt
  {
    match w.flights[f]
    case Loading =>
    case Sent(j) =>
    case AtServer(j) =>
  }

  lemma LateAdvances(w: World, f: Flight, now: int, newJti: Jti, expiresAt: int, access: Access)
    requires f in w.flights && 1 < ToGo(w.flights[f]) <= 3
    requires w.flights[f].Consumed? ==> newJti !in w.server.table
    ensures var w' := Perform(w, NextAction(f, w.flights[f], now, newJti, expiresAt, access));
            && f in w'.flights && ToGo(w'.flights[f]) == ToGo(w.flights[f]) - 1 && w'.calls == w.calls
            && !w'.flights[f].Failed?
  {
    match w.flights[f]
    case Consumed(j) =>
    case Accepted(_, _) =>
  }

  /** The refresh is over, and the calls that waited for it have a new access token. */
  ghost predicate Renewed(w: World, f: Flight, w': World) {
    && w'.flights == map[]
    && forall id :: id in w.calls && w.calls[id] == Waiting(f) ==>
                      id in w'.calls && w'.calls[id].Resumed? && w'.calls[id].renewed.Some?
  }

  lemma {:induction false} RefreshCompletes(w: World, f: Flight, now: int, newJti: Jti, expiresAt: int, access: Access)
      returns (actions: seq<Action>)
    requires WorldInv(w) && f in w.flights && !w.flights[f].Failed?
    requires ToGo(w.flights[f]) > 3 ==> w.server.table[Current(w.stored).value].expiresAt >= now
    requires ToGo(w.flights[f]) > 2 ==> newJti !in w.server.table
    ensures |actions| == ToGo(w.flights[f]) && Renewed(w, f, Play(w, actions))
    decreases ToGo(w.flights[f])
  {
    var a := NextAction(f, w.flights[f], now, newJti, expiresAt, access);
    var rest := [];
    TheFlight(w, f);
    if ToGo(w.flights[f]) == 1 {
      SettleRenews(w, f);
    } else {
      Advances(w, f, now, newJti, expiresAt, access);
      rest := RefreshCompletes(Perform(w, a), f, now, newJti, expiresAt, access);
    }
    PlayCons(w, a, rest);
    actions := [a] + rest;
  }

  /** The next action brings the refresh one step further and leaves the calls waiting. */
  lemma Advances(w: World, f: Flight, now: int, newJti: Jti, expiresAt: int, access: Access)
    requires WorldInv(w) && f in w.flights && ToGo(w.flights[f]) > 1
    requires ToGo(w.flights[f]) > 3 ==> w.server.table[Current(w.stored).value].expiresAt >= now
    requires ToGo(w.flights[f]) > 2 ==> newJti !in w.server.table
    ensures var w' := Perform(w, NextAction(f, w.flights[f], now, newJti, expiresAt, access));
            && WorldInv(w') && f in w'.flights && ToGo(w'.flights[f]) == ToGo(w.flights[f]) - 1 && w'.calls == w.calls
            && !w'.flights[f].Failed?
            && (ToGo(w'.flights[f]) > 3 ==> w'.server.table[Current(w'.stored).value].expiresAt >= now)
            && (ToGo(w'.flights[f]) > 2 ==> newJti !in w'.server.table)
  {
    TheFlight(w, f);
    PerformKeepsInv(w, NextAction(f, w.flights[f], now, newJti, expiresAt, access));
    if ToGo(w.flights[f]) > 3 {
      EarlyAdvances(w, f, now, newJti, expiresAt, access);
    } else {
      LateAdvances(w, f, now, newJti, expiresAt, access);
    }
  }

  lemma SettleRenews(w: World, f: Flight)
    requires WorldInv(w) && f in w.flights && w.flights[f].Saving?
    ensures Renewed(w, f, Perform(w, Settle(f))) && Play(Perform(w, Settle(f)), []) == Perform(w, Settle(f))
  {}

  /** The session does not get stuck: in any state after a login in which no refresh has failed, if the
  stored token has not expired, the running refresh can finish in at most six actions, and gives every
  waiting call a new access token. */
  lemma RefreshCanFinish(w0: World, played: seq<Action>, f: Flight, now: int, newJti: Jti)
    requires AfterLogin(w0) && f in Play(w0, played).flights && newJti !in Play(w0, played).server.table
    requires !FailureDelivered(w0, played) && !Play(w0, played).flights[f].Failed?
    requires var w := Play(w0, played);
             Current(w.stored).Some? && Current(w.stored).value in w.server.table
             && w.server.table[Current(w.stored).value].expiresAt >= now
    ensures exists more: seq<Action> :: |more| <= 6 && Renewed(Play(w0, played), f, Play(Play(w0, played), more))
  {
    assert WorldInv(Play(w0, played)) by { LoginIsSound(w0); PlayKeepsInv(w0, played); }
    var more := RefreshCompletes(Play(w0, played), f, now, newJti, now, "");
  }

  lemma {:induction false} HomeStays(w: World, actions: seq<Action>)
    ensures Play(w, actions).home == w.home
    decreases |actions|
  {
    if actions != [] {
      HomeStays(w, actions[..|actions| - 1]);
      StepKeepsHome(Play(w, actions[..|actions| - 1]), actions[|actions| - 1]);
    }
  }

  lemma StepKeepsHome(w: World, a: Action)
    ensures Perform(w, a).home == w.home
  {
    match a
    case _ =>
  }
}
