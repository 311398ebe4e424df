/** The access tokens that renewals hand out (client/src/services/api.ts): after every run, what the client
holds and what the waiting calls get is the token that the server issued for that very refresh. */
module AccessTokens {
  import opened Prelude
  import opened ApiSession

  /** The server issued this access token for this refresh. */
  ghost predicate Issued(actions: seq<Action>, f: Flight, access: Access) {
    exists a :: a in actions && a.ServerIssue? && a.flight == f && a.access == access
  }

  ghost predicate IssuedToAny(actions: seq<Action>, access: Access) {
    exists a :: a in actions && a.ServerIssue? && a.access == access
  }

  /** A refresh carries the token issued for it, and once it is delivered the client holds it too. */
  ghost predicate FlightsCarry(w: World, actions: seq<Action>) {
    forall f :: f in w.flights ==> PhaseCarries(w.access, actions, f, w.flights[f])
  }

  ghost predicate PhaseCarries(held: Option<Access>, actions: seq<Action>, f: Flight, p: Phase) {
    match p
    case Accepted(_, access) => Issued(actions, f, access)
    case Saving(access) => Issued(actions, f, access) && held == Some(access)
    case _ => true
  }

  ghost predicate CallsCarry(w: World, actions: seq<Action>) {
    forall id :: id in w.calls && w.calls[id].Resumed? && w.calls[id].renewed.Some? ==>
      IssuedToAny(actions, w.calls[id].renewed.value)
  }

  lemma IssuedMore(actions: seq<Action>, a: Action)
    ensures forall f, access :: Issued(actions, f, access) ==> Issued(actions + [a], f, access)
    ensures forall access :: IssuedToAny(actions, access) ==> IssuedToAny(actions + [a], access)
    ensures a.ServerIssue? ==> Issued(actions + [a], a.flight, a.access)
  {
    assert forall b :: b in actions ==> b in actions + [a];
    assert a in actions + [a];
  }

  lemma StepKeepsFlights(w: World, actions: seq<Action>, a: Action)
    requires OneFlight(w) && FlightsCarry(w, actions)
    ensures FlightsCarry(Perform(w, a), actions + [a])
  {
    IssuedMore(actions, a);
    match a
    case ServerIssue(f, _, _, _) =>
    case RefreshReply(f, diskWorks) => ReplyKeepsFlights(w, actions, f, diskWorks);
    case LoadToken(f, diskWorks) => if f in w.flights { assert f in w.flights.Keys; }
    case _ =>
  }

  lemma ReplyKeepsFlights(w: World, actions: seq<Action>, f: Flight, diskWorks: bool)
    requires OneFlight(w) && FlightsCarry(w, actions)
    ensures FlightsCarry(Perform(w, RefreshReply(f, diskWorks)), actions)
  {
    if f in w.flights {
      assert w.flights.Keys == {f};
    }
  }

  lemma StepKeepsCalls(w: World, actions: seq<Action>, a: Action)
    requires FlightsCarry(w, actions) && CallsCarry(w, actions)
    ensures CallsCarry(Perform(w, a), actions + [a])
  {
    IssuedMore(actions, a);
    match a
    case Settle(f) =>
      if f in w.flights && w.flights[f].Saving? { assert IssuedToAny(actions, w.flights[f].access); }
    case _ =>
  }

  lemma {:induction false} RunCarries(w0: World, actions: seq<Action>)
    requires AfterLogin(w0)
    ensures OneFlight(Play(w0, actions)) && CallsInv(Play(w0, actions))
    ensures FlightsCarry(Play(w0, actions), actions) && CallsCarry(Play(w0, actions), actions)
    decreases |actions|
  {
    if actions != [] {
      var init, a := actions[..|actions| - 1], actions[|actions| - 1];
      RunCarries(w0, init);
      PerformKeepsOrder(Play(w0, init), a);
      StepKeepsFlights(Play(w0, init), init, a);
      StepKeepsCalls(Play(w0, init), init, a);
      assert init + [a] == actions;
    }
  }

  /** After any run, a refresh whose reply has been delivered ends with every call that waited for it
  getting one and the same access token: the one that the server issued for this refresh, which is also
  the one that the client keeps for the calls to come. */
  lemma RenewalReachesCalls(w0: World, actions: seq<Action>, f: Flight)
    requires AfterLogin(w0) && f in Play(w0, actions).flights && Play(w0, actions).flights[f].Saving?
    ensures var w := Play(w0, actions);
            var w' := Perform(w, Settle(f));
            && w'.access.Some? && Issued(actions, f, w'.access.value)
            && w'.flights == map[] && w'.inFlight == None
            && forall id :: id in w.calls ==>
                 id in w'.calls
                 && w'.calls[id] == if w.calls[id] == Waiting(f) then Resumed(w'.access) else w.calls[id]
  {
    RunCarries(w0, actions);
    assert f in Play(w0, actions).flights.Keys;
  }

  /** No call is ever resumed with a token that the server did not issue. */
  lemma ResumedWithIssued(w0: World, actions: seq<Action>, id: CallId)
    requires AfterLogin(w0) && id in Play(w0, actions).calls && Play(w0, actions).calls[id].Resumed?
    ensures var renewed := Play(w0, actions).calls[id].renewed;
            renewed.Some? ==> exists a :: a in actions && a.ServerIssue? && a.access == renewed.value
  {
    RunCarries(w0, actions);
  }

  /** A call that got a new token sends its request a second time, and no more; one that got none is over
  after the first. */
  lemma ResumedCallsFinish(w0: World, actions: seq<Action>, id: CallId)
    requires AfterLogin(w0) && id in Play(w0, actions).calls && Play(w0, actions).calls[id].Resumed?
    ensures var w := Play(w0, actions);
            var w' := Perform(w, Resume(id));
            var w2 := Perform(w', RetryReply(id));
            && id in w2.calls && w2.calls[id] == Done && id in w2.requests
            && w2.requests[id] == if w.calls[id].renewed.Some? then 2 else 1
  {
    RunCarries(w0, actions);
  }
}
