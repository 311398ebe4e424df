/** What each side of a guardian link can bring about on its own, and whose word counts last. */
module ConsentRoles {
  import opened Prelude
  import opened GuardianConsent

  // ---------------------------------------------- what one user can do alone ---

  ghost function ApplyAll(st: Store, es: seq<Event>): Store {
    if es == [] then st else Apply(ApplyAll(st, es[..|es| - 1]), es[|es| - 1])
  }

  /** The user whose request the event is; a registration is nobody's. */
  function Actor(e: Event): Option<UserId> {
    match e
    case Register(_, _, _) => None
    case Invite(owner, _, _) => Some(owner)
    case Update(actor, _, _) => Some(actor)
  }

  ghost predicate AllBy(es: seq<Event>, u: UserId) {
    forall i :: 0 <= i < |es| ==> Actor(es[i]) == Some(u)
  }

  ghost function StatusIn(st: Store, id: LinkId): Option<Status> {
    if id in st.links then Some(st.links[id].status) else None
  }

  datatype Role = Owner | Guardian

  ghost predicate Plays(st: Store, id: LinkId, u: UserId, role: Role) {
    id in st.links && if role == Owner then st.links[id].protected == u else st.links[id].guardian == Some(u)
  }

  /** The statuses that one request of this side can move a link to. */
  function Moves(role: Role, from: Status): set<Status> {
    match from
    case Pending => if role == Owner then {Rejected, Removed} else {Accepted, Removed}
    case Accepted => {Removed}
    case Rejected => {Pending, Removed}
    case Removed => if role == Owner then {Pending} else {}
  }

  /** The statuses that this side can bring a link to by any number of requests of its own. */
  function Reach(role: Role, from: Status): set<Status> {
    match from
    case Pending => if role == Owner then {Pending, Rejected, Removed} else {Pending, Accepted, Removed}
    case Accepted => if role == Owner then {Accepted, Removed, Pending, Rejected} else {Accepted, Removed}
    case Rejected => if role == Owner then {Rejected, Pending, Removed} else {Rejected, Pending, Accepted, Removed}
    case Removed => if role == Owner then {Removed, Pending, Rejected} else {Removed}
  }

  lemma ReachIsClosed(role: Role, from: Status, mid: Status, to: Status)
    requires mid in Reach(role, from) && to in Moves(role, mid)
    ensures to in Reach(role, from)
  {}

  /** No request of this side moves the link otherwise, and the side stays the same. */
  lemma MovesOnly(st: Store, e: Event, id: LinkId, u: UserId, role: Role)
    requires Sound(st) && Plays(st, id, u, role) && Actor(e) == Some(u)
    ensures Plays(Apply(st, e), id, u, role)
    ensures Apply(st, e).links[id].status == st.links[id].status
            || Apply(st, e).links[id].status in Moves(role, st.links[id].status)
  {
    ApplyKeepsSound(st, e);
    LinkStep(st, e, id);
    var l := st.links[id];
    assert LinkSound(st.users, l) && LinkEvolves(l, Apply(st, e).links[id]);
  }

  /** The request that makes a given move. */
  function MakingMove(l: Link, id: LinkId, u: UserId, to: Status): Event {
    if l.status == Removed then Invite(u, l.email, id) else Update(u, id, to)
  }

  lemma MoveCanBeMade(st: Store, id: LinkId, u: UserId, role: Role, to: Status)
    requires Sound(st) && Plays(st, id, u, role) && to in Moves(role, st.links[id].status)
    ensures var e := MakingMove(st.links[id], id, u, to);
            Actor(e) == Some(u) && StatusIn(Apply(st, e), id) == Some(to)
  {
    var l := st.links[id];
    assert LinkSound(st.users, l);
    if l.status == Removed {
      assert Invites(st.links, id, u, l.email);
      var found := LinkFor(st.links, u, l.email).value;
      assert SameInvite(st.links[found], l);
    }
  }

  lemma {:induction false} StaysWithin(st: Store, es: seq<Event>, id: LinkId, u: UserId, role: Role)
    requires Sound(st) && Plays(st, id, u, role) && AllBy(es, u)
    ensures var st' := ApplyAll(st, es);
            Sound(st') && Plays(st', id, u, role) && st'.links[id].status in Reach(role, st.links[id].status)
    decreases |es|
  {
    if es != [] {
      var init, e := es[..|es| - 1], es[|es| - 1];
      StaysWithin(st, init, id, u, role);
      var mid := ApplyAll(st, init);
      ApplyKeepsSound(mid, e);
      MovesOnly(mid, e, id, u, role);
      if Apply(mid, e).links[id].status != mid.links[id].status {
        ReachIsClosed(role, st.links[id].status, mid.links[id].status, Apply(mid, e).links[id].status);
      }
    }
  }

  /** The statuses on the way. */
  function Path(role: Role, from: Status, to: Status): seq<Status>
    requires to in Reach(role, from)
  {
    if from == to then []
    else if role == Owner && from == Accepted then
      if to == Removed then [Removed] else if to == Pending then [Removed, Pending] else [Removed, Pending, Rejected]
    else if role == Owner && from == Removed then
      if to == Pending then [Pending] else [Pending, Rejected]
    else if role == Guardian && from == Rejected && to == Accepted then [Pending, Accepted]
    else [to]
  }

  predicate IsPath(role: Role, from: Status, path: seq<Status>)
    decreases |path|
  {
    path == [] || (path[0] in Moves(role, from) && IsPath(role, path[0], path[1..]))
  }

  lemma PathIsPath(role: Role, from: Status, to: Status)
    requires to in Reach(role, from)
    ensures IsPath(role, from, Path(role, from, to))
    ensures var p := Path(role, from, to); to == if p == [] then from else p[|p| - 1]
  {
    var p := Path(role, from, to);
    if |p| == 3 {
      assert p[1..] == [Pending, Rejected] && [Pending, Rejected][1..] == [Rejected] && [Rejected][1..] == [];
      assert IsPath(Owner, Pending, [Rejected]) && IsPath(Owner, Removed, [Pending, Rejected]);
    } else if |p| == 2 {
      assert p[1..] == [p[1]] && p[1..][1..] == [];
    } else if |p| == 1 {
      assert p[1..] == [];
    }
  }

  lemma {:induction false} ApplyCons(st: Store, e: Event, es: seq<Event>)
    ensures ApplyAll(st, [e] + es) == ApplyAll(Apply(st, e), es)
  {
    if es == [] {
      assert ([e] + es)[..0] == [] && ApplyAll(st, []) == st;
    } else {
      assert ([e] + es)[..|es|] == [e] + es[..|es| - 1];
      ApplyCons(st, e, es[..|es| - 1]);
    }
  }

  lemma {:induction false} Walk(st: Store, id: LinkId, u: UserId, role: Role, path: seq<Status>)
      returns (es: seq<Event>)
    requires Sound(st) && Plays(st, id, u, role) && IsPath(role, st.links[id].status, path)
    ensures AllBy(es, u)
    ensures StatusIn(ApplyAll(st, es), id) == Some(if path == [] then st.links[id].status else path[|path| - 1])
    decreases |path|
  {
    if path == [] {
      es := [];
    } else {
      var e := MakingMove(st.links[id], id, u, path[0]);
      MoveCanBeMade(st, id, u, role, path[0]);
      ApplyKeepsSound(st, e);
      MovesOnly(st, e, id, u, role);
      var rest := Walk(Apply(st, e), id, u, role, path[1..]);
      es := [e] + rest;
      ApplyCons(st, e, rest);
    }
  }

  /** Exactly which statuses one side can bring a link to on its own, by any number of requests.  The
  owner never brings about an acceptance; the guardian never brings back a removed link, but can
  turn a rejection into an acceptance. */
  lemma ReachesAloneIff(st: Store, id: LinkId, u: UserId, role: Role, to: Status)
    requires Sound(st) && Plays(st, id, u, role)
    ensures (exists es :: AllBy(es, u) && StatusIn(ApplyAll(st, es), id) == Some(to))
       <==> to in Reach(role, st.links[id].status)
  {
    if to in Reach(role, st.links[id].status) {
      PathIsPath(role, st.links[id].status, to);
      var es := Walk(st, id, u, role, Path(role, st.links[id].status, to));
    }
    if es :| AllBy(es, u) && StatusIn(ApplyAll(st, es), id) == Some(to) {
      StaysWithin(st, es, id, u, role);
    }
  }

  lemma OthersChangeNothing(st: Store, e: Event, id: LinkId, u: UserId)
    requires Sound(st) && id in st.links && Actor(e) == Some(u)
    requires st.links[id].protected != u && st.links[id].guardian != Some(u)
    ensures id in Apply(st, e).links && Apply(st, e).links[id] == st.links[id]
  {}

  /** Nobody else can change a link at all. */
  lemma {:induction false} OthersReachNothing(st: Store, es: seq<Event>, id: LinkId, u: UserId)
    requires Sound(st) && id in st.links && AllBy(es, u)
    requires st.links[id].protected != u && st.links[id].guardian != Some(u)
    ensures Sound(ApplyAll(st, es)) && id in ApplyAll(st, es).links && ApplyAll(st, es).links[id] == st.links[id]
    decreases |es|
  {
    if es != [] {
      OthersReachNothing(st, es[..|es| - 1], id, u);
      ApplyKeepsSound(ApplyAll(st, es[..|es| - 1]), es[|es| - 1]);
      OthersChangeNothing(ApplyAll(st, es[..|es| - 1]), es[|es| - 1], id, u);
    }
  }

  // ------------------------------------------------------- the owner's last word ---

  /** What the user's last move made of the link. */
  function LastWord(trail: seq<Move>, u: UserId): Option<Status> {
    if trail == [] then None
    else if Actor(trail[|trail| - 1].cause) == Some(u) then Some(trail[|trail| - 1].to)
    else LastWord(trail[..|trail| - 1], u)
  }

  lemma LastWordBefore(trail: seq<Move>, u: UserId, n: nat)
    requires n < |trail| && Actor(trail[n].cause) != Some(u)
    ensures LastWord(trail[..n + 1], u) == LastWord(trail[..n], u)
  {
    assert trail[..n + 1][..n] == trail[..n];
  }

  lemma LastWordAt(trail: seq<Move>, u: UserId, n: nat)
    requires n < |trail| && Actor(trail[n].cause) == Some(u)
    ensures LastWord(trail[..n + 1], u) == Some(trail[n].to)
  {}

  /** A pending state that was not the owner's doing follows a rejection of the owner's. */
  lemma ReopenedByGuardian(l: Link, id: LinkId, trail: seq<Move>, n: nat)
    requires TrailSound(l, id, trail) && n < |trail|
    requires trail[n].to == Pending && Actor(trail[n].cause) != Some(l.protected)
    ensures n > 0 && trail[n - 1].to == Rejected && Actor(trail[n - 1].cause) == Some(l.protected)
    ensures l.guardian.Some? && trail[n].cause == Update(l.guardian.value, id, Pending)
  {
    assert MoveSound(l, id, trail, n);
    assert Before(trail, n).value == Rejected;
    assert MoveSound(l, id, trail, n - 1);
  }

  /** On an accepted link the owner's last word was an invite or a reopening exactly if the last move to
  pending was the owner's own; otherwise the owner's last word was a rejection, which the guardian
  reopened. */
  lemma OwnersLastWordIff(es: seq<Event>, id: LinkId)
    ensures var s := Run(es);
            id in s.store.links && s.store.links[id].status == Accepted ==>
              LastWordFits(s.store.links[id], id, s.trail[id])
  {
    var s := Run(es);
    RunKeepsInv(es);
    if id in s.store.links && s.store.links[id].status == Accepted {
      LastWordOnAccepted(s.store, id, s.trail[id]);
    }
  }

  ghost predicate LastWordFits(l: Link, id: LinkId, trail: seq<Move>) {
    && |trail| >= 2 && trail[|trail| - 2].to == Pending
    && (LastWord(trail, l.protected) == Some(Pending) <==> Actor(trail[|trail| - 2].cause) == Some(l.protected))
    && (LastWord(trail, l.protected) != Some(Pending) ==>
          LastWord(trail, l.protected) == Some(Rejected)
          && l.guardian.Some? && trail[|trail| - 2].cause == Update(l.guardian.value, id, Pending))
  }

  lemma LastWordOnAccepted(st: Store, id: LinkId, trail: seq<Move>)
    requires Sound(st) && id in st.links && st.links[id].status == Accepted && TrailSound(st.links[id], id, trail)
    ensures LastWordFits(st.links[id], id, trail)
  {
    var l, n := st.links[id], |trail| - 2;
    AcceptedTrail(l, id, trail);
    assert LinkSound(st.users, l) && trail[..n + 2] == trail;
    LastWordBefore(trail, l.protected, n + 1);
    if Actor(trail[n].cause) == Some(l.protected) {
      LastWordAt(trail, l.protected, n);
    } else {
      ReopenedByGuardian(l, id, trail, n);
      LastWordBefore(trail, l.protected, n);
      LastWordAt(trail, l.protected, n - 1);
    }
  }

  // ----------------------------------------------------------------- examples ---

  lemma RegisterAlone(st: Store, u: UserId, email: Email)
    requires u !in st.users && email !in st.users.Values && forall id :: id in st.links ==> !Waits(st.links[id], email)
    ensures Apply(st, Register(u, email, false)) == st.(users := st.users[u := email])
  {
    assert UserWith(st.users, email).Some? ==> email in st.users.Values;
    assert PendingLinked(st.links, email, u) == st.links;
  }

  lemma InviteFirst(st: Store, owner: UserId, email: Email, id: LinkId)
    requires st.links == map[] && owner in st.users && st.users[owner] != email
    ensures Apply(st, Invite(owner, email, id))
         == st.(links := map[id := Link(owner, UserWith(st.users, email), email, Pending)])
  {
    assert LinkFor(st.links, owner, email) == None;
  }

  /** Two accounts and an invite from the first to the second. */
  lemma InvitedPair(o: UserId, g: UserId, oe: Email, ge: Email, id: LinkId)
    requires o != g && oe != ge
    ensures var s := Step(Step(Step(START, Register(o, oe, false)), Register(g, ge, false)), Invite(o, ge, id));
            && s.store == Store(map[o := oe, g := ge], map[id := Link(o, Some(g), ge, Pending)])
            && Inv(s)
  {
    var s1 := Step(START, Register(o, oe, false));
    RegisterAlone(START.store, o, oe);
    StepKeepsInv(START, Register(o, oe, false));
    var s2 := Step(s1, Register(g, ge, false));
    RegisterAlone(s1.store, g, ge);
    StepKeepsInv(s1, Register(g, ge, false));
    InviteFirst(s2.store, o, ge, id);
    StepKeepsInv(s2, Invite(o, ge, id));
    assert HasEmail(s2.store.users, g, ge);
  }

  lemma UpdateMoves(s: State, u: UserId, id: LinkId, to: Status)
    requires Inv(s) && id in s.store.links && Refusal(s.store, Update(u, id, to)) == None
    ensures var s' := Step(s, Update(u, id, to));
            && Inv(s') && id in s'.store.links && s'.store.links[id] == s.store.links[id].(status := to)
            && s'.trail[id] == s.trail[id] + [Move(Update(u, id, to), to)]
  {
    StepKeepsInv(s, Update(u, id, to));
  }

  /** It does happen that the guardian overrules a rejection: the owner invites and rejects, the guardian
  reopens and accepts, and can then read, although the owner's last word was the rejection. */
  lemma GuardianOverrulesRejection(s: State, o: UserId, g: UserId, id: LinkId)
    requires Inv(s) && id in s.store.links && o != g
    requires s.store.links[id].protected == o && s.store.links[id].guardian == Some(g)
    requires s.store.links[id].status == Pending
    ensures var s' := Step(Step(Step(s, Update(o, id, Rejected)), Update(g, id, Pending)), Update(g, id, Accepted));
            && CanRead(s'.store, g, o) && id in s'.trail && LastWord(s'.trail[id], o) == Some(Rejected)
  {
    UpdateMoves(s, o, id, Rejected);
    var s1 := Step(s, Update(o, id, Rejected));
    UpdateMoves(s1, g, id, Pending);
    var s2 := Step(s1, Update(g, id, Pending));
    UpdateMoves(s2, g, id, Accepted);
    var s3 := Step(s2, Update(g, id, Accepted));
    assert Watches(s3.store.links, id, g, o);
    LastOfThree(s.trail[id], Move(Update(o, id, Rejected), Rejected), Move(Update(g, id, Pending), Pending),
                Move(Update(g, id, Accepted), Accepted), o);
  }

  lemma LastOfThree(trail: seq<Move>, m1: Move, m2: Move, m3: Move, u: UserId)
    requires Actor(m1.cause) == Some(u) && Actor(m2.cause) != Some(u) && Actor(m3.cause) != Some(u)
    ensures LastWord(trail + [m1] + [m2] + [m3], u) == Some(m1.to)
  {
    var t1 := trail + [m1];
    var t2 := t1 + [m2];
    var t3 := t2 + [m3];
    assert t3[..|t3| - 1] == t2 && t2[..|t2| - 1] == t1;
    assert LastWord(t1, u) == Some(m1.to);
  }

  /** It does happen that a registration leaves an invite unlinked: the owner invites an email, rejects the
  invite and reopens it after the email was registered, and the invited user cannot accept it. */
  lemma RejectedInviteStaysUnlinked(o: UserId, g: UserId, oe: Email, ge: Email, id: LinkId)
    requires o != g && oe != ge
    ensures var st := ApplyAll(START.store, [Register(o, oe, false), Invite(o, ge, id), Update(o, id, Rejected),
                                             Register(g, ge, false), Update(o, id, Pending)]);
            && st.users == map[o := oe, g := ge] && st.links == map[id := Link(o, None, ge, Pending)]
            && Refusal(st, Update(g, id, Accepted)) == Some(NotYours)
  {
    var e1, e2, e3, e4, e5 := Register(o, oe, false), Invite(o, ge, id), Update(o, id, Rejected),
                              Register(g, ge, false), Update(o, id, Pending);
    var st := START.store;
    FiveEvents(st, e1, e2, e3, e4, e5);
    RegisterAlone(st, o, oe);
    var st1 := Apply(st, e1);
    assert UserWith(st1.users, ge) == None;
    InviteFirst(st1, o, ge, id);
    RegisterAlone(Apply(Apply(st1, e2), e3), g, ge);
  }

  lemma FiveEvents(st: Store, e1: Event, e2: Event, e3: Event, e4: Event, e5: Event)
    ensures ApplyAll(st, [e1, e2, e3, e4, e5]) == Apply(Apply(Apply(Apply(Apply(st, e1), e2), e3), e4), e5)
  {
    assert [e1, e2, e3, e4, e5][..4] == [e1, e2, e3, e4] && [e1, e2, e3, e4][..3] == [e1, e2, e3];
    assert [e1, e2, e3][..2] == [e1, e2] && [e1, e2][..1] == [e1] && [e1][..0] == [];
    assert ApplyAll(st, [e1]) == Apply(st, e1);
    assert ApplyAll(st, [e1, e2]) == Apply(ApplyAll(st, [e1]), e2);
    assert ApplyAll(st, [e1, e2, e3]) == Apply(ApplyAll(st, [e1, e2]), e3);
    assert ApplyAll(st, [e1, e2, e3, e4]) == Apply(ApplyAll(st, [e1, e2, e3]), e4);
  }
}
