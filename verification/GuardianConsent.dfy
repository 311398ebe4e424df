/** Guardian links (server/app/guardians): who may watch over whom, and whose consent that took.

Emails are values already stripped and lower-cased.  The table's own constraints against self-links
and duplicates are not assumed: the service's rules alone are shown to keep them. */
module GuardianConsent {
  import opened Prelude

  type UserId = string
  type Email = string
  type LinkId = string

  datatype Status = Pending | Accepted | Rejected | Removed

  datatype Link = Link(protected: UserId, guardian: Option<UserId>, email: Email, status: Status)

  datatype Error =
    | EmailTaken | SelfInvite | AlreadyInvited | UnknownUser
    | NotFound | NotYours | OnlyGuardianAccepts | OnlyOwnerRejects | BadTransition

  function Allowed(from: Status): set<Status> {
    match from
    case Pending => {Accepted, Rejected, Removed}
    case Accepted => {Removed}
    case Rejected => {Pending, Removed}
    case Removed => {}
  }

  // ------------------------------------------------------------- the tables ---

  datatype Store = Store(users: map<UserId, Email>, links: map<LinkId, Link>)

  ghost predicate HasEmail(users: map<UserId, Email>, u: UserId, email: Email) {
    u in users && users[u] == email
  }

  ghost function UserWith(users: map<UserId, Email>, email: Email): (r: Option<UserId>)
    ensures r.Some? ==> HasEmail(users, r.value, email)
    ensures r.None? ==> forall u :: !HasEmail(users, u, email)
  {
    if exists u :: HasEmail(users, u, email) then
      var u :| HasEmail(users, u, email);
      Some(u)
    else None
  }

  ghost predicate Invites(links: map<LinkId, Link>, id: LinkId, owner: UserId, email: Email) {
    id in links && links[id].protected == owner && links[id].email == email
  }

  ghost function LinkFor(links: map<LinkId, Link>, owner: UserId, email: Email): (r: Option<LinkId>)
    ensures r.Some? ==> Invites(links, r.value, owner, email)
    ensures r.None? ==> forall id :: !Invites(links, id, owner, email)
  {
    if exists id :: Invites(links, id, owner, email) then
      var id :| Invites(links, id, owner, email);
      Some(id)
    else None
  }

  /** A pending invite to the email that no account is linked to. */
  predicate Waits(l: Link, email: Email) {
    l.email == email && l.status == Pending && l.guardian == None
  }

  function Waiting(links: map<LinkId, Link>, email: Email): set<LinkId> {
    set id | id in links && Waits(links[id], email)
  }

  /** `link_pending_for_email`. */
  function PendingLinked(links: map<LinkId, Link>, email: Email, user: UserId): map<LinkId, Link> {
    map id | id in links ::
      if Waits(links[id], email) then links[id].(guardian := Some(user)) else links[id]
  }

  /** `is_accepted_guardian` or oneself: who may read a protected user's data. */
  ghost predicate CanRead(st: Store, reader: UserId, protected: UserId) {
    reader == protected || exists id :: Watches(st.links, id, reader, protected)
  }

  predicate Watches(links: map<LinkId, Link>, id: LinkId, reader: UserId, protected: UserId) {
    id in links && links[id].protected == protected
    && links[id].guardian == Some(reader) && links[id].status == Accepted
  }

  // -------------------------------------------------------------- operations ---

  /** `linkFails`: linking the new account's invites raised, which registration only logs.  `newId` and
  a registered `user` are identifiers the database makes up. */
  datatype Event =
    | Register(user: UserId, email: Email, linkFails: bool)
    | Invite(owner: UserId, email: Email, newId: LinkId)
    | Update(actor: UserId, id: LinkId, to: Status)

  ghost function Refusal(st: Store, e: Event): Option<Error> {
    match e
    case Register(_, email, _) => if UserWith(st.users, email).Some? then Some(EmailTaken) else None
    case Invite(owner, email, _) =>
      if HasEmail(st.users, owner, email) then Some(SelfInvite)
      else (match LinkFor(st.links, owner, email)
            case Some(id) => if st.links[id].status != Removed then Some(AlreadyInvited) else None
            case None => if owner !in st.users then Some(UnknownUser) else None)
    case Update(actor, id, to) =>
      if id !in st.links then Some(NotFound)
      else
        var l := st.links[id];
        if l.protected != actor && l.guardian != Some(actor) then Some(NotYours)
        else if to == Accepted && l.guardian != Some(actor) then Some(OnlyGuardianAccepts)
        else if to == Rejected && l.protected != actor then Some(OnlyOwnerRejects)
        else if to !in Allowed(l.status) then Some(BadTransition)
        else None
  }

  /** The tables after an event; a refused one changes nothing. */
  ghost function Apply(st: Store, e: Event): Store {
    if Refusal(st, e).Some? then st
    else
      match e
      case Register(user, email, linkFails) =>
        if user in st.users then st
        else st.(users := st.users[user := email],
                 links := if linkFails then st.links else PendingLinked(st.links, email, user))
      case Invite(owner, email, newId) =>
        var known := UserWith(st.users, email);
        (match LinkFor(st.links, owner, email)
         case Some(id) =>
           var guardian := if known.Some? then known else st.links[id].guardian;
           st.(links := st.links[id := st.links[id].(status := Pending, guardian := guardian)])
         case None =>
           if newId in st.links then st else st.(links := st.links[newId := Link(owner, known, email, Pending)]))
      case Update(_, id, to) => st.(links := st.links[id := st.links[id].(status := to)])
  }

  // ------------------------------------------------------- what the tables keep ---

  ghost predicate UsersSound(users: map<UserId, Email>) {
    forall u, v :: u in users && v in users && users[u] == users[v] ==> u == v
  }

  ghost predicate LinkSound(users: map<UserId, Email>, l: Link) {
    && l.protected in users && users[l.protected] != l.email
    && (l.guardian.Some? ==> HasEmail(users, l.guardian.value, l.email))
  }

  ghost predicate LinksUnique(links: map<LinkId, Link>) {
    forall i, j :: i in links && j in links && SameInvite(links[i], links[j]) ==> i == j
  }

  predicate SameInvite(l: Link, l': Link) {
    l.protected == l'.protected && l.email == l'.email
  }

  ghost predicate LinksSound(st: Store) {
    forall id :: id in st.links ==> LinkSound(st.users, st.links[id])
  }

  ghost predicate Sound(st: Store) {
    UsersSound(st.users) && LinksSound(st) && LinksUnique(st.links)
  }

  /** Links keep their owner, their invited email and, once linked, their guardian. */
  ghost predicate Evolves(st: Store, st': Store) {
    && (forall u :: u in st.users ==> HasEmail(st'.users, u, st.users[u]))
    && (forall id :: id in st.links ==> id in st'.links && LinkEvolves(st.links[id], st'.links[id]))
  }

  ghost predicate LinkEvolves(l: Link, l': Link) {
    l'.protected == l.protected && l'.email == l.email && (l.guardian.Some? ==> l'.guardian == l.guardian)
  }

  lemma NewUserKeepsSound(users: map<UserId, Email>, user: UserId, email: Email)
    requires UsersSound(users) && user !in users && UserWith(users, email) == None
    ensures UsersSound(users[user := email])
    ensures forall u, e :: HasEmail(users, u, e) ==> HasEmail(users[user := email], u, e)
  {
    assert forall u :: !HasEmail(users, u, email);
    assert forall u :: u in users ==> HasEmail(users, u, users[u]);
  }

  lemma LinkingKeepsSound(users: map<UserId, Email>, links: map<LinkId, Link>, user: UserId, email: Email,
                          linkFails: bool)
    requires LinksSound(Store(users, links)) && user !in users
    ensures LinksSound(Store(users[user := email], if linkFails then links else PendingLinked(links, email, user)))
  {}

  lemma LinkingKeepsUnique(links: map<LinkId, Link>, user: UserId, email: Email)
    requires LinksUnique(links)
    ensures LinksUnique(PendingLinked(links, email, user))
    ensures forall id :: id in links ==> LinkEvolves(links[id], PendingLinked(links, email, user)[id])
  {}

  lemma RegisterKeepsSound(st: Store, e: Event)
    requires Sound(st) && e.Register?
    ensures Sound(Apply(st, e)) && Evolves(st, Apply(st, e))
  {
    if Refusal(st, e) == None && e.user !in st.users {
      NewUserKeepsSound(st.users, e.user, e.email);
      LinkingKeepsSound(st.users, st.links, e.user, e.email, e.linkFails);
      LinkingKeepsUnique(st.links, e.user, e.email);
    }
  }

  /** The row that a new invite, or one renewed, leaves behind. */
  lemma InvitedLink(st: Store, e: Event, id: LinkId)
    requires Sound(st) && e.Invite? && Refusal(st, e) == None && id in Apply(st, e).links
    requires id in st.links ==> Apply(st, e).links[id] != st.links[id]
    ensures var l' := Apply(st, e).links[id];
            && LinkSound(st.users, l') && l'.protected == e.owner && l'.email == e.email && l'.status == Pending
            && (id in st.links ==> LinkEvolves(st.links[id], l'))
            && (id !in st.links ==> LinkFor(st.links, e.owner, e.email) == None)
  {
    match LinkFor(st.links, e.owner, e.email)
    case None =>
    case Some(old') =>
      assert LinkSound(st.users, st.links[old']);
      if st.links[old'].guardian.Some? {
        assert HasEmail(st.users, st.links[old'].guardian.value, e.email);
      }
  }

  lemma InviteKeepsSound(st: Store, e: Event)
    requires Sound(st) && e.Invite?
    ensures Sound(Apply(st, e)) && Evolves(st, Apply(st, e))
  {
    if Refusal(st, e) == None {
      var links' := Apply(st, e).links;
      forall id | id in links'
        ensures LinkSound(st.users, links'[id])
        ensures id in st.links ==> LinkEvolves(st.links[id], links'[id])
      {
        if id !in st.links || links'[id] != st.links[id] { InvitedLink(st, e, id); }
      }
      InviteKeepsUnique(st, e);
    }
  }

  lemma InviteKeepsUnique(st: Store, e: Event)
    requires Sound(st) && e.Invite? && Refusal(st, e) == None
    ensures LinksUnique(Apply(st, e).links)
  {
    if LinkFor(st.links, e.owner, e.email) == None {
      assert forall id :: id in st.links && st.links[id].protected == e.owner ==>
          !Invites(st.links, id, e.owner, e.email);
    }
  }

  lemma UpdateKeepsSound(st: Store, e: Event)
    requires Sound(st) && e.Update?
    ensures Sound(Apply(st, e)) && Evolves(st, Apply(st, e))
  {}

  lemma ApplyKeepsSound(st: Store, e: Event)
    requires Sound(st)
    ensures Sound(Apply(st, e)) && Evolves(st, Apply(st, e))
  {
    match e
    case Register(_, _, _) => RegisterKeepsSound(st, e);
    case Invite(_, _, _) => InviteKeepsSound(st, e);
    case Update(_, _, _) => UpdateKeepsSound(st, e);
  }

  // ---------------------------------------------------------------- history ---

  /** A change of a link's status that was seen in the table, and the event that brought it about. */
  datatype Move = Move(cause: Event, to: Status)

  datatype State = State(store: Store, trail: map<LinkId, seq<Move>>)

  ghost function Recorded(s: State, st': Store, e: Event, id: LinkId): seq<Move>
    requires id in st'.links && s.trail.Keys == s.store.links.Keys
  {
    if id !in s.trail then [Move(e, st'.links[id].status)]
    else if st'.links[id].status != s.store.links[id].status then s.trail[id] + [Move(e, st'.links[id].status)]
    else s.trail[id]
  }

  ghost function Step(s: State, e: Event): (s': State)
    requires s.trail.Keys == s.store.links.Keys
    ensures s'.trail.Keys == s'.store.links.Keys
  {
    var st' := Apply(s.store, e);
    State(st', map id | id in st'.links :: Recorded(s, st', e, id))
  }

  const START := State(Store(map[], map[]), map[])

  ghost function Run(es: seq<Event>): (s: State)
    ensures s.trail.Keys == s.store.links.Keys
  {
    if es == [] then START else Step(Run(es[..|es| - 1]), es[|es| - 1])
  }

  /** What each kind of move takes: an invite by the owner, an acceptance by the linked guardian, a
  rejection by the owner, and either's hand for the rest. */
  ghost predicate Justified(l: Link, id: LinkId, from: Option<Status>, m: Move) {
    match m.cause
    case Register(_, _, _) => false
    case Invite(owner, email, _) =>
      owner == l.protected && email == l.email && m.to == Pending && (from == None || from == Some(Removed))
    case Update(actor, target, to) =>
      && target == id && m.to == to && from.Some? && to in Allowed(from.value)
      && (actor == l.protected || l.guardian == Some(actor))
      && (to == Accepted ==> l.guardian == Some(actor))
      && (to == Rejected ==> actor == l.protected)
  }

  function Before(trail: seq<Move>, k: nat): Option<Status>
    requires k < |trail|
  {
    if k == 0 then None else Some(trail[k - 1].to)
  }

  ghost predicate MoveSound(l: Link, id: LinkId, trail: seq<Move>, k: nat) {
    k < |trail| && Justified(l, id, Before(trail, k), trail[k])
  }

  ghost predicate TrailSound(l: Link, id: LinkId, trail: seq<Move>) {
    && trail != [] && trail[|trail| - 1].to == l.status
    && (forall k :: 0 <= k < |trail| ==> MoveSound(l, id, trail, k))
  }

  ghost predicate Inv(s: State) {
    && Sound(s.store)
    && s.trail.Keys == s.store.links.Keys
    && forall id :: id in s.trail ==> TrailSound(s.store.links[id], id, s.trail[id])
  }

  /** One link's row before and after an event. */
  lemma LinkStep(st: Store, e: Event, id: LinkId)
    requires Sound(st) && id in Apply(st, e).links
    ensures var l' := Apply(st, e).links[id];
            if id !in st.links then Justified(l', id, None, Move(e, l'.status))
            else l'.status != st.links[id].status ==> Justified(l', id, Some(st.links[id].status), Move(e, l'.status))
  {
    match e
    case Register(_, _, _) =>
    case Invite(_, _, _) =>
    case Update(_, _, _) =>
  }

  lemma JustifiedLater(l: Link, l': Link, id: LinkId, before: Option<Status>, m: Move)
    requires Justified(l, id, before, m) && LinkEvolves(l, l')
    ensures Justified(l', id, before, m)
  {}

  lemma TrailStays(l: Link, l': Link, id: LinkId, trail: seq<Move>)
    requires TrailSound(l, id, trail) && LinkEvolves(l, l') && l'.status == l.status
    ensures TrailSound(l', id, trail)
  {
    forall k | 0 <= k < |trail|
      ensures MoveSound(l', id, trail, k)
    {
      assert MoveSound(l, id, trail, k);
      JustifiedLater(l, l', id, Before(trail, k), trail[k]);
    }
  }

  lemma TrailGrows(l: Link, l': Link, id: LinkId, trail: seq<Move>, m: Move)
    requires TrailSound(l, id, trail) && LinkEvolves(l, l')
    requires Justified(l', id, Some(l.status), m) && m.to == l'.status
    ensures TrailSound(l', id, trail + [m])
  {
    var longer := trail + [m];
    forall k | 0 <= k < |longer|
      ensures MoveSound(l', id, longer, k)
    {
      if k < |trail| {
        assert MoveSound(l, id, trail, k);
        assert Before(longer, k) == Before(trail, k) && longer[k] == trail[k];
        JustifiedLater(l, l', id, Before(trail, k), trail[k]);
      } else {
        assert Before(longer, k) == Some(l.status) && longer[k] == m;
      }
    }
  }

  lemma StepKeepsInv(s: State, e: Event)
    requires Inv(s)
    ensures Inv(Step(s, e))
  {
    var st' := Apply(s.store, e);
    ApplyKeepsSound(s.store, e);
    forall id | id in st'.links
      ensures TrailSound(st'.links[id], id, Recorded(s, st', e, id))
    {
      LinkStep(s.store, e, id);
      if id in s.trail {
        var l, l' := s.store.links[id], st'.links[id];
        if l'.status != l.status {
          TrailGrows(l, l', id, s.trail[id], Move(e, l'.status));
        } else {
          TrailStays(l, l', id, s.trail[id]);
        }
      }
    }
  }

  lemma {:induction false} RunKeepsInv(es: seq<Event>)
    ensures Inv(Run(es))
  {
    if es != [] {
      RunKeepsInv(es[..|es| - 1]);
      StepKeepsInv(Run(es[..|es| - 1]), es[|es| - 1]);
    }
  }

  // ------------------------------------------------------------ main results ---

  /** The user's own acceptance, made when the link stood at pending. */
  ghost predicate ConsentedLast(trail: seq<Move>, id: LinkId, user: UserId) {
    && |trail| >= 2
    && trail[|trail| - 1] == Move(Update(user, id, Accepted), Accepted)
    && trail[|trail| - 2].to == Pending
  }

  ghost predicate InvitedFirst(trail: seq<Move>, l: Link) {
    trail != [] && trail[0].cause.Invite? && trail[0].cause.owner == l.protected && trail[0].cause.email == l.email
  }

  /** Whoever can read another user's data registered with an email that this user invited, accepted
  the invite, and did so after the last time the link was pending; nothing has happened to it since. */
  lemma ReadersConsented(es: seq<Event>, reader: UserId, protected: UserId)
    requires CanRead(Run(es).store, reader, protected) && reader != protected
    ensures exists id :: id in Run(es).store.links
              && Watches(Run(es).store.links, id, reader, protected)
              && HasEmail(Run(es).store.users, reader, Run(es).store.links[id].email)
              && InvitedFirst(Run(es).trail[id], Run(es).store.links[id])
              && ConsentedLast(Run(es).trail[id], id, reader)
  {
    RunKeepsInv(es);
    var id :| Watches(Run(es).store.links, id, reader, protected);
    AcceptedMeansConsent(es, id);
  }

  lemma AcceptedMeansConsent(es: seq<Event>, id: LinkId)
    requires id in Run(es).store.links && Run(es).store.links[id].status == Accepted
    ensures var s := Run(es); var l := s.store.links[id];
            && l.guardian.Some? && l.guardian.value != l.protected
            && HasEmail(s.store.users, l.guardian.value, l.email)
            && InvitedFirst(s.trail[id], l)
            && ConsentedLast(s.trail[id], id, l.guardian.value)
  {
    RunKeepsInv(es);
    var st := Run(es).store;
    assert LinkSound(st.users, st.links[id]);
    AcceptedTrail(st.links[id], id, Run(es).trail[id]);
  }

  lemma AcceptedTrail(l: Link, id: LinkId, trail: seq<Move>)
    requires TrailSound(l, id, trail) && l.status == Accepted
    ensures l.guardian.Some? && InvitedFirst(trail, l) && ConsentedLast(trail, id, l.guardian.value)
  {
    assert MoveSound(l, id, trail, 0) && MoveSound(l, id, trail, |trail| - 1);
  }

  /** In every run nobody guards themselves, an email is invited at most once by each user, and a removed
  link comes back only as pending, by its owner's inviting the same email again. */
  lemma LinksAreProper(es: seq<Event>, e: Event, i: LinkId, j: LinkId)
    requires i in Run(es).store.links && j in Run(es).store.links
    ensures var st := Run(es).store; var l := st.links[i];
            && l.guardian != Some(l.protected)
            && (l.protected == st.links[j].protected && l.email == st.links[j].email ==> i == j)
            && i in Apply(st, e).links
            && (l.status == Removed && Apply(st, e).links[i].status != Removed ==>
                  e.Invite? && e.owner == l.protected && e.email == l.email && Apply(st, e).links[i].status == Pending)
  {
    RunKeepsInv(es);
    var st := Run(es).store;
    assert LinkSound(st.users, st.links[i]);
    assert SameInvite(st.links[i], st.links[j]) ==> i == j;
    assert i in Apply(st, e).links && LinkEvolves(st.links[i], Apply(st, e).links[i]) by { ApplyKeepsSound(st, e); }
    if st.links[i].status == Removed && Apply(st, e).links[i].status != Removed { RemovedReturns(st, e, i); }
  }

  lemma RemovedReturns(st: Store, e: Event, id: LinkId)
    requires Sound(st) && id in st.links && id in Apply(st, e).links
    requires LinkEvolves(st.links[id], Apply(st, e).links[id])
    requires st.links[id].status == Removed && Apply(st, e).links[id].status != Removed
    ensures e.Invite? && e.owner == st.links[id].protected && e.email == st.links[id].email
    ensures Apply(st, e).links[id].status == Pending
  {
    LinkStep(st, e, id);
  }

  /** Removing a link, by whichever side, ends the guardian's reading at once. */
  lemma RemovalEndsReading(es: seq<Event>, actor: UserId, id: LinkId)
    requires id in Run(es).store.links && Run(es).store.links[id].guardian.Some?
    requires Refusal(Run(es).store, Update(actor, id, Removed)) == None
    ensures var l := Run(es).store.links[id];
            !CanRead(Apply(Run(es).store, Update(actor, id, Removed)), l.guardian.value, l.protected)
  {
    RunKeepsInv(es);
    ApplyKeepsSound(Run(es).store, Update(actor, id, Removed));
    var st := Apply(Run(es).store, Update(actor, id, Removed));
    var l := Run(es).store.links[id];
    if CanRead(st, l.guardian.value, l.protected) {
      var other :| Watches(st.links, other, l.guardian.value, l.protected);
      assert LinkSound(st.users, st.links[other]) && LinkSound(st.users, st.links[id]);
      assert SameInvite(st.links[other], st.links[id]);
    }
  }

  /** An invite goes through exactly when the owner has an account with another email and every link to
  this email is removed; it leaves one pending link, tied to the account with that email if there is one. */
  lemma InviteGoesThroughIff(st: Store, owner: UserId, email: Email, newId: LinkId)
    requires Sound(st) && newId !in st.links
    ensures Refusal(st, Invite(owner, email, newId)) == None
       <==> owner in st.users && st.users[owner] != email
            && forall id :: Invites(st.links, id, owner, email) ==> st.links[id].status == Removed
    ensures Refusal(st, Invite(owner, email, newId)) == None ==>
              var links' := Apply(st, Invite(owner, email, newId)).links;
              exists id :: Invites(links', id, owner, email) && links'[id].status == Pending
                && links'[id].guardian == UserWith(st.users, email)
  {
    var e := Invite(owner, email, newId);
    match LinkFor(st.links, owner, email)
    case None =>
      if Refusal(st, e) == None {
        assert Apply(st, e).links[newId] == Link(owner, UserWith(st.users, email), email, Pending);
        assert Invites(Apply(st, e).links, newId, owner, email);
      }
    case Some(id) =>
      assert LinkSound(st.users, st.links[id]);
      forall other | Invites(st.links, other, owner, email)
        ensures other == id
      {
        assert SameInvite(st.links[other], st.links[id]);
      }
      if Refusal(st, e) == None {
        if st.links[id].guardian.Some? { assert HasEmail(st.users, st.links[id].guardian.value, email); }
        assert Invites(Apply(st, e).links, id, owner, email);
      }
  }

  ghost predicate AllLinked(links: map<LinkId, Link>, email: Email, user: UserId) {
    forall id :: id in links && links[id].email == email ==> links[id].guardian == Some(user)
  }

  /** A registration gives the new user every invite to the email exactly when each stands at pending and
  the linking does not fail, or there is none: an invite that was rejected or removed before stays unlinked. */
  lemma RegistrationLinksAllIff(es: seq<Event>, user: UserId, email: Email, linkFails: bool)
    requires user !in Run(es).store.users && UserWith(Run(es).store.users, email) == None
    ensures var st := Run(es).store;
            AllLinked(Apply(st, Register(user, email, linkFails)).links, email, user)
            <==> forall id :: id in st.links && st.links[id].email == email ==>
                                st.links[id].status == Pending && !linkFails
  {
    RunKeepsInv(es);
    var st := Run(es).store;
    forall id | id in st.links && st.links[id].email == email
      ensures st.links[id].guardian == None
    {
      assert LinkSound(st.users, st.links[id]);
    }
  }

  // ----------------------------------------------------- repositories, services ---

  class UsersRepository {
    var rows: map<UserId, Email>

    constructor ()
      ensures rows == map[]
    {
      rows := map[];
    }

    method GetByEmail(email: Email) returns (user: Option<UserId>)
      requires UsersSound(rows)
      ensures user == UserWith(rows, email)
    {
      if u :| u in rows && rows[u] == email {
        assert HasEmail(rows, u, email);
        return Some(u);
      }
      return None;
    }

    method Create(user: UserId, email: Email)
      requires user !in rows
      modifies this
      ensures rows == old(rows)[user := email]
    {
      rows := rows[user := email];
    }
  }

  class GuardiansRepository {
    var rows: map<LinkId, Link>

    constructor ()
      ensures rows == map[]
    {
      rows := map[];
    }

    method Create(owner: UserId, guardian: Option<UserId>, email: Email, newId: LinkId)
      requires newId !in rows
      modifies this
      ensures rows == old(rows)[newId := Link(owner, guardian, email, Pending)]
    {
      rows := rows[newId := Link(owner, guardian, email, Pending)];
    }

    method FindByProtectedAndEmail(owner: UserId, email: Email) returns (found: Option<LinkId>)
      requires forall i, j :: Invites(rows, i, owner, email) && Invites(rows, j, owner, email) ==> i == j
      ensures found == LinkFor(rows, owner, email)
    {
      if id :| id in rows && rows[id].protected == owner && rows[id].email == email {
        assert Invites(rows, id, owner, email);
        return Some(id);
      }
      assert forall id :: !Invites(rows, id, owner, email);
      return None;
    }

    /** The bulk update, row by row; it reports how many invites it linked. */
    method LinkPendingForEmail(email: Email, user: UserId) returns (linked: nat)
      modifies this
      ensures rows == PendingLinked(old(rows), email, user) && linked == |Waiting(old(rows), email)|
    {
      var todo := Waiting(rows, email);
      linked := 0;
      while todo != {}
        invariant todo <= Waiting(old(rows), email) && linked + |todo| == |Waiting(old(rows), email)|
        invariant rows.Keys == old(rows).Keys
        invariant forall id :: id in rows ==>
                    rows[id] == if id in Waiting(old(rows), email) - todo then old(rows)[id].(guardian := Some(user))
                                else old(rows)[id]
      {
        var id :| id in todo;
        rows := rows[id := rows[id].(guardian := Some(user))];
        todo := todo - {id};
        linked := linked + 1;
      }
    }

    method UpdateStatus(id: LinkId, to: Status) returns (updated: bool)
      modifies this
      ensures updated == (id in old(rows))
      ensures rows == if updated then old(rows)[id := old(rows)[id].(status := to)] else old(rows)
    {
      updated := id in rows;
      if updated {
        rows := rows[id := rows[id].(status := to)];
      }
    }

    method LinkUser(id: LinkId, user: UserId)
      modifies this
      ensures rows == if id in old(rows) then old(rows)[id := old(rows)[id].(guardian := Some(user))] else old(rows)
    {
      if id in rows {
        rows := rows[id := rows[id].(guardian := Some(user))];
      }
    }

    /** The linked users of the accepted links, in no particular order. */
    method AcceptedGuardianUserIds(protected: UserId) returns (ids: seq<UserId>)
      ensures forall u :: u in ids <==> exists id :: Watches(rows, id, u, protected)
    {
      var todo := set id | id in rows && rows[id].protected == protected
                           && rows[id].status == Accepted && rows[id].guardian.Some?;
      ghost var all := todo;
      ids := [];
      while todo != {}
        invariant todo <= all
        invariant forall u :: u in ids <==> exists id :: id in all - todo && rows[id].guardian == Some(u)
      {
        var id :| id in todo;
        ids, todo := ids + [rows[id].guardian.value], todo - {id};
      }
      forall u
        ensures u in ids <==> exists id :: Watches(rows, id, u, protected)
      {
        assert u in ids ==>
            exists id :: id in all - todo && rows[id].guardian == Some(u) && Watches(rows, id, u, protected);
        assert forall id :: Watches(rows, id, u, protected) ==> id in all - todo;
      }
    }

    method IsAcceptedGuardian(protected: UserId, reader: UserId) returns (ok: bool)
      ensures ok <==> exists id :: Watches(rows, id, reader, protected)
    {
      if id :| id in rows && Watches(rows, id, reader, protected) {
        return true;
      }
      return false;
    }
  }

  /** The owner of the link, or the guardian linked to it. */
  predicate IsParty(l: Link, actor: UserId) {
    l.protected == actor || l.guardian == Some(actor)
  }

  ghost predicate LiveInvite(links: map<LinkId, Link>, owner: UserId, email: Email) {
    exists id :: Invites(links, id, owner, email) && links[id].status != Removed
  }

  /** The row of one link, new or removed before, is now a pending invite for the account with the email. */
  ghost predicate InvitedAs(st: Store, links: map<LinkId, Link>, id: LinkId, owner: UserId, email: Email) {
    links == st.links[id := Link(owner, UserWith(st.users, email), email, Pending)]
  }

  /** A link that is renewed has either no guardian or already the account with the email. */
  lemma KeptGuardian(st: Store, owner: UserId, email: Email, id: LinkId)
    requires Sound(st) && Invites(st.links, id, owner, email)
    ensures st.links[id].guardian.Some? ==> UserWith(st.users, email) == st.links[id].guardian
    ensures forall other :: Invites(st.links, other, owner, email) ==> other == id
  {
    assert LinkSound(st.users, st.links[id]);
    if st.links[id].guardian.Some? { assert HasEmail(st.users, st.links[id].guardian.value, email); }
    forall other | Invites(st.links, other, owner, email)
      ensures other == id
    {
      assert SameInvite(st.links[other], st.links[id]);
    }
  }

  lemma InviteIs(st: Store, owner: UserId, email: Email, newId: LinkId)
    requires Sound(st) && newId !in st.links
    ensures var e := Event.Invite(owner, email, newId);
            && (Refusal(st, e) == Some(SelfInvite) <==> HasEmail(st.users, owner, email))
            && (Refusal(st, e) == Some(AlreadyInvited) <==>
                  !HasEmail(st.users, owner, email) && LiveInvite(st.links, owner, email))
            && (Refusal(st, e) == None ==>
                  exists id :: (Invites(st.links, id, owner, email) || id == newId)
                               && InvitedAs(st, Apply(st, e).links, id, owner, email))
  {
    var e := Event.Invite(owner, email, newId);
    match LinkFor(st.links, owner, email)
    case None => assert Refusal(st, e) == None ==> InvitedAs(st, Apply(st, e).links, newId, owner, email);
    case Some(id) =>
      KeptGuardian(st, owner, email, id);
      assert Refusal(st, e) == None ==> InvitedAs(st, Apply(st, e).links, id, owner, email);
  }

  class GuardiansService {
    const users: UsersRepository
    const guardians: GuardiansRepository

    constructor (users: UsersRepository, guardians: GuardiansRepository)
      ensures this.users == users && this.guardians == guardians
    {
      this.users, this.guardians := users, guardians;
    }

    ghost function Tables(): Store
      reads users, guardians
    {
      Store(users.rows, guardians.rows)
    }

    method Invite(owner: UserId, email: Email, newId: LinkId) returns (error: Option<Error>)
      requires Sound(Tables()) && newId !in guardians.rows
      modifies guardians
      ensures error == Refusal(old(Tables()), Event.Invite(owner, email, newId))
      ensures Tables() == Apply(old(Tables()), Event.Invite(owner, email, newId))
      ensures error == Some(SelfInvite) <==> HasEmail(users.rows, owner, email)
      ensures error == Some(AlreadyInvited) <==>
                !HasEmail(users.rows, owner, email) && LiveInvite(old(guardians.rows), owner, email)
      ensures error.Some? ==> guardians.rows == old(guardians.rows)
      ensures error.None? ==>
                exists id :: (Invites(old(guardians.rows), id, owner, email) || id == newId)
                             && InvitedAs(old(Tables()), guardians.rows, id, owner, email)
    {
      InviteIs(Tables(), owner, email, newId);
      if owner in users.rows && users.rows[owner] == email {
        return Some(SelfInvite);
      }
      var existing := guardians.FindByProtectedAndEmail(owner, email);
      if existing.Some? && guardians.rows[existing.value].status != Removed {
        return Some(AlreadyInvited);
      }
      var known := users.GetByEmail(email);
      if existing.Some? {
        var _ := guardians.UpdateStatus(existing.value, Pending);
        if known.Some? {
          guardians.LinkUser(existing.value, known.value);
        }
        return None;
      }
      if owner !in users.rows {
        return Some(UnknownUser);   // the foreign key of the inserted row
      }
      guardians.Create(owner, known, email, newId);
      return None;
    }

    method UpdateStatus(actor: UserId, id: LinkId, to: Status) returns (error: Option<Error>)
      modifies guardians
      ensures error == Refusal(old(Tables()), Update(actor, id, to))
      ensures Tables() == Apply(old(Tables()), Update(actor, id, to))
      ensures error == Some(NotFound) <==> id !in old(guardians.rows)
      ensures error == Some(NotYours) <==>
                id in old(guardians.rows) && !IsParty(old(guardians.rows)[id], actor)
      ensures error.Some? ==> guardians.rows == old(guardians.rows)
      ensures error.None? ==> guardians.rows == old(guardians.rows)[id := old(guardians.rows)[id].(status := to)]
      ensures error.None? ==> IsParty(old(guardians.rows)[id], actor)
                              && (to == Accepted ==> old(guardians.rows)[id].guardian == Some(actor))
                              && (to == Rejected ==> old(guardians.rows)[id].protected == actor)
    {
      if id !in guardians.rows {
        return Some(NotFound);
      }
      var link := guardians.rows[id];
      var isOwner := link.protected == actor;
      var isLinkedGuardian := link.guardian == Some(actor);
      if !isOwner && !isLinkedGuardian {
        return Some(NotYours);
      }
      if to == Accepted && !isLinkedGuardian {
        return Some(OnlyGuardianAccepts);
      }
      if to == Rejected && !isOwner {
        return Some(OnlyOwnerRejects);
      }
      if to !in Allowed(link.status) {
        return Some(BadTransition);
      }
      var _ := guardians.UpdateStatus(id, to);
      return None;
    }

    method Remove(actor: UserId, id: LinkId) returns (error: Option<Error>)
      modifies guardians
      ensures error == Refusal(old(Tables()), Update(actor, id, Removed))
      ensures Tables() == Apply(old(Tables()), Update(actor, id, Removed))
    {
      error := UpdateStatus(actor, id, Removed);
    }

    method AssertCanRead(reader: UserId, protected: UserId) returns (ok: bool)
      ensures ok <==> CanRead(Tables(), reader, protected)
    {
      if reader == protected {
        return true;
      }
      ok := guardians.IsAcceptedGuardian(protected, reader);
    }

    /** Registration, from the auth service: the account, then the invites that waited for it. */
    method Register(user: UserId, email: Email, linkFails: bool) returns (error: Option<Error>)
      requires Sound(Tables()) && user !in users.rows
      modifies users, guardians
      ensures error == Refusal(old(Tables()), Event.Register(user, email, linkFails))
      ensures Tables() == Apply(old(Tables()), Event.Register(user, email, linkFails))
      ensures error.Some? <==> exists u :: HasEmail(old(users.rows), u, email)
      ensures error.Some? ==> users.rows == old(users.rows) && guardians.rows == old(guardians.rows)
      ensures error.None? ==> users.rows == old(users.rows)[user := email]
      ensures guardians.rows.Keys == old(guardians.rows).Keys
      ensures error.None? ==>
                forall id :: id in guardians.rows ==>
                  var l := old(guardians.rows)[id];
                  guardians.rows[id] == if !linkFails && l.email == email && l.status == Pending && l.guardian == None
                                        then Link(l.protected, Some(user), l.email, Pending) else l
    {
      var existing := users.GetByEmail(email);
      if existing.Some? {
        return Some(EmailTaken);
      }
      users.Create(user, email);
      if !linkFails {
        var _ := guardians.LinkPendingForEmail(email, user);
      }
      return None;
    }
  }
}
