/** Emergencies (server/app/emergencies): a status, a resolution time and an audit log.

An update reads the row outside the transaction that writes it.  Serial runs and interleaved runs are
both modelled; the second keep less, and exactly what they lose is stated. */
module Emergencies {
  import opened Prelude
  import GuardianConsent

  type Id = string
  type UserId = GuardianConsent.UserId

  datatype Status = Active | Acknowledged | Resolved | Cancelled

  function Allowed(from: Status): set<Status> {
    match from
    case Active => {Acknowledged, Resolved, Cancelled}
    case Acknowledged => {Resolved, Cancelled}
    case Resolved => {}
    case Cancelled => {}
  }

  predicate Terminal(s: Status) { s.Resolved? || s.Cancelled? }

  datatype Row = Row(owner: UserId, status: Status, resolvedAt: Option<int>)

  datatype Entry = Entry(actor: UserId, from: Option<Status>, to: Status, at: int)

  /** The emergencies, and for each its events in the order in which they were committed. */
  datatype Tables = Tables(rows: map<Id, Row>, events: map<Id, seq<Entry>>)

  datatype Error = DeviceNotYours | NotFound | Forbidden | BadTransition

  /** The creating transaction: the row and its first event. */
  function Created(t: Tables, id: Id, owner: UserId, at: int): Tables {
    Tables(t.rows[id := Row(owner, Active, None)], t.events[id := [Entry(owner, None, Active, at)]])
  }

  /** The row after the UPDATE statement: a terminal status stamps `resolved_at`, no other clears it. */
  function Moved(row: Row, to: Status, at: int): Row {
    row.(status := to, resolvedAt := if Terminal(to) then Some(at) else row.resolvedAt)
  }

  /** The updating transaction: the row and the audit event, which quotes the status that was read before. */
  function Committed(t: Tables, id: Id, actor: UserId, from: Status, to: Status, at: int): Tables
    requires id in t.rows && id in t.events
  {
    Tables(t.rows[id := Moved(t.rows[id], to, at)], t.events[id := t.events[id] + [Entry(actor, Some(from), to, at)]])
  }

  /** The checks before the transaction. */
  function Refusal(t: Tables, id: Id, permitted: bool, to: Status): Option<Error> {
    if id !in t.rows then Some(NotFound)
    else if !permitted then Some(Forbidden)
    else if to != t.rows[id].status && to !in Allowed(t.rows[id].status) then Some(BadTransition)
    else None
  }

  // ------------------------------------------------------------ serial runs ---

  /** `deviceOk`: no device was named or it is the owner's.  `permitted`: the actor is an admin, the
  owner, or a guardian whom the owner accepts.  New identifiers are made up by the database. */
  datatype Call =
    | Create(id: Id, owner: UserId, deviceOk: bool, at: int)
    | Update(id: Id, actor: UserId, permitted: bool, to: Status, at: int)

  function Serial(t: Tables, c: Call): Tables
    requires t.rows.Keys == t.events.Keys
  {
    match c
    case Create(id, owner, deviceOk, at) => if !deviceOk || id in t.rows then t else Created(t, id, owner, at)
    case Update(id, actor, permitted, to, at) =>
      if Refusal(t, id, permitted, to).Some? || to == t.rows[id].status then t
      else Committed(t, id, actor, t.rows[id].status, to, at)
  }

  function SerialRun(calls: seq<Call>): (t: Tables)
    ensures t.rows.Keys == t.events.Keys
  {
    if calls == [] then Tables(map[], map[]) else Serial(SerialRun(calls[..|calls| - 1]), calls[|calls| - 1])
  }

  // ------------------------------------------------------- interleaved runs ---

  type Req = nat

  /** An update that has read its row and passed its checks. */
  datatype Pending = Pending(id: Id, actor: UserId, from: Status, to: Status)

  datatype State = State(tables: Tables, pending: map<Req, Pending>)

  datatype Event =
    | Open(id: Id, owner: UserId, at: int)
    | Read(req: Req, id: Id, actor: UserId, permitted: bool, to: Status)
    | Commit(req: Req, at: int)
    | Drop(req: Req)

  function Step(s: State, e: Event): State
    requires Consistent(s)
  {
    match e
    case Open(id, owner, at) => if id in s.tables.rows then s else s.(tables := Created(s.tables, id, owner, at))
    case Read(req, id, actor, permitted, to) =>
      if req in s.pending || Refusal(s.tables, id, permitted, to).Some? || to == s.tables.rows[id].status then s
      else s.(pending := s.pending[req := Pending(id, actor, s.tables.rows[id].status, to)])
    case Commit(req, at) =>
      if req !in s.pending then s
      else
        var p := s.pending[req];
        State(Committed(s.tables, p.id, p.actor, p.from, p.to, at), s.pending - {req})
    case Drop(req) => s.(pending := s.pending - {req})
  }

  predicate Consistent(s: State) {
    s.tables.rows.Keys == s.tables.events.Keys && forall r :: r in s.pending ==> s.pending[r].id in s.tables.rows
  }

  function Run(es: seq<Event>): (s: State)
    ensures Consistent(s)
  {
    if es == [] then State(Tables(map[], map[]), map[]) else Step(Run(es[..|es| - 1]), es[|es| - 1])
  }

  // ---------------------------------------------------- what every run keeps ---

  /** The time of the last terminal event. */
  function ResolutionTime(log: seq<Entry>): Option<int> {
    if log == [] then None
    else if Terminal(log[|log| - 1].to) then Some(log[|log| - 1].at)
    else ResolutionTime(log[..|log| - 1])
  }

  predicate EntryAllowed(log: seq<Entry>, k: nat) {
    k < |log| &&
    if k == 0 then log[k].from == None && log[k].to == Active
    else log[k].from.Some? && log[k].to in Allowed(log[k].from.value)
  }

  /** Every event is an allowed pair, the status is the last event's and `resolved_at` the last
  terminal event's time. */
  predicate Audited(row: Row, log: seq<Entry>) {
    && log != [] && log[0].actor == row.owner
    && (forall k :: 0 <= k < |log| ==> EntryAllowed(log, k))
    && row.status == log[|log| - 1].to
    && row.resolvedAt == ResolutionTime(log)
  }

  predicate AllAudited(t: Tables) {
    t.rows.Keys == t.events.Keys && forall id :: id in t.rows ==> Audited(t.rows[id], t.events[id])
  }

  predicate Inv(s: State) {
    && Consistent(s) && AllAudited(s.tables)
    && forall r :: r in s.pending ==> s.pending[r].to in Allowed(s.pending[r].from)
  }

  lemma LogGrows(row: Row, log: seq<Entry>, actor: UserId, from: Status, to: Status, at: int)
    requires Audited(row, log) && to in Allowed(from)
    ensures Audited(Moved(row, to, at), log + [Entry(actor, Some(from), to, at)])
  {
    var longer := log + [Entry(actor, Some(from), to, at)];
    assert longer[..|longer| - 1] == log;
    forall k | 0 <= k < |longer|
      ensures EntryAllowed(longer, k)
    {
      if k < |log| { assert EntryAllowed(log, k); }
    }
  }

  lemma StepKeepsInv(s: State, e: Event)
    requires Inv(s)
    ensures Inv(Step(s, e))
  {
    match e
    case Open(id, owner, at) => FirstEntry(owner, at);
    case Read(_, _, _, _, _) =>
    case Commit(req, at) =>
      if req in s.pending {
        var p := s.pending[req];
        LogGrows(s.tables.rows[p.id], s.tables.events[p.id], p.actor, p.from, p.to, at);
      }
    case Drop(_) =>
  }

  lemma FirstEntry(owner: UserId, at: int)
    ensures Audited(Row(owner, Active, None), [Entry(owner, None, Active, at)])
  {
    var log := [Entry(owner, None, Active, at)];
    assert log[..0] == [] && ResolutionTime(log) == ResolutionTime(log[..0]);
  }

  /** In every interleaving, every event is an allowed pair, the status is the last committed target,
  and `resolved_at` is the time of the last terminal commit. */
  lemma {:induction false} EveryRunIsAudited(es: seq<Event>)
    ensures Inv(Run(es))
  {
    if es != [] {
      EveryRunIsAudited(es[..|es| - 1]);
      StepKeepsInv(Run(es[..|es| - 1]), es[|es| - 1]);
    }
  }

  /** The later tables still have the emergency, with its owner, its past events and, if it was once
  resolved, a resolution time. */
  ghost predicate Remembers(t: Tables, t': Tables, id: Id) {
    && id in t.rows && id in t.events && id in t'.rows && id in t'.events
    && t'.rows[id].owner == t.rows[id].owner && t.events[id] <= t'.events[id]
    && (t.rows[id].resolvedAt.Some? ==> t'.rows[id].resolvedAt.Some?)
  }

  lemma StepRemembers(s: State, e: Event, id: Id)
    requires Consistent(s) && id in s.tables.rows
    ensures Remembers(s.tables, Step(s, e).tables, id)
  {}

  /** Over any run a resolution time, once set, is never cleared, and an emergency keeps its owner and
  its past. */
  lemma {:induction false} NothingIsForgotten(es: seq<Event>, n: nat, id: Id)
    requires n <= |es| && id in Run(es[..n]).tables.rows
    ensures Remembers(Run(es[..n]).tables, Run(es).tables, id)
    decreases |es|
  {
    if n == |es| {
      assert es[..n] == es;
    } else {
      var init := es[..|es| - 1];
      assert init[..n] == es[..n];
      NothingIsForgotten(init, n, id);
      StepRemembers(Run(init), es[|es| - 1], id);
    }
  }

  // -------------------------------------------------- where an event comes from ---

  /** This event is the request reading its row, with the checks passed. */
  ghost predicate ReadAt(es: seq<Event>, i: nat, req: Req, p: Pending) {
    && i < |es| && es[i] == Read(req, p.id, p.actor, true, p.to) && req !in Run(es[..i]).pending
    && p.id in Run(es[..i]).tables.rows && Run(es[..i]).tables.rows[p.id].status == p.from
  }

  predicate Ends(e: Event, req: Req) {
    (e.Commit? && e.req == req) || e == Drop(req)
  }

  /** Between the two events the request neither commits nor is given up. */
  ghost predicate Waits(es: seq<Event>, i: nat, j: nat, req: Req) {
    j <= |es| && forall m :: i < m < j ==> !Ends(es[m], req)
  }

  lemma PendingStep(s: State, e: Event, req: Req)
    requires Consistent(s) && req in Step(s, e).pending
    ensures var p := Step(s, e).pending[req];
            if req in s.pending then s.pending[req] == p && !Ends(e, req)
            else e == Read(req, p.id, p.actor, true, p.to)
                 && p.id in s.tables.rows && s.tables.rows[p.id].status == p.from
  {}

  lemma ReadLater(es: seq<Event>, i: nat, req: Req, p: Pending)
    requires es != [] && ReadAt(es[..|es| - 1], i, req, p) && Waits(es[..|es| - 1], i, |es| - 1, req)
    requires !Ends(es[|es| - 1], req)
    ensures ReadAt(es, i, req, p) && Waits(es, i, |es|, req)
  {
    var init := es[..|es| - 1];
    assert init[..i] == es[..i];
    forall m | i < m < |es|
      ensures !Ends(es[m], req)
    {
      if m < |init| { assert init[m] == es[m]; }
    }
  }

  lemma {:induction false} PendingWasRead(es: seq<Event>, req: Req) returns (i: nat)
    requires req in Run(es).pending
    ensures ReadAt(es, i, req, Run(es).pending[req]) && Waits(es, i, |es|, req)
  {
    var init := es[..|es| - 1];
    PendingStep(Run(init), es[|es| - 1], req);
    if req in Run(init).pending {
      i := PendingWasRead(init, req);
      ReadLater(es, i, req, Run(es).pending[req]);
    } else {
      i := |es| - 1;
    }
  }

  /** The k-th event of the emergency is what the request that read at i logged when it committed at j. */
  ghost predicate Stems(es: seq<Event>, id: Id, k: nat, i: nat, j: nat) {
    && i < j < |es| && es[i].Read? && es[i].id == id && es[i].permitted && es[i].req !in Run(es[..i]).pending
    && id in Run(es[..i]).tables.rows
    && es[j].Commit? && es[j].req == es[i].req && Waits(es, i, j, es[i].req)
    && id in Run(es).tables.events && k < |Run(es).tables.events[id]|
    && Run(es).tables.events[id][k]
       == Entry(es[i].actor, Some(Run(es[..i]).tables.rows[id].status), es[i].to, es[j].at)
  }

  lemma StemsLater(es: seq<Event>, id: Id, k: nat, i: nat, j: nat)
    requires es != [] && Stems(es[..|es| - 1], id, k, i, j)
    ensures Stems(es, id, k, i, j)
  {
    var init := es[..|es| - 1];
    assert init[..i] == es[..i] && init[i] == es[i] && init[j] == es[j];
    assert forall m :: 0 <= m < |init| ==> init[m] == es[m];
    StepRemembers(Run(init), es[|es| - 1], id);
  }

  /** A commit logs the request's own actor, target and status read, at the time of the commit. */
  lemma CommitLogs(s: State, req: Req, at: int)
    requires Consistent(s) && req in s.pending
    ensures var p, t := s.pending[req], Step(s, Commit(req, at)).tables;
            && p.id in t.events && t.events[p.id] == s.tables.events[p.id] + [Entry(p.actor, Some(p.from), p.to, at)]
            && t.rows[p.id].status == p.to && t.rows[p.id].owner == s.tables.rows[p.id].owner
            && forall id :: id in s.tables.rows && id != p.id ==>
                 id in t.rows && id in t.events
                 && t.rows[id] == s.tables.rows[id] && t.events[id] == s.tables.events[id]
  {}

  lemma OtherEventsLogNothing(s: State, e: Event, id: Id)
    requires Consistent(s) && id in Step(s, e).tables.rows
    ensures id in s.tables.rows ==>
              Step(s, e).tables.events[id] == s.tables.events[id]
              || (e.Commit? && e.req in s.pending && s.pending[e.req].id == id)
    ensures id !in s.tables.rows ==>
              e.Open? && e.id == id && Step(s, e).tables.events[id] == [Entry(e.owner, None, Active, e.at)]
  {}

  /** In every interleaving each event after the first was logged by one request: it carries the actor and
  the target of that request, who had passed the permission check, the status that it then read, and the
  time of its commit. */
  lemma {:induction false} EventStems(es: seq<Event>, id: Id, k: nat) returns (i: nat, j: nat)
    requires id in Run(es).tables.rows && 0 < k < |Run(es).tables.events[id]|
    ensures Stems(es, id, k, i, j)
  {
    var init, e := es[..|es| - 1], es[|es| - 1];
    OtherEventsLogNothing(Run(init), e, id);
    if k < |Run(init).tables.events[id]| {
      StepRemembers(Run(init), e, id);
      i, j := EventStems(init, id, k);
      StemsLater(es, id, k, i, j);
    } else {
      CommitLogs(Run(init), e.req, e.at);
      i := PendingWasRead(init, e.req);
      j := |es| - 1;
      assert init[..i] == es[..i] && init[i] == es[i];
      assert forall m :: 0 <= m < |init| ==> init[m] == es[m];
    }
  }

  /** The first event was logged by the opening, in the owner's name. */
  lemma {:induction false} FirstEventStems(es: seq<Event>, id: Id) returns (i: nat)
    requires id in Run(es).tables.rows
    ensures i < |es| && es[i].Open? && es[i].id == id && id !in Run(es[..i]).tables.rows
    ensures |Run(es).tables.events[id]| > 0
    ensures Run(es).tables.events[id][0] == Entry(es[i].owner, None, Active, es[i].at)
    ensures Run(es).tables.rows[id].owner == es[i].owner
  {
    var init, e := es[..|es| - 1], es[|es| - 1];
    OtherEventsLogNothing(Run(init), e, id);
    if id in Run(init).tables.rows {
      StepRemembers(Run(init), e, id);
      i := FirstEventStems(init, id);
      assert init[..i] == es[..i] && init[i] == es[i];
    } else {
      i := |es| - 1;
    }
  }

  // ------------------------------------------- contiguity and stale commits ---

  predicate Joined(log: seq<Entry>, k: nat) {
    0 < k < |log| && log[k].from == Some(log[k - 1].to)
  }

  /** The events form one path: each starts where the one before ended. */
  predicate Contiguous(log: seq<Entry>) {
    forall k: nat :: 0 < k < |log| ==> Joined(log, k)
  }

  /** The row's status has changed since the request read it. */
  predicate StaleCommit(s: State, e: Event, id: Id) {
    && Consistent(s) && e.Commit? && e.req in s.pending
    && s.pending[e.req].id == id && s.pending[e.req].from != s.tables.rows[id].status
  }

  /** No commit of the run was stale for this emergency. */
  predicate NeverStale(es: seq<Event>, id: Id) {
    es == []
    || (NeverStale(es[..|es| - 1], id) && !StaleCommit(Run(es[..|es| - 1]), es[|es| - 1], id))
  }

  lemma ContiguousStep(s: State, e: Event, id: Id)
    requires Inv(s) && id in Step(s, e).tables.rows
    ensures Contiguous(Step(s, e).tables.events[id])
       <==> (id in s.tables.rows ==> Contiguous(s.tables.events[id])) && !StaleCommit(s, e, id)
  {
    if id in s.tables.rows && Step(s, e).tables.events[id] != s.tables.events[id] {
      ContiguousAppend(s.tables.events[id], Step(s, e).tables.events[id][|s.tables.events[id]|]);
    }
  }

  lemma ContiguousAppend(log: seq<Entry>, entry: Entry)
    requires log != []
    ensures Contiguous(log + [entry]) <==> Contiguous(log) && entry.from == Some(log[|log| - 1].to)
  {
    var longer := log + [entry];
    assert forall k: nat :: 0 < k < |log| ==> Joined(longer, k) == Joined(log, k);
    assert Joined(longer, |log|) <==> entry.from == Some(log[|log| - 1].to);
  }

  /** An emergency's events form one path exactly when no update of it committed after the status it
  had read was already gone. */
  lemma {:induction false} ContiguousIffNeverStale(es: seq<Event>, id: Id)
    requires id in Run(es).tables.rows
    ensures Contiguous(Run(es).tables.events[id]) <==> NeverStale(es, id)
  {
    var init, e := es[..|es| - 1], es[|es| - 1];
    EveryRunIsAudited(init);
    ContiguousStep(Run(init), e, id);
    if id in Run(init).tables.rows {
      ContiguousIffNeverStale(init, id);
    } else {
      UnknownIsNeverStale(init, id);
    }
  }

  lemma {:induction false} UnknownIsNeverStale(es: seq<Event>, id: Id)
    requires id !in Run(es).tables.rows
    ensures NeverStale(es, id)
  {
    if es != [] {
      if id in Run(es[..|es| - 1]).tables.rows { RowsGrow(Run(es[..|es| - 1]), es[|es| - 1], id); }
      UnknownIsNeverStale(es[..|es| - 1], id);
    }
  }

  lemma RowsGrow(s: State, e: Event, id: Id)
    requires Consistent(s) && id in s.tables.rows
    ensures id in Step(s, e).tables.rows
  {}

  /** How far a status is from creation; an allowed move goes up. */
  function Rank(s: Status): nat {
    if s == Active then 0 else if s == Acknowledged then 1 else 2
  }

  lemma {:induction false} PathClimbs(log: seq<Entry>, k: nat)
    requires k < |log| && Contiguous(log) && forall i :: 0 <= i < |log| ==> EntryAllowed(log, i)
    ensures k <= Rank(log[k].to)
  {
    assert EntryAllowed(log, k);
    if k > 0 {
      PathClimbs(log, k - 1);
      assert Joined(log, k);
    }
  }

  /** Along a path there are at most three events, only the last can be terminal, and `resolved_at` is
  set exactly when the status is terminal. */
  lemma PathIsShort(row: Row, log: seq<Entry>)
    requires Audited(row, log) && Contiguous(log)
    ensures |log| <= 3
    ensures forall k :: 0 <= k < |log| - 1 ==> !Terminal(log[k].to)
    ensures row.resolvedAt.Some? <==> Terminal(row.status)
  {
    forall k: nat | k < |log|
      ensures k <= Rank(log[k].to)
    {
      PathClimbs(log, k);
    }
    assert |log| - 1 <= Rank(log[|log| - 1].to);
    forall k | 0 <= k < |log| - 1
      ensures !Terminal(log[k].to)
    {
      assert EntryAllowed(log, k + 1) && Joined(log, k + 1);
    }
    ResolutionOnPath(log);
  }

  lemma ResolutionOnPath(log: seq<Entry>)
    requires 0 < |log| <= 3 && forall k :: 0 <= k < |log| - 1 ==> !Terminal(log[k].to)
    ensures ResolutionTime(log).Some? <==> Terminal(log[|log| - 1].to)
  {
    NoResolution(log[..|log| - 1]);
  }

  lemma {:induction false} NoResolution(log: seq<Entry>)
    requires forall k :: 0 <= k < |log| ==> !Terminal(log[k].to)
    ensures ResolutionTime(log) == None
  {
    if log != [] { NoResolution(log[..|log| - 1]); }
  }

  predicate SomeTerminal(log: seq<Entry>) {
    exists k :: 0 <= k < |log| && Terminal(log[k].to)
  }

  lemma {:induction false} ResolvedIff(log: seq<Entry>)
    ensures ResolutionTime(log).Some? <==> SomeTerminal(log)
  {
    if log != [] {
      var init := log[..|log| - 1];
      ResolvedIff(init);
      if k :| 0 <= k < |log| && Terminal(log[k].to) {
        assert k < |init| ==> Terminal(init[k].to);
      }
      if SomeTerminal(init) {
        var k :| 0 <= k < |init| && Terminal(init[k].to);
        assert Terminal(log[k].to);
      }
    }
  }

  /** No event leads back to active. */
  lemma OnlyFirstIsActive(log: seq<Entry>, k: nat)
    requires EntryAllowed(log, k) && log[k].to == Active
    ensures k == 0
  {}

  /** The last event acknowledges what an earlier one had closed. */
  predicate Reopened(log: seq<Entry>) {
    log != [] && log[|log| - 1].to == Acknowledged && SomeTerminal(log)
  }

  lemma ReopenedLog(row: Row, log: seq<Entry>)
    requires Audited(row, log)
    ensures (row.resolvedAt.Some? <==> Terminal(row.status)) <==> !Reopened(log)
    ensures Reopened(log) ==> !Contiguous(log)
  {
    ResolvedIff(log);
    assert EntryAllowed(log, |log| - 1);
    if log[|log| - 1].to == Active { OnlyFirstIsActive(log, |log| - 1); }
    if Contiguous(log) { PathIsShort(row, log); }
  }

  /** After every run the resolution time is in step with the status exactly when the emergency was not
  acknowledged after it had been closed; a reopening needs a stale commit. */
  lemma ReopenedIff(es: seq<Event>, id: Id)
    requires id in Run(es).tables.rows
    ensures var t := Run(es).tables;
            && ((t.rows[id].resolvedAt.Some? <==> Terminal(t.rows[id].status)) <==> !Reopened(t.events[id]))
            && (Reopened(t.events[id]) ==> !NeverStale(es, id))
  {
    EveryRunIsAudited(es);
    ReopenedLog(Run(es).tables.rows[id], Run(es).tables.events[id]);
    ContiguousIffNeverStale(es, id);
  }

  /** It does happen: two updates read an active emergency, one resolves it, the other acknowledges it. */
  lemma ClosedThenAcknowledged(s: State, id: Id, owner: UserId, r: Req, q: Req)
    requires Inv(s) && id !in s.tables.rows && r !in s.pending && q !in s.pending && r != q
    ensures var active := Step(s, Open(id, owner, 0));
            var oneRead := Step(active, Read(r, id, owner, true, Resolved));
            var bothRead := Step(oneRead, Read(q, id, owner, true, Acknowledged));
            var t := Step(Step(bothRead, Commit(r, 1)), Commit(q, 2)).tables;
            && id in t.rows && t.rows[id] == Row(owner, Acknowledged, Some(1))
            && t.events[id] == [Entry(owner, None, Active, 0), Entry(owner, Some(Active), Resolved, 1),
                                Entry(owner, Some(Active), Acknowledged, 2)]
            && !Contiguous(t.events[id])
  {
    var e0, e1, e2 := Entry(owner, None, Active, 0), Entry(owner, Some(Active), Resolved, 1),
                      Entry(owner, Some(Active), Acknowledged, 2);
    assert !Joined([e0, e1, e2], 2);
  }

  // ------------------------------------------------ what serial runs keep more ---

  predicate SerialInv(t: Tables) {
    && t.rows.Keys == t.events.Keys
    && forall id :: id in t.rows ==> Audited(t.rows[id], t.events[id]) && Contiguous(t.events[id])
  }

  lemma SerialKeepsInv(t: Tables, c: Call)
    requires SerialInv(t)
    ensures SerialInv(Serial(t, c))
  {
    match c
    case Create(id, owner, _, at) => FirstEntry(owner, at);
    case Update(id, actor, permitted, to, at) =>
      if Refusal(t, id, permitted, to).None? && to != t.rows[id].status {
        LogGrows(t.rows[id], t.events[id], actor, t.rows[id].status, to, at);
        ContiguousAppend(t.events[id], Entry(actor, Some(t.rows[id].status), to, at));
      }
  }

  lemma {:induction false} SerialRunKeepsInv(calls: seq<Call>)
    ensures SerialInv(SerialRun(calls))
  {
    if calls != [] {
      SerialRunKeepsInv(calls[..|calls| - 1]);
      SerialKeepsInv(SerialRun(calls[..|calls| - 1]), calls[|calls| - 1]);
    }
  }

  /** Serial runs: one allowed path of at most three events from creation, ending in the status;
  `resolved_at` is set exactly when the status is terminal; a terminal emergency never changes. */
  lemma SerialRunsAreProper(calls: seq<Call>, c: Call, id: Id)
    requires id in SerialRun(calls).rows
    ensures var t := SerialRun(calls);
            && Contiguous(t.events[id]) && 1 <= |t.events[id]| <= 3
            && (forall k :: 0 <= k < |t.events[id]| ==> EntryAllowed(t.events[id], k))
            && t.rows[id].status == t.events[id][|t.events[id]| - 1].to
            && (t.rows[id].resolvedAt.Some? <==> Terminal(t.rows[id].status))
            && (Terminal(t.rows[id].status) ==>
                  && id in Serial(t, c).rows
                  && Serial(t, c).rows[id] == t.rows[id] && Serial(t, c).events[id] == t.events[id])
  {
    SerialRunKeepsInv(calls);
    PathIsShort(SerialRun(calls).rows[id], SerialRun(calls).events[id]);
  }

  /** Updates of this emergency by one actor, who is permitted or not. */
  predicate UpdatesOf(calls: seq<Call>, id: Id, actor: UserId, permitted: bool) {
    forall i :: 0 <= i < |calls| ==>
      calls[i].Update? && calls[i].id == id && calls[i].actor == actor && calls[i].permitted == permitted
  }

  lemma SerialNext(calls: seq<Call>, c: Call)
    ensures SerialRun(calls + [c]) == Serial(SerialRun(calls), c)
  {
    assert (calls + [c])[..|calls|] == calls;
  }

  function StatusIn(t: Tables, id: Id): Option<Status> {
    if id in t.rows then Some(t.rows[id].status) else None
  }

  predicate ReachedBy(from: Status, permitted: bool, to: Status) {
    to == from || (permitted && Rank(from) < Rank(to))
  }

  lemma UpdateClimbs(t: Tables, id: Id, actor: UserId, permitted: bool, to: Status, at: int)
    requires t.rows.Keys == t.events.Keys && id in t.rows
    ensures var t' := Serial(t, Update(id, actor, permitted, to, at));
            id in t'.rows && ReachedBy(t.rows[id].status, permitted, t'.rows[id].status)
    ensures permitted && Rank(t.rows[id].status) < Rank(to) ==>
              Serial(t, Update(id, actor, permitted, to, at)).rows[id].status == to
  {}

  lemma {:induction false} UpdatesClimb(calls: seq<Call>, more: seq<Call>, id: Id, actor: UserId, permitted: bool)
    requires id in SerialRun(calls).rows && UpdatesOf(more, id, actor, permitted)
    ensures id in SerialRun(calls + more).rows
    ensures ReachedBy(SerialRun(calls).rows[id].status, permitted, SerialRun(calls + more).rows[id].status)
    decreases |more|
  {
    if more == [] {
      assert calls + more == calls;
    } else {
      var init, c := more[..|more| - 1], more[|more| - 1];
      UpdatesClimb(calls, init, id, actor, permitted);
      assert calls + more == (calls + init) + [c];
      SerialNext(calls + init, c);
      UpdateClimbs(SerialRun(calls + init), id, actor, permitted, c.to, c.at);
    }
  }

  /** Exactly which statuses an actor can bring an emergency to by any number of serial updates: if
  permitted, every one further from creation, and otherwise none but the present one.  So whoever is
  permitted can close any open emergency, and nobody can reopen or re-close one. */
  lemma ReachableByUpdatesIff(calls: seq<Call>, id: Id, actor: UserId, permitted: bool, to: Status)
    requires id in SerialRun(calls).rows
    ensures (exists more :: UpdatesOf(more, id, actor, permitted) && StatusIn(SerialRun(calls + more), id) == Some(to))
       <==> ReachedBy(SerialRun(calls).rows[id].status, permitted, to)
  {
    if to == SerialRun(calls).rows[id].status {
      assert calls + [] == calls && UpdatesOf([], id, actor, permitted);
    } else if permitted && Rank(SerialRun(calls).rows[id].status) < Rank(to) {
      var c := Update(id, actor, permitted, to, 0);
      SerialNext(calls, c);
      UpdateClimbs(SerialRun(calls), id, actor, permitted, to, 0);
      assert UpdatesOf([c], id, actor, permitted);
    }
    if more :| UpdatesOf(more, id, actor, permitted) && StatusIn(SerialRun(calls + more), id) == Some(to) {
      UpdatesClimb(calls, more, id, actor, permitted);
    }
  }

  /** A serial update is a read directly followed by its commit. */
  lemma SerialIsReadThenCommit(s: State, req: Req, id: Id, actor: UserId, permitted: bool, to: Status, at: int)
    requires Inv(s) && req !in s.pending
    ensures var s' := Step(Step(s, Read(req, id, actor, permitted, to)), Commit(req, at));
            s'.tables == Serial(s.tables, Update(id, actor, permitted, to, at))
            && s'.pending == s.pending
  {}

  // ----------------------------------------------------- repository, service ---

  /** The old log is a proper prefix of the new one, which has just this entry more. */
  predicate LongerBy(log: seq<Entry>, log': seq<Entry>, entry: Entry) {
    |log'| == |log| + 1 && log <= log' && log'[|log|] == entry
  }

  lemma LongerByIs(log: seq<Entry>, log': seq<Entry>, entry: Entry)
    requires LongerBy(log, log', entry)
    ensures log' == log + [entry]
  {}

  class EmergenciesRepository {
    var rows: map<Id, Row>
    var events: map<Id, seq<Entry>>

    constructor ()
      ensures Value() == Tables(map[], map[])
    {
      rows, events := map[], map[];
    }

    function Value(): Tables
      reads this
    {
      Tables(rows, events)
    }

    method Create(id: Id, owner: UserId)
      modifies this`rows
      ensures rows == old(rows)[id := Row(owner, Active, None)]
    {
      rows := rows[id := Row(owner, Active, None)];
    }

    /** The entry becomes the last event of this emergency; its past and all other logs stay. */
    method CreateEvent(id: Id, entry: Entry)
      modifies this`events
      ensures events.Keys == old(events).Keys + {id}
      ensures LongerBy(if id in old(events) then old(events)[id] else [], events[id], entry)
      ensures forall other :: other in old(events) && other != id ==> events[other] == old(events)[other]
    {
      events := events[id := if id in events then events[id] + [entry] else [entry]];
    }

    method UpdateStatus(id: Id, to: Status, at: int) returns (updated: bool)
      modifies this`rows
      ensures updated == (id in old(rows))
      ensures rows == if updated then old(rows)[id := Moved(old(rows)[id], to, at)] else old(rows)
    {
      updated := id in rows;
      if updated {
        var row := rows[id].(status := to);
        if to == Resolved || to == Cancelled {
          row := row.(resolvedAt := Some(at));
        }
        rows := rows[id := row];
      }
    }
  }

  class EmergenciesService {
    const emergencies: EmergenciesRepository
    const guardians: GuardianConsent.GuardiansRepository

    constructor (emergencies: EmergenciesRepository, guardians: GuardianConsent.GuardiansRepository)
      ensures this.emergencies == emergencies && this.guardians == guardians
    {
      this.emergencies, this.guardians := emergencies, guardians;
    }

    ghost predicate Permitted(id: Id, actor: UserId, actorIsAdmin: bool)
      reads emergencies, guardians
    {
      id in emergencies.rows &&
      (actorIsAdmin
       || GuardianConsent.CanRead(GuardianConsent.Store(map[], guardians.rows), actor, emergencies.rows[id].owner))
    }

    method Create(id: Id, owner: UserId, deviceOk: bool, at: int) returns (error: Option<Error>)
      requires SerialInv(emergencies.Value()) && id !in emergencies.rows
      modifies emergencies
      ensures SerialInv(emergencies.Value())
      ensures error == if deviceOk then None else Some(DeviceNotYours)
      ensures emergencies.Value() == Serial(old(emergencies.Value()), Call.Create(id, owner, deviceOk, at))
      ensures !deviceOk ==> emergencies.Value() == old(emergencies.Value())
      ensures deviceOk ==> emergencies.rows == old(emergencies.rows)[id := Row(owner, Active, None)]
      ensures deviceOk ==> emergencies.events == old(emergencies.events)[id := [Entry(owner, None, Active, at)]]
    {
      if !deviceOk {
        return Some(DeviceNotYours);
      }
      SerialKeepsInv(emergencies.Value(), Call.Create(id, owner, deviceOk, at));
      CreateWithEvent(id, owner, at);
      return None;
    }

    /** The creating transaction. */
    method CreateWithEvent(id: Id, owner: UserId, at: int)
      requires id !in emergencies.events
      modifies emergencies
      ensures emergencies.Value() == Created(old(emergencies.Value()), id, owner, at)
    {
      emergencies.Create(id, owner);
      emergencies.CreateEvent(id, Entry(owner, None, Active, at));
      LongerByIs([], emergencies.events[id], Entry(owner, None, Active, at));
      assert [] + [Entry(owner, None, Active, at)] == [Entry(owner, None, Active, at)];
      assert emergencies.events == old(emergencies.events)[id := [Entry(owner, None, Active, at)]];
    }

    method MayWriteStatus(actor: UserId, owner: UserId) returns (ok: bool)
      ensures ok <==> GuardianConsent.CanRead(GuardianConsent.Store(map[], guardians.rows), actor, owner)
    {
      if actor == owner {
        return true;
      }
      ok := guardians.IsAcceptedGuardian(owner, actor);
    }

    method UpdateStatus(id: Id, actor: UserId, actorIsAdmin: bool, to: Status, at: int) returns (error: Option<Error>)
      requires SerialInv(emergencies.Value())
      modifies emergencies
      ensures SerialInv(emergencies.Value())
      ensures error == Refusal(old(emergencies.Value()), id, old(Permitted(id, actor, actorIsAdmin)), to)
      ensures emergencies.Value()
           == Serial(old(emergencies.Value()), Update(id, actor, old(Permitted(id, actor, actorIsAdmin)), to, at))
      ensures error == Some(NotFound) <==> id !in old(emergencies.rows)
      ensures error == Some(Forbidden) <==> id in old(emergencies.rows) && !old(Permitted(id, actor, actorIsAdmin))
      ensures error.Some? || to == old(emergencies.rows)[id].status ==>
                emergencies.Value() == old(emergencies.Value())
      ensures error.None? && to != old(emergencies.rows)[id].status ==>
                var row := old(emergencies.rows)[id];
                && emergencies.rows == old(emergencies.rows)[id :=
                     Row(row.owner, to, if to == Resolved || to == Cancelled then Some(at) else row.resolvedAt)]
                && emergencies.events == old(emergencies.events)[id :=
                     old(emergencies.events)[id] + [Entry(actor, Some(row.status), to, at)]]
    {
      SerialKeepsInv(emergencies.Value(), Update(id, actor, Permitted(id, actor, actorIsAdmin), to, at));
      if id !in emergencies.rows {
        return Some(NotFound);
      }
      if !actorIsAdmin {
        var ok := MayWriteStatus(actor, emergencies.rows[id].owner);
        if !ok {
          return Some(Forbidden);
        }
      }
      var current := emergencies.rows[id].status;
      if to == current {
        return None;
      }
      if to !in Allowed(current) {
        return Some(BadTransition);
      }
      UpdateWithEvent(id, actor, current, to, at);
      return None;
    }

    /** The updating transaction. */
    method UpdateWithEvent(id: Id, actor: UserId, from: Status, to: Status, at: int)
      requires id in emergencies.rows && id in emergencies.events
      modifies emergencies
      ensures emergencies.Value() == Committed(old(emergencies.Value()), id, actor, from, to, at)
    {
      var _ := emergencies.UpdateStatus(id, to, at);
      ghost var log := emergencies.events[id];
      emergencies.CreateEvent(id, Entry(actor, Some(from), to, at));
      LongerByIs(log, emergencies.events[id], Entry(actor, Some(from), to, at));
      assert emergencies.events == old(emergencies.events)[id := log + [Entry(actor, Some(from), to, at)]];
    }
  }
}
