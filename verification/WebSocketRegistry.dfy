/** The WebSocket registry (server/app/websocket/manager.py): all connections by user, and those of
admins a second time.

The lock covers each change and each snapshot, but not the sending in between, so connects and
disconnects interleave with deliveries. */
module WebSocketRegistry {
  type User = string
  type Socket = nat
  type Index = map<User, set<Socket>>

  // --------------------------------------------------------------- one index ---

  predicate Has(m: Index, u: User, ws: Socket) {
    u in m && ws in m[u]
  }

  ghost predicate NoEmptySet(m: Index) {
    forall u :: u in m ==> m[u] != {}
  }

  function Of(m: Index, u: User): set<Socket> {
    if u in m then m[u] else {}
  }

  function Added(m: Index, u: User, ws: Socket): Index {
    m[u := Of(m, u) + {ws}]
  }

  function Dropped(m: Index, u: User, ws: Socket): Index {
    if !Has(m, u, ws) then m
    else if m[u] == {ws} then m - {u}
    else m[u := m[u] - {ws}]
  }

  /** Without empty sets an index is just the set of its pairs. */
  lemma IndexIsItsPairs(m: Index, m': Index)
    requires NoEmptySet(m) && NoEmptySet(m')
    ensures m == m' <==> forall u, ws :: Has(m, u, ws) <==> Has(m', u, ws)
  {
    if forall u, ws :: Has(m, u, ws) <==> Has(m', u, ws) {
      forall u
        ensures u in m <==> u in m'
      {
        if u in m { var ws :| ws in m[u]; assert Has(m, u, ws); }
        if u in m' { var ws :| ws in m'[u]; assert Has(m', u, ws); }
      }
      forall u | u in m
        ensures m[u] == m'[u]
      {
        assert forall ws :: ws in m[u] <==> Has(m, u, ws);
        assert forall ws :: ws in m'[u] <==> Has(m', u, ws);
      }
    }
  }

  lemma AddingAddsOnePair(m: Index, u: User, ws: Socket)
    requires NoEmptySet(m)
    ensures NoEmptySet(Added(m, u, ws))
    ensures forall v, x :: Has(Added(m, u, ws), v, x) <==> Has(m, v, x) || (v == u && x == ws)
  {}

  lemma DroppingDropsOnePair(m: Index, u: User, ws: Socket)
    requires NoEmptySet(m)
    ensures NoEmptySet(Dropped(m, u, ws))
    ensures forall v, x :: Has(Dropped(m, u, ws), v, x) <==> Has(m, v, x) && !(v == u && x == ws)
  {
    assert Has(m, u, ws) && m[u] - {ws} == {} ==> m[u] == {ws};
  }

  // ------------------------------------------------------------- two indices ---

  datatype Registry = Registry(users: Index, admins: Index)

  /** No empty sets, and the admins' index is part of the users'. */
  ghost predicate Sound(r: Registry) {
    NoEmptySet(r.users) && NoEmptySet(r.admins) && forall u, ws :: Has(r.admins, u, ws) ==> Has(r.users, u, ws)
  }

  function Connected(r: Registry, u: User, ws: Socket, isAdmin: bool): Registry {
    Registry(Added(r.users, u, ws), if isAdmin then Added(r.admins, u, ws) else r.admins)
  }

  function Disconnected(r: Registry, u: User, ws: Socket): Registry {
    Registry(Dropped(r.users, u, ws), Dropped(r.admins, u, ws))
  }

  predicate Gone(r: Registry, u: User, ws: Socket) {
    !Has(r.users, u, ws) && !Has(r.admins, u, ws)
  }

  lemma ConnectKeepsSound(r: Registry, u: User, ws: Socket, isAdmin: bool)
    requires Sound(r)
    ensures Sound(Connected(r, u, ws, isAdmin)) && Has(Connected(r, u, ws, isAdmin).users, u, ws)
    ensures forall v, x :: Has(Connected(r, u, ws, isAdmin).users, v, x) <==> Has(r.users, v, x) || (v == u && x == ws)
    ensures forall v, x :: Has(Connected(r, u, ws, isAdmin).admins, v, x) <==>
              Has(r.admins, v, x) || (isAdmin && v == u && x == ws)
    ensures forall v, x :: Gone(Connected(r, u, ws, isAdmin), v, x) <==> Gone(r, v, x) && !(v == u && x == ws)
  {
    AddingAddsOnePair(r.users, u, ws);
    AddingAddsOnePair(r.admins, u, ws);
  }

  lemma DisconnectKeepsSound(r: Registry, u: User, ws: Socket)
    requires Sound(r)
    ensures Sound(Disconnected(r, u, ws))
    ensures forall v, x :: Has(Disconnected(r, u, ws).users, v, x) <==> Has(r.users, v, x) && !(v == u && x == ws)
    ensures forall v, x :: Has(Disconnected(r, u, ws).admins, v, x) <==> Has(r.admins, v, x) && !(v == u && x == ws)
    ensures forall v, x :: Gone(Disconnected(r, u, ws), v, x) <==> Gone(r, v, x) || (v == u && x == ws)
  {
    DroppingDropsOnePair(r.users, u, ws);
    DroppingDropsOnePair(r.admins, u, ws);
  }

  // ------------------------------------------------------------ interleaving ---

  type Pair = (User, Socket)
  type TaskId = nat

  datatype Entry = Entry(user: User, sockets: seq<Socket>)

  /** A delivery under way: entries still to come, the current user's sockets still to be sent to, and
  those that failed and are still to be disconnected.  `snapshot`, `delivered` and `failed` are history. */
  datatype Task = Task(
    left: seq<Entry>, user: User, unsent: seq<Socket>, dead: seq<Socket>, total: nat,
    snapshot: multiset<Pair>, delivered: multiset<Pair>, failed: multiset<Pair>)

  /** `seen`: every socket that was ever connected; the endpoint connects each once. */
  datatype World = World(reg: Registry, seen: set<Socket>, tasks: map<TaskId, Task>)

  datatype Event =
    | Connect(user: User, ws: Socket, isAdmin: bool)
    | Disconnect(user: User, ws: Socket)
    | StartSend(task: TaskId, user: User, sockets: seq<Socket>)
    | StartBroadcast(task: TaskId, entries: seq<Entry>)
    | SendOne(task: TaskId, ok: bool)
    | DropOne(task: TaskId)
    | NextEntry(task: TaskId)

  function Bag(user: User, sockets: seq<Socket>): multiset<Pair> {
    if sockets == [] then multiset{} else multiset{(user, sockets[0])} + Bag(user, sockets[1..])
  }

  function Bags(entries: seq<Entry>): multiset<Pair> {
    if entries == [] then multiset{} else Bag(entries[0].user, entries[0].sockets) + Bags(entries[1..])
  }

  /** The list holds the set's elements, each once, in some order. */
  ghost predicate Lists(sockets: seq<Socket>, s: set<Socket>) {
    (forall ws :: ws in sockets <==> ws in s) && forall i, j :: 0 <= i < j < |sockets| ==> sockets[i] != sockets[j]
  }

  ghost predicate Mentions(entries: seq<Entry>, u: User) {
    exists i :: 0 <= i < |entries| && entries[i].user == u
  }

  lemma MentionsMore(entries: seq<Entry>, e: Entry, u: User)
    ensures Mentions(entries + [e], u) <==> Mentions(entries, u) || e.user == u
  {
    var longer := entries + [e];
    assert longer[|entries|] == e && forall i :: 0 <= i < |entries| ==> longer[i] == entries[i];
  }

  ghost predicate ListsIndex(entries: seq<Entry>, m: Index) {
    && (forall i :: 0 <= i < |entries| ==> entries[i].user in m && Lists(entries[i].sockets, m[entries[i].user]))
    && (forall u :: u in m ==> Mentions(entries, u))
    && (forall i, j :: 0 <= i < j < |entries| ==> entries[i].user != entries[j].user)
  }

  function NewTask(entries: seq<Entry>): Task {
    Task(entries, "", [], [], 0, Bags(entries), multiset{}, multiset{})
  }

  function Sent(t: Task, ok: bool): Task
    requires t.unsent != []
  {
    var p := (t.user, t.unsent[0]);
    if ok then t.(unsent := t.unsent[1..], total := t.total + 1, delivered := t.delivered + multiset{p})
    else t.(unsent := t.unsent[1..], dead := t.dead + [t.unsent[0]], failed := t.failed + multiset{p})
  }

  /** The first of the dead sockets is being disconnected. */
  function Dropping(t: Task): Task
    requires t.dead != []
  {
    t.(dead := t.dead[1..])
  }

  function Next(t: Task): Task
    requires t.left != []
  {
    t.(left := t.left[1..], user := t.left[0].user, unsent := t.left[0].sockets)
  }

  ghost function Step(w: World, e: Event): World {
    match e
    case Connect(u, ws, isAdmin) =>
      if ws in w.seen then w else w.(reg := Connected(w.reg, u, ws, isAdmin), seen := w.seen + {ws})
    case Disconnect(u, ws) => w.(reg := Disconnected(w.reg, u, ws))
    case StartSend(id, u, sockets) =>
      if id in w.tasks || !Lists(sockets, Of(w.reg.users, u)) then w
      else w.(tasks := w.tasks[id := NewTask([Entry(u, sockets)])])
    case StartBroadcast(id, entries) =>
      if id in w.tasks || !ListsIndex(entries, w.reg.admins) then w
      else w.(tasks := w.tasks[id := NewTask(entries)])
    case SendOne(id, ok) =>
      if id !in w.tasks || w.tasks[id].unsent == [] then w
      else w.(tasks := w.tasks[id := Sent(w.tasks[id], ok)])
    case DropOne(id) =>
      if id !in w.tasks || w.tasks[id].unsent != [] || w.tasks[id].dead == [] then w
      else
        var t := w.tasks[id];
        w.(reg := Disconnected(w.reg, t.user, t.dead[0]), tasks := w.tasks[id := Dropping(t)])
    case NextEntry(id) =>
      if id !in w.tasks || w.tasks[id].unsent != [] || w.tasks[id].dead != [] || w.tasks[id].left == [] then w
      else w.(tasks := w.tasks[id := Next(w.tasks[id])])
  }

  ghost function Run(w: World, es: seq<Event>): World {
    if es == [] then w else Step(Run(w, es[..|es| - 1]), es[|es| - 1])
  }

  predicate Finished(t: Task) {
    t.left == [] && t.unsent == [] && t.dead == []
  }

  /** Nothing of the snapshot is lost or counted twice. */
  ghost predicate Accounted(t: Task) {
    t.snapshot == t.delivered + t.failed + Bag(t.user, t.unsent) + Bags(t.left) && t.total == |t.delivered|
  }

  /** What failed has been disconnected, or is about to be. */
  ghost predicate FailedAreDropped(r: Registry, t: Task) {
    forall p :: p in t.failed ==> (p.0 == t.user && p.1 in t.dead) || Gone(r, p.0, p.1)
  }

  ghost predicate AllSeen(seen: set<Socket>, sockets: seq<Socket>) {
    forall ws :: ws in sockets ==> ws in seen
  }

  ghost predicate Known(seen: set<Socket>, t: Task) {
    && (forall p :: p in t.failed ==> p.1 in seen)
    && AllSeen(seen, t.unsent)
    && (forall i :: 0 <= i < |t.left| ==> AllSeen(seen, t.left[i].sockets))
  }

  ghost predicate TaskInv(w: World, t: Task) {
    FailedAreDropped(w.reg, t) && Known(w.seen, t)
  }

  ghost predicate AllAccounted(w: World) {
    forall id :: id in w.tasks ==> Accounted(w.tasks[id])
  }

  ghost predicate Inv(w: World) {
    && Sound(w.reg)
    && (forall u, ws :: Has(w.reg.users, u, ws) ==> ws in w.seen)
    && (forall id :: id in w.tasks ==> TaskInv(w, w.tasks[id]))
  }

  lemma {:induction false} BagHas(user: User, sockets: seq<Socket>, p: Pair)
    ensures p in Bag(user, sockets) <==> p.0 == user && p.1 in sockets
  {
    if sockets != [] { BagHas(user, sockets[1..], p); }
  }

  lemma {:induction false} BagsHave(entries: seq<Entry>, p: Pair)
    ensures p in Bags(entries)
       <==> exists i :: 0 <= i < |entries| && p.0 == entries[i].user && p.1 in entries[i].sockets
  {
    if entries != [] {
      BagHas(entries[0].user, entries[0].sockets, p);
      BagsHave(entries[1..], p);
      assert forall i :: 0 < i < |entries| ==> entries[i] == entries[1..][i - 1];
    }
  }

  /** A change of the registry that brings back no pair that was gone and known keeps every task sound. */
  lemma TasksSurvive(w: World, w': World)
    requires Inv(w) && w'.tasks == w.tasks && w.seen <= w'.seen
    requires forall u, ws :: ws in w.seen && Gone(w.reg, u, ws) ==> Gone(w'.reg, u, ws)
    ensures forall id :: id in w'.tasks ==> TaskInv(w', w'.tasks[id])
  {
    forall id | id in w.tasks
      ensures TaskInv(w', w.tasks[id])
    {
      assert TaskInv(w, w.tasks[id]);
    }
  }

  lemma ConnectKeepsInv(w: World, u: User, ws: Socket, isAdmin: bool)
    requires Inv(w) && ws !in w.seen
    ensures Inv(Step(w, Connect(u, ws, isAdmin)))
  {
    ConnectKeepsSound(w.reg, u, ws, isAdmin);
    AddingAddsOnePair(w.reg.users, u, ws);
    TasksSurvive(w, Step(w, Connect(u, ws, isAdmin)));
  }

  lemma DisconnectKeepsInv(w: World, u: User, ws: Socket)
    requires Inv(w)
    ensures Inv(w.(reg := Disconnected(w.reg, u, ws)))
  {
    DisconnectKeepsSound(w.reg, u, ws);
    DroppingDropsOnePair(w.reg.users, u, ws);
    TasksSurvive(w, w.(reg := Disconnected(w.reg, u, ws)));
  }

  lemma StartKeepsInv(w: World, id: TaskId, entries: seq<Entry>)
    requires Inv(w) && id !in w.tasks
    requires forall i, ws :: 0 <= i < |entries| && ws in entries[i].sockets ==> Has(w.reg.users, entries[i].user, ws)
    ensures Inv(w.(tasks := w.tasks[id := NewTask(entries)]))
  {
    forall i | 0 <= i < |entries|
      ensures AllSeen(w.seen, entries[i].sockets)
    {
      assert forall ws :: ws in entries[i].sockets ==> Has(w.reg.users, entries[i].user, ws);
    }
    assert TaskInv(w, NewTask(entries));
    TaskMoves(w, id, NewTask(entries));
  }

  /** A step of one task leaves the others as they are. */
  lemma TaskMoves(w: World, id: TaskId, t: Task)
    requires Inv(w) && TaskInv(w, t)
    ensures Inv(w.(tasks := w.tasks[id := t]))
  {
    var w' := w.(tasks := w.tasks[id := t]);
    forall k | k in w'.tasks
      ensures TaskInv(w', w'.tasks[k])
    {
      assert k != id ==> TaskInv(w, w.tasks[k]);
    }
  }

  lemma SendKeepsInv(w: World, id: TaskId, ok: bool)
    requires Inv(w) && id in w.tasks && w.tasks[id].unsent != []
    ensures Inv(Step(w, SendOne(id, ok)))
  {
    assert TaskInv(w, Sent(w.tasks[id], ok));
    TaskMoves(w, id, Sent(w.tasks[id], ok));
  }

  lemma SentKeepsAccounts(t: Task, ok: bool)
    requires Accounted(t) && t.unsent != []
    ensures Accounted(Sent(t, ok))
  {}

  lemma DropKeepsInv(w: World, id: TaskId)
    requires Inv(w) && id in w.tasks && w.tasks[id].unsent == [] && w.tasks[id].dead != []
    ensures Inv(Step(w, DropOne(id)))
  {
    var t := w.tasks[id];
    var w1 := w.(reg := Disconnected(w.reg, t.user, t.dead[0]));
    assert Inv(w1) by { DisconnectKeepsInv(w, t.user, t.dead[0]); }
    assert Gone(w1.reg, t.user, t.dead[0]) by { DisconnectKeepsSound(w.reg, t.user, t.dead[0]); }
    DroppedKeepsInv(w1, id);
  }

  lemma DroppedKeepsInv(w: World, id: TaskId)
    requires Inv(w) && id in w.tasks && w.tasks[id].dead != [] && Gone(w.reg, w.tasks[id].user, w.tasks[id].dead[0])
    ensures Inv(w.(tasks := w.tasks[id := Dropping(w.tasks[id])]))
  {
    assert TaskInv(w, Dropping(w.tasks[id])) by { DroppedKeepsTask(w, w.tasks[id]); }
    TaskMoves(w, id, Dropping(w.tasks[id]));
  }

  lemma DroppedKeepsTask(w: World, t: Task)
    requires TaskInv(w, t) && t.dead != [] && Gone(w.reg, t.user, t.dead[0])
    ensures TaskInv(w, Dropping(t))
  {
    assert forall ws :: ws in t.dead ==> ws == t.dead[0] || ws in t.dead[1..];
  }

  lemma NextKeepsAccounts(t: Task)
    requires Accounted(t) && t.unsent == [] && t.left != []
    ensures Accounted(Next(t))
  {
    assert Bags(t.left) == Bag(Next(t).user, Next(t).unsent) + Bags(Next(t).left);
    assert Bag(t.user, t.unsent) == multiset{};
  }

  lemma NextKeepsInv(w: World, id: TaskId)
    requires Inv(w) && id in w.tasks && w.tasks[id].unsent == [] && w.tasks[id].dead == [] && w.tasks[id].left != []
    ensures Inv(Step(w, NextEntry(id)))
  {
    assert TaskInv(w, Next(w.tasks[id]));
    TaskMoves(w, id, Next(w.tasks[id]));
  }

  lemma StepKeepsInv(w: World, e: Event)
    requires Inv(w)
    ensures Inv(Step(w, e))
  {
    match e
    case Connect(u, ws, isAdmin) => if ws !in w.seen { ConnectKeepsInv(w, u, ws, isAdmin); }
    case Disconnect(u, ws) => DisconnectKeepsInv(w, u, ws);
    case StartSend(id, u, sockets) =>
      if id !in w.tasks && Lists(sockets, Of(w.reg.users, u)) { StartKeepsInv(w, id, [Entry(u, sockets)]); }
    case StartBroadcast(id, entries) =>
      if id !in w.tasks && ListsIndex(entries, w.reg.admins) { StartKeepsInv(w, id, entries); }
    case SendOne(id, ok) => if id in w.tasks && w.tasks[id].unsent != [] { SendKeepsInv(w, id, ok); }
    case DropOne(id) =>
      if id in w.tasks && w.tasks[id].unsent == [] && w.tasks[id].dead != [] { DropKeepsInv(w, id); }
    case NextEntry(id) =>
      if id in w.tasks && w.tasks[id].unsent == [] && w.tasks[id].dead == [] && w.tasks[id].left != [] {
        NextKeepsInv(w, id);
      }
  }

  const START := World(Registry(map[], map[]), {}, map[])

  lemma NewTaskAccounted(entries: seq<Entry>)
    ensures Accounted(NewTask(entries))
  {}

  lemma AccountsMove(w: World, id: TaskId, t: Task)
    requires AllAccounted(w) && Accounted(t)
    ensures AllAccounted(w.(tasks := w.tasks[id := t]))
  {}

  lemma StepKeepsAccounts(w: World, e: Event)
    requires AllAccounted(w)
    ensures AllAccounted(Step(w, e))
  {
    match e
    case Connect(_, _, _) =>
    case Disconnect(_, _) =>
    case StartSend(id, u, sockets) =>
      NewTaskAccounted([Entry(u, sockets)]);
      AccountsMove(w, id, NewTask([Entry(u, sockets)]));
    case StartBroadcast(id, entries) =>
      NewTaskAccounted(entries);
      AccountsMove(w, id, NewTask(entries));
    case SendOne(id, ok) =>
      if id in w.tasks && w.tasks[id].unsent != [] {
        SentKeepsAccounts(w.tasks[id], ok);
        AccountsMove(w, id, Sent(w.tasks[id], ok));
      }
    case DropOne(id) =>
      if id in w.tasks && w.tasks[id].dead != [] { AccountsMove(w, id, Dropping(w.tasks[id])); }
    case NextEntry(id) =>
      if id in w.tasks && w.tasks[id].unsent == [] && w.tasks[id].left != [] {
        NextKeepsAccounts(w.tasks[id]);
        AccountsMove(w, id, Next(w.tasks[id]));
      }
  }

  lemma {:induction false} RunKeepsInv(es: seq<Event>)
    ensures Inv(Run(START, es)) && AllAccounted(Run(START, es))
  {
    if es != [] {
      RunKeepsInv(es[..|es| - 1]);
      StepKeepsInv(Run(START, es[..|es| - 1]), es[|es| - 1]);
      StepKeepsAccounts(Run(START, es[..|es| - 1]), es[|es| - 1]);
    }
  }

  /** In every interleaving the admins' index is part of the users' and no set is empty; a delivery that
  has finished delivered to or failed for each pair of its snapshot once, counted the first kind, and
  every pair that failed is gone from both indices. */
  lemma EveryRunIsSound(es: seq<Event>, id: TaskId)
    ensures var w := Run(START, es);
            && Sound(w.reg)
            && (id in w.tasks && Finished(w.tasks[id]) ==>
                  && w.tasks[id].snapshot == w.tasks[id].delivered + w.tasks[id].failed
                  && w.tasks[id].total == |w.tasks[id].delivered|
                  && forall p :: p in w.tasks[id].failed ==> Gone(w.reg, p.0, p.1))
  {
    RunKeepsInv(es);
    var w := Run(START, es);
    if id in w.tasks && Finished(w.tasks[id]) {
      assert TaskInv(w, w.tasks[id]) && Accounted(w.tasks[id]);
    }
  }

  /** A socket that was connected and is gone stays gone, whatever happens afterwards. */
  lemma {:induction false} GoneForGood(w: World, es: seq<Event>, u: User, ws: Socket)
    requires Inv(w) && ws in w.seen && Gone(w.reg, u, ws)
    ensures Inv(Run(w, es)) && ws in Run(w, es).seen && Gone(Run(w, es).reg, u, ws)
  {
    if es != [] {
      var w1, e := Run(w, es[..|es| - 1]), es[|es| - 1];
      GoneForGood(w, es[..|es| - 1], u, ws);
      StepKeepsInv(w1, e);
      StepKeepsGone(w1, e, u, ws);
    }
  }

  lemma StepKeepsGone(w: World, e: Event, u: User, ws: Socket)
    requires Inv(w) && ws in w.seen && Gone(w.reg, u, ws)
    ensures ws in Step(w, e).seen && Gone(Step(w, e).reg, u, ws)
  {
    match e
    case Connect(v, x, isAdmin) => ConnectKeepsSound(w.reg, v, x, isAdmin);
    case Disconnect(v, x) => DisconnectKeepsSound(w.reg, v, x);
    case DropOne(id) =>
      if id in w.tasks && w.tasks[id].dead != [] { DisconnectKeepsSound(w.reg, w.tasks[id].user, w.tasks[id].dead[0]); }
    case _ =>
  }

  /** A broadcast's snapshot is the admins' index: each pair of it once. */
  lemma SnapshotIsIndex(entries: seq<Entry>, m: Index, p: Pair)
    requires ListsIndex(entries, m)
    ensures NewTask(entries).snapshot[p] == if Has(m, p.0, p.1) then 1 else 0
  {
    BagsHave(entries, p);
    BagsCount(entries, p);
    if Has(m, p.0, p.1) {
      assert Mentions(entries, p.0);
      var i :| 0 <= i < |entries| && entries[i].user == p.0;
      assert p.1 in entries[i].sockets;
    }
  }

  lemma {:induction false} BagCount(user: User, sockets: seq<Socket>, p: Pair)
    requires forall i, j :: 0 <= i < j < |sockets| ==> sockets[i] != sockets[j]
    ensures Bag(user, sockets)[p] <= 1
  {
    if sockets != [] {
      BagCount(user, sockets[1..], p);
      BagHas(user, sockets[1..], p);
    }
  }

  lemma {:induction false} BagsCount(entries: seq<Entry>, p: Pair)
    requires forall i :: 0 <= i < |entries| ==>
               forall j, k :: 0 <= j < k < |entries[i].sockets| ==> entries[i].sockets[j] != entries[i].sockets[k]
    requires forall i, j :: 0 <= i < j < |entries| ==> entries[i].user != entries[j].user
    ensures Bags(entries)[p] <= 1
  {
    if entries != [] {
      BagCount(entries[0].user, entries[0].sockets, p);
      BagHas(entries[0].user, entries[0].sockets, p);
      BagsCount(entries[1..], p);
      BagsHave(entries[1..], p);
    }
  }

  // ------------------------------------------------------- who is in an index ---

  /** This event connects the socket for the user, for the first time in the run. */
  ghost predicate Joins(es: seq<Event>, k: nat, u: User, ws: Socket, asAdmin: bool) {
    && k < |es| && es[k].Connect? && es[k].user == u && es[k].ws == ws && (asAdmin ==> es[k].isAdmin)
    && forall i :: 0 <= i < k ==> !(es[i].Connect? && es[i].ws == ws)
  }

  /** This event disconnects the socket: on request, or because a delivery to it has failed. */
  ghost predicate Leaves(es: seq<Event>, k: nat, u: User, ws: Socket) {
    k < |es| && (es[k] == Disconnect(u, ws) || (es[k].DropOne? && DropsNow(Run(START, es[..k]), es[k].task, u, ws)))
  }

  /** The task has sent to all sockets of this user and turns to this one, which is dead. */
  ghost predicate DropsNow(w: World, id: TaskId, u: User, ws: Socket) {
    && id in w.tasks && w.tasks[id].unsent == [] && w.tasks[id].dead != []
    && w.tasks[id].user == u && w.tasks[id].dead[0] == ws
  }

  /** The socket was connected for the user (as an admin) and has not been disconnected since. */
  ghost predicate Present(es: seq<Event>, u: User, ws: Socket, asAdmin: bool) {
    exists k: nat :: Joins(es, k, u, ws, asAdmin) && forall j: nat :: k < j < |es| ==> !Leaves(es, j, u, ws)
  }

  lemma {:induction false} SeenIff(es: seq<Event>, ws: Socket)
    ensures ws in Run(START, es).seen <==> exists i :: 0 <= i < |es| && es[i].Connect? && es[i].ws == ws
  {
    if es != [] {
      var init := es[..|es| - 1];
      SeenIff(init, ws);
      assert forall i :: 0 <= i < |init| ==> init[i] == es[i];
    }
  }

  lemma JoinsEarlier(es: seq<Event>, k: nat, u: User, ws: Socket, asAdmin: bool)
    requires k < |es| - 1
    ensures Joins(es, k, u, ws, asAdmin) <==> Joins(es[..|es| - 1], k, u, ws, asAdmin)
  {}

  lemma LeavesEarlier(es: seq<Event>, k: nat, u: User, ws: Socket)
    requires k < |es| - 1
    ensures Leaves(es, k, u, ws) <==> Leaves(es[..|es| - 1], k, u, ws)
  {
    assert es[..|es| - 1][..k] == es[..k];
  }

  lemma PresentNext(es: seq<Event>, u: User, ws: Socket, asAdmin: bool)
    requires es != []
    ensures Present(es, u, ws, asAdmin)
       <==> Joins(es, |es| - 1, u, ws, asAdmin)
            || (Present(es[..|es| - 1], u, ws, asAdmin) && !Leaves(es, |es| - 1, u, ws))
  {
    var init, last := es[..|es| - 1], |es| - 1;
    forall k: nat | k < last
      ensures Joins(es, k, u, ws, asAdmin) <==> Joins(init, k, u, ws, asAdmin)
      ensures Leaves(es, k, u, ws) <==> Leaves(init, k, u, ws)
    {
      JoinsEarlier(es, k, u, ws, asAdmin);
      LeavesEarlier(es, k, u, ws);
    }
    if Present(es, u, ws, asAdmin) {
      var k: nat :| Joins(es, k, u, ws, asAdmin) && forall j: nat :: k < j < |es| ==> !Leaves(es, j, u, ws);
      if k < last { assert Joins(init, k, u, ws, asAdmin) && !Leaves(es, last, u, ws); }
    }
    if Present(init, u, ws, asAdmin) && !Leaves(es, last, u, ws) {
      var k: nat :| Joins(init, k, u, ws, asAdmin) && forall j: nat :: k < j < |init| ==> !Leaves(init, j, u, ws);
      assert Joins(es, k, u, ws, asAdmin);
      forall j: nat | k < j < |es|
        ensures !Leaves(es, j, u, ws)
      {
        if j < last { assert Leaves(es, j, u, ws) == Leaves(init, j, u, ws); }
      }
    }
  }

  lemma StepChangesPairs(w: World, e: Event, u: User, ws: Socket)
    requires Inv(w)
    ensures var w' := Step(w, e);
            var joins := e.Connect? && e.user == u && e.ws == ws && ws !in w.seen;
            var leaves := e == Disconnect(u, ws) || (e.DropOne? && DropsNow(w, e.task, u, ws));
            && (Has(w'.reg.users, u, ws) <==> joins || (Has(w.reg.users, u, ws) && !leaves))
            && (Has(w'.reg.admins, u, ws) <==> (joins && e.isAdmin) || (Has(w.reg.admins, u, ws) && !leaves))
  {
    match e
    case Connect(v, x, isAdmin) => ConnectKeepsSound(w.reg, v, x, isAdmin);
    case Disconnect(v, x) => DisconnectKeepsSound(w.reg, v, x);
    case DropOne(id) =>
      if id in w.tasks && w.tasks[id].unsent == [] && w.tasks[id].dead != [] {
        DisconnectKeepsSound(w.reg, w.tasks[id].user, w.tasks[id].dead[0]);
      }
    case _ =>
  }

  /** In every interleaving the users' index holds exactly the sockets that were connected for the user
  and not disconnected since, and the admins' index exactly those of them connected as an admin's. */
  lemma {:induction false} IndexIff(es: seq<Event>, u: User, ws: Socket)
    ensures Has(Run(START, es).reg.users, u, ws) <==> Present(es, u, ws, false)
    ensures Has(Run(START, es).reg.admins, u, ws) <==> Present(es, u, ws, true)
  {
    if es != [] {
      var init, e := es[..|es| - 1], es[|es| - 1];
      IndexIff(init, u, ws);
      RunKeepsInv(init);
      SeenIff(init, ws);
      StepChangesPairs(Run(START, init), e, u, ws);
      PresentNext(es, u, ws, false);
      PresentNext(es, u, ws, true);
      assert forall i :: 0 <= i < |init| ==> init[i] == es[i];
    }
  }

  /** A broadcast to the admins is addressed, once each, to exactly the sockets that were connected as an
  admin's and not disconnected when it took its snapshot, however long it then lasts. */
  lemma {:induction false} BroadcastAddressees(es: seq<Event>, n: nat, id: TaskId, entries: seq<Entry>, p: Pair)
    requires n < |es| && es[n] == StartBroadcast(id, entries)
    requires id !in Run(START, es[..n]).tasks && ListsIndex(entries, Run(START, es[..n]).reg.admins)
    ensures id in Run(START, es).tasks
    ensures Run(START, es).tasks[id].snapshot[p] == if Present(es[..n], p.0, p.1, true) then 1 else 0
  {
    var init := es[..|es| - 1];
    if n == |es| - 1 {
      SnapshotIsIndex(entries, Run(START, init).reg.admins, p);
      IndexIff(init, p.0, p.1);
    } else {
      assert init[..n] == es[..n];
      BroadcastAddressees(init, n, id, entries, p);
      StepKeepsSnapshots(Run(START, init), es[|es| - 1], id);
    }
  }

  /** A delivery to one user is addressed, once each, to exactly the user's sockets of that moment. */
  lemma {:induction false} SendAddressees(es: seq<Event>, n: nat, id: TaskId, u: User, sockets: seq<Socket>, p: Pair)
    requires n < |es| && es[n] == StartSend(id, u, sockets)
    requires id !in Run(START, es[..n]).tasks && Lists(sockets, Of(Run(START, es[..n]).reg.users, u))
    ensures id in Run(START, es).tasks
    ensures Run(START, es).tasks[id].snapshot[p] == if p.0 == u && Present(es[..n], u, p.1, false) then 1 else 0
  {
    var init := es[..|es| - 1];
    if n == |es| - 1 {
      BagHas(u, sockets, p);
      BagCount(u, sockets, p);
      assert Bags([Entry(u, sockets)]) == Bag(u, sockets) + Bags([]);
      IndexIff(init, u, p.1);
    } else {
      assert init[..n] == es[..n];
      SendAddressees(init, n, id, u, sockets, p);
      StepKeepsSnapshots(Run(START, init), es[|es| - 1], id);
    }
  }

  lemma StepKeepsSnapshots(w: World, e: Event, id: TaskId)
    requires id in w.tasks
    ensures id in Step(w, e).tasks && Step(w, e).tasks[id].snapshot == w.tasks[id].snapshot
  {}

  // ------------------------------------------------------------- the manager ---

  /** The users of the list, by their places, with those of their sockets that take a message. */
  ghost function Takers(m: Index, users: seq<User>, n: nat, alive: set<Socket>): set<(nat, Socket)>
    requires n <= |users|
  {
    set i: nat, ws | i < n && ws in alive && Has(m, users[i], ws) :: (i, ws)
  }

  /** The pairs of the index whose socket takes a message. */
  ghost function LivePairs(m: Index, alive: set<Socket>): set<Pair> {
    set u, ws | u in m && ws in alive && Has(m, u, ws) :: (u, ws)
  }

  /** Those of them that the first n entries hold. */
  ghost function TakenPairs(entries: seq<Entry>, n: nat, alive: set<Socket>): set<Pair>
    requires n <= |entries|
  {
    if n == 0 then {} else TakenPairs(entries, n - 1, alive) + TakersOf(entries[n - 1], alive)
  }

  ghost function TakersOf(e: Entry, alive: set<Socket>): set<Pair> {
    set ws | ws in alive && ws in e.sockets :: (e.user, ws)
  }

  lemma {:induction false} TakenIff(entries: seq<Entry>, n: nat, alive: set<Socket>, p: Pair)
    requires n <= |entries|
    ensures p in TakenPairs(entries, n, alive)
       <==> p.1 in alive && exists i :: 0 <= i < n && Holds(entries[i], p.0, p.1)
  {
    if n > 0 { TakenIff(entries, n - 1, alive, p); }
  }

  lemma {:induction false} TaggedSize<T>(sockets: set<Socket>, tag: T, tagged: set<(T, Socket)>)
    requires forall p :: p in tagged <==> p.0 == tag && p.1 in sockets
    ensures |tagged| == |sockets|
    decreases |sockets|
  {
    if sockets == {} {
      assert tagged == {};
    } else {
      var ws :| ws in sockets;
      assert tagged - {(tag, ws)} + {(tag, ws)} == tagged;
      TaggedSize(sockets - {ws}, tag, tagged - {(tag, ws)});
    }
  }

  lemma TakersNext(m: Index, users: seq<User>, n: nat, alive: set<Socket>)
    requires n < |users|
    ensures |Takers(m, users, n + 1, alive)| == |Takers(m, users, n, alive)| + |Of(m, users[n]) * alive|
  {
    var before, after := Takers(m, users, n, alive), Takers(m, users, n + 1, alive);
    TaggedSize(Of(m, users[n]) * alive, n, after - before);
    assert after == before + (after - before);
  }

  /** The sockets of the list that take a message. */
  ghost function LiveOf(sockets: seq<Socket>, alive: set<Socket>): set<Socket> {
    set ws | ws in sockets && ws in alive
  }

  lemma TakersSize(e: Entry, alive: set<Socket>)
    ensures |TakersOf(e, alive)| == |LiveOf(e.sockets, alive)|
  {
    TaggedSize(LiveOf(e.sockets, alive), e.user, TakersOf(e, alive));
  }

  lemma NotTakenBefore(entries: seq<Entry>, n: nat, alive: set<Socket>)
    requires n < |entries| && forall i, j :: 0 <= i < j < |entries| ==> entries[i].user != entries[j].user
    ensures TakenPairs(entries, n, alive) !! TakersOf(entries[n], alive)
  {
    forall p | p in TakersOf(entries[n], alive)
      ensures p !in TakenPairs(entries, n, alive)
    {
      TakenIff(entries, n, alive, p);
    }
  }

  lemma TakenNext(entries: seq<Entry>, n: nat, alive: set<Socket>)
    requires n < |entries| && forall i, j :: 0 <= i < j < |entries| ==> entries[i].user != entries[j].user
    ensures |TakenPairs(entries, n + 1, alive)|
         == |TakenPairs(entries, n, alive)| + |LiveOf(entries[n].sockets, alive)|
  {
    TakersSize(entries[n], alive);
    NotTakenBefore(entries, n, alive);
  }

  lemma TakenIsLive(entries: seq<Entry>, m: Index, alive: set<Socket>)
    requires ListsIndex(entries, m)
    ensures TakenPairs(entries, |entries|, alive) == LivePairs(m, alive)
  {
    forall p: Pair
      ensures p in TakenPairs(entries, |entries|, alive) <==> Has(m, p.0, p.1) && p.1 in alive
    {
      TakenIff(entries, |entries|, alive, p);
      if Has(m, p.0, p.1) {
        assert Mentions(entries, p.0);
        var i: nat :| i < |entries| && entries[i].user == p.0;
        assert Holds(entries[i], p.0, p.1);
      }
    }
  }

  ghost predicate Holds(e: Entry, u: User, ws: Socket) {
    e.user == u && ws in e.sockets
  }

  /** One of the first n entries holds the pair, and the socket does not take messages. */
  ghost predicate Refused(entries: seq<Entry>, n: nat, u: User, ws: Socket, alive: set<Socket>) {
    n <= |entries| && ws !in alive && exists i :: 0 <= i < n && Holds(entries[i], u, ws)
  }

  lemma RefusedNext(entries: seq<Entry>, n: nat, alive: set<Socket>)
    requires n < |entries|
    ensures forall u, ws :: Refused(entries, n + 1, u, ws, alive) <==>
              Refused(entries, n, u, ws, alive) || (Holds(entries[n], u, ws) && ws !in alive)
  {}

  lemma RefusedIff(entries: seq<Entry>, m: Index, alive: set<Socket>)
    requires ListsIndex(entries, m)
    ensures forall u, ws :: Refused(entries, |entries|, u, ws, alive) <==> Has(m, u, ws) && ws !in alive
  {
    forall u, ws | Has(m, u, ws)
      ensures exists i :: 0 <= i < |entries| && Holds(entries[i], u, ws)
    {
      assert Mentions(entries, u);
      var i :| 0 <= i < |entries| && entries[i].user == u;
      assert Holds(entries[i], u, ws);
    }
  }

  class ConnectionManager {
    var connections: Index
    var adminConnections: Index

    ghost predicate Valid()
      reads this
    {
      Sound(Value())
    }

    function Value(): Registry
      reads this
    {
      Registry(connections, adminConnections)
    }

    constructor ()
      ensures Valid() && Value() == Registry(map[], map[])
    {
      connections, adminConnections := map[], map[];
    }

    method Connect(u: User, ws: Socket, isAdmin: bool)
      requires Valid()
      modifies this
      ensures Valid() && Value() == Connected(old(Value()), u, ws, isAdmin)
      ensures forall v, x :: Has(connections, v, x) <==> Has(old(connections), v, x) || (v == u && x == ws)
      ensures forall v, x :: Has(adminConnections, v, x) <==>
                Has(old(adminConnections), v, x) || (isAdmin && v == u && x == ws)
    {
      ConnectKeepsSound(Value(), u, ws, isAdmin);
      connections := Added(connections, u, ws);
      if isAdmin {
        adminConnections := Added(adminConnections, u, ws);
      }
    }

    method Disconnect(u: User, ws: Socket)
      requires Valid()
      modifies this
      ensures Valid() && Value() == Disconnected(old(Value()), u, ws)
      ensures forall v, x :: Has(connections, v, x) <==> Has(old(connections), v, x) && !(v == u && x == ws)
      ensures forall v, x :: Has(adminConnections, v, x) <==>
                Has(old(adminConnections), v, x) && !(v == u && x == ws)
      ensures forall v, x :: Gone(Value(), v, x) <==> Gone(old(Value()), v, x) || (v == u && x == ws)
    {
      DisconnectKeepsSound(Value(), u, ws);
      if u in connections && ws in connections[u] {
        var sockets := connections[u] - {ws};
        assert sockets == {} <==> connections[u] == {ws};
        connections := if sockets == {} then connections - {u} else connections[u := sockets];
      }
      if u in adminConnections && ws in adminConnections[u] {
        var sockets := adminConnections[u] - {ws};
        assert sockets == {} <==> adminConnections[u] == {ws};
        adminConnections := if sockets == {} then adminConnections - {u} else adminConnections[u := sockets];
      }
    }

    method Snapshot(s: set<Socket>) returns (sockets: seq<Socket>)
      ensures Lists(sockets, s)
    {
      sockets := [];
      var todo := s;
      while todo != {}
        invariant todo <= s && Lists(sockets, s - todo)
      {
        var ws :| ws in todo;
        sockets, todo := sockets + [ws], todo - {ws};
      }
    }

    /** Sends to each socket; `alive` are those that take it. */
    method Send(sockets: seq<Socket>, alive: set<Socket>) returns (delivered: nat, dead: seq<Socket>)
      requires forall i, j :: 0 <= i < j < |sockets| ==> sockets[i] != sockets[j]
      ensures delivered == |LiveOf(sockets, alive)|
      ensures delivered + |dead| == |sockets|
      ensures forall ws :: ws in dead <==> ws in sockets && ws !in alive
    {
      delivered, dead := 0, [];
      ghost var took: set<Socket> := {};
      for i := 0 to |sockets|
        invariant delivered == |took| && delivered + |dead| == i
        invariant forall ws :: ws in took <==> ws in sockets[..i] && ws in alive
        invariant forall ws :: ws in dead <==> ws in sockets[..i] && ws !in alive
      {
        assert sockets[i] !in sockets[..i];
        if sockets[i] in alive {
          took := took + {sockets[i]};
          delivered := delivered + 1;
        } else {
          dead := dead + [sockets[i]];
        }
      }
      assert sockets[..|sockets|] == sockets;
      assert took == LiveOf(sockets, alive);
    }

    /** A delivery that nothing interleaves with. */
    method SendToUser(u: User, alive: set<Socket>) returns (delivered: nat)
      requires Valid()
      modifies this
      ensures Valid()
      ensures delivered == |Of(old(connections), u) * alive|
      ensures forall v, x :: Has(connections, v, x) <==> Has(old(connections), v, x) && (v == u ==> x in alive)
      ensures forall v, x :: Has(adminConnections, v, x) <==>
                Has(old(adminConnections), v, x) && (v == u ==> x in alive)
    {
      var sockets := Snapshot(Of(connections, u));
      var dead;
      delivered, dead := Send(sockets, alive);
      assert LiveOf(sockets, alive) == Of(connections, u) * alive;
      DisconnectAll(u, dead);
    }

    method DisconnectAll(u: User, dead: seq<Socket>)
      requires Valid()
      modifies this
      ensures Valid()
      ensures forall v, x :: Has(connections, v, x) <==> Has(old(connections), v, x) && !(v == u && x in dead)
      ensures forall v, x :: Has(adminConnections, v, x) <==> Has(old(adminConnections), v, x) && !(v == u && x in dead)
    {
      for i := 0 to |dead|
        invariant Valid()
        invariant forall v, x :: Has(connections, v, x) <==>
                    Has(old(connections), v, x) && !(v == u && x in dead[..i])
        invariant forall v, x :: Has(adminConnections, v, x) <==>
                    Has(old(adminConnections), v, x) && !(v == u && x in dead[..i])
      {
        Disconnect(u, dead[i]);
      }
      assert dead[..|dead|] == dead;
    }

    /** Each user in turn; what an earlier delivery disconnects is dead anyway, so the count is that of
    the connections at the start. */
    method BroadcastToUsers(users: seq<User>, alive: set<Socket>) returns (total: nat)
      requires Valid()
      modifies this
      ensures Valid() && total == |Takers(old(connections), users, |users|, alive)|
      ensures forall v, x :: Has(connections, v, x) <==> Has(old(connections), v, x) && (v in users ==> x in alive)
      ensures forall v, x :: Has(adminConnections, v, x) <==>
                Has(old(adminConnections), v, x) && (v in users ==> x in alive)
    {
      total := 0;
      ghost var before := connections;
      for i := 0 to |users|
        invariant Valid() && total == |Takers(before, users, i, alive)|
        invariant forall v, x :: Has(connections, v, x) <==> Has(before, v, x) && (v in users[..i] ==> x in alive)
        invariant forall v, x :: Has(adminConnections, v, x) <==>
                    Has(old(adminConnections), v, x) && (v in users[..i] ==> x in alive)
      {
        assert Of(connections, users[i]) * alive == Of(before, users[i]) * alive by {
          assert forall x :: x in Of(connections, users[i]) <==> Has(connections, users[i], x);
          assert forall x :: x in Of(before, users[i]) <==> Has(before, users[i], x);
        }
        TakersNext(before, users, i, alive);
        var delivered := SendToUser(users[i], alive);
        total := total + delivered;
      }
      assert users[..|users|] == users;
    }

    /** The admins' index as a list, taken under the lock. */
    method AdminEntries() returns (entries: seq<Entry>)
      ensures ListsIndex(entries, adminConnections)
    {
      entries := [];
      var todo := adminConnections.Keys;
      while todo != {}
        invariant todo <= adminConnections.Keys
        invariant forall i :: 0 <= i < |entries| ==>
                    && entries[i].user in adminConnections.Keys - todo
                    && Lists(entries[i].sockets, adminConnections[entries[i].user])
        invariant forall u :: u in adminConnections.Keys - todo ==> Mentions(entries, u)
        invariant forall i, j :: 0 <= i < j < |entries| ==> entries[i].user != entries[j].user
      {
        var u :| u in todo;
        var sockets := Snapshot(adminConnections[u]);
        forall v { MentionsMore(entries, Entry(u, sockets), v); }
        entries, todo := entries + [Entry(u, sockets)], todo - {u};
      }
    }

    /** One entry of a broadcast. */
    method SendToEntry(e: Entry, alive: set<Socket>) returns (delivered: nat)
      requires Valid() && forall i, j :: 0 <= i < j < |e.sockets| ==> e.sockets[i] != e.sockets[j]
      modifies this
      ensures Valid() && delivered == |LiveOf(e.sockets, alive)|
      ensures forall v, x :: Has(connections, v, x) <==> Has(old(connections), v, x) && (Holds(e, v, x) ==> x in alive)
      ensures forall v, x :: Has(adminConnections, v, x) <==>
                Has(old(adminConnections), v, x) && (Holds(e, v, x) ==> x in alive)
    {
      var dead;
      delivered, dead := Send(e.sockets, alive);
      DisconnectAll(e.user, dead);
    }

    method BroadcastToAdmins(alive: set<Socket>) returns (total: nat)
      requires Valid()
      modifies this
      ensures Valid() && total == |LivePairs(old(adminConnections), alive)|
      ensures forall v, x :: Has(adminConnections, v, x) <==> Has(old(adminConnections), v, x) && x in alive
      ensures forall v, x :: Has(connections, v, x) <==>
                Has(old(connections), v, x) && (Has(old(adminConnections), v, x) ==> x in alive)
    {
      var list := AdminEntries();
      total := SendToEntries(list, alive);
      RefusedIff(list, old(adminConnections), alive);
      TakenIsLive(list, old(adminConnections), alive);
    }

    method SendToEntries(entries: seq<Entry>, alive: set<Socket>) returns (total: nat)
      requires Valid() && ListsIndex(entries, adminConnections)
      modifies this
      ensures Valid() && total == |TakenPairs(entries, |entries|, alive)|
      ensures forall v, x :: Has(connections, v, x) <==>
                Has(old(connections), v, x) && !Refused(entries, |entries|, v, x, alive)
      ensures forall v, x :: Has(adminConnections, v, x) <==>
                Has(old(adminConnections), v, x) && !Refused(entries, |entries|, v, x, alive)
    {
      total := 0;
      for i := 0 to |entries|
        invariant Valid() && total == |TakenPairs(entries, i, alive)|
        invariant forall v, x :: Has(connections, v, x) <==>
                    Has(old(connections), v, x) && !Refused(entries, i, v, x, alive)
        invariant forall v, x :: Has(adminConnections, v, x) <==>
                    Has(old(adminConnections), v, x) && !Refused(entries, i, v, x, alive)
      {
        RefusedNext(entries, i, alive);
        TakenNext(entries, i, alive);
        var delivered := SendToEntry(entries[i], alive);
        total := total + delivered;
      }
    }
  }
}
