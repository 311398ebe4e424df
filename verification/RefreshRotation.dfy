/** Refresh-token rotation (server/app/auth): a revocation table and requests that interleave on it.

A refresh reads the presented token's row, revokes it conditionally and then issues a successor, in
three separate database steps.  Rotation is as in section 4.14.2 of RFC 9700, without revocation of
the token family on reuse.  Tokens are opaque identifiers; fresh ones are new to the table. */
module RefreshRotation {
  import opened Prelude

  type Jti = string
  type User = string

  // -------------------------------------------------- the table and its atomic steps ---

  datatype Row = Row(user: User, expiresAt: int, revoked: bool)

  type Table = map<Jti, Row>

  predicate Live(t: Table, j: Jti) { j in t && !t[j].revoked }

  /** `create`: one new unrevoked row. */
  function Created(t: Table, user: User, j: Jti, expiresAt: int): Table {
    t[j := Row(user, expiresAt, false)]
  }

  /** `revoke_by_jti_hash`: revokes a live row; nothing happens to any other. */
  function Revoked(t: Table, j: Jti): Table {
    if Live(t, j) then t[j := t[j].(revoked := true)] else t
  }

  /** `revoke_all_for_user`. */
  function AllRevoked(t: Table, user: User): Table {
    map j | j in t :: if t[j].user == user then t[j].(revoked := true) else t[j]
  }

  function LiveOf(t: Table, user: User): set<Jti> {
    set j | j in t && t[j].user == user && !t[j].revoked
  }

  /** What `refresh` accepts at its first read. */
  predicate Acceptable(t: Table, j: Jti, now: int) {
    Live(t, j) && t[j].expiresAt >= now
  }

  class RefreshTokensRepository {
    var rows: Table

    constructor ()
      ensures rows == map[]
    {
      rows := map[];
    }

    method Create(user: User, j: Jti, expiresAt: int)
      requires j !in rows
      modifies this
      ensures rows == Created(old(rows), user, j, expiresAt)
      ensures rows == old(rows)[j := Row(user, expiresAt, false)]
    {
      rows := rows[j := Row(user, expiresAt, false)];
    }

    /** What is read decides, for any time, whether the token is acceptable. */
    method GetByJti(j: Jti) returns (row: Option<Row>)
      ensures row.Some? <==> j in rows
      ensures row.Some? ==> row.value == rows[j]
      ensures forall now :: row.Some? && !row.value.revoked && row.value.expiresAt >= now <==> Acceptable(rows, j, now)
    {
      row := if j in rows then Some(rows[j]) else None;
    }

    method RevokeByJti(j: Jti) returns (updated: bool)
      modifies this
      ensures rows == Revoked(old(rows), j) && updated == Live(old(rows), j)
      ensures updated <==> j in old(rows) && !old(rows)[j].revoked
      ensures rows.Keys == old(rows).Keys && forall k :: k in rows ==>
                rows[k] == if k == j then old(rows)[k].(revoked := true) else old(rows)[k]
    {
      updated := j in rows && !rows[j].revoked;
      if updated {
        rows := rows[j := rows[j].(revoked := true)];
      }
    }

    /** The bulk update, row by row; it reports how many rows it changed. */
    method RevokeAllForUser(user: User) returns (n: nat)
      modifies this
      ensures rows == AllRevoked(old(rows), user) && n == |LiveOf(old(rows), user)|
      ensures rows.Keys == old(rows).Keys && forall k :: k in rows ==>
                rows[k] == if old(rows)[k].user == user then old(rows)[k].(revoked := true) else old(rows)[k]
    {
      var todo := LiveOf(rows, user);
      n := 0;
      while todo != {}
        invariant todo <= LiveOf(old(rows), user) && n + |todo| == |LiveOf(old(rows), user)|
        invariant rows.Keys == old(rows).Keys
        invariant forall j :: j in rows ==>
                    rows[j] == if j in LiveOf(old(rows), user) - todo then old(rows)[j].(revoked := true)
                               else old(rows)[j]
      {
        var j :| j in todo;
        rows := rows[j := rows[j].(revoked := true)];
        todo := todo - {j};
        n := n + 1;
      }
    }
  }

  datatype Account = Account(user: User, disabled: bool)

  datatype AuthError = InvalidCredentials | AccountDisabled | TokenRevoked | TokenExpired

  /** The service, run without interference.  `decode_token` has already yielded jti and subject. */
  class AuthService {
    const tokens: RefreshTokensRepository

    constructor (tokens: RefreshTokensRepository)
      ensures this.tokens == tokens
    {
      this.tokens := tokens;
    }

    /** The account with the given email, if there is one, and whether the password verifies against it. */
    method Login(account: Option<Account>, passwordOk: bool, newJti: Jti, expiresAt: int)
        returns (r: Result<Jti, AuthError>)
      requires newJti !in tokens.rows
      modifies tokens
      ensures r.Ok? <==> account.Some? && passwordOk && !account.value.disabled
      ensures r.Ok? ==> r.value == newJti
                        && tokens.rows == old(tokens.rows)[newJti := Row(account.value.user, expiresAt, false)]
      ensures r.Err? ==> tokens.rows == old(tokens.rows)
                         && r.error == if account.Some? && passwordOk then AccountDisabled else InvalidCredentials
    {
      if account.None? || !passwordOk {
        return Err(InvalidCredentials);
      }
      if account.value.disabled {
        return Err(AccountDisabled);
      }
      tokens.Create(account.value.user, newJti, expiresAt);
      return Ok(newJti);
    }

    method Refresh(j: Jti, subject: User, now: int, newJti: Jti, expiresAt: int) returns (r: Result<Jti, AuthError>)
      requires newJti !in tokens.rows
      modifies tokens
      ensures r.Ok? <==> j in old(tokens.rows) && !old(tokens.rows)[j].revoked && old(tokens.rows)[j].expiresAt >= now
      ensures r.Err? ==> tokens.rows == old(tokens.rows)
                         && (r.error == TokenExpired <==> Live(old(tokens.rows), j))
      ensures r.Ok? ==> r.value == newJti
                        && tokens.rows == Created(Revoked(old(tokens.rows), j), subject, newJti, expiresAt)
      ensures r.Ok? ==> tokens.rows == old(tokens.rows)[j := old(tokens.rows)[j].(revoked := true)]
                                         [newJti := Row(subject, expiresAt, false)]
    {
      var stored := tokens.GetByJti(j);
      if stored.None? || stored.value.revoked {
        return Err(TokenRevoked);
      }
      if stored.value.expiresAt < now {
        return Err(TokenExpired);
      }
      var revoked := tokens.RevokeByJti(j);
      if !revoked {
        return Err(TokenRevoked);
      }
      tokens.Create(subject, newJti, expiresAt);
      return Ok(newJti);
    }

    method Logout(j: Jti)
      modifies tokens
      ensures tokens.rows == Revoked(old(tokens.rows), j)
    {
      var _ := tokens.RevokeByJti(j);
    }

    method LogoutAll(user: User) returns (n: nat)
      modifies tokens
      ensures tokens.rows == AllRevoked(old(tokens.rows), user) && n == |LiveOf(old(tokens.rows), user)|
    {
      n := tokens.RevokeAllForUser(user);
    }
  }

  // ------------------------------------------------------ interleaved requests ---

  type Req = int

  /** Where a refresh request stands: past its read, or past its successful revoke. */
  datatype Stage = Checked(jti: Jti) | Won(jti: Jti)

  /** The table, the requests in flight, and history: which token each token was minted from, and in
  which order tokens were minted.  The history is not stored by the server. */
  datatype State = State(table: Table, parent: map<Jti, Jti>, rank: map<Jti, nat>, pending: map<Req, Stage>)

  const START := State(map[], map[], map[], map[])

  datatype Event =
    | Login(user: User, newJti: Jti, expiresAt: int)
    | Present(req: Req, jti: Jti, now: int)           // read the row and check it
    | TryRevoke(req: Req)                             // the conditional update
    | Issue(req: Req, newJti: Jti, expiresAt: int)     // insert the successor
    | Drop(req: Req)                                  // the request dies between two steps
    | Logout(jti: Jti)
    | LogoutAll(user: User)

  function Mint(s: State, user: User, j: Jti, expiresAt: int): State
  {
    s.(table := Created(s.table, user, j, expiresAt), rank := s.rank[j := |s.rank|])
  }

  /** One atomic step.  An event that cannot happen in a state leaves it unchanged. */
  function Step(s: State, e: Event): State {
    match e
    case Login(user, newJti, expiresAt) =>
      if newJti in s.table then s else Mint(s, user, newJti, expiresAt)
    case Present(req, jti, now) =>
      if req in s.pending || !Acceptable(s.table, jti, now) then s
      else s.(pending := s.pending[req := Checked(jti)])
    case TryRevoke(req) =>
      if req !in s.pending || !s.pending[req].Checked? then s
      else
        var j := s.pending[req].jti;
        if Live(s.table, j) then s.(table := Revoked(s.table, j), pending := s.pending[req := Won(j)])
        else s.(pending := s.pending - {req})
    case Issue(req, newJti, expiresAt) =>
      if req !in s.pending || !s.pending[req].Won? || newJti in s.table then s
      else
        var j := s.pending[req].jti;
        var user := if j in s.table then s.table[j].user else "";
        Mint(s, user, newJti, expiresAt).(parent := s.parent[newJti := j], pending := s.pending - {req})
    case Drop(req) => s.(pending := s.pending - {req})
    case Logout(jti) => s.(table := Revoked(s.table, jti))
    case LogoutAll(user) => s.(table := AllRevoked(s.table, user))
  }

  /** The state after a run of events, from a given state. */
  function After(s: State, es: seq<Event>): State
    decreases |es|
  {
    if es == [] then s else Step(After(s, es[..|es| - 1]), es[|es| - 1])
  }

  ghost predicate Reachable(s: State) {
    exists es :: s == After(START, es)
  }

  // -------------------------------------------------------------- the invariant ---

  ghost predicate HistoryInv(s: State) {
    && s.rank.Keys == s.table.Keys
    && (forall j :: j in s.rank ==> s.rank[j] < |s.rank|)
    && (forall j :: j in s.parent ==> j in s.table && s.parent[j] in s.table && s.rank[s.parent[j]] < s.rank[j])
  }

  ghost predicate RotationInv(s: State)
    requires HistoryInv(s)
  {
    && (forall j :: j in s.parent ==> s.table[s.parent[j]].revoked && s.table[j].user == s.table[s.parent[j]].user)
    && (forall i, j :: i in s.parent && j in s.parent && s.parent[i] == s.parent[j] ==> i == j)
  }

  ghost predicate PendingInv(s: State) {
    && (forall r :: r in s.pending ==> s.pending[r].jti in s.table)
    && (forall r :: r in s.pending && s.pending[r].Won? ==>
          s.table[s.pending[r].jti].revoked && forall j :: j in s.parent ==> s.parent[j] != s.pending[r].jti)
    && (forall r, q :: r in s.pending && q in s.pending && r != q && s.pending[r].Won? && s.pending[q].Won? ==>
          s.pending[r].jti != s.pending[q].jti)
  }

  ghost predicate Inv(s: State) {
    HistoryInv(s) && RotationInv(s) && PendingInv(s)
  }

  lemma StepKeepsInv(s: State, e: Event)
    requires Inv(s)
    ensures Inv(Step(s, e))
  {
    match e
    case Login(user, newJti, expiresAt) => if newJti !in s.table { MintKeepsHistory(s, user, newJti, expiresAt); }
    case Present(_, _, _) => PresentKeepsInv(s, e);
    case TryRevoke(req) => TryRevokeKeepsInv(s, req);
    case Issue(req, newJti, expiresAt) => IssueKeepsInv(s, req, newJti, expiresAt);
    case Drop(_) => PresentKeepsInv(s, e);
    case Logout(jti) => RevokingKeepsInv(s, Revoked(s.table, jti));
    case LogoutAll(user) => RevokingKeepsInv(s, AllRevoked(s.table, user));
  }

  lemma PresentKeepsInv(s: State, e: Event)
    requires Inv(s) && (e.Present? || e.Drop?)
    ensures Inv(Step(s, e))
  {}

  /** Rows are never lost, never change owner or expiry, and never come back to life. */
  ghost predicate Extends(t: Table, t': Table) {
    forall j :: j in t ==>
      j in t' && t'[j].user == t[j].user && t'[j].expiresAt == t[j].expiresAt && (t[j].revoked ==> t'[j].revoked)
  }

  /** Revoking rows, and nothing else, is always allowed. */
  lemma RevokingKeepsInv(s: State, table: Table)
    requires Inv(s) && table.Keys == s.table.Keys && Extends(s.table, table)
    ensures Inv(s.(table := table))
  {}

  lemma TryRevokeKeepsInv(s: State, req: Req)
    requires Inv(s)
    ensures Inv(Step(s, TryRevoke(req)))
  {
    if req in s.pending && s.pending[req].Checked? {
      var j := s.pending[req].jti;
      var s' := s.(table := Revoked(s.table, j));
      RevokingKeepsInv(s, Revoked(s.table, j));
      if Live(s.table, j) { WinningKeepsInv(s', req); } else { PresentKeepsInv(s, Drop(req)); }
    }
  }

  /** A request whose revocation succeeded: its token had no successor, and nobody else won it. */
  lemma WinningKeepsInv(s: State, req: Req)
    requires Inv(s) && req in s.pending && s.pending[req].Checked? && s.pending[req].jti in s.table
    requires s.table[s.pending[req].jti].revoked
    requires forall j :: j in s.parent ==> s.parent[j] != s.pending[req].jti
    requires forall r :: r in s.pending && s.pending[r].Won? ==> s.pending[r].jti != s.pending[req].jti
    ensures Inv(s.(pending := s.pending[req := Won(s.pending[req].jti)]))
  {}

  lemma MintKeepsHistory(s: State, user: User, j: Jti, expiresAt: int)
    requires Inv(s) && j !in s.table
    ensures Inv(Mint(s, user, j, expiresAt))
    ensures |Mint(s, user, j, expiresAt).rank| == |s.rank| + 1
  {
    assert j !in s.rank;
  }

  lemma IssueKeepsInv(s: State, req: Req, newJti: Jti, expiresAt: int)
    requires Inv(s)
    ensures Inv(Step(s, Issue(req, newJti, expiresAt)))
  {
    if req in s.pending && s.pending[req].Won? && newJti !in s.table {
      var j := s.pending[req].jti;
      MintKeepsHistory(s, s.table[j].user, newJti, expiresAt);
      AdoptingKeepsInv(Mint(s, s.table[j].user, newJti, expiresAt), req, newJti);
    }
  }

  /** A newly minted token becomes the successor of the token that its request won. */
  lemma AdoptingKeepsInv(s: State, req: Req, newJti: Jti)
    requires Inv(s) && req in s.pending && s.pending[req].Won?
    requires newJti in s.table && newJti !in s.parent && s.table[newJti].user == s.table[s.pending[req].jti].user
    requires s.rank[s.pending[req].jti] < s.rank[newJti]
    requires forall j :: j in s.parent ==> s.parent[j] != newJti
    requires forall r :: r in s.pending ==> s.pending[r].jti != newJti
    ensures Inv(s.(parent := s.parent[newJti := s.pending[req].jti], pending := s.pending - {req}))
  {}

  lemma {:induction false} RunKeepsInv(s: State, es: seq<Event>)
    requires Inv(s)
    ensures Inv(After(s, es))
    decreases |es|
  {
    if es != [] {
      RunKeepsInv(s, es[..|es| - 1]);
      StepKeepsInv(After(s, es[..|es| - 1]), es[|es| - 1]);
    }
  }

  lemma ReachableInv(s: State)
    requires Reachable(s)
    ensures Inv(s)
  {
    var es :| s == After(START, es);
    RunKeepsInv(START, es);
  }

  // ------------------------------------------------------------------ chains ---

  /** The login token that j descends from. */
  ghost function Root(s: State, j: Jti): Jti
    requires HistoryInv(s) && j in s.table
    decreases s.rank[j]
  {
    if j in s.parent then Root(s, s.parent[j]) else j
  }

  /** `a` is `b`, or `b` was minted from `a` in one or more rotations. */
  ghost predicate Ancestor(s: State, a: Jti, b: Jti)
    requires HistoryInv(s) && b in s.table
    decreases s.rank[b]
  {
    a == b || (b in s.parent && Ancestor(s, a, s.parent[b]))
  }

  ghost predicate HasSuccessor(s: State, j: Jti) {
    exists c :: c in s.parent && s.parent[c] == j
  }

  lemma {:induction false} ProperAncestorHasSuccessor(s: State, a: Jti, b: Jti)
    requires Inv(s) && a in s.table && b in s.table && Ancestor(s, a, b) && a != b
    ensures HasSuccessor(s, a)
    decreases s.rank[b]
  {
    if s.parent[b] != a { ProperAncestorHasSuccessor(s, a, s.parent[b]); }
  }

  /** The last step from a down to b, when b is properly below a. */
  lemma {:induction false} StepBelow(s: State, a: Jti, b: Jti) returns (c: Jti)
    requires Inv(s) && a in s.table && b in s.table && Ancestor(s, a, b) && a != b
    ensures c in s.parent && s.parent[c] == a && Ancestor(s, c, b)
    decreases s.rank[b]
  {
    if s.parent[b] == a { c := b; } else { c := StepBelow(s, a, s.parent[b]); }
  }

  lemma {:induction false} RootIsAncestor(s: State, b: Jti)
    requires Inv(s) && b in s.table
    ensures Root(s, b) in s.table && Root(s, b) !in s.parent && Ancestor(s, Root(s, b), b)
    decreases s.rank[b]
  {
    if b in s.parent { RootIsAncestor(s, s.parent[b]); }
  }

  /** Two descendants of one token are comparable: a chain does not fork. */
  lemma {:induction false} ChainsDoNotFork(s: State, r: Jti, a: Jti, b: Jti)
    requires Inv(s) && r in s.table && a in s.table && b in s.table
    requires Ancestor(s, r, a) && Ancestor(s, r, b)
    ensures Ancestor(s, a, b) || Ancestor(s, b, a)
    decreases |s.rank| - s.rank[r]
  {
    if r != a && r != b {
      var c := StepBelow(s, r, a);
      var d := StepBelow(s, r, b);
      ChainsDoNotFork(s, c, a, b);
    }
  }

  /** Safety of rotation in every reachable state: every token descends from exactly one login, a
  token has at most one successor, and of each login's chain at most one token is unrevoked. */
  lemma AtMostOneLivePerChain(s: State, a: Jti, b: Jti)
    requires Reachable(s) && a in s.table && b in s.table
    ensures Inv(s)
    ensures Root(s, a) in s.table && Root(s, a) !in s.parent
    ensures a in s.parent && b in s.parent && s.parent[a] == s.parent[b] ==> a == b
    ensures Root(s, a) == Root(s, b) && Live(s.table, a) && Live(s.table, b) ==> a == b
  {
    ReachableInv(s);
    LiveIsUnique(s, a, b);
  }

  lemma LiveIsUnique(s: State, a: Jti, b: Jti)
    requires Inv(s) && a in s.table && b in s.table
    ensures Root(s, a) in s.table && Root(s, a) !in s.parent
    ensures Root(s, a) == Root(s, b) && Live(s.table, a) && Live(s.table, b) ==> a == b
  {
    RootIsAncestor(s, a);
    RootIsAncestor(s, b);
    if Root(s, a) == Root(s, b) && Live(s.table, a) && Live(s.table, b) && a != b {
      ChainsDoNotFork(s, Root(s, a), a, b);
      if Ancestor(s, a, b) {
        ProperAncestorHasSuccessor(s, a, b);
      } else {
        ProperAncestorHasSuccessor(s, b, a);
      }
    }
  }

  // --------------------------------------------------- revocation is for good ---

  lemma StepExtends(s: State, e: Event)
    requires Inv(s)
    ensures Extends(s.table, Step(s, e).table)
    ensures forall j :: j in s.parent ==> j in Step(s, e).parent && Step(s, e).parent[j] == s.parent[j]
  {
    StepKeepsParents(s, e);
    match e
    case Login(user, newJti, expiresAt) => if newJti !in s.table { CreatedExtends(s.table, user, newJti, expiresAt); }
    case Issue(_, _, _) => IssueExtends(s, e);
    case Present(_, _, _) =>
    case Drop(_) =>
    case _ => RevokingExtends(s, e);
  }

  lemma RevokingExtends(s: State, e: Event)
    requires e.TryRevoke? || e.Logout? || e.LogoutAll?
    ensures Extends(s.table, Step(s, e).table)
  {}

  lemma IssueExtends(s: State, e: Event)
    requires Inv(s) && e.Issue?
    ensures Extends(s.table, Step(s, e).table)
  {}

  lemma CreatedExtends(t: Table, user: User, j: Jti, expiresAt: int)
    requires j !in t
    ensures Extends(t, Created(t, user, j, expiresAt))
  {}

  lemma StepKeepsParents(s: State, e: Event)
    requires HistoryInv(s)
    ensures forall j :: j in s.parent ==> j in Step(s, e).parent && Step(s, e).parent[j] == s.parent[j]
  {}

  lemma {:induction false} RevocationIsFinal(s: State, es: seq<Event>)
    requires Inv(s)
    ensures Extends(s.table, After(s, es).table)
    ensures forall j :: j in s.parent ==> j in After(s, es).parent && After(s, es).parent[j] == s.parent[j]
    decreases |es|
  {
    if es != [] {
      RevocationIsFinal(s, es[..|es| - 1]);
      RunKeepsInv(s, es[..|es| - 1]);
      StepExtends(After(s, es[..|es| - 1]), es[|es| - 1]);
    }
  }

  /** A serial refresh is the three steps in a row. */
  lemma SerialRefreshIsThreeSteps(s: State, req: Req, j: Jti, now: int, newJti: Jti, expiresAt: int)
    requires Inv(s) && req !in s.pending && newJti !in s.table
    ensures var s1 := Step(s, Present(req, j, now));
            var s2 := Step(s1, TryRevoke(req));
            var s3 := Step(s2, Issue(req, newJti, expiresAt));
            s3.table == if Acceptable(s.table, j, now)
                        then Created(Revoked(s.table, j), s.table[j].user, newJti, expiresAt) else s.table
  {}

  // -------------------------------------------------------------- logout of all ---

  ghost predicate NoLoginOf(es: seq<Event>, user: User) {
    forall i :: 0 <= i < |es| && es[i].Login? ==> es[i].user != user
  }

  /** Some rotation of the user's has revoked the old token and not yet issued the new one. */
  ghost predicate RotationInFlight(s: State, user: User) {
    exists r :: r in s.pending && s.pending[r].Won? && s.pending[r].jti in s.table
                && s.table[s.pending[r].jti].user == user
  }

  /** No token of the user is live, and none can come up without a login. */
  ghost predicate LoggedOut(s: State, user: User) {
    LiveOf(s.table, user) == {} && !RotationInFlight(s, user)
  }

  lemma StepKeepsLoggedOut(s: State, e: Event, user: User)
    requires Inv(s) && LoggedOut(s, user) && (e.Login? ==> e.user != user)
    ensures LoggedOut(Step(s, e), user)
  {
    match e
    case Login(_, _, _) => OthersStayOut(s, Step(s, e), user);
    case Present(_, _, _) => OthersStayOut(s, Step(s, e), user);
    case TryRevoke(_) => RevokeKeepsLoggedOut(s, e, user);
    case Issue(_, _, _) => IssueKeepsLoggedOut(s, e, user);
    case Drop(_) => OthersStayOut(s, Step(s, e), user);
    case Logout(_) => OthersStayOut(s, Step(s, e), user);
    case LogoutAll(_) => OthersStayOut(s, Step(s, e), user);
  }

  lemma RevokeKeepsLoggedOut(s: State, e: Event, user: User)
    requires Inv(s) && LoggedOut(s, user) && e.TryRevoke?
    ensures LoggedOut(Step(s, e), user)
  {
    OthersStayOut(s, Step(s, e), user);
  }

  lemma IssueKeepsLoggedOut(s: State, e: Event, user: User)
    requires Inv(s) && LoggedOut(s, user) && e.Issue?
    ensures LoggedOut(Step(s, e), user)
  {
    if e.req in s.pending && s.pending[e.req].Won? && e.newJti !in s.table {
      assert s.table[s.pending[e.req].jti].user != user;
      OthersStayOut(s, Step(s, e), user);
    }
  }

  lemma OthersStayOut(s: State, s': State, user: User)
    requires Inv(s) && LoggedOut(s, user)
    requires forall j :: j in s'.table && s'.table[j].user == user && !s'.table[j].revoked ==>
               j in LiveOf(s.table, user)
    requires forall r :: r in s'.pending && s'.pending[r].Won? && s'.pending[r].jti in s'.table ==>
               s'.pending[r].jti in s.table
               && s'.table[s'.pending[r].jti].user == s.table[s'.pending[r].jti].user
               && ((r in s.pending && s.pending[r] == s'.pending[r])
                   || s'.pending[r].jti in LiveOf(s.table, s.table[s'.pending[r].jti].user))
    ensures LoggedOut(s', user)
  {}

  lemma {:induction false} LoggedOutLasts(s: State, es: seq<Event>, user: User)
    requires Inv(s) && LoggedOut(s, user) && NoLoginOf(es, user)
    ensures LoggedOut(After(s, es), user)
    decreases |es|
  {
    if es != [] {
      LoggedOutLasts(s, es[..|es| - 1], user);
      RunKeepsInv(s, es[..|es| - 1]);
      StepKeepsLoggedOut(After(s, es[..|es| - 1]), es[|es| - 1], user);
    }
  }

  /** `logout_all` ends every session of the user for good exactly when none of the user's rotations
  stands between its revoke and its issue: such a rotation still issues its token afterwards. */
  lemma LogoutAllIsFinalIff(s: State, user: User, newJti: Jti)
    requires Inv(s) && newJti !in s.table
    ensures (forall es :: NoLoginOf(es, user) ==> LiveOf(After(Step(s, LogoutAll(user)), es).table, user) == {})
       <==> !RotationInFlight(s, user)
  {
    var out := Step(s, LogoutAll(user));
    StepKeepsInv(s, LogoutAll(user));
    assert LiveOf(out.table, user) == {};
    if RotationInFlight(s, user) {
      var r :| r in s.pending && s.pending[r].Won? && s.table[s.pending[r].jti].user == user;
      var es := [Issue(r, newJti, 0)];
      assert es[..0] == [] && After(out, es[..0]) == out;
      assert After(out, es) == Step(out, es[0]);
      assert newJti in LiveOf(After(out, es).table, user);
      assert NoLoginOf(es, user);
    } else {
      assert !RotationInFlight(out, user);
      forall es | NoLoginOf(es, user)
        ensures LiveOf(After(out, es).table, user) == {}
      {
        LoggedOutLasts(out, es, user);
      }
    }
  }

  lemma ReachableNext(s: State, e: Event)
    requires Reachable(s)
    ensures Reachable(Step(s, e))
  {
    var es :| s == After(START, es);
    assert (es + [e])[..|es|] == es;
    assert After(START, es + [e]) == Step(s, e);
  }

  lemma ReachableAfterThree(s: State, e1: Event, e2: Event, e3: Event)
    requires Reachable(s)
    ensures Reachable(Step(Step(Step(s, e1), e2), e3))
  {
    ReachableNext(s, e1);
    ReachableNext(Step(s, e1), e2);
    ReachableNext(Step(Step(s, e1), e2), e3);
  }

  lemma PresentLive(s: State, req: Req, j: Jti)
    requires Acceptable(s.table, j, 0) && req !in s.pending
    ensures Step(s, Present(req, j, 0)).table == s.table
    ensures Step(s, Present(req, j, 0)).pending == s.pending[req := Checked(j)]
  {}

  lemma RevokeChecked(s: State, req: Req, j: Jti)
    requires req in s.pending && s.pending[req] == Checked(j) && Live(s.table, j)
    ensures Step(s, TryRevoke(req)).table == s.table[j := s.table[j].(revoked := true)]
    ensures Step(s, TryRevoke(req)).pending == s.pending[req := Won(j)]
  {}

  /** A login and two steps of a refresh lead between its revoke and its issue. */
  lemma RotationStarts(s: State, user: User, j: Jti, req: Req)
    requires j !in s.table && req !in s.pending
    ensures var rotating := Step(Step(Step(s, Login(user, j, 1)), Present(req, j, 0)), TryRevoke(req));
            rotating.table == s.table[j := Row(user, 1, true)] && rotating.pending == s.pending[req := Won(j)]
  {
    var loggedIn := Step(s, Login(user, j, 1));
    assert loggedIn.table == s.table[j := Row(user, 1, false)] && loggedIn.pending == s.pending;
    PresentLive(loggedIn, req, j);
    RevokeChecked(Step(loggedIn, Present(req, j, 0)), req, j);
  }

  /** It does happen, from any reachable state: a login, a refresh that stands between its revoke and its
  issue, a logout of all, and then the issue leave the user with a live token. */
  lemma RotationOutlivesLogoutAll(s: State, user: User, j: Jti, j': Jti, req: Req)
    requires Reachable(s) && j !in s.table && j' !in s.table && j != j' && req !in s.pending
    ensures var rotating := Step(Step(Step(s, Login(user, j, 1)), Present(req, j, 0)), TryRevoke(req));
            var out := Step(rotating, LogoutAll(user));
            && Reachable(rotating) && RotationInFlight(rotating, user)
            && LiveOf(out.table, user) == {}
            && j' in LiveOf(Step(out, Issue(req, j', 1)).table, user)
  {
    ReachableAfterThree(s, Login(user, j, 1), Present(req, j, 0), TryRevoke(req));
    RotationStarts(s, user, j, req);
    var rotating := Step(Step(Step(s, Login(user, j, 1)), Present(req, j, 0)), TryRevoke(req));
    assert rotating.pending[req] == Won(j) && rotating.table[j].user == user;
    LateIssue(rotating, user, j, j', req);
  }

  lemma LateIssue(s: State, user: User, j: Jti, j': Jti, req: Req)
    requires req in s.pending && s.pending[req] == Won(j) && j in s.table && s.table[j].user == user && j' !in s.table
    ensures var out := Step(s, LogoutAll(user));
            LiveOf(out.table, user) == {} && j' in LiveOf(Step(out, Issue(req, j', 1)).table, user)
  {}
}
