/** Push delivery (server/app/notifications, server/app/push_tokens): who is told of an emergency, what
the provider's replies say about each token, and which token rows are deleted.

Hashing is an injective function.  The replies, and whether a database call fails, are parameters. */
module PushPipeline {
  import opened Prelude
  import GuardianConsent

  type UserId = GuardianConsent.UserId
  type Token = string
  type Hash = string

  // ------------------------------------------------------------ the provider ---

  /** Parts of an error reply, as far as the code looks at them.  `Uniterable`: the list of violations is
  a value that cannot be looped over, which raises. */
  datatype Violation = OtherViolation | FieldViolation(field: string)
  datatype Violations = Listed(items: seq<Violation>) | Uniterable
  datatype Detail = OtherDetail | Detail(errorCode: Option<string>, violations: Violations)

  /** `Malformed`: a body whose error object cannot be reached. */
  datatype Body = Malformed | ErrorBody(status: string, details: seq<Detail>)
  datatype Reply = NoReply | Answer(status: int, body: Body)

  datatype Verdict = Delivered | Invalid | Failed | Raises

  predicate Contains(s: string, part: string) {
    part <= s || (s != [] && Contains(s[1..], part))
  }

  predicate NamesToken(v: Violation) {
    v.FieldViolation? && Contains(v.field, "token")
  }

  predicate BlamesToken(d: Detail) {
    d.Detail? && d.violations.Listed? && exists v :: v in d.violations.items && NamesToken(v)
  }

  /** `any` over the details in order; it stops at the first violation that names the token. */
  function TokenBlamed(details: seq<Detail>): Verdict {
    if details == [] then Failed
    else if BlamesToken(details[0]) then Invalid
    else if details[0].Detail? && details[0].violations.Uniterable? then Raises
    else TokenBlamed(details[1..])
  }

  function DetailsOf(b: Body): seq<Detail> {
    if b.Malformed? then [] else b.details
  }

  function ErrorCode(b: Body): string {
    if b.Malformed? then ""
    else if b.details != [] && b.details[0].Detail? && b.details[0].errorCode.Some? then b.details[0].errorCode.value
    else b.status
  }

  /** `_is_dead_token`. */
  function DeadToken(code: string, details: seq<Detail>): Verdict {
    if code == "UNREGISTERED" then Invalid
    else if code == "INVALID_ARGUMENT" then TokenBlamed(details)
    else Failed
  }

  function Classified(r: Reply): Verdict {
    match r
    case NoReply => Failed
    case Answer(status, body) => if status == 200 then Delivered else DeadToken(ErrorCode(body), DetailsOf(body))
  }

  // ------------------------------------------------- the verdicts, by the reply ---

  /** A field of this violation has "token" in its name. */
  ghost predicate Blames(d: Detail) {
    d.Detail? && d.violations.Listed?
    && exists v, i: nat :: v in d.violations.items && v.FieldViolation? && i <= |v.field| && "token" <= v.field[i..]
  }

  ghost predicate Breaks(d: Detail) {
    d.Detail? && d.violations.Uniterable?
  }

  /** Some detail blames the token, and no detail before it makes the code raise. */
  ghost predicate BlamedBeforeRaising(details: seq<Detail>) {
    exists n :: 0 <= n < |details| && Blames(details[n]) && forall k :: 0 <= k < n ==> !Breaks(details[k])
  }

  /** Some detail makes the code raise, and no detail before it blames the token. */
  ghost predicate RaisesBeforeBlame(details: seq<Detail>) {
    exists n :: 0 <= n < |details| && Breaks(details[n]) && forall k :: 0 <= k < n ==> !Blames(details[k])
  }

  /** The error reply's code: that of the first detail, or else the status. */
  ghost predicate Says(b: Body, code: string) {
    b.ErrorBody? &&
    if b.details != [] && b.details[0].Detail? && b.details[0].errorCode.Some? then b.details[0].errorCode == Some(code)
    else b.status == code
  }

  lemma {:induction false} ContainsIff(s: string, part: string)
    ensures Contains(s, part) <==> exists i: nat :: i <= |s| && part <= s[i..]
  {
    assert s[0..] == s;
    if s != [] {
      ContainsIff(s[1..], part);
      if Contains(s[1..], part) {
        var i: nat :| i <= |s[1..]| && part <= s[1..][i..];
        assert s[1..][i..] == s[i + 1..];
      }
      if i: nat :| 0 < i <= |s| && part <= s[i..] {
        assert s[i..] == s[1..][i - 1..];
      }
    }
  }

  lemma BlamesIff(d: Detail)
    ensures BlamesToken(d) <==> Blames(d)
  {
    if d.Detail? && d.violations.Listed? {
      forall v | v in d.violations.items && v.FieldViolation?
        ensures NamesToken(v) <==> exists i: nat :: i <= |v.field| && "token" <= v.field[i..]
      {
        ContainsIff(v.field, "token");
      }
    }
  }

  lemma {:induction false} TokenBlamedIff(details: seq<Detail>)
    ensures TokenBlamed(details) == Invalid <==> BlamedBeforeRaising(details)
    ensures TokenBlamed(details) == Raises <==> RaisesBeforeBlame(details)
    ensures TokenBlamed(details) != Delivered
  {
    if details != [] {
      var first, rest := details[0], details[1..];
      BlamesIff(first);
      TokenBlamedIff(rest);
      BlamedNext(details);
      RaisesNext(details);
    }
  }

  lemma BlamedNext(details: seq<Detail>)
    requires details != []
    ensures BlamedBeforeRaising(details)
       <==> Blames(details[0]) || (!Breaks(details[0]) && BlamedBeforeRaising(details[1..]))
  {
    var rest := details[1..];
    if BlamedBeforeRaising(rest) && !Breaks(details[0]) {
      var n :| 0 <= n < |rest| && Blames(rest[n]) && forall k :: 0 <= k < n ==> !Breaks(rest[k]);
      assert Blames(details[n + 1]) && forall k :: 0 < k < n + 1 ==> details[k] == rest[k - 1];
    }
    if n :| 0 < n < |details| && Blames(details[n]) && forall k :: 0 <= k < n ==> !Breaks(details[k]) {
      assert Blames(rest[n - 1]) && forall k :: 0 <= k < n - 1 ==> rest[k] == details[k + 1];
    }
  }

  lemma RaisesNext(details: seq<Detail>)
    requires details != []
    ensures RaisesBeforeBlame(details)
       <==> Breaks(details[0]) || (!Blames(details[0]) && RaisesBeforeBlame(details[1..]))
  {
    var rest := details[1..];
    if RaisesBeforeBlame(rest) && !Blames(details[0]) {
      var n :| 0 <= n < |rest| && Breaks(rest[n]) && forall k :: 0 <= k < n ==> !Blames(rest[k]);
      assert Breaks(details[n + 1]) && forall k :: 0 < k < n + 1 ==> details[k] == rest[k - 1];
    }
    if n :| 0 < n < |details| && Breaks(details[n]) && forall k :: 0 <= k < n ==> !Blames(details[k]) {
      assert Breaks(rest[n - 1]) && forall k :: 0 <= k < n - 1 ==> rest[k] == details[k + 1];
    }
  }

  /** An error reply about which the token can do nothing: a malformed body, another code, or an invalid
  argument that no detail blames on the token and that does not make the code raise. */
  ghost predicate SaysNothingOfToken(b: Body) {
    && !Says(b, "UNREGISTERED")
    && (Says(b, "INVALID_ARGUMENT") ==> !exists d :: d in b.details && (Blames(d) || Breaks(d)))
  }

  /** Every verdict by the reply's own fields.  A token is held dead exactly when an error reply's code
  says that it is unregistered, or that an argument is invalid and some violation names the token; no
  other error prunes. */
  lemma ClassifiedIff(r: Reply)
    ensures Classified(r) == Delivered <==> r.Answer? && r.status == 200
    ensures Classified(r) == Invalid
       <==> r.Answer? && r.status != 200
            && (Says(r.body, "UNREGISTERED")
                || (Says(r.body, "INVALID_ARGUMENT") && BlamedBeforeRaising(r.body.details)))
    ensures Classified(r) == Raises
       <==> r.Answer? && r.status != 200 && Says(r.body, "INVALID_ARGUMENT") && RaisesBeforeBlame(r.body.details)
    ensures Classified(r) == Failed <==> r.NoReply? || (r.status != 200 && SaysNothingOfToken(r.body))
  {
    if r.Answer? && r.body.ErrorBody? {
      TokenBlamedIff(r.body.details);
      NeitherIff(r.body.details);
    }
  }

  lemma {:induction false} NeitherIff(details: seq<Detail>)
    ensures !BlamedBeforeRaising(details) && !RaisesBeforeBlame(details)
       <==> !exists d :: d in details && (Blames(d) || Breaks(d))
  {
    if details != [] {
      BlamedNext(details);
      RaisesNext(details);
      NeitherIff(details[1..]);
      assert forall d :: d in details <==> d == details[0] || d in details[1..];
    }
  }

  datatype Report = Report(delivered: seq<Token>, invalid: seq<Token>, failed: seq<Token>)

  /** The tokens whose reply was classed so, in their order. */
  function Chosen(tokens: seq<Token>, replies: seq<Reply>, v: Verdict): seq<Token>
    requires |tokens| == |replies|
  {
    ChosenOf(tokens, replies, |tokens|, v)
  }

  /** The same for the first n tokens. */
  function ChosenOf(tokens: seq<Token>, replies: seq<Reply>, n: nat, v: Verdict): seq<Token>
    requires n <= |tokens| == |replies|
  {
    if n == 0 then []
    else if Classified(replies[n - 1]) == v then ChosenOf(tokens, replies, n - 1, v) + [tokens[n - 1]]
    else ChosenOf(tokens, replies, n - 1, v)
  }

  predicate NoneRaises(replies: seq<Reply>) {
    forall i :: 0 <= i < |replies| ==> Classified(replies[i]) != Raises
  }

  class FcmProvider {
    var cachedToken: Option<string>
    var cachedExpiry: int

    constructor ()
      ensures cachedToken == None
    {
      cachedToken, cachedExpiry := None, 0;
    }

    /** A bearer token that is either new or good for five more minutes; `exchange` is what asking for
    a new one would give, with its lifetime. */
    method AccessToken(now: int, exchange: Option<(string, int)>) returns (bearer: Option<string>)
      modifies this
      ensures var reusable := old(cachedToken.Some? && cachedToken.value != "") && now < old(cachedExpiry) - 300;
              && bearer == (if reusable then old(cachedToken)
                            else if exchange.Some? then Some(exchange.value.0) else None)
              && (reusable || exchange.None? ==> cachedToken == old(cachedToken) && cachedExpiry == old(cachedExpiry))
              && (!reusable && exchange.Some? ==> cachedToken == bearer && cachedExpiry == now + exchange.value.1)
    {
      if cachedToken.Some? && cachedToken.value != "" && now < cachedExpiry - 300 {
        return cachedToken;
      }
      if exchange.None? {
        return None;
      }
      cachedToken, cachedExpiry := Some(exchange.value.0), now + exchange.value.1;
      return cachedToken;
    }

    /** `replies[i]` is what sending to the i-th token gives.  None when a reply makes the code raise. */
    method SendToTokens(tokens: seq<Token>, now: int, exchange: Option<(string, int)>, replies: seq<Reply>)
        returns (report: Option<Report>)
      requires |replies| == |tokens|
      modifies this
      ensures tokens == [] ==> report == Some(Report([], [], []))
      ensures tokens != [] && !old(Authorized(now, exchange)) ==> report == Some(Report([], [], tokens))
      ensures tokens != [] && old(Authorized(now, exchange)) ==>
                report == if NoneRaises(replies)
                          then Some(Report(Chosen(tokens, replies, Delivered), Chosen(tokens, replies, Invalid),
                                           Chosen(tokens, replies, Failed)))
                          else None
    {
      if tokens == [] {
        return Some(Report([], [], []));
      }
      var bearer := AccessToken(now, exchange);
      if bearer.None? {
        return Some(Report([], [], tokens));
      }
      report := SendAll(tokens, replies);
    }

    method SendAll(tokens: seq<Token>, replies: seq<Reply>) returns (report: Option<Report>)
      requires |replies| == |tokens|
      ensures report == if NoneRaises(replies)
                        then Some(Report(Chosen(tokens, replies, Delivered), Chosen(tokens, replies, Invalid),
                                         Chosen(tokens, replies, Failed)))
                        else None
    {
      var delivered, invalid, failed := [], [], [];
      for i := 0 to |tokens|
        invariant forall k :: 0 <= k < i ==> Classified(replies[k]) != Raises
        invariant delivered == ChosenOf(tokens, replies, i, Delivered)
        invariant invalid == ChosenOf(tokens, replies, i, Invalid)
        invariant failed == ChosenOf(tokens, replies, i, Failed)
      {
        var verdict := ReadReply(replies[i]);
        match verdict
        case Raises => return None;
        case Delivered => delivered := delivered + [tokens[i]];
        case Invalid => invalid := invalid + [tokens[i]];
        case Failed => failed := failed + [tokens[i]];
      }
      return Some(Report(delivered, invalid, failed));
    }

    /** The code and the details that the reply to one message shows, and what they make of its token. */
    method ReadReply(reply: Reply) returns (verdict: Verdict)
      ensures verdict == Classified(reply)
      ensures verdict == Delivered <==> reply.Answer? && reply.status == 200
      ensures verdict == Invalid
         <==> reply.Answer? && reply.status != 200
              && (Says(reply.body, "UNREGISTERED")
                  || (Says(reply.body, "INVALID_ARGUMENT") && BlamedBeforeRaising(reply.body.details)))
      ensures verdict == Failed <==> reply.NoReply? || (reply.status != 200 && SaysNothingOfToken(reply.body))
    {
      ClassifiedIff(reply);
      if reply.NoReply? {
        return Failed;
      }
      if reply.status == 200 {
        return Delivered;
      }
      var code, details := "", [];
      if reply.body.ErrorBody? {
        code, details := reply.body.status, reply.body.details;
        if details != [] && details[0].Detail? && details[0].errorCode.Some? {
          code := details[0].errorCode.value;
        }
      }
      return DeadToken(code, details);
    }

    predicate Authorized(now: int, exchange: Option<(string, int)>)
      reads this
    {
      exchange.Some? || (cachedToken.Some? && cachedToken.value != "" && now < cachedExpiry - 300)
    }
  }

  /** No token is lost and none is reported twice. */
  lemma ReportIsPartition(tokens: seq<Token>, replies: seq<Reply>)
    requires |tokens| == |replies| && NoneRaises(replies)
    ensures multiset(Chosen(tokens, replies, Delivered)) + multiset(Chosen(tokens, replies, Invalid))
            + multiset(Chosen(tokens, replies, Failed)) == multiset(tokens)
  {
    PartitionOf(tokens, replies, |tokens|);
    assert tokens[..|tokens|] == tokens;
  }

  lemma {:induction false} PartitionOf(tokens: seq<Token>, replies: seq<Reply>, n: nat)
    requires n <= |tokens| == |replies| && NoneRaises(replies)
    ensures multiset(ChosenOf(tokens, replies, n, Delivered)) + multiset(ChosenOf(tokens, replies, n, Invalid))
            + multiset(ChosenOf(tokens, replies, n, Failed)) == multiset(tokens[..n])
  {
    if n > 0 {
      PartitionOf(tokens, replies, n - 1);
      assert tokens[..n] == tokens[..n - 1] + [tokens[n - 1]];
    }
  }

  /** Which tokens a list of the report names. */
  lemma {:induction false} ChosenIff(tokens: seq<Token>, replies: seq<Reply>, n: nat, v: Verdict, t: Token)
    requires n <= |tokens| == |replies|
    ensures t in ChosenOf(tokens, replies, n, v)
       <==> exists i :: 0 <= i < n && tokens[i] == t && Classified(replies[i]) == v
  {
    if n > 0 { ChosenIff(tokens, replies, n - 1, v, t); }
  }

  // -------------------------------------------------------------- the tokens ---

  datatype Row = Row(user: UserId, token: Option<Token>, platform: string)

  type Rows = map<Hash, Row>

  ghost predicate Injective(hash: Token -> Hash) {
    forall t, u :: hash(t) == hash(u) ==> t == u
  }

  /** A row that holds a token is filed under that token's hash. */
  ghost predicate Filed(rows: Rows, hash: Token -> Hash) {
    forall h :: h in rows && rows[h].token.Some? ==> h == hash(rows[h].token.value)
  }

  /** A new row, or the old one taken over; a missing token does not erase the one on file. */
  function Upserted(rows: Rows, h: Hash, user: UserId, token: Option<Token>, platform: string): Rows {
    rows[h := Row(user, if token.None? && h in rows then rows[h].token else token, platform)]
  }

  predicate Sendable(row: Row, users: seq<UserId>) {
    row.user in users && row.token.Some? && row.token.value != ""
  }

  /** The list holds exactly the tokens to be sent for these users. */
  ghost predicate OnFile(rows: Rows, users: seq<UserId>, hash: Token -> Hash, tokens: seq<Token>) {
    forall t :: t in tokens <==> hash(t) in rows && rows[hash(t)].token == Some(t) && Sendable(rows[hash(t)], users)
  }

  /** A device belongs to whoever registered it last, and only that user's notifications reach it. */
  lemma TokenFollowsLastUser(rows: Rows, hash: Token -> Hash, user: UserId, token: Token, platform: string,
                             users: seq<UserId>)
    requires Injective(hash) && Filed(rows, hash)
    ensures var rows' := Upserted(rows, hash(token), user, Some(token), platform);
            && Filed(rows', hash)
            && ((exists h :: h in rows' && Sendable(rows'[h], users) && rows'[h].token == Some(token))
                <==> user in users && token != "")
            && forall h :: h in rows && h != hash(token) ==> h in rows' && rows'[h] == rows[h]
  {
    var rows' := Upserted(rows, hash(token), user, Some(token), platform);
    assert rows'[hash(token)] == Row(user, Some(token), platform);
  }

  /** Registering a device again without its token hands over the token that is on file: the new user
  is sent to, and nobody else. */
  lemma KeptTokenFollowsUser(rows: Rows, hash: Token -> Hash, user: UserId, token: Token, platform: string,
                             users: seq<UserId>)
    requires Injective(hash) && Filed(rows, hash)
    requires hash(token) in rows && rows[hash(token)].token == Some(token)
    ensures var rows' := Upserted(rows, hash(token), user, None, platform);
            && Filed(rows', hash)
            && ((exists h :: h in rows' && Sendable(rows'[h], users) && rows'[h].token == Some(token))
                <==> user in users && token != "")
  {
    var rows' := Upserted(rows, hash(token), user, None, platform);
    assert rows'[hash(token)] == Row(user, Some(token), platform);
  }

  class PushTokensRepository {
    var rows: Rows

    constructor ()
      ensures rows == map[]
    {
      rows := map[];
    }

    /** The row is the user's afterwards; it keeps the token on file if none is given. */
    method Upsert(h: Hash, user: UserId, token: Option<Token>, platform: string)
      modifies this
      ensures rows == Upserted(old(rows), h, user, token, platform)
      ensures h in rows && rows[h].user == user && rows[h].platform == platform
      ensures token.Some? ==> rows[h].token == token
      ensures token.None? ==> rows[h].token == if h in old(rows) then old(rows)[h].token else None
      ensures rows - {h} == old(rows) - {h}
    {
      var kept := if token.None? && h in rows then rows[h].token else token;
      rows := rows[h := Row(user, kept, platform)];
    }

    /** The tokens on file for the users, in no particular order, each from its own row. */
    method TokensForUsers(users: seq<UserId>, ghost hash: Token -> Hash) returns (tokens: seq<Token>)
      requires Injective(hash) && Filed(rows, hash)
      ensures OnFile(rows, users, hash, tokens)
      ensures forall i, j :: 0 <= i < j < |tokens| ==> tokens[i] != tokens[j]
    {
      var todo := set h | h in rows && Sendable(rows[h], users);
      ghost var all := todo;
      tokens := [];
      while todo != {}
        invariant todo <= all
        invariant forall t :: t in tokens <==> hash(t) in all - todo && rows[hash(t)].token == Some(t)
        invariant forall i, j :: 0 <= i < j < |tokens| ==> tokens[i] != tokens[j]
      {
        var h :| h in todo;
        assert h == hash(rows[h].token.value) && rows[h].token.value !in tokens;
        tokens, todo := tokens + [rows[h].token.value], todo - {h};
      }
    }

    /** Afterwards no token with this hash is on file for anybody; every other row stays. */
    method DeleteByTokenHash(h: Hash) returns (deleted: bool)
      modifies this
      ensures h !in rows && deleted == (h in old(rows))
      ensures forall k :: k != h ==> (k in rows <==> k in old(rows))
      ensures forall k :: k in rows ==> k in old(rows) && rows[k] == old(rows)[k]
    {
      deleted := h in rows;
      rows := rows - {h};
    }
  }

  // ------------------------------------------------------------- the service ---

  /** How the outside world behaves during one delivery. */
  datatype World = World(
    lookupFails: bool,
    now: int,
    exchange: Option<(string, int)>,
    answer: Token -> Reply,
    pruneFails: set<Token>)

  datatype Result = Result(sent: bool, deliveredTo: seq<UserId>)

  function Replies(tokens: seq<Token>, answer: Token -> Reply): (r: seq<Reply>)
    ensures |r| == |tokens| && forall i :: 0 <= i < |tokens| ==> r[i] == answer(tokens[i])
  {
    seq(|tokens|, i requires 0 <= i < |tokens| => answer(tokens[i]))
  }

  /** The row's token goes out in this delivery and gets this verdict. */
  ghost predicate Gets(row: Row, users: seq<UserId>, w: World, v: Verdict) {
    Sendable(row, users) && !w.lookupFails && Classified(w.answer(row.token.value)) == v
  }

  /** Deleting by the hashes of the invalid tokens deletes exactly the rows that hold them. */
  lemma PruningIsExact(rows: Rows, users: seq<UserId>, hash: Token -> Hash, tokens: seq<Token>, w: World, h: Hash)
    requires Injective(hash) && Filed(rows, hash) && OnFile(rows, users, hash, tokens) && !w.lookupFails && h in rows
    ensures (exists t :: t in Chosen(tokens, Replies(tokens, w.answer), Invalid) && t !in w.pruneFails && hash(t) == h)
       <==> Gets(rows[h], users, w, Invalid) && rows[h].token.value !in w.pruneFails
  {
    var invalid := Chosen(tokens, Replies(tokens, w.answer), Invalid);
    forall t
      ensures t in invalid <==> t in tokens && Classified(w.answer(t)) == Invalid
    {
      ChosenIff(tokens, Replies(tokens, w.answer), |tokens|, Invalid, t);
    }
    if Gets(rows[h], users, w, Invalid) {
      assert hash(rows[h].token.value) == h && rows[h].token.value in tokens;
    }
  }

  lemma RaisingIff(rows: Rows, users: seq<UserId>, hash: Token -> Hash, tokens: seq<Token>, w: World)
    requires Injective(hash) && Filed(rows, hash) && OnFile(rows, users, hash, tokens) && !w.lookupFails
    ensures NoneRaises(Replies(tokens, w.answer)) <==> !exists h :: h in rows && Gets(rows[h], users, w, Raises)
  {
    if h :| h in rows && Gets(rows[h], users, w, Raises) {
      assert rows[h].token.value in tokens;
      var i :| 0 <= i < |tokens| && tokens[i] == rows[h].token.value;
      assert Classified(Replies(tokens, w.answer)[i]) == Raises;
    }
    if i :| 0 <= i < |tokens| && Classified(Replies(tokens, w.answer)[i]) == Raises {
      assert tokens[i] in tokens && Gets(rows[hash(tokens[i])], users, w, Raises);
    }
  }

  class NotificationService {
    const provider: FcmProvider
    const pushTokens: PushTokensRepository
    const guardians: GuardianConsent.GuardiansRepository

    constructor (provider: FcmProvider, pushTokens: PushTokensRepository,
                 guardians: GuardianConsent.GuardiansRepository)
      ensures this.provider == provider && this.pushTokens == pushTokens && this.guardians == guardians
    {
      this.provider, this.pushTokens, this.guardians := provider, pushTokens, guardians;
    }

    /** The owner first, then each accepted guardian once: exactly those who may read the owner's data. */
    method Audience(protected: UserId, lookupFails: bool) returns (audience: seq<UserId>)
      ensures audience != [] && audience[0] == protected
      ensures forall i, j :: 0 <= i < j < |audience| ==> audience[i] != audience[j]
      ensures lookupFails ==> audience == [protected]
      ensures !lookupFails ==> forall u ::
                u in audience <==> GuardianConsent.CanRead(GuardianConsent.Store(map[], guardians.rows), u, protected)
    {
      audience := [protected];
      if lookupFails {
        return;
      }
      var ids := guardians.AcceptedGuardianUserIds(protected);
      for i := 0 to |ids|
        invariant audience != [] && audience[0] == protected
        invariant forall j, k :: 0 <= j < k < |audience| ==> audience[j] != audience[k]
        invariant forall u :: u in audience <==> u == protected || u in ids[..i]
      {
        if ids[i] !in audience {
          audience := audience + [ids[i]];
        }
      }
      assert ids[..|ids|] == ids;
    }

    /** Afterwards exactly the rows whose token went out and was held dead are gone, apart from those
    whose deletion failed; if the provider raised, or could not authenticate, all rows are kept. */
    method Deliver(audience: seq<UserId>, w: World, hash: Token -> Hash) returns (result: Result)
      requires Injective(hash) && Filed(pushTokens.rows, hash)
      modifies provider, pushTokens
      ensures Filed(pushTokens.rows, hash)
      ensures result.sent <==> !(old(provider.Authorized(w.now, w.exchange))
                                 && exists h :: h in old(pushTokens.rows)
                                                && Gets(old(pushTokens.rows)[h], audience, w, Raises))
      ensures result.deliveredTo == if result.sent then audience else []
      ensures forall h :: h in pushTokens.rows <==>
                h in old(pushTokens.rows)
                && !(result.sent && old(provider.Authorized(w.now, w.exchange))
                     && Gets(old(pushTokens.rows)[h], audience, w, Invalid)
                     && old(pushTokens.rows)[h].token.value !in w.pruneFails)
      ensures forall h :: h in pushTokens.rows ==> pushTokens.rows[h] == old(pushTokens.rows)[h]
    {
      if w.lookupFails {
        var _ := provider.SendToTokens([], w.now, w.exchange, []);
        return Result(true, audience);
      }
      var tokens := pushTokens.TokensForUsers(audience, hash);
      ghost var rows := pushTokens.rows;
      ghost var authorized := provider.Authorized(w.now, w.exchange);
      RaisingIff(rows, audience, hash, tokens, w);
      var report := provider.SendToTokens(tokens, w.now, w.exchange, Replies(tokens, w.answer));
      if report.None? {
        return Result(false, []);
      }
      Prune(report.value.invalid, w.pruneFails, hash);
      forall h | h in rows
        ensures h in pushTokens.rows <==>
                  !(authorized && Gets(rows[h], audience, w, Invalid) && rows[h].token.value !in w.pruneFails)
      {
        PruningIsExact(rows, audience, hash, tokens, w, h);
        if tokens == [] || !authorized {
          assert report.value.invalid == [];
        }
      }
      return Result(true, audience);
    }

    method Prune(invalid: seq<Token>, pruneFails: set<Token>, hashOf: Token -> Hash)
      modifies pushTokens
      ensures pushTokens.rows == old(pushTokens.rows) - (set t | t in invalid && t !in pruneFails :: hashOf(t))
    {
      for i := 0 to |invalid|
        invariant pushTokens.rows == old(pushTokens.rows) - (set t | t in invalid[..i] && t !in pruneFails :: hashOf(t))
      {
        assert invalid[..i + 1] == invalid[..i] + [invalid[i]];
        if invalid[i] !in pruneFails {
          var _ := pushTokens.DeleteByTokenHash(hashOf(invalid[i]));
        }
      }
      assert invalid[..|invalid|] == invalid;
    }
  }
}
