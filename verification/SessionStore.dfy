/** The client's refresh token (client/src/services/session.ts): a module variable in front of a secure
store, each of whose accesses may fail.

What a load yields is determined for every run of saves, loads, clears and restarts of the app. */
module SessionStore {
  import opened Prelude
  import opened Sequences

  type RefreshToken = string

  /** The token in memory, and the one in the secure store. */
  datatype Stored = Stored(memory: Option<RefreshToken>, disk: Option<RefreshToken>)

  /** The token that a load yields when the secure store can be read. */
  function Current(s: Stored): Option<RefreshToken> {
    if s.memory.Some? then s.memory else s.disk
  }

  function Saved(s: Stored, j: RefreshToken, diskWorks: bool): Stored {
    Stored(Some(j), if diskWorks then Some(j) else s.disk)
  }

  function Loaded(s: Stored, diskWorks: bool): Option<RefreshToken> {
    if s.memory.Some? then s.memory else if diskWorks then s.disk else None
  }

  function AfterLoad(s: Stored, diskWorks: bool): Stored {
    s.(memory := Loaded(s, diskWorks))
  }

  function Cleared(s: Stored, diskWorks: bool): Stored {
    Stored(None, if diskWorks then None else s.disk)
  }

  /** session.ts: module variable and secure store; each access to the store may fail, which is only logged. */
  class Session {
    var memory: Option<RefreshToken>
    var disk: Option<RefreshToken>

    constructor (disk: Option<RefreshToken>)
      ensures Value() == Stored(None, disk)
    {
      this.memory, this.disk := None, disk;
    }

    function Value(): Stored
      reads this
    {
      Stored(memory, disk)
    }

    method SaveRefreshToken(j: RefreshToken, diskWorks: bool)
      modifies this
      ensures Value() == Saved(old(Value()), j, diskWorks)
    {
      memory := Some(j);
      if diskWorks {
        disk := Some(j);
      }
    }

    method LoadRefreshToken(diskWorks: bool) returns (token: Option<RefreshToken>)
      modifies this
      ensures token == Loaded(old(Value()), diskWorks) && Value() == AfterLoad(old(Value()), diskWorks)
    {
      if memory.Some? {
        return memory;
      }
      if !diskWorks {
        return None;
      }
      if disk.Some? {
        memory := disk;
      }
      return disk;
    }

    method ClearSession(diskWorks: bool)
      modifies this
      ensures Value() == Cleared(old(Value()), diskWorks)
    {
      memory := None;
      if diskWorks {
        disk := None;
      }
    }
  }

  // ------------------------------------------------------------------- runs ---

  /** `works`: the access to the secure store succeeds.  A restart empties the memory. */
  datatype Op = Save(j: RefreshToken, works: bool) | Load(works: bool) | Clear(works: bool) | Restart

  function Do(s: Stored, op: Op): Stored {
    match op
    case Save(j, works) => Saved(s, j, works)
    case Load(works) => AfterLoad(s, works)
    case Clear(works) => Cleared(s, works)
    case Restart => s.(memory := None)
  }

  function DoAll(s: Stored, ops: seq<Op>): Stored {
    if ops == [] then s else Do(DoAll(s, ops[..|ops| - 1]), ops[|ops| - 1])
  }

  /** What the last save or clear that reached the secure store left there. */
  function OnDisk(disk: Option<RefreshToken>, ops: seq<Op>): Option<RefreshToken> {
    if ops == [] then disk
    else
      match ops[|ops| - 1]
      case Save(j, true) => Some(j)
      case Clear(true) => None
      case _ => OnDisk(disk, ops[..|ops| - 1])
  }

  /** The last token saved, unless the session was cleared or the app restarted since. */
  function SavedInApp(ops: seq<Op>): Option<RefreshToken> {
    if ops == [] then None
    else
      match ops[|ops| - 1]
      case Save(j, _) => Some(j)
      case Load(_) => SavedInApp(ops[..|ops| - 1])
      case _ => None
  }

  /** Some load has read the secure store since the last save, clear or restart. */
  predicate ReadSince(ops: seq<Op>) {
    ops != []
    && match ops[|ops| - 1]
       case Load(works) => works || ReadSince(ops[..|ops| - 1])
       case _ => false
  }

  lemma {:induction false} StateAfter(disk: Option<RefreshToken>, ops: seq<Op>)
    ensures var s := DoAll(Stored(None, disk), ops);
            && s.disk == OnDisk(disk, ops)
            && s.memory == if SavedInApp(ops).Some? then SavedInApp(ops)
                           else if ReadSince(ops) then OnDisk(disk, ops) else None
  {
    if ops != [] { StateAfter(disk, ops[..|ops| - 1]); }
  }

  /** What a load yields after any run: the token saved in this app run if there is one, otherwise what
  is on disk, if the store can be read now or was read before. */
  lemma LoadYields(disk: Option<RefreshToken>, ops: seq<Op>, works: bool)
    ensures Loaded(DoAll(Stored(None, disk), ops), works)
         == if SavedInApp(ops).Some? then SavedInApp(ops)
            else if works || ReadSince(ops) then OnDisk(disk, ops) else None
  {
    StateAfter(disk, ops);
  }

  // --------------------------------------------- how long a saved token lasts ---

  predicate OnlyLoadsAndRestarts(ops: seq<Op>) {
    forall i :: 0 <= i < |ops| ==> ops[i].Load? || ops[i].Restart?
  }

  predicate NoSave(ops: seq<Op>) {
    forall i :: 0 <= i < |ops| ==> !ops[i].Save?
  }

  /** Loads and restarts leave the disk alone, and a restart is what makes the app forget. */
  lemma {:induction false} Afterwards(disk: Option<RefreshToken>, ops: seq<Op>, post: seq<Op>)
    requires OnlyLoadsAndRestarts(post) && ops != [] && ops[|ops| - 1].Save?
    ensures OnDisk(disk, ops + post) == OnDisk(disk, ops)
    ensures SavedInApp(ops + post) == if Restart in post then None else SavedInApp(ops)
    ensures ReadSince(ops + post) == ReadSince(post)
    decreases |post|
  {
    if post == [] {
      assert ops + post == ops;
    } else {
      var init := post[..|post| - 1];
      assert (ops + post)[..|ops + post| - 1] == ops + init;
      assert post == init + [post[|post| - 1]];
      Afterwards(disk, ops, init);
    }
  }

  /** A saved token, not on disk before, is what later loads yield as long as neither a save nor a clear
  follows: with a readable store exactly if it reached the store or the app was not restarted, and
  without one exactly if the app was not restarted or has read the token back.  After a failed save
  and a restart it is the token that was on disk before that comes back. */
  lemma SavedTokenIsLoadedIff(disk: Option<RefreshToken>, pre: seq<Op>, j: RefreshToken, saves: bool, post: seq<Op>)
    requires OnlyLoadsAndRestarts(post) && OnDisk(disk, pre) != Some(j)
    ensures var s := DoAll(Stored(None, disk), pre + [Save(j, saves)] + post);
            && (Loaded(s, true) == Some(j) <==> saves || Restart !in post)
            && (Loaded(s, false) == Some(j) <==> Restart !in post || (saves && ReadSince(post)))
            && (!saves && Restart in post ==> Loaded(s, true) == OnDisk(disk, pre))
  {
    var ops := pre + [Save(j, saves)];
    assert ops[..|ops| - 1] == pre && ops[|ops| - 1] == Save(j, saves);
    Afterwards(disk, ops, post);
    LoadYields(disk, ops + post, true);
    LoadYields(disk, ops + post, false);
  }

  lemma {:induction false} StaysEmpty(disk: Option<RefreshToken>, ops: seq<Op>, post: seq<Op>)
    requires NoSave(post) && OnDisk(disk, ops) == None && SavedInApp(ops) == None
    ensures OnDisk(disk, ops + post) == None && SavedInApp(ops + post) == None
    decreases |post|
  {
    if post == [] {
      assert ops + post == ops;
    } else {
      assert (ops + post)[..|ops + post| - 1] == ops + post[..|post| - 1];
      StaysEmpty(disk, ops, post[..|post| - 1]);
    }
  }

  /** No later load of any run without a save yields a token exactly if the clearing reached the secure
  store or there was nothing to clear in it. */
  lemma ClearingLastsIff(disk: Option<RefreshToken>, pre: seq<Op>, clears: bool)
    ensures (forall post, works | NoSave(post) ::
               Loaded(DoAll(Stored(None, disk), pre + [Clear(clears)] + post), works) == None)
       <==> clears || OnDisk(disk, pre) == None
  {
    var ops := pre + [Clear(clears)];
    assert ops[..|ops| - 1] == pre && ops[|ops| - 1] == Clear(clears);
    if clears || OnDisk(disk, pre) == None {
      forall post, works | NoSave(post)
        ensures Loaded(DoAll(Stored(None, disk), ops + post), works) == None
      {
        StaysEmpty(disk, ops, post);
        LoadYields(disk, ops + post, works);
      }
    } else {
      assert ops + [] == ops;
      LoadYields(disk, ops + [], true);
      assert NoSave([]);
    }
  }
}
