/** The migration runner (server/app/db/migrate.py): one run as a method, and any number of runs that
interleave and may die between transactions.

A schema is a value of any type; executing a file's SQL either fails or gives the next schema.  The
files are those of the directory in their sorted order. */
module Migrations {
  import opened Prelude

  type Version = string

  datatype File = File(version: Version, sql: string)

  type Sql<!S> = (S, string) -> Option<S>

  /** The table of applied versions may not exist yet. */
  datatype Database<S> = Database(schema: S, table: Option<set<Version>>)

  function Recorded<S>(db: Database<S>): set<Version> {
    if db.table.Some? then db.table.value else {}
  }

  /** `ensure_migrations_table`. */
  function Ensured<S>(db: Database<S>): Database<S> {
    db.(table := Some(Recorded(db)))
  }

  /** One file's transaction: nothing, if its SQL or the insertion of its version fails. */
  function Transaction<S>(exec: Sql<S>, db: Database<S>, f: File): Option<Database<S>> {
    var next := exec(db.schema, f.sql);
    if next.None? || f.version in Recorded(db) then None
    else Some(Database(next.value, Some(Recorded(db) + {f.version})))
  }

  predicate Distinct(files: seq<File>) {
    forall i, j :: 0 <= i < j < |files| ==> files[i].version != files[j].version
  }

  function Versions(files: seq<File>): (r: seq<Version>)
    ensures |r| == |files| && forall i :: 0 <= i < |r| ==> r[i] == files[i].version
  {
    seq(|files|, i requires 0 <= i < |files| => files[i].version)
  }

  function VersionSet(files: seq<File>): set<Version> {
    set i | 0 <= i < |files| :: files[i].version
  }

  /** All files in order, from a given schema. */
  function Fold<S>(exec: Sql<S>, schema: S, files: seq<File>): Option<S> {
    if files == [] then Some(schema)
    else
      match Fold(exec, schema, files[..|files| - 1])
      case None => None
      case Some(s) => exec(s, files[|files| - 1].sql)
  }

  /** The files whose versions are not in `done`, in order. */
  function Missing(files: seq<File>, done: set<Version>): seq<File> {
    if files == [] then []
    else
      var f := files[|files| - 1];
      if f.version in done then Missing(files[..|files| - 1], done) else Missing(files[..|files| - 1], done) + [f]
  }

  // ------------------------------------------------------------------ one run ---

  datatype Outcome<S> = Outcome(db: Database<S>, applied: seq<Version>, failed: bool)

  /** A run over the files that found the versions `done`; it stops at the first failure. */
  function Through<S>(exec: Sql<S>, db: Database<S>, done: set<Version>, files: seq<File>): Outcome<S> {
    if files == [] then Outcome(db, [], false)
    else
      var o, f := Through(exec, db, done, files[..|files| - 1]), files[|files| - 1];
      if o.failed || f.version in done then o
      else
        match Transaction(exec, o.db, f)
        case None => o.(failed := true)
        case Some(db') => Outcome(db', o.applied + [f.version], false)
  }

  function Ran<S>(exec: Sql<S>, db: Database<S>, files: seq<File>): Outcome<S> {
    if files == [] then Outcome(db, [], false) else Through(exec, Ensured(db), Recorded(db), files)
  }

  class Connection<S(!new)> {
    const exec: Sql<S>
    var schema: S
    var table: Option<set<Version>>

    constructor (exec: Sql<S>, schema: S)
      ensures this.exec == exec && Value() == Database(schema, None)
    {
      this.exec, this.schema, this.table := exec, schema, None;
    }

    function Value(): Database<S>
      reads this
    {
      Database(schema, table)
    }

    method RunMigrations(files: seq<File>) returns (applied: seq<Version>, failed: bool)
      modifies this
      ensures Outcome(Value(), applied, failed) == Ran(exec, old(Value()), files)
      ensures files == [] ==> Value() == old(Value()) && applied == [] && !failed
      ensures files != [] && Distinct(files) ==>
                AppliesUpToFailure(exec, old(Value()), Missing(files, Recorded(old(Value()))),
                                   Outcome(Value(), applied, failed))
    {
      RunAppliesMissing(exec, Value(), files);
      applied, failed := [], false;
      if files == [] {
        return;
      }
      if table.None? {
        table := Some({});
      }
      var done := table.value;
      ghost var start := Value();
      for i := 0 to |files|
        invariant !failed && table.Some?
        invariant Outcome(Value(), applied, failed) == Through(exec, start, done, files[..i])
      {
        assert files[..i + 1][..i] == files[..i] && files[..i + 1][i] == files[i];
        if files[i].version !in done {
          failed := Apply(files[i]);
          if failed {
            FailureLasts(exec, start, done, files, i + 1);
            return;
          }
          applied := applied + [files[i].version];
        }
      }
      assert files[..|files|] == files;
    }

    /** One transaction: both statements, or neither. */
    method Apply(f: File) returns (failed: bool)
      requires table.Some?
      modifies this
      ensures failed == Transaction(exec, old(Value()), f).None?
      ensures Value() == if failed then old(Value()) else Transaction(exec, old(Value()), f).value
    {
      var next := exec(schema, f.sql);
      if next.None? || f.version in table.value {
        return true;
      }
      schema, table := next.value, Some(table.value + {f.version});
      return false;
    }
  }

  lemma {:induction false} FailureLasts<S>(exec: Sql<S>, db: Database<S>, done: set<Version>, files: seq<File>, n: nat)
    requires n <= |files| && Through(exec, db, done, files[..n]).failed
    ensures Through(exec, db, done, files) == Through(exec, db, done, files[..n])
    decreases |files| - n
  {
    if n < |files| {
      assert files[..n + 1][..n] == files[..n];
      FailureLasts(exec, db, done, files, n + 1);
    } else {
      assert files[..n] == files;
    }
  }

  lemma VersionSetSnoc(files: seq<File>)
    requires files != []
    ensures VersionSet(files) == VersionSet(files[..|files| - 1]) + {files[|files| - 1].version}
  {
    var init := files[..|files| - 1];
    forall v | v in VersionSet(files)
      ensures v in VersionSet(init) + {files[|files| - 1].version}
    {
      var i :| 0 <= i < |files| && files[i].version == v;
      assert i < |init| ==> init[i].version == v;
    }
    forall v | v in VersionSet(init)
      ensures v in VersionSet(files)
    {
      var i :| 0 <= i < |init| && init[i].version == v;
      assert files[i].version == v;
    }
  }

  lemma DistinctSnoc(files: seq<File>)
    requires files != [] && Distinct(files)
    ensures Distinct(files[..|files| - 1]) && files[|files| - 1].version !in VersionSet(files[..|files| - 1])
  {}

  /** The outcome of applying the missing files in order up to the first that fails. */
  ghost predicate AppliesUpToFailure<S>(exec: Sql<S>, db: Database<S>, missing: seq<File>, o: Outcome<S>) {
    && |o.applied| <= |missing|
    && var now := missing[..|o.applied|];
    && o.applied == Versions(now)
    && Fold(exec, db.schema, now) == Some(o.db.schema)
    && o.db.table == Some(Recorded(db) + VersionSet(now))
    && (o.failed <==> |o.applied| < |missing|)
    && (o.failed ==> exec(o.db.schema, missing[|o.applied|].sql) == None)
  }

  lemma OneMoreAfterFailure<S>(exec: Sql<S>, db: Database<S>, missing: seq<File>, o: Outcome<S>, f: File)
    requires AppliesUpToFailure(exec, db, missing, o) && o.failed
    ensures AppliesUpToFailure(exec, db, missing + [f], o)
  {
    assert (missing + [f])[..|o.applied|] == missing[..|o.applied|];
  }

  lemma OneMoreFails<S>(exec: Sql<S>, db: Database<S>, missing: seq<File>, o: Outcome<S>, f: File)
    requires AppliesUpToFailure(exec, db, missing, o) && !o.failed && exec(o.db.schema, f.sql) == None
    ensures AppliesUpToFailure(exec, db, missing + [f], o.(failed := true))
  {
    assert (missing + [f])[..|missing|] == missing == missing[..|missing|];
  }

  lemma OneMoreCommits<S>(exec: Sql<S>, db: Database<S>, missing: seq<File>, o: Outcome<S>, f: File)
    requires AppliesUpToFailure(exec, db, missing, o) && !o.failed && Transaction(exec, o.db, f).Some?
    ensures AppliesUpToFailure(exec, db, missing + [f],
                               Outcome(Transaction(exec, o.db, f).value, o.applied + [f.version], false))
  {
    var longer := missing + [f];
    assert longer[..|longer| - 1] == missing && missing[..|missing|] == missing && longer[..|longer|] == longer;
    VersionSetSnoc(longer);
    assert Versions(longer) == Versions(missing) + [f.version];
    assert Recorded(db) + VersionSet(longer) == (Recorded(db) + VersionSet(missing)) + {f.version};
    assert Fold(exec, db.schema, longer) == exec(o.db.schema, f.sql);
  }

  /** What a run does: it applies the missing files in order up to the first whose SQL fails. */
  lemma {:induction false} ThroughAppliesMissing<S>(exec: Sql<S>, db: Database<S>, files: seq<File>)
    requires Distinct(files) && db.table.Some?
    ensures AppliesUpToFailure(exec, db, Missing(files, Recorded(db)), Through(exec, db, Recorded(db), files))
  {
    if files == [] {
      assert Recorded(db) + VersionSet([]) == Recorded(db);
    } else {
      var init, f := files[..|files| - 1], files[|files| - 1];
      ThroughAppliesMissing(exec, db, init);
      var o, missing := Through(exec, db, Recorded(db), init), Missing(init, Recorded(db));
      if f.version !in Recorded(db) {
        if o.failed {
          OneMoreAfterFailure(exec, db, missing, o, f);
        } else if Transaction(exec, o.db, f).Some? {
          OneMoreCommits(exec, db, missing, o, f);
        } else {
          NewVersionIsUnrecorded(db, files, o.db);
          OneMoreFails(exec, db, missing, o, f);
        }
      }
    }
  }

  lemma RunAppliesMissing<S>(exec: Sql<S>, db: Database<S>, files: seq<File>)
    ensures files != [] && Distinct(files) ==>
              AppliesUpToFailure(exec, db, Missing(files, Recorded(db)), Ran(exec, db, files))
  {
    if files != [] && Distinct(files) { ThroughAppliesMissing(exec, Ensured(db), files); }
  }

  lemma NewVersionIsUnrecorded<S>(db: Database<S>, files: seq<File>, db': Database<S>)
    requires files != [] && Distinct(files) && files[|files| - 1].version !in Recorded(db)
    requires var missing := Missing(files[..|files| - 1], Recorded(db));
             Recorded(db') == Recorded(db) + VersionSet(missing[..|missing|])
    ensures files[|files| - 1].version !in Recorded(db')
  {
    DistinctSnoc(files);
    MissingWithin(files[..|files| - 1], Recorded(db));
  }

  lemma {:induction false} MissingWithin(files: seq<File>, done: set<Version>)
    ensures forall i :: 0 <= i < |Missing(files, done)| ==>
              Missing(files, done)[i].version !in done && Missing(files, done)[i].version in VersionSet(files)
    ensures VersionSet(files) <= done + VersionSet(Missing(files, done))
  {
    if files != [] {
      MissingWithin(files[..|files| - 1], done);
      VersionSetSnoc(files);
      if files[|files| - 1].version !in done {
        var m := Missing(files[..|files| - 1], done);
        VersionSetSnoc(m + [files[|files| - 1]]);
        assert (m + [files[|files| - 1]])[..|m|] == m;
      }
    }
  }

  /** The runner is idempotent: a run that succeeds leaves nothing for the next one to do. */
  lemma SecondRunDoesNothing<S>(exec: Sql<S>, db: Database<S>, files: seq<File>)
    requires Distinct(files) && !Ran(exec, db, files).failed
    ensures Ran(exec, Ran(exec, db, files).db, files) == Outcome(Ran(exec, db, files).db, [], false)
  {
    if files != [] {
      var o, missing := Ran(exec, db, files), Missing(files, Recorded(db));
      ThroughAppliesMissing(exec, Ensured(db), files);
      MissingWithin(files, Recorded(db));
      assert missing[..|missing|] == missing;
      AllDone(exec, o.db, files);
    }
  }

  lemma {:induction false} AllDone<S>(exec: Sql<S>, db: Database<S>, files: seq<File>)
    requires VersionSet(files) <= Recorded(db)
    ensures Through(exec, db, Recorded(db), files) == Outcome(db, [], false)
  {
    if files != [] {
      VersionSetSnoc(files);
      AllDone(exec, db, files[..|files| - 1]);
    }
  }

  // ---------------------------------------------------------- concurrent runs ---

  type Id = nat

  datatype Runner = Running(done: set<Version>, next: nat) | Finished | Dead

  /** `commits`: the versions in the order in which they were committed, by whichever runner. */
  datatype State<S> = State(db: Database<S>, runners: map<Id, Runner>, commits: seq<Version>)

  datatype Event = Begin(id: Id) | Advance(id: Id) | Crash(id: Id)

  function Set<S>(s: State<S>, id: Id, r: Runner): State<S> {
    s.(runners := s.runners[id := r])
  }

  /** A runner reads the applied versions once; then it skips a file or runs its transaction. */
  function Step<S>(exec: Sql<S>, files: seq<File>, s: State<S>, e: Event): State<S> {
    match e
    case Begin(id) =>
      if id in s.runners then s
      else if files == [] then Set(s, id, Finished)
      else Set(s.(db := Ensured(s.db)), id, Running(Recorded(s.db), 0))
    case Advance(id) =>
      if id !in s.runners || !s.runners[id].Running? then s
      else
        var done, next := s.runners[id].done, s.runners[id].next;
        if next >= |files| then Set(s, id, Finished)
        else if files[next].version in done then Set(s, id, Running(done, next + 1))
        else
          (match Transaction(exec, s.db, files[next])
           case None => Set(s, id, Dead)
           case Some(db) =>
             Set(s.(db := db, commits := s.commits + [files[next].version]), id, Running(done, next + 1)))
    case Crash(id) => if id in s.runners && s.runners[id].Running? then Set(s, id, Dead) else s
  }

  function Run<S>(exec: Sql<S>, files: seq<File>, s: State<S>, es: seq<Event>): State<S> {
    if es == [] then s else Step(exec, files, Run(exec, files, s, es[..|es| - 1]), es[|es| - 1])
  }

  /** A database on which the first k files have been run, and nobody is running. */
  ghost predicate Fresh<S>(s: State<S>, files: seq<File>, k: nat) {
    k <= |files| && Recorded(s.db) == VersionSet(files[..k]) && s.runners == map[] && s.commits == []
  }

  /** k files are in: those recorded, committed since the start and folded into the schema; no runner
  is ahead of them, and none has finished unless they are all. */
  ghost predicate Inv<S>(exec: Sql<S>, files: seq<File>, schema: S, from: nat, k: nat, s: State<S>) {
    && from <= k <= |files|
    && Recorded(s.db) == VersionSet(files[..k])
    && s.commits == Versions(files[from..k])
    && Fold(exec, schema, files[from..k]) == Some(s.db.schema)
    && forall id :: id in s.runners ==> RunnerInv(files, k, s.runners[id])
  }

  ghost predicate RunnerInv(files: seq<File>, k: nat, r: Runner) {
    k <= |files| &&
    match r
    case Running(done, next) => done <= VersionSet(files[..k]) && next <= k
    case Finished => k == |files|
    case Dead => true
  }

  lemma VersionSetGrows(files: seq<File>, k: nat)
    requires k < |files|
    ensures VersionSet(files[..k + 1]) == VersionSet(files[..k]) + {files[k].version}
  {
    VersionSetSnoc(files[..k + 1]);
    assert files[..k + 1][..k] == files[..k];
  }

  lemma RecordedIffBefore(files: seq<File>, k: nat, i: nat)
    requires Distinct(files) && k <= |files| && i < |files|
    ensures files[i].version in VersionSet(files[..k]) <==> i < k
  {
    if i < k { assert files[..k][i] == files[i]; }
  }

  lemma OneFileMore<S>(exec: Sql<S>, files: seq<File>, schema: S, from: nat, k: nat)
    requires from <= k < |files|
    ensures Versions(files[from..k + 1]) == Versions(files[from..k]) + [files[k].version]
    ensures Fold(exec, schema, files[from..k + 1])
         == match Fold(exec, schema, files[from..k]) case None => None case Some(s) => exec(s, files[k].sql)
  {
    var longer := files[from..k + 1];
    assert longer[..|longer| - 1] == files[from..k] && longer[|longer| - 1] == files[k];
  }

  /** The only file whose transaction can commit is the one after the recorded prefix. */
  lemma CommitIsNext<S>(exec: Sql<S>, files: seq<File>, schema: S, from: nat, k: nat, s: State<S>, id: Id)
    requires Distinct(files) && Inv(exec, files, schema, from, k, s)
    requires id in s.runners && s.runners[id].Running? && s.runners[id].next < |files|
    requires files[s.runners[id].next].version !in s.runners[id].done
    requires Transaction(exec, s.db, files[s.runners[id].next]).Some?
    ensures s.runners[id].next == k && Inv(exec, files, schema, from, k + 1, Step(exec, files, s, Advance(id)))
  {
    RecordedIffBefore(files, k, s.runners[id].next);
    VersionSetGrows(files, k);
    OneFileMore(exec, files, schema, from, k);
  }

  lemma StepKeepsInv<S>(exec: Sql<S>, files: seq<File>, schema: S, from: nat, k: nat, s: State<S>, e: Event)
      returns (k': nat)
    requires Distinct(files) && Inv(exec, files, schema, from, k, s)
    ensures k <= k' && Inv(exec, files, schema, from, k', Step(exec, files, s, e))
  {
    k' := k;
    if e.Advance? && e.id in s.runners && s.runners[e.id].Running? && s.runners[e.id].next < |files| {
      var next := s.runners[e.id].next;
      if files[next].version in s.runners[e.id].done {
        RecordedIffBefore(files, k, next);
      } else if Transaction(exec, s.db, files[next]).Some? {
        CommitIsNext(exec, files, schema, from, k, s, e.id);
        k' := k + 1;
      }
    }
  }

  lemma {:induction false} RunKeepsInv<S>(exec: Sql<S>, files: seq<File>, s: State<S>, from: nat, es: seq<Event>)
      returns (k: nat)
    requires Distinct(files) && Fresh(s, files, from)
    ensures Inv(exec, files, s.db.schema, from, k, Run(exec, files, s, es))
  {
    if es == [] {
      k := from;
      assert files[from..from] == [];
    } else {
      k := RunKeepsInv(exec, files, s, from, es[..|es| - 1]);
      k := StepKeepsInv(exec, files, s.db.schema, from, k, Run(exec, files, s, es[..|es| - 1]), es[|es| - 1]);
    }
  }

  /** Whatever runners interleave and wherever they die, the recorded versions are a prefix of the files,
  the commits are the files since the start, each once and in order, and the schema is their fold;
  once any runner has finished, that is all of them. */
  lemma MigrationsAreInOrder<S>(exec: Sql<S>, files: seq<File>, s: State<S>, from: nat, es: seq<Event>)
    requires Distinct(files) && Fresh(s, files, from)
    ensures var s' := Run(exec, files, s, es);
            var k := from + |s'.commits|;
            && k <= |files|
            && s'.commits == Versions(files[from..k])
            && Recorded(s'.db) == VersionSet(files[..k])
            && Fold(exec, s.db.schema, files[from..k]) == Some(s'.db.schema)
            && (forall id :: id in s'.runners && s'.runners[id] == Finished ==> k == |files|)
            && (forall i, j :: 0 <= i < j < |s'.commits| ==> s'.commits[i] != s'.commits[j])
  {
    var k := RunKeepsInv(exec, files, s, from, es);
  }

  /** The runner knows of every recorded file it has still to pass. */
  ghost predicate UpToDate(files: seq<File>, k: nat, r: Runner) {
    r.Running? && r.next <= k <= |files| && forall i: nat :: r.next <= i < k ==> files[i].version in r.done
  }

  ghost predicate AllBy(es: seq<Event>, id: Id) {
    forall i :: 0 <= i < |es| ==> es[i].id == id
  }

  /** If the files' SQL succeeds in their order, then after any such run, whoever died in it, a new runner
  that is left alone finishes. */
  lemma {:induction false} LoneRunnerFinishes<S>(exec: Sql<S>, files: seq<File>, s: State<S>, from: nat,
                                                 es: seq<Event>, id: Id)
    requires Distinct(files) && Fresh(s, files, from) && files != []
    requires id !in Run(exec, files, s, es).runners
    requires Fold(exec, s.db.schema, files[from..]).Some?
    ensures exists more: seq<Event> :: |more| <= |files| + 2 && AllBy(more, id)
              && Finishes(exec, files, Run(exec, files, s, es), more, id)
  {
    var k := RunKeepsInv(exec, files, s, from, es);
    var s1 := Run(exec, files, s, es);
    var s2 := Step(exec, files, s1, Begin(id));
    BeginKeepsInv(exec, files, s.db.schema, from, k, s1, id);
    var more := AdvanceToEnd(exec, files, s.db.schema, from, k, s2, id);
    RunCons(exec, files, s1, Begin(id), more);
    ByOneMore(more, Begin(id), id);
    assert Finishes(exec, files, s1, [Begin(id)] + more, id);
  }

  lemma ByOneMore(es: seq<Event>, e: Event, id: Id)
    requires AllBy(es, id) && e.id == id
    ensures AllBy([e] + es, id)
  {}

  /** A runner that begins knows of every recorded file. */
  lemma BeginKeepsInv<S>(exec: Sql<S>, files: seq<File>, schema: S, from: nat, k: nat, s: State<S>, id: Id)
    requires Inv(exec, files, schema, from, k, s) && files != [] && id !in s.runners
    ensures var s' := Step(exec, files, s, Begin(id));
            && Inv(exec, files, schema, from, k, s') && id in s'.runners
            && s'.runners[id] == Running(Recorded(s.db), 0) && UpToDate(files, k, s'.runners[id])
  {
    forall i: nat | i < k
      ensures files[i].version in VersionSet(files[..k])
    {
      assert files[..k][i] == files[i];
    }
  }

  ghost predicate Finishes<S>(exec: Sql<S>, files: seq<File>, s: State<S>, es: seq<Event>, id: Id) {
    id in Run(exec, files, s, es).runners && Run(exec, files, s, es).runners[id] == Finished
  }

  lemma {:induction false} RunCons<S>(exec: Sql<S>, files: seq<File>, s: State<S>, e: Event, es: seq<Event>)
    ensures Run(exec, files, s, [e] + es) == Run(exec, files, Step(exec, files, s, e), es)
  {
    if es == [] {
      assert ([e] + es)[..0] == [] && Run(exec, files, s, []) == s;
    } else {
      assert ([e] + es)[..|es|] == [e] + es[..|es| - 1];
      RunCons(exec, files, s, e, es[..|es| - 1]);
    }
  }

  lemma {:induction false} FoldPrefix<S>(exec: Sql<S>, schema: S, files: seq<File>, n: nat)
    requires n <= |files| && Fold(exec, schema, files).Some?
    ensures Fold(exec, schema, files[..n]).Some?
    decreases |files|
  {
    if n == |files| {
      assert files[..n] == files;
    } else {
      assert files[..|files| - 1][..n] == files[..n];
      FoldPrefix(exec, schema, files[..|files| - 1], n);
    }
  }

  lemma {:induction false} AdvanceToEnd<S>(exec: Sql<S>, files: seq<File>, schema: S, from: nat, k: nat, s: State<S>,
                                           id: Id)
      returns (more: seq<Event>)
    requires Distinct(files) && Inv(exec, files, schema, from, k, s) && Fold(exec, schema, files[from..]).Some?
    requires id in s.runners && s.runners[id].Running? && UpToDate(files, k, s.runners[id])
    ensures |more| == |files| - s.runners[id].next + 1 && AllBy(more, id)
    ensures Finishes(exec, files, s, more, id)
    decreases |files| - s.runners[id].next
  {
    var s' := Step(exec, files, s, Advance(id));
    var next := s.runners[id].next;
    if next == |files| {
      more := [Advance(id)];
      RunCons(exec, files, s, Advance(id), []);
      assert [Advance(id)] + [] == [Advance(id)];
    } else {
      var k' := StepKeepsInv(exec, files, schema, from, k, s, Advance(id));
      UpToDateAdvances(exec, files, schema, from, k, s, id);
      more := AdvanceToEnd(exec, files, schema, from, if next < k then k else k + 1, s', id);
      RunCons(exec, files, s, Advance(id), more);
      more := [Advance(id)] + more;
    }
  }

  lemma UpToDateAdvances<S>(exec: Sql<S>, files: seq<File>, schema: S, from: nat, k: nat, s: State<S>, id: Id)
    requires Distinct(files) && Inv(exec, files, schema, from, k, s) && Fold(exec, schema, files[from..]).Some?
    requires id in s.runners && UpToDate(files, k, s.runners[id]) && s.runners[id].next < |files|
    ensures var s' := Step(exec, files, s, Advance(id));
            var k' := if s.runners[id].next < k then k else k + 1;
            && Inv(exec, files, schema, from, k', s') && UpToDate(files, k', s'.runners[id])
            && s'.runners[id].next == s.runners[id].next + 1
  {
    var next := s.runners[id].next;
    RecordedIffBefore(files, k, next);
    if next < k {
      var k' := StepKeepsInv(exec, files, schema, from, k, s, Advance(id));
    } else {
      FoldPrefix(exec, schema, files[from..], k + 1 - from);
      assert files[from..][..k + 1 - from] == files[from..k + 1];
      OneFileMore(exec, files, schema, from, k);
      CommitIsNext(exec, files, schema, from, k, s, id);
    }
  }
}
