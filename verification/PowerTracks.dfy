/** Widening of supply tracks with back-off (refine_power_tracks.py).

The design-rule checker is an oracle on the track widths.  The loop widens every
supply track to its target, and after each failed check takes 0.1 mm back from
the tracks that the findings name, never below the original width. */
module PowerTracks {
  import opened Prelude

  type Uuid = string
  type Widths = map<Uuid, int>  // nanometres, as pcbnew stores them

  const STEP := 100000          // 0.1 mm
  const ATTEMPTS := 10

  datatype Finding = Finding(items: set<Uuid>)

  /** The checker: what it reports for given widths, and the zones it refills and saves. */
  datatype Checker = Checker(findings: Widths -> seq<Finding>, refill: Widths -> string)

  /** The supply tracks of a board, each once, with the target width of its net. */
  datatype Supply = Supply(tracks: seq<Uuid>, target: map<Uuid, int>)

  ghost predicate ValidSupply(s: Supply, base: Widths) {
    && (forall i :: 0 <= i < |s.tracks| ==> s.tracks[i] in base && s.tracks[i] in s.target)
    && (forall i, j :: 0 <= i < j < |s.tracks| ==> s.tracks[i] != s.tracks[j])
  }

  function Max(a: int, b: int): int { if a > b then a else b }

  // -------------------------------------------------------- one pass, as values ---

  predicate Supplied(s: Supply, u: Uuid) {
    u in s.tracks && u in s.target
  }

  function Widened(s: Supply, base: Widths): Widths {
    map u | u in base :: if Supplied(s, u) then Max(base[u], s.target[u]) else base[u]
  }

  predicate Named(findings: seq<Finding>, u: Uuid) {
    exists i :: 0 <= i < |findings| && u in findings[i].items
  }

  predicate Wider(base: Widths, w: Widths, u: Uuid) {
    u in base && u in w && w[u] > base[u]
  }

  /** The widened tracks that the findings name or, when they name none, all widened tracks. */
  function Offending(s: Supply, base: Widths, w: Widths, findings: seq<Finding>): set<Uuid> {
    var named := set u | u in s.tracks && Wider(base, w, u) && Named(findings, u);
    if named != {} then named else set u | u in s.tracks && Wider(base, w, u)
  }

  function BackedOff(s: Supply, base: Widths, w: Widths, offending: set<Uuid>): Widths {
    map u | u in w :: if u in s.tracks && u in base && u in offending then Max(base[u], w[u] - STEP) else w[u]
  }

  /** The widths that the n-th check sees when all checks before it failed. */
  function WidthsAt(c: Checker, s: Supply, base: Widths, n: nat): (w: Widths)
    ensures w.Keys == base.Keys
  {
    if n == 0 then Widened(s, base)
    else
      var w := WidthsAt(c, s, base, n - 1);
      BackedOff(s, base, w, Offending(s, base, w, c.findings(w)))
  }

  // ---------------------------------------------------------- what every pass keeps ---

  ghost predicate Bounded(s: Supply, base: Widths, w: Widths) {
    && w.Keys == base.Keys
    && (forall u :: u in base && Supplied(s, u) ==> base[u] <= w[u] <= Max(base[u], s.target[u]))
    && (forall u :: u in base && !Supplied(s, u) ==> w[u] == base[u])
  }

  /** Every width stays between its original and the larger of original and target; others never move. */
  lemma {:induction false} WidthsStayBounded(c: Checker, s: Supply, base: Widths, n: nat)
    ensures Bounded(s, base, WidthsAt(c, s, base, n))
  {
    if n > 0 {
      WidthsStayBounded(c, s, base, n - 1);
      var w := WidthsAt(c, s, base, n - 1);
      PassStaysBounded(s, base, w, Offending(s, base, w, c.findings(w)));
    }
  }

  lemma PassStaysBounded(s: Supply, base: Widths, w: Widths, offending: set<Uuid>)
    requires Bounded(s, base, w)
    ensures Bounded(s, base, BackedOff(s, base, w, offending))
  {}

  /** With a checker that is clean at the baseline, a failed check always leaves something to narrow. */
  lemma SomethingOffends(c: Checker, s: Supply, base: Widths, w: Widths)
    requires Bounded(s, base, w) && c.findings(base) == [] && c.findings(w) != []
    ensures exists u :: u in Offending(s, base, w, c.findings(w))
  {
    assert w != base;
    var u :| u in base && w[u] != base[u];
    assert u in s.tracks && Wider(base, w, u);
    var all := set v | v in s.tracks && Wider(base, w, v);
    assert u in all;
    var off := Offending(s, base, w, c.findings(w));
    assert off != {};
  }

  // -------------------------------------------------------------- termination ---

  function Excess(tracks: seq<Uuid>, base: Widths, w: Widths): int
    requires forall i :: 0 <= i < |tracks| ==> tracks[i] in base && tracks[i] in w
  {
    if tracks == [] then 0 else w[tracks[0]] - base[tracks[0]] + Excess(tracks[1..], base, w)
  }

  function CeilSteps(excess: int): int { (excess + STEP - 1) / STEP }

  /** How many 0.1 mm steps the widened tracks are above their original widths, in all. */
  function Steps(tracks: seq<Uuid>, base: Widths, w: Widths): int
    requires forall i :: 0 <= i < |tracks| ==> tracks[i] in base && tracks[i] in w
  {
    if tracks == [] then 0 else CeilSteps(w[tracks[0]] - base[tracks[0]]) + Steps(tracks[1..], base, w)
  }

  lemma {:induction false} StepsNonNegative(tracks: seq<Uuid>, base: Widths, w: Widths)
    requires forall i :: 0 <= i < |tracks| ==> tracks[i] in base && tracks[i] in w && base[tracks[i]] <= w[tracks[i]]
    ensures Steps(tracks, base, w) >= 0
  {
    if tracks != [] { StepsNonNegative(tracks[1..], base, w); }
  }

  ghost predicate NarrowedBy(base: Widths, w: Widths, w': Widths, off: set<Uuid>, u: Uuid) {
    && u in base && u in w && u in w' && base[u] <= w[u]
    && (if u in off then w[u] > base[u] && w'[u] == Max(base[u], w[u] - STEP) else w'[u] == w[u])
  }

  lemma {:induction false} NarrowingLowers(tracks: seq<Uuid>, base: Widths, w: Widths, w': Widths, off: set<Uuid>)
    requires forall i :: 0 <= i < |tracks| ==> NarrowedBy(base, w, w', off, tracks[i])
    ensures forall i :: 0 <= i < |tracks| ==> tracks[i] in base && tracks[i] in w && tracks[i] in w'
    ensures Excess(tracks, base, w') <= Excess(tracks, base, w)
    ensures Steps(tracks, base, w') <= Steps(tracks, base, w)
    ensures (exists i :: 0 <= i < |tracks| && tracks[i] in off) ==>
              && Excess(tracks, base, w') < Excess(tracks, base, w)
              && Steps(tracks, base, w') <= Steps(tracks, base, w) - 1
  {
    assert forall i :: 0 <= i < |tracks| ==> NarrowedBy(base, w, w', off, tracks[i]);
    if tracks != [] {
      assert forall i :: 0 <= i < |tracks[1..]| ==> tracks[1..][i] == tracks[i + 1];
      NarrowingLowers(tracks[1..], base, w, w', off);
      assert NarrowedBy(base, w, w', off, tracks[0]);
      if i :| 0 <= i < |tracks| && tracks[i] in off {
        assert i > 0 ==> tracks[1..][i - 1] in off;
      }
    }
  }

  ghost predicate CleanAt(c: Checker, s: Supply, base: Widths, n: nat) {
    c.findings(WidthsAt(c, s, base, n)) == []
  }

  ghost function ExcessAt(c: Checker, s: Supply, base: Widths, n: nat): int
    requires ValidSupply(s, base)
  {
    Excess(s.tracks, base, WidthsAt(c, s, base, n))
  }

  ghost function StepsAt(c: Checker, s: Supply, base: Widths, n: nat): int
    requires ValidSupply(s, base)
  {
    Steps(s.tracks, base, WidthsAt(c, s, base, n))
  }

  lemma StepsAtNonNegative(c: Checker, s: Supply, base: Widths, n: nat)
    requires ValidSupply(s, base)
    ensures StepsAt(c, s, base, n) >= 0
  {
    WidthsStayBounded(c, s, base, n);
    StepsNonNegative(s.tracks, base, WidthsAt(c, s, base, n));
  }

  /** Each failed check strictly lowers the total excess, and by at least one step. */
  lemma FailedPassProgresses(c: Checker, s: Supply, base: Widths, n: nat)
    requires ValidSupply(s, base) && c.findings(base) == [] && !CleanAt(c, s, base, n)
    ensures ExcessAt(c, s, base, n + 1) < ExcessAt(c, s, base, n)
    ensures StepsAt(c, s, base, n + 1) <= StepsAt(c, s, base, n) - 1
  {
    var w := WidthsAt(c, s, base, n);
    WidthsStayBounded(c, s, base, n);
    SomethingOffends(c, s, base, w);
    PassNarrows(s, base, w, c.findings(w));
  }

  lemma PassNarrows(s: Supply, base: Widths, w: Widths, findings: seq<Finding>)
    requires ValidSupply(s, base) && Bounded(s, base, w)
    requires exists u :: u in Offending(s, base, w, findings)
    ensures var w' := BackedOff(s, base, w, Offending(s, base, w, findings));
            && Excess(s.tracks, base, w') < Excess(s.tracks, base, w)
            && Steps(s.tracks, base, w') <= Steps(s.tracks, base, w) - 1
  {
    var off := Offending(s, base, w, findings);
    var u :| u in off;
    var i :| 0 <= i < |s.tracks| && s.tracks[i] == u;
    NarrowingLowers(s.tracks, base, w, BackedOff(s, base, w, off), off);
  }

  /** A counter that falls at every failure and stays non-negative bounds the failures. */
  lemma {:induction false} FirstSuccess(good: nat -> bool, counter: nat -> int, n: nat) returns (k: nat)
    requires forall j: nat :: counter(j) >= 0
    requires forall j: nat :: !good(j) ==> counter(j + 1) <= counter(j) - 1
    ensures n <= k <= n + counter(n) && good(k)
    ensures forall j: nat :: n <= j < k ==> !good(j)
    decreases counter(n)
  {
    if good(n) {
      k := n;
    } else {
      k := FirstSuccess(good, counter, n + 1);
    }
  }

  /** Without the cap the loop ends: the first clean check comes within the total number of steps. */
  lemma UncappedLoopEnds(c: Checker, s: Supply, base: Widths) returns (k: nat)
    requires ValidSupply(s, base) && c.findings(base) == []
    ensures k <= StepsAt(c, s, base, 0) && CleanAt(c, s, base, k)
    ensures forall j: nat :: j < k ==> !CleanAt(c, s, base, j)
  {
    forall j: nat
      ensures StepsAt(c, s, base, j) >= 0
      ensures !CleanAt(c, s, base, j) ==> StepsAt(c, s, base, j + 1) <= StepsAt(c, s, base, j) - 1
    {
      StepsAtNonNegative(c, s, base, j);
      if !CleanAt(c, s, base, j) { FailedPassProgresses(c, s, base, j); }
    }
    var good: nat -> bool := (j: nat) => CleanAt(c, s, base, j);
    var counter: nat -> int := (j: nat) => StepsAt(c, s, base, j);
    k := FirstSuccess(good, counter, 0);
    assert good(k) && counter(0) == StepsAt(c, s, base, 0);
    forall j: nat | j < k
      ensures !CleanAt(c, s, base, j)
    {
      assert !good(j);
    }
  }

  // ---------------------------------------------------------------- the script ---

  datatype Error = FindingsFirst | CouldNotResolve | DidNotConverge | CheckerCrashed | BoardFailed

  /** What goes wrong in one turn of the loop: the checker, or loading or saving the board. */
  datatype Fault = NoFault | CheckFails | LoadFails | SaveFails

  /** How a turn ends: clean or not, or raising. */
  function Verdict(fault: Fault, clean: bool): Result<bool, Error> {
    if fault == CheckFails then Err(CheckerCrashed)
    else if clean then Ok(true)
    else if fault == NoFault then Ok(false)
    else Err(BoardFailed)
  }

  /** Check n of the loop reports something, and nothing goes wrong. */
  ghost predicate FailsAt(c: Checker, s: Supply, base: Widths, faults: nat -> Fault, n: nat) {
    !CleanAt(c, s, base, n) && faults(n) == NoFault
  }

  /** The first n checks of the loop report something, and nothing goes wrong. */
  ghost predicate AllFail(c: Checker, s: Supply, base: Widths, faults: nat -> Fault, n: nat) {
    n == 0 || (AllFail(c, s, base, faults, n - 1) && FailsAt(c, s, base, faults, n - 1))
  }

  lemma {:induction false} AllFailIff(c: Checker, s: Supply, base: Widths, faults: nat -> Fault, n: nat)
    ensures AllFail(c, s, base, faults, n) <==> forall j: nat :: j < n ==> FailsAt(c, s, base, faults, j)
  {
    if n > 0 { AllFailIff(c, s, base, faults, n - 1); }
  }

  /** n checks have failed, and these are the widths for the next. */
  ghost predicate Reached(c: Checker, s: Supply, base: Widths, faults: nat -> Fault, n: nat, w: Widths) {
    AllFail(c, s, base, faults, n) && w == WidthsAt(c, s, base, n)
  }

  // --------------------------------------------------- a width is its own history ---

  /** The track is wider than at first, and some finding names it, or no finding names any widened track. */
  ghost predicate Offends(s: Supply, base: Widths, w: Widths, findings: seq<Finding>, u: Uuid) {
    && u in s.tracks && Wider(base, w, u)
    && ((exists f :: f in findings && u in f.items)
        || !exists f, v :: f in findings && v in f.items && v in s.tracks && Wider(base, w, v))
  }

  lemma OffendingIff(s: Supply, base: Widths, w: Widths, findings: seq<Finding>)
    ensures forall u :: u in Offending(s, base, w, findings) <==> Offends(s, base, w, findings, u)
  {
    var named := set u | u in s.tracks && Wider(base, w, u) && Named(findings, u);
    forall u
      ensures Named(findings, u) <==> exists f :: f in findings && u in f.items
    {
      if Named(findings, u) {
        var i :| 0 <= i < |findings| && u in findings[i].items;
        assert findings[i] in findings;
      }
    }
    if named == {} {
      assert forall v :: v in s.tracks && Wider(base, w, v) ==> v !in named;
    } else {
      var v :| v in named;
      var f :| f in findings && v in f.items;
    }
  }

  /** In how many of these failed checks the track offended. */
  ghost function Offences(c: Checker, s: Supply, base: Widths, failed: seq<Widths>, u: Uuid): nat {
    if failed == [] then 0
    else
      var w := failed[|failed| - 1];
      Offences(c, s, base, failed[..|failed| - 1], u) + if Offends(s, base, w, c.findings(w), u) then 1 else 0
  }

  /** The width that a track has after these failed checks: the target less 0.1 mm for each of them
  that it offended in, or its original width if that is larger. */
  ghost function Earned(c: Checker, s: Supply, base: Widths, failed: seq<Widths>, u: Uuid): int
    requires ValidSupply(s, base) && u in base
  {
    if u !in s.tracks then base[u]
    else
      var left := s.target[u] - 100000 * Offences(c, s, base, failed, u);
      if left > base[u] then left else base[u]
  }

  /** The widths of the whole board are those that its tracks have earned. */
  ghost predicate AllEarned(c: Checker, s: Supply, base: Widths, failed: seq<Widths>, w: Widths)
    requires ValidSupply(s, base)
  {
    w.Keys == base.Keys && forall u :: u in base ==> w[u] == Earned(c, s, base, failed, u)
  }

  /** These checks, one after the other, each reported something on the widths earned until then. */
  ghost predicate FailedInTurn(c: Checker, s: Supply, base: Widths, failed: seq<Widths>)
    requires ValidSupply(s, base)
  {
    forall k :: 0 <= k < |failed| ==> c.findings(failed[k]) != [] && AllEarned(c, s, base, failed[..k], failed[k])
  }

  /** The first n values of a sequence of widths. */
  ghost function FirstOf(at: nat -> Widths, n: nat): (ws: seq<Widths>)
    ensures |ws| == n
  {
    if n == 0 then [] else FirstOf(at, n - 1) + [at(n - 1)]
  }

  lemma {:induction false} FirstAre(at: nat -> Widths, n: nat, k: nat)
    requires k < n
    ensures FirstOf(at, n)[k] == at(k) && FirstOf(at, n)[..k] == FirstOf(at, k)
  {
    var before := FirstOf(at, n - 1);
    if k < n - 1 {
      FirstAre(at, n - 1, k);
      assert (before + [at(n - 1)])[..k] == before[..k];
    } else {
      assert (before + [at(n - 1)])[..k] == before;
    }
  }

  /** The widths that the checks see, one after the other. */
  ghost function Seen(c: Checker, s: Supply, base: Widths): nat -> Widths {
    (k: nat) => WidthsAt(c, s, base, k)
  }

  /** The widths of the first n checks. */
  ghost function FirstWidths(c: Checker, s: Supply, base: Widths, n: nat): (ws: seq<Widths>)
    ensures |ws| == n
  {
    FirstOf(Seen(c, s, base), n)
  }

  lemma OffencesNext(c: Checker, s: Supply, base: Widths, failed: seq<Widths>, w: Widths, u: Uuid)
    ensures Offences(c, s, base, failed + [w], u)
         == Offences(c, s, base, failed, u) + if Offends(s, base, w, c.findings(w), u) then 1 else 0
  {
    assert (failed + [w])[..|failed|] == failed;
  }

  /** One step back from a width that was earned is again a width that was earned. */
  lemma StepIsEarned(c: Checker, s: Supply, base: Widths, failed: seq<Widths>, w: Widths, w': Widths)
    requires ValidSupply(s, base) && AllEarned(c, s, base, failed, w)
    requires w' == BackedOff(s, base, w, Offending(s, base, w, c.findings(w)))
    ensures AllEarned(c, s, base, failed + [w], w')
  {
    OffendingIff(s, base, w, c.findings(w));
    forall u | u in base
      ensures w'[u] == Earned(c, s, base, failed + [w], u)
    {
      OffencesNext(c, s, base, failed, w, u);
    }
  }

  lemma {:induction false} WidthsAreEarned(c: Checker, s: Supply, base: Widths, n: nat)
    requires ValidSupply(s, base)
    ensures AllEarned(c, s, base, FirstWidths(c, s, base, n), WidthsAt(c, s, base, n))
  {
    if n > 0 {
      WidthsAreEarned(c, s, base, n - 1);
      StepIsEarned(c, s, base, FirstWidths(c, s, base, n - 1), WidthsAt(c, s, base, n - 1), WidthsAt(c, s, base, n));
    }
  }

  /** A run of n failed checks, told by what each track earned. */
  lemma RunIsHistory(c: Checker, s: Supply, base: Widths, faults: nat -> Fault, n: nat)
    requires ValidSupply(s, base) && AllFail(c, s, base, faults, n)
    ensures FailedInTurn(c, s, base, FirstWidths(c, s, base, n))
    ensures AllEarned(c, s, base, FirstWidths(c, s, base, n), WidthsAt(c, s, base, n))
  {
    AllFailIff(c, s, base, faults, n);
    WidthsAreEarned(c, s, base, n);
    var failed := FirstWidths(c, s, base, n);
    forall k | 0 <= k < n
      ensures c.findings(failed[k]) != [] && AllEarned(c, s, base, failed[..k], failed[k])
    {
      assert FailsAt(c, s, base, faults, k);
      WidthsAreEarned(c, s, base, k);
      FirstAre(Seen(c, s, base), n, k);
    }
  }

  /** A supply track ends below its target exactly if it offended in some failed check. */
  lemma BelowTargetIff(c: Checker, s: Supply, base: Widths, failed: seq<Widths>, u: Uuid)
    requires ValidSupply(s, base) && FailedInTurn(c, s, base, failed) && u in s.tracks
    ensures Earned(c, s, base, failed, u) < s.target[u]
       <==> exists k :: 0 <= k < |failed| && Offends(s, base, failed[k], c.findings(failed[k]), u)
  {
    if Earned(c, s, base, failed, u) < s.target[u] {
      var k := SomeOffence(c, s, base, failed, u);
    }
    if k :| 0 <= k < |failed| && Offends(s, base, failed[k], c.findings(failed[k]), u) {
      OffenceCounts(c, s, base, failed, k, u);
      assert failed[k][u] == Earned(c, s, base, failed[..k], u);
    }
  }

  lemma {:induction false} OffenceCounts(c: Checker, s: Supply, base: Widths, failed: seq<Widths>, k: nat, u: Uuid)
    requires k < |failed| && Offends(s, base, failed[k], c.findings(failed[k]), u)
    ensures Offences(c, s, base, failed, u) > 0
  {
    if k < |failed| - 1 { OffenceCounts(c, s, base, failed[..|failed| - 1], k, u); }
  }

  lemma {:induction false} SomeOffence(c: Checker, s: Supply, base: Widths, failed: seq<Widths>, u: Uuid)
      returns (k: nat)
    requires Offences(c, s, base, failed, u) > 0
    ensures k < |failed| && Offends(s, base, failed[k], c.findings(failed[k]), u)
  {
    var w := failed[|failed| - 1];
    if Offends(s, base, w, c.findings(w), u) {
      k := |failed| - 1;
    } else {
      k := SomeOffence(c, s, base, failed[..|failed| - 1], u);
    }
  }

  /** How the loop ends: at the first clean check, at a fault, or after `limit` failed checks; never
  with "could not resolve". */
  ghost predicate LoopEnd(
    c: Checker, s: Supply, base: Widths, faults: nat -> Fault, limit: nat, r: Result<nat, Error>
  ) {
    match r
    case Ok(k) => k < limit && CleanAt(c, s, base, k) && faults(k) != CheckFails && AllFail(c, s, base, faults, k)
    case Err(CheckerCrashed) =>
      exists k: nat :: k < limit && faults(k) == CheckFails && AllFail(c, s, base, faults, k)
    case Err(BoardFailed) =>
      exists k: nat :: k < limit && !CleanAt(c, s, base, k) && (faults(k) == LoadFails || faults(k) == SaveFails)
                       && AllFail(c, s, base, faults, k)
    case Err(DidNotConverge) => AllFail(c, s, base, faults, limit)
    case Err(_) => false
  }

  /** What `refine` leaves behind, given a clean baseline of widths `base`: a saved board that its
  last check found clean, or else the bytes of the baseline. */
  ghost predicate Outcome(c: Checker, s: Supply, base: Widths, faults: nat -> Fault,
                          r: Result<nat, Error>, widths: Widths, zones: string) {
    && LoopEnd(c, s, base, faults, ATTEMPTS, r)
    && widths == (if r.Ok? then WidthsAt(c, s, base, r.value) else base)
    && zones == c.refill(widths)
  }

  /** A board file: its track widths, and the copper zones that the checker refills. */
  class BoardFile {
    var widths: Widths
    var zones: string

    constructor (widths: Widths, zones: string)
      ensures this.widths == widths && this.zones == zones
    {
      this.widths, this.zones := widths, zones;
    }

    /** One run of the checker, which saves the board with its zones refilled unless it crashes. */
    method Drc(c: Checker, crash: bool) returns (r: Result<seq<Finding>, Error>)
      modifies this
      ensures widths == old(widths)
      ensures crash ==> r == Err(CheckerCrashed) && zones == old(zones)
      ensures !crash ==> r == Ok(c.findings(widths)) && zones == c.refill(widths)
    {
      if crash {
        return Err(CheckerCrashed);
      }
      zones := c.refill(widths);
      return Ok(c.findings(widths));
    }

    /** The widening loop over the board's tracks. */
    method Widen(s: Supply)
      requires ValidSupply(s, widths)
      modifies this`widths
      ensures widths == Widened(s, old(widths))
      ensures widths.Keys == old(widths).Keys && forall u :: u in widths ==>
                widths[u] == if u in s.tracks && s.target[u] > old(widths)[u] then s.target[u] else old(widths)[u]
    {
      var board := widths;
      for i := 0 to |s.tracks|
        invariant board.Keys == widths.Keys
        invariant forall u :: u in widths ==>
                    board[u] == if u in s.tracks[..i] then Max(widths[u], s.target[u]) else widths[u]
      {
        var u := s.tracks[i];
        assert u !in s.tracks[..i] && s.tracks[..i + 1] == s.tracks[..i] + [u];
        board := board[u := Max(board[u], s.target[u])];
      }
      assert s.tracks[..|s.tracks|] == s.tracks;
      widths := board;
    }

    /** The loop that takes one step back from the offending tracks. */
    method BackOff(s: Supply, base: Widths, offending: set<Uuid>)
      requires ValidSupply(s, base) && widths.Keys == base.Keys
      modifies this`widths
      ensures widths == BackedOff(s, base, old(widths), offending)
      ensures widths.Keys == old(widths).Keys && forall u :: u in widths ==>
                widths[u] == if u !in s.tracks || u !in offending then old(widths)[u]
                             else if old(widths)[u] - 100000 > base[u] then old(widths)[u] - 100000 else base[u]
    {
      var board := widths;
      for i := 0 to |s.tracks|
        invariant board.Keys == widths.Keys
        invariant forall u :: u in widths ==>
                    board[u] == if u in s.tracks[..i] && u in offending then Max(base[u], widths[u] - STEP)
                                else widths[u]
      {
        var u := s.tracks[i];
        assert u !in s.tracks[..i] && s.tracks[..i + 1] == s.tracks[..i] + [u];
        if u in offending {
          board := board[u := Max(base[u], board[u] - STEP)];
        }
      }
      assert s.tracks[..|s.tracks|] == s.tracks;
      widths := board;
    }

    /** What the loop does after a failed check. */
    method Narrow(c: Checker, s: Supply, ghost base: Widths, original: Widths, ghost n: nat) returns (stuck: bool)
      requires ValidSupply(s, base) && c.findings(base) == [] && original == base
      requires widths == WidthsAt(c, s, base, n) && !CleanAt(c, s, base, n)
      modifies this`widths
      ensures !stuck && widths == WidthsAt(c, s, base, n + 1)
    {
      WidthsStayBounded(c, s, base, n);
      SomethingOffends(c, s, base, widths);
      var offending := Offending(s, original, widths, c.findings(widths));
      stuck := offending == {};
      BackOff(s, original, offending);
    }

    /** One turn of the loop: a check and, if it reports something, one step back.  When loading or
    saving fails, the file holds anything that the script had written. */
    method Attempt(c: Checker, s: Supply, base: Widths, ghost n: nat, ghost faults: nat -> Fault, fault: Fault)
        returns (clean: Result<bool, Error>)
      requires ValidSupply(s, base) && c.findings(base) == []
      requires Reached(c, s, base, faults, n, widths) && fault == faults(n)
      modifies this
      ensures clean == Verdict(fault, CleanAt(c, s, base, n))
      ensures clean == Ok(true) ==> widths == old(widths) && zones == c.refill(widths)
      ensures clean == Ok(false) ==> Reached(c, s, base, faults, n + 1, widths)
    {
      var check := Drc(c, fault == CheckFails);
      if check.Err? {
        return Err(CheckerCrashed);
      }
      if check.value == [] {
        return Ok(true);
      }
      if fault == LoadFails {
        return Err(BoardFailed);
      }
      var stuck := Narrow(c, s, base, base, n);
      if stuck {
        return Err(CouldNotResolve);
      }
      if fault == SaveFails {
        return Err(BoardFailed);
      }
      return Ok(false);
    }

    /** `refine`: the checker crashes at the baseline, or faults occur in turns of the loop.  `failed` are
    the widths of the loop's checks that reported something and were followed by a step back. */
    method Refine(c: Checker, s: Supply, baselineCrash: bool, faults: nat -> Fault)
        returns (r: Result<nat, Error>, ghost failed: seq<Widths>)
      requires ValidSupply(s, widths)
      modifies this
      ensures c.findings(old(widths)) != [] || baselineCrash ==>
                widths == old(widths) && r == Err(if baselineCrash then CheckerCrashed else FindingsFirst)
      ensures c.findings(old(widths)) == [] && !baselineCrash ==> Outcome(c, s, old(widths), faults, r, widths, zones)
      ensures FailedInTurn(c, s, old(widths), failed) && |failed| <= 10
      ensures r.Err? ==> widths == old(widths)
      ensures r.Ok? ==> r.value == |failed| < 10 && c.findings(widths) == []
                        && AllEarned(c, s, old(widths), failed, widths)
      ensures r == Err(DidNotConverge) ==> |failed| == 10
      ensures (forall w :: c.findings(w) == []) && faults(0) == NoFault && !baselineCrash ==>
                r == Ok(0) && widths.Keys == old(widths).Keys
                && forall u :: u in widths ==>
                     widths[u] == if u in s.tracks && s.target[u] > old(widths)[u] then s.target[u] else old(widths)[u]
    {
      failed := [];
      var baseline := Drc(c, baselineCrash);
      if baseline.Err? {
        return Err(baseline.error), [];
      }
      if baseline.value != [] {
        return Err(FindingsFirst), [];
      }
      var base, originalZones := widths, zones;
      Widen(s);
      ghost var n;
      r, n := RefineLoop(c, s, base, faults);
      failed := FirstWidths(c, s, base, n);
      RunIsHistory(c, s, base, faults, n);
      if r.Err? {
        widths, zones := base, originalZones;
      }
    }

    /** The loop of at most ten checks, before any rollback; n of them failed. */
    method RefineLoop(c: Checker, s: Supply, base: Widths, faults: nat -> Fault)
        returns (r: Result<nat, Error>, ghost n: nat)
      requires ValidSupply(s, base) && c.findings(base) == [] && widths == WidthsAt(c, s, base, 0)
      modifies this
      ensures LoopEnd(c, s, base, faults, ATTEMPTS, r)
      ensures n <= ATTEMPTS && AllFail(c, s, base, faults, n) && (r == Err(DidNotConverge) ==> n == ATTEMPTS)
      ensures r.Ok? ==> r.value == n && widths == WidthsAt(c, s, base, n) && zones == c.refill(widths)
    {
      var attempt, clean := RunChecks(c, s, base, faults, ATTEMPTS);
      n := attempt;
      r := if clean.Err? then Err(clean.error) else if clean.value then Ok(attempt) else Err(DidNotConverge);
    }

    /** Checks and steps back until a check is clean, something goes wrong, or `limit` checks are used up. */
    method RunChecks(c: Checker, s: Supply, base: Widths, faults: nat -> Fault, limit: nat)
        returns (attempt: nat, clean: Result<bool, Error>)
      requires ValidSupply(s, base) && c.findings(base) == [] && widths == WidthsAt(c, s, base, 0)
      modifies this
      ensures clean.Ok? ==> Reached(c, s, base, faults, attempt, widths)
      ensures AllFail(c, s, base, faults, attempt)
      ensures if clean == Ok(false) then attempt == limit
              else attempt < limit && clean == Verdict(faults(attempt), CleanAt(c, s, base, attempt))
      ensures clean == Ok(true) ==> zones == c.refill(widths)
    {
      attempt := 0;
      while attempt < limit
        invariant 0 <= attempt <= limit
        invariant Reached(c, s, base, faults, attempt, widths)
      {
        clean := Attempt(c, s, base, attempt, faults, faults(attempt));
        if clean != Ok(false) {
          return;
        }
        attempt := attempt + 1;
      }
      clean := Ok(false);
    }
  }

  /** Whatever happens, the file ends up clean, and no track is narrower than it was or wider than
  the larger of its original width and its net's target. */
  lemma FileEndsClean(c: Checker, s: Supply, base: Widths, faults: nat -> Fault,
                      r: Result<nat, Error>, widths: Widths, zones: string)
    requires ValidSupply(s, base) && c.findings(base) == [] && Outcome(c, s, base, faults, r, widths, zones)
    ensures c.findings(widths) == [] && Bounded(s, base, widths)
  {
    if r.Ok? { WidthsStayBounded(c, s, base, r.value); }
  }

  /** If the whole excess is below ten steps and nothing goes wrong, `refine` succeeds. */
  lemma TenAttemptsSuffice(c: Checker, s: Supply, base: Widths, faults: nat -> Fault, r: Result<nat, Error>)
    requires ValidSupply(s, base) && c.findings(base) == [] && LoopEnd(c, s, base, faults, ATTEMPTS, r)
    requires Steps(s.tracks, base, Widened(s, base)) < ATTEMPTS && forall k: nat :: faults(k) == NoFault
    ensures r.Ok?
  {
    var k := UncappedLoopEnds(c, s, base);
    StepsAtStart(c, s, base);
    AllFailIff(c, s, base, faults, ATTEMPTS);
    assert !FailsAt(c, s, base, faults, k);
  }

  lemma StepsAtStart(c: Checker, s: Supply, base: Widths)
    requires ValidSupply(s, base)
    ensures StepsAt(c, s, base, 0) == Steps(s.tracks, base, Widened(s, base))
  {}
}
