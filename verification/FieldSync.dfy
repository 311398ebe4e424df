/** The reverse-order deletion loop at the end of `sync` (sync_board_fields.py).

The loop cuts matched expressions from last to first, and finds the end of each
one in text that the earlier cuts have already changed.  It is proved to remove
exactly the union of the extents that the expressions have in the original text,
if the scan of each match passes the later ones in an unchanged state.  Matches
outside string literals meet that condition. */
module FieldSync {
  import opened Prelude
  import opened Sequences
  import opened BalancedScan
  import opened PythonText

  function ModeAt(text: string, k: nat): Mode
    requires k <= |text|
  {
    ModeAfter(Plain, text[..k])
  }

  /** What `finditer` yields: increasing positions. */
  ghost predicate Increasing(text: string, ms: seq<nat>) {
    && (forall i :: 0 <= i < |ms| ==> ms[i] < |text|)
    && (forall i, j :: 0 <= i < j < |ms| ==> ms[i] < ms[j])
  }

  /** The mode at a of a scanner that started at b in plain text. */
  function ModeFrom(text: string, b: nat, a: nat): Mode
    requires b <= a <= |text|
  {
    ModeAfter(Plain, text[b..a])
  }

  /** A scan that starts at b inside an expression does not end before a. */
  ghost predicate Reaches(text: string, b: nat, a: nat) {
    && b <= a <= |text|
    && (Scan(text[b..], Plain, 1).Some? ==> a < b + Scan(text[b..], Plain, 1).value)
  }

  /** If the scan from b meets the matched expression at m, it comes out of its extent as it went in. */
  ghost predicate Passed(text: string, b: nat, m: nat) {
    Reaches(text, b, m) && EndOf(text, m).Some? ==> Unmoved(ModeFrom(text, b, m), text[m..EndOf(text, m).value])
  }

  /** The scan of the expression at m passes the one at m'. */
  ghost function PassesLater(text: string): (nat, nat) -> bool {
    (m: nat, m': nat) => Passed(text, m + 1, m')
  }

  /** Starts of expressions; the scan of each passes those that come later in an unchanged state. */
  ghost predicate Tidy(text: string, ms: seq<nat>) {
    && Increasing(text, ms)
    && (forall i :: 0 <= i < |ms| ==> text[ms[i]] == '(')
    && Pairwise(PassesLater(text), ms)
  }

  ghost predicate Pairwise(related: (nat, nat) -> bool, ms: seq<nat>) {
    forall i, j :: 0 <= i < j < |ms| ==> related(ms[i], ms[j])
  }

  /** Increasing starts of expressions, all outside string literals. */
  ghost predicate Matches(text: string, ms: seq<nat>) {
    && (forall i :: 0 <= i < |ms| ==> ms[i] < |text| && text[ms[i]] == '(' && ModeAt(text, ms[i]) == Plain)
    && (forall i, j :: 0 <= i < j < |ms| ==> ms[i] < ms[j])
  }

  ghost predicate AllBalanced(text: string, ms: seq<nat>) {
    forall i :: 0 <= i < |ms| ==> ms[i] <= |text| && EndOf(text, ms[i]).Some?
  }

  /** Position k lies inside the extent, in this text, of the expression that starts at m. */
  ghost predicate Inside(text: string, m: nat, k: nat) {
    m <= k && m <= |text| && EndOf(text, m).Some? && k < EndOf(text, m).value
  }

  ghost predicate Covered(text: string, ms: seq<nat>, k: nat) {
    exists i :: 0 <= i < |ms| && Inside(text, ms[i], k)
  }

  /** `text[k..]` without the characters that some matched expression covers. */
  ghost function Kept(text: string, ms: seq<nat>, k: nat): string
    requires k <= |text|
    decreases |text| - k
  {
    if k == |text| then ""
    else (if Covered(text, ms, k) then "" else [text[k]]) + Kept(text, ms, k + 1)
  }

  /** No matched expression starts before k and ends after it. */
  ghost predicate Boundary(text: string, ms: seq<nat>, k: nat) {
    forall i :: 0 <= i < |ms| && ms[i] < k ==> !Inside(text, ms[i], k)
  }

  // --------------------------------------------------------- nested extents ---

  lemma StateOfTake(s: string, k: nat, mode: Mode)
    requires 0 < k <= |s|
    ensures ModeAfter(mode, s[..k]) == ModeAfter(NextMode(mode, s[0]), s[1..][..k - 1])
    ensures Depth(mode, s[..k]) == Weight(mode, s[0]) + Depth(NextMode(mode, s[0]), s[1..][..k - 1])
  {
    TailOfTake(s, k);
  }

  lemma ScanGoesOn(s: string, mode: Mode, depth: int, n: nat)
    requires Scan(s, mode, depth) == Some(n) && n > 1 && depth > 0
    ensures Scan(s[1..], NextMode(mode, s[0]), depth + Weight(mode, s[0])) == Some(n - 1)
    ensures depth + Weight(mode, s[0]) > 0
  {
    HeadTail(s);
    ScanStep(s, s[0], s[1..], mode, depth);
  }

  /** A scan that ends later passes every position before, at positive depth. */
  lemma {:induction false} ScanResumes(s: string, mode: Mode, depth: int, n: nat, k: nat)
    requires Scan(s, mode, depth) == Some(n) && k < n && depth > 0
    ensures depth + Depth(mode, s[..k]) > 0
    ensures Scan(s[k..], ModeAfter(mode, s[..k]), depth + Depth(mode, s[..k])) == Some(n - k)
  {
    if k > 0 {
      ScanGoesOn(s, mode, depth, n);
      ScanResumes(s[1..], NextMode(mode, s[0]), depth + Weight(mode, s[0]), n - 1, k - 1);
      StateOfTake(s, k, mode);
      DropDrop(s, 1, k - 1);
    } else {
      assert s[..0] == "" && s[0..] == s;
    }
  }

  lemma OpenScan(text: string, p: nat)
    requires p < |text| && text[p] == '('
    ensures EndOf(text, p) == Shift(Scan(text[p + 1..], Plain, 1), p + 1)
  {
    HeadTail(text[p..]);
    DropDrop(text, p, 1);
    ScanStep(text[p..], '(', text[p + 1..], Plain, 0);
  }

  lemma ModeStep(text: string, k: nat)
    requires k < |text|
    ensures ModeAt(text, k + 1) == NextMode(ModeAt(text, k), text[k])
  {
    assert text[..k + 1] == text[..k] + [text[k]];
    LexConcat(Plain, text[..k], [text[k]]);
    assert [text[k]][1..] == "";
  }

  lemma ModeBetween(text: string, a: nat, m: nat)
    requires a <= m <= |text|
    ensures ModeAfter(ModeAt(text, a), text[a..][..m - a]) == ModeAt(text, m)
  {
    TakeSplit(text, a, m - a);
    LexConcat(Plain, text[..a], text[a..][..m - a]);
  }

  /** What the scan from b passes ends before that scan does. */
  lemma PassedEndsInside(text: string, b: nat, m: nat)
    requires b <= m < |text| && Reaches(text, b, m) && Passed(text, b, m)
    requires Scan(text[b..], Plain, 1).Some? && EndOf(text, m).Some?
    ensures EndOf(text, m).value < b + Scan(text[b..], Plain, 1).value
  {
    var end := EndOf(text, m).value;
    ScanResumes(text[b..], Plain, 1, Scan(text[b..], Plain, 1).value, m - b);
    SliceOfTail(text, b, m - b);
    DropDrop(text, b, m - b);
    SliceJoin(text, m, end);
    UnmovedPasses(text[m..end], text[end..], ModeFrom(text, b, m), 1 + Depth(Plain, text[b..m]));
  }

  /** An expression that starts inside an earlier one also ends inside it. */
  lemma ExtentsNest(text: string, ms: seq<nat>, i: nat, j: nat)
    requires Tidy(text, ms) && i < j < |ms| && Inside(text, ms[i], ms[j]) && EndOf(text, ms[j]).Some?
    ensures EndOf(text, ms[j]).value < EndOf(text, ms[i]).value
  {
    OpenScan(text, ms[i]);
    assert PassesLater(text)(ms[i], ms[j]);
    PassedEndsInside(text, ms[i] + 1, ms[j]);
  }

  // ----------------------------------------- matches outside string literals ---

  /** An expression that starts outside string literals leaves the scanner as it was. */
  lemma ExpressionIsUnmoved(text: string, m: nat)
    requires m < |text| && text[m] == '(' && EndOf(text, m).Some?
    ensures Unmoved(Plain, text[m..EndOf(text, m).value])
  {
    var items := AcceptedIsPrinted(text, m);
    var end := EndOf(text, m).value;
    var x := text[m..end];
    SexpPasses(List(items), ")", 1);
    FirstOnly(")");
    assert Scan(")", Plain, 1) == Some(1);
    LongScanStaysOpen(x, ")", Plain, 1);
    ScanIsAClose(text[m..], Plain, 0);
    SliceOfTail(text, m, end - m);
    SliceOfTail(text, m, end - m - 1);
    LastKeepsPlain(text, m, end);
  }

  lemma ModeAtEnd(text: string, m: nat)
    requires m < |text| && text[m] == '(' && ModeAt(text, m) == Plain && EndOf(text, m).Some?
    ensures ModeAt(text, EndOf(text, m).value) == Plain
  {
    var end := EndOf(text, m).value;
    ExpressionIsUnmoved(text, m);
    TakeSplit(text, m, end - m);
    SliceOfTail(text, m, end - m);
    LexConcat(Plain, text[..m], text[m..end]);
  }

  lemma LastKeepsPlain(text: string, m: nat, end: nat)
    requires m < end <= |text| && text[end - 1] == ')' && ModeAfter(Plain, text[m..end - 1]) == Plain
    ensures ModeAfter(Plain, text[m..end]) == Plain
  {
    assert text[m..end] == text[m..end - 1] + [')'];
    LexConcat(Plain, text[m..end - 1], [')']);
    assert [')'][1..] == "";
  }

  /** Matches outside string literals are tidy, also for a scan of the whole text. */
  lemma MatchesAreTidy(text: string, ms: seq<nat>)
    requires Matches(text, ms)
    ensures Tidy(text, ms) && AllPassed(text, 0, ms)
  {
    forall i | 0 <= i < |ms|
      ensures Passed(text, 0, ms[i])
    {
      PlainIsPassed(text, 0, ms[i]);
    }
    forall i, j | 0 <= i < j < |ms|
      ensures PassesLater(text)(ms[i], ms[j])
    {
      ModeStep(text, ms[i]);
      PlainIsPassed(text, ms[i] + 1, ms[j]);
    }
  }

  lemma PlainIsPassed(text: string, b: nat, m: nat)
    requires b <= m < |text| && text[m] == '(' && ModeAt(text, b) == Plain && ModeAt(text, m) == Plain
    ensures Passed(text, b, m)
  {
    ModeBetween(text, b, m);
    SliceOfTail(text, b, m - b);
    if EndOf(text, m).Some? { ExpressionIsUnmoved(text, m); }
  }

  // ------------------------------------------------ scanning the edited text ---

  lemma {:induction false} KeptVerbatim(text: string, ms: seq<nat>, a: nat, b: nat)
    requires a <= b <= |text| && forall k :: a <= k < b ==> !Covered(text, ms, k)
    ensures Kept(text, ms, a) == text[a..b] + Kept(text, ms, b)
    decreases b - a
  {
    if a < b {
      KeptVerbatim(text, ms, a + 1, b);
      KeptUncovered(text, ms, a);
      SliceCons(text, a, b);
      Assoc([text[a]], text[a + 1..b], Kept(text, ms, b));
    }
  }

  lemma KeptUncovered(text: string, ms: seq<nat>, a: nat)
    requires a < |text| && !Covered(text, ms, a)
    ensures Kept(text, ms, a) == [text[a]] + Kept(text, ms, a + 1)
  {}

  lemma {:induction false} KeptDrops(text: string, ms: seq<nat>, a: nat, b: nat)
    requires a <= b <= |text| && forall k :: a <= k < b ==> Covered(text, ms, k)
    ensures Kept(text, ms, a) == Kept(text, ms, b)
    decreases b - a
  {
    if a < b {
      KeptDrops(text, ms, a + 1, b);
    }
  }

  lemma CoveredBoundaryIsAStart(text: string, ms: seq<nat>, a: nat) returns (i: nat)
    requires Boundary(text, ms, a) && Covered(text, ms, a)
    ensures i < |ms| && ms[i] == a && Inside(text, a, a)
  {
    i :| 0 <= i < |ms| && Inside(text, ms[i], a);
  }

  lemma EndIsABoundary(text: string, ms: seq<nat>, i: nat)
    requires Tidy(text, ms) && AllBalanced(text, ms) && i < |ms| && Boundary(text, ms, ms[i])
    ensures Boundary(text, ms, EndOf(text, ms[i]).value)
  {
    var end := EndOf(text, ms[i]).value;
    forall j | 0 <= j < |ms| && ms[j] < end
      ensures !Inside(text, ms[j], end)
    {
      if j < i {
        assert !Inside(text, ms[j], ms[i]);
      } else if j > i {
        ExtentsNest(text, ms, i, j);
      }
    }
  }

  /** Two scans end alike: one in the text from a, one in what is kept of it. */
  ghost predicate Alike(text: string, ms: seq<nat>, a: nat, kept: string, original: Option<nat>, edited: Option<nat>) {
    && original.Some? == edited.Some?
    && (original.Some? ==> a + original.value <= |text| && edited.value <= |kept|
                           && kept[edited.value..] == Kept(text, ms, a + original.value))
  }

  /** Scanning the kept text from a ends exactly where scanning the original text from a ends,
  both counted in what is left over. */
  ghost predicate ScansAlike(text: string, ms: seq<nat>, a: nat, mode: Mode, d: int) {
    a <= |text| && Alike(text, ms, a, Kept(text, ms, a), Scan(text[a..], mode, d), Scan(Kept(text, ms, a), mode, d))
  }

  /** The scan from b has reached a, in this depth. */
  ghost predicate At(text: string, b: nat, a: nat, d: int) {
    && b <= a <= |text| && d > 0
    && Scan(text[b..], Plain, 1) == Shift(Scan(text[a..], ModeFrom(text, b, a), d), a - b)
  }

  ghost predicate AllPassed(text: string, b: nat, ms: seq<nat>) {
    forall i :: 0 <= i < |ms| ==> b <= ms[i] && Passed(text, b, ms[i])
  }

  lemma {:induction false} KeptScansAlike(text: string, ms: seq<nat>, b: nat, a: nat, d: int)
    requires Tidy(text, ms) && AllBalanced(text, ms) && AllPassed(text, b, ms)
    requires At(text, b, a, d) && Boundary(text, ms, a)
    ensures ScansAlike(text, ms, a, ModeFrom(text, b, a), d)
    decreases |text| - a
  {
    var mode := ModeFrom(text, b, a);
    if a == |text| {
    } else if Covered(text, ms, a) {
      var i := CoveredBoundaryIsAStart(text, ms, a);
      EndIsABoundary(text, ms, i);
      AtEnd(text, b, a, d);
      KeptScansAlike(text, ms, b, EndOf(text, a).value, d);
      AlikeAcrossExpression(text, ms, i, mode, d);
    } else {
      var c := text[a];
      if !(mode == Plain && c == ')' && d == 1) {
        AtNext(text, b, a, d);
        assert Boundary(text, ms, a + 1);
        KeptScansAlike(text, ms, b, a + 1, d + Weight(mode, c));
      }
      AlikeAcrossCharacter(text, ms, a, mode, d);
    }
  }

  lemma AtNext(text: string, b: nat, a: nat, d: int)
    requires At(text, b, a, d) && a < |text| && !(ModeFrom(text, b, a) == Plain && text[a] == ')' && d == 1)
    ensures At(text, b, a + 1, d + Weight(ModeFrom(text, b, a), text[a]))
    ensures ModeFrom(text, b, a + 1) == NextMode(ModeFrom(text, b, a), text[a])
  {
    HeadTail(text[a..]);
    DropDrop(text, a, 1);
    ScanStep(text[a..], text[a], text[a + 1..], ModeFrom(text, b, a), d);
    assert text[b..a + 1] == text[b..a] + [text[a]];
    LexConcat(Plain, text[b..a], [text[a]]);
    assert [text[a]][1..] == "";
  }

  /** Passing a matched expression. */
  lemma AtEnd(text: string, b: nat, a: nat, d: int)
    requires At(text, b, a, d) && a < |text| && EndOf(text, a).Some? && Passed(text, b, a)
    ensures var end := EndOf(text, a).value;
            && At(text, b, end, d) && ModeFrom(text, b, end) == ModeFrom(text, b, a)
            && Unmoved(ModeFrom(text, b, a), text[a..end])
  {
    var end := EndOf(text, a).value;
    SliceJoin(text, a, end);
    UnmovedPasses(text[a..end], text[end..], ModeFrom(text, b, a), d);
    SliceSplit(text, b, a, end);
    LexConcat(Plain, text[b..a], text[a..end]);
  }

  lemma AlikeAcrossExpression(text: string, ms: seq<nat>, i: nat, mode: Mode, d: int)
    requires Tidy(text, ms) && AllBalanced(text, ms) && i < |ms| && d > 0
    requires Unmoved(mode, text[ms[i]..EndOf(text, ms[i]).value])
    requires ScansAlike(text, ms, EndOf(text, ms[i]).value, mode, d)
    ensures ScansAlike(text, ms, ms[i], mode, d)
  {
    var a, end := ms[i], EndOf(text, ms[i]).value;
    SliceJoin(text, a, end);
    UnmovedPasses(text[a..end], text[end..], mode, d);
    forall k | a <= k < end
      ensures Covered(text, ms, k)
    {
      assert Inside(text, ms[i], k);
    }
    KeptDrops(text, ms, a, end);
    AlikeJump(text, ms, a, end, Kept(text, ms, end), Scan(text[end..], mode, d), Scan(Kept(text, ms, end), mode, d));
  }

  lemma AlikeJump(text: string, ms: seq<nat>, a: nat, end: nat, kept: string,
                  original: Option<nat>, edited: Option<nat>)
    requires a <= end && Alike(text, ms, end, kept, original, edited)
    ensures Alike(text, ms, a, kept, Shift(original, end - a), edited)
  {
    if original.Some? { assert a + Shift(original, end - a).value == end + original.value; }
  }

  lemma AlikeShift(text: string, ms: seq<nat>, a: nat, c: char, tail: string,
                   original: Option<nat>, edited: Option<nat>)
    requires Alike(text, ms, a + 1, tail, original, edited)
    ensures Alike(text, ms, a, [c] + tail, Shift(original, 1), Shift(edited, 1))
  {
    if edited.Some? {
      ConsDrop(c, tail, edited.value);
    }
  }

  lemma AlikeAcrossCharacter(text: string, ms: seq<nat>, a: nat, mode: Mode, d: int)
    requires a < |text| && !Covered(text, ms, a)
    requires !(mode == Plain && text[a] == ')' && d == 1) ==>
               ScansAlike(text, ms, a + 1, NextMode(mode, text[a]), d + Weight(mode, text[a]))
    ensures ScansAlike(text, ms, a, mode, d)
  {
    var c, rest, tail := text[a], text[a + 1..], Kept(text, ms, a + 1);
    HeadTail(text[a..]);
    DropDrop(text, a, 1);
    KeptUncovered(text, ms, a);
    ScanStep(text[a..], c, rest, mode, d);
    ScanStep([c] + tail, c, tail, mode, d);
    ConsParts(c, tail);
    if !(mode == Plain && c == ')' && d == 1) {
      var mode', d' := NextMode(mode, c), d + Weight(mode, c);
      AlikeShift(text, ms, a, c, tail, Scan(rest, mode', d'), Scan(tail, mode', d'));
    }
  }

  // --------------------------------------------------------------- the loop ---

  lemma PairwiseTail(related: (nat, nat) -> bool, m: nat, ms: seq<nat>)
    requires Pairwise(related, [m] + ms)
    ensures Pairwise(related, ms) && forall j :: 0 <= j < |ms| ==> related(m, ms[j])
  {
    var all := [m] + ms;
    assert all[0] == m && forall j :: 0 <= j < |ms| ==> ms[j] == all[j + 1];
  }

  lemma IncreasingTail(text: string, p: nat, ms: seq<nat>)
    requires Increasing(text, [p] + ms)
    ensures Increasing(text, ms) && p < |text| && forall i :: 0 <= i < |ms| ==> p < ms[i]
  {
    var all := [p] + ms;
    assert all[0] == p && forall i :: 0 <= i < |ms| ==> ms[i] == all[i + 1];
  }

  lemma TidyTail(text: string, p: nat, ms: seq<nat>)
    requires Tidy(text, [p] + ms)
    ensures Tidy(text, ms) && AllPassed(text, p + 1, ms)
    ensures p < |text| && text[p] == '('
    ensures forall i :: 0 <= i < |ms| ==> p < ms[i]
  {
    var all := [p] + ms;
    assert all[0] == p && forall i :: 0 <= i < |ms| ==> ms[i] == all[i + 1];
    IncreasingTail(text, p, ms);
    PairwiseTail(PassesLater(text), p, ms);
  }

  /** The text that a pass of the loop meets: untouched up to the match at p, then the kept rest. */
  lemma EditedShape(text: string, p: nat, ms: seq<nat>)
    requires p < |text| && Tidy(text, [p] + ms)
    ensures Kept(text, ms, 0) == text[..p] + (['('] + Kept(text, ms, p + 1))
    ensures Boundary(text, ms, p + 1) && ModeFrom(text, p + 1, p + 1) == Plain && At(text, p + 1, p + 1, 1)
  {
    TidyTail(text, p, ms);
    assert forall k: nat :: k <= p ==> !Covered(text, ms, k);
    KeptVerbatim(text, ms, 0, p);
    KeptVerbatim(text, ms, p, p + 1);
    assert text[p..p + 1] == ['('] && text[0..p] == text[..p];
    assert text[p + 1..p + 1] == "";
  }

  /** The cut that one pass of the loop makes, expressed on the kept text. */
  lemma CutExtendsUnion(text: string, p: nat, ms: seq<nat>)
    requires p < |text| && Tidy(text, [p] + ms) && AllBalanced(text, ms)
    ensures var edited := Kept(text, ms, 0);
            && p <= |edited|
            && EndOf(edited, p).Some? == EndOf(text, p).Some?
            && (EndOf(text, p).Some? ==> edited[..p] + edited[EndOf(edited, p).value..] == Kept(text, [p] + ms, 0))
  {
    TidyTail(text, p, ms);
    EditedShape(text, p, ms);
    KeptScansAlike(text, ms, p + 1, p + 1, 1);
    CutAlike(text, p, ms, Kept(text, ms, 0), Kept(text, ms, p + 1));
    if EndOf(text, p).Some? {
      UnionWithFirst(text, p, ms);
    }
  }

  lemma CutAlike(text: string, p: nat, ms: seq<nat>, edited: string, rest: string)
    requires p < |text| && text[p] == '(' && ScansAlike(text, ms, p + 1, Plain, 1)
    requires rest == Kept(text, ms, p + 1) && edited == text[..p] + (['('] + rest)
    ensures p <= |edited| && EndOf(edited, p).Some? == EndOf(text, p).Some?
    ensures EndOf(text, p).Some? ==>
              edited[..p] + edited[EndOf(edited, p).value..] == text[..p] + Kept(text, ms, EndOf(text, p).value)
  {
    OpenScan(text, p);
    CutText(text, p, edited, rest);
    AlikeDrops(text, ms, p + 1, rest, Scan(text[p + 1..], Plain, 1), Scan(rest, Plain, 1));
  }

  lemma AlikeDrops(text: string, ms: seq<nat>, a: nat, kept: string, original: Option<nat>, edited: Option<nat>)
    requires Alike(text, ms, a, kept, original, edited)
    ensures Shift(original, a).Some? == Shift(edited, a).Some?
    ensures Shift(original, a).Some? ==>
              Shift(original, a).value <= |text| && edited.value <= |kept|
              && kept[edited.value..] == Kept(text, ms, Shift(original, a).value)
  {}

  lemma CutText(text: string, p: nat, edited: string, rest: string)
    requires p <= |text| && edited == text[..p] + (['('] + rest)
    ensures p <= |edited| && EndOf(edited, p) == Shift(Scan(rest, Plain, 1), p + 1)
    ensures EndOf(edited, p).Some? ==>
              edited[..p] == text[..p] && edited[EndOf(edited, p).value..] == rest[Scan(rest, Plain, 1).value..]
  {
    ConcatParts(text[..p], ['('] + rest);
    Assoc(text[..p], ['('], rest);
    ConcatParts(text[..p] + ['('], rest);
    OpenScan(edited, p);
    if EndOf(edited, p).Some? {
      DropDrop(edited, p + 1, Scan(rest, Plain, 1).value);
    }
  }

  lemma UnionWithFirst(text: string, p: nat, ms: seq<nat>)
    requires p < |text| && Tidy(text, [p] + ms) && EndOf(text, p).Some?
    ensures Kept(text, [p] + ms, 0) == text[..p] + Kept(text, ms, EndOf(text, p).value)
  {
    TidyTail(text, p, ms);
    var all, end := [p] + ms, EndOf(text, p).value;
    assert forall i :: 0 <= i < |all| ==> p <= all[i];
    forall k | p <= k < end
      ensures Covered(text, all, k)
    {
      assert Inside(text, all[0], k);
    }
    KeptVerbatim(text, all, 0, p);
    KeptDrops(text, all, p, end);
    CoverOnlyBefore(text, p, ms, end);
    assert text[0..p] == text[..p];
  }

  lemma CoverOnlyBefore(text: string, p: nat, ms: seq<nat>, a: nat)
    requires a <= |text| && p <= |text| && EndOf(text, p).Some? && EndOf(text, p).value <= a
    ensures Kept(text, [p] + ms, a) == Kept(text, ms, a)
  {
    forall k: nat | a <= k
      ensures Covered(text, [p] + ms, k) == Covered(text, ms, k)
    {
      CoveredByRest(text, p, ms, k);
    }
    SameCoverKeepsSame(text, [p] + ms, ms, a);
  }

  lemma {:induction false} SameCoverKeepsSame(text: string, ms: seq<nat>, ms': seq<nat>, a: nat)
    requires a <= |text| && SameCover(text, ms, ms', a)
    ensures Kept(text, ms, a) == Kept(text, ms', a)
    decreases |text| - a
  {
    if a < |text| {
      SameCoverKeepsSame(text, ms, ms', a + 1);
      assert Covered(text, ms, a) == Covered(text, ms', a);
    }
  }

  ghost predicate SameCover(text: string, ms: seq<nat>, ms': seq<nat>, a: nat) {
    forall k: nat :: a <= k ==> Covered(text, ms, k) == Covered(text, ms', k)
  }

  lemma CoveredByRest(text: string, p: nat, ms: seq<nat>, a: nat)
    requires !Inside(text, p, a)
    ensures Covered(text, [p] + ms, a) == Covered(text, ms, a)
  {
    var all := [p] + ms;
    assert all[0] == p && forall i :: 0 <= i < |ms| ==> ms[i] == all[i + 1];
    if Covered(text, all, a) {
      var i :| 0 <= i < |all| && Inside(text, all[i], a);
      assert Inside(text, ms[i - 1], a);
    }
    if Covered(text, ms, a) {
      var i :| 0 <= i < |ms| && Inside(text, ms[i], a);
      assert Inside(text, all[i + 1], a);
    }
  }

  /** Cutting right to left, each end found in the text edited so far; None where the script raises. */
  function Deleted(text: string, ms: seq<nat>): (r: Option<string>)
    requires Increasing(text, ms)
    ensures r.Some? ==> (if ms == [] then |text| else ms[0]) <= |r.value|
  {
    if ms == [] then Some(text)
    else
      match Deleted(text, ms[1..])
      case None => None
      case Some(edited) =>
        match EndOf(edited, ms[0])
        case None => None
        case Some(end) => Some(edited[..ms[0]] + edited[end..])
  }

  /** Where the scan of each match passes the later ones in an unchanged state, the cuts fail exactly when some matched
  expression has no end in the original text, and otherwise remove exactly what those cover there. */
  lemma {:induction false} DeletedIsUnion(text: string, ms: seq<nat>)
    requires Tidy(text, ms)
    ensures Deleted(text, ms) == if AllBalanced(text, ms) then Some(Kept(text, ms, 0)) else None
  {
    if ms == [] {
      KeptVerbatim(text, ms, 0, |text|);
      assert text[0..|text|] + Kept(text, ms, |text|) == text;
    } else {
      var p, rest := ms[0], ms[1..];
      HeadTail(ms);
      TidyTail(text, p, rest);
      DeletedIsUnion(text, rest);
      BalancedOneMore(text, p, rest);
      if AllBalanced(text, rest) {
        CutExtendsUnion(text, p, rest);
      }
    }
  }

  lemma DeletedIfTidy(text: string, ms: seq<nat>)
    ensures Matches(text, ms) ==> Tidy(text, ms)
    ensures Tidy(text, ms) ==> Deleted(text, ms) == if AllBalanced(text, ms) then Some(Kept(text, ms, 0)) else None
  {
    if Matches(text, ms) { MatchesAreTidy(text, ms); }
    if Tidy(text, ms) { DeletedIsUnion(text, ms); }
  }

  lemma BalancedOneMore(text: string, p: nat, ms: seq<nat>)
    requires p < |text|
    ensures AllBalanced(text, [p] + ms) <==> EndOf(text, p).Some? && AllBalanced(text, ms)
  {
    var all := [p] + ms;
    assert all[0] == p && forall i :: 0 <= i < |ms| ==> all[i + 1] == ms[i];
  }

  /** The deletion loop, for any positions.  Matches outside string literals are tidy. */
  method DeleteMatches(text: string, matches: seq<nat>) returns (r: Result<string, string>)
    requires Increasing(text, matches)
    ensures r.Ok? <==> Deleted(text, matches).Some?
    ensures r.Ok? ==> Some(r.value) == Deleted(text, matches)
    ensures Matches(text, matches) ==> Tidy(text, matches)
    ensures Tidy(text, matches) ==> (r.Ok? <==> AllBalanced(text, matches))
    ensures Tidy(text, matches) && r.Ok? ==> r.value == Kept(text, matches, 0)
  {
    DeletedIfTidy(text, matches);
    var edited := text;
    var j := |matches|;
    while j > 0
      invariant 0 <= j <= |matches|
      invariant Deleted(text, matches[j..]) == Some(edited)
    {
      j := j - 1;
      DeletedStep(text, matches, j, edited);
      DeletedNeedsRest(text, matches, j);
      var end := BalancedEnd(edited, matches[j]);
      if end.Err? {
        return Err(end.error);
      }
      edited := edited[..matches[j]] + edited[end.value..];
    }
    return Ok(edited);
  }

  lemma DeletedStep(text: string, ms: seq<nat>, j: nat, edited: string)
    requires Increasing(text, ms) && j < |ms| && Deleted(text, ms[j + 1..]) == Some(edited)
    ensures ms[j] <= |edited|
    ensures Deleted(text, ms[j..])
         == match EndOf(edited, ms[j]) case None => None case Some(end) => Some(edited[..ms[j]] + edited[end..])
  {
    DropDrop(ms, j, 1);
  }

  lemma {:induction false} DeletedNeedsRest(text: string, ms: seq<nat>, j: nat)
    requires Increasing(text, ms) && j <= |ms|
    ensures Deleted(text, ms).Some? ==> Deleted(text, ms[j..]).Some?
  {
    if j > 0 {
      DeletedNeedsRest(text, ms[1..], j - 1);
      DropDrop(ms, 1, j - 1);
    }
  }

  // ------------------------------------------------- balanced stays balanced ---

  /** A closing parenthesis appended to the text closes a level opened before it, and nothing earlier does. */
  predicate BalancedText(s: string) {
    Scan(s + ")", Plain, 1) == Some(|s| + 1)
  }

  /** A balanced text is precisely the print of a sequence of S-expressions. */
  lemma BalancedIsPrinted(s: string) returns (xs: seq<Sexp>)
    ensures BalancedText(s) ==> WellFormed(List(xs)) && s == PrintAll(xs)
    ensures forall ys | WellFormed(List(ys)) && s == PrintAll(ys) :: BalancedText(s)
  {
    xs := [];
    if BalancedText(s) {
      var k: nat;
      xs, k := ReadItems(s + ")", 1, |s| + 1);
      assert (s + ")")[..k] == s + ")" == PrintAll(xs) + ")";
      assert s == (s + ")")[..|s|] && PrintAll(xs) == (PrintAll(xs) + ")")[..|PrintAll(xs)|];
    }
    forall ys | WellFormed(List(ys)) && s == PrintAll(ys)
      ensures BalancedText(s)
    {
      ItemsPass(ys, ")", 1);
    }
  }

  lemma {:induction false} ScanIgnoresWhatFollows(s: string, t: string, mode: Mode, depth: int)
    requires Scan(s, mode, depth).Some?
    ensures Scan(s + t, mode, depth) == Scan(s, mode, depth)
  {
    var c, tail := s[0], s[1..];
    HeadTail(s);
    Assoc([c], tail, t);
    ScanStep(s, c, tail, mode, depth);
    ScanStep(s + t, c, tail + t, mode, depth);
    if !(mode == Plain && c == ')' && depth == 1) {
      ScanIgnoresWhatFollows(tail, t, NextMode(mode, c), depth + Weight(mode, c));
    }
  }

  lemma {:induction false} KeptAppends(text: string, ms: seq<nat>, k: nat)
    requires Tidy(text, ms) && AllBalanced(text, ms) && k <= |text|
    ensures Kept(text + ")", ms, k) == Kept(text, ms, k) + ")"
    decreases |text| - k
  {
    var longer := text + ")";
    forall i | 0 <= i < |ms|
      ensures EndOf(longer, ms[i]) == EndOf(text, ms[i])
    {
      ScanIgnoresWhatFollows(text[ms[i]..], ")", Plain, 0);
      assert longer[ms[i]..] == text[ms[i]..] + ")";
    }
    assert Covered(longer, ms, k) == Covered(text, ms, k) by {
      assert forall i :: 0 <= i < |ms| ==> Inside(longer, ms[i], k) == Inside(text, ms[i], k);
    }
    if k < |text| {
      KeptAppends(text, ms, k + 1);
    }
  }

  lemma SameEndsInLonger(text: string, t: string, m: nat)
    requires m <= |text| && EndOf(text, m).Some?
    ensures EndOf(text + t, m) == EndOf(text, m)
  {
    ScanIgnoresWhatFollows(text[m..], t, Plain, 0);
    DropConcat(text, t, m);
  }

  lemma PassedInLonger(text: string, t: string, b: nat, m: nat)
    requires b <= m < |text| && EndOf(text, m).Some? && Passed(text, b, m)
    ensures Passed(text + t, b, m)
  {
    var longer := text + t;
    SameEndsInLonger(text, t, m);
    if Scan(text[b..], Plain, 1).Some? {
      ScanIgnoresWhatFollows(text[b..], t, Plain, 1);
      DropConcat(text, t, b);
    }
    assert longer[b..m] == text[b..m] && longer[m..EndOf(text, m).value] == text[m..EndOf(text, m).value];
  }

  lemma TidyInLonger(text: string, t: string, ms: seq<nat>)
    requires Tidy(text, ms) && AllBalanced(text, ms)
    ensures Tidy(text + t, ms) && AllBalanced(text + t, ms)
  {
    forall i | 0 <= i < |ms|
      ensures EndOf(text + t, ms[i]) == EndOf(text, ms[i])
    {
      SameEndsInLonger(text, t, ms[i]);
    }
    forall i, j | 0 <= i < j < |ms|
      ensures PassesLater(text + t)(ms[i], ms[j])
    {
      assert PassesLater(text)(ms[i], ms[j]);
      PassedInLonger(text, t, ms[i] + 1, ms[j]);
    }
  }

  lemma AllPassedInLonger(text: string, t: string, ms: seq<nat>)
    requires Increasing(text, ms) && AllPassed(text, 0, ms) && AllBalanced(text, ms)
    ensures AllPassed(text + t, 0, ms)
  {
    forall i | 0 <= i < |ms|
      ensures Passed(text + t, 0, ms[i])
    {
      PassedInLonger(text, t, 0, ms[i]);
    }
  }

  /** Deleting tidy matches of a balanced file leaves a balanced file, if a scan of the whole file passes
  them in an unchanged state too. */
  lemma DeletionKeepsBalance(text: string, ms: seq<nat>)
    requires Tidy(text, ms) && AllPassed(text, 0, ms) && AllBalanced(text, ms) && BalancedText(text)
    ensures BalancedText(Kept(text, ms, 0))
  {
    var longer := text + ")";
    TidyInLonger(text, ")", ms);
    AllPassedInLonger(text, ")", ms);
    assert longer[0..] == longer && longer[0..0] == "";
    KeptScansAlike(longer, ms, 0, 0, 1);
    KeptAppends(text, ms, 0);
  }

  // ------------------------------------------------ matches inside string literals ---

  /** The regular expression matches at k. */
  ghost predicate PatternAt(text: string, k: nat) {
    && k <= |text|
    && exists s, s' :: AllSpace(s) && s != "" && AllSpace(s') && s' != ""
                       && "(fp_text" + s + "user" + s' + "\"${REFERENCE}\"" <= text[k..]
  }

  /** Text without parentheses, quotes and backslashes. */
  predicate Bare(s: string) {
    forall k :: 0 <= k < |s| ==> s[k] != '(' && s[k] != ')' && s[k] != '"' && s[k] != '\\'
  }

  lemma {:induction false} BareScans(s: string, t: string, mode: Mode, d: int)
    requires Bare(s) && mode != Escaped
    ensures Scan(s + t, mode, d) == Shift(Scan(t, mode, d), |s|)
  {
    if s == "" {
      assert s + t == t;
    } else {
      HeadTail(s);
      Assoc([s[0]], s[1..], t);
      ScanStep(s + t, s[0], s[1..] + t, mode, d);
      BareScans(s[1..], t, mode, d);
    }
  }

  /** `(fp_text user "${REFERENCE}"`, for the right u and m. */
  function Opening(u: string, m: string): string {
    ['('] + (u + (['"'] + (m + ['"'])))
  }

  lemma OpeningThen(u: string, m: string, t: string)
    ensures Opening(u, m) + t == ['('] + (u + (['"'] + (m + (['"'] + t))))
  {
    Assoc(['('], u + (['"'] + (m + ['"'])), t);
    Assoc(u, ['"'] + (m + ['"']), t);
    Assoc(['"'], m + ['"'], t);
    Assoc(m, ['"'], t);
  }

  lemma QuoteScans(t: string, mode: Mode, d: int)
    requires mode != Escaped
    ensures Scan(['"'] + t, mode, d) == Shift(Scan(t, if mode == Plain then Quoted else Plain, d), 1)
  {
    ScanStep(['"'] + t, '"', t, mode, d);
  }

  /** Two quotes with bare text between them leave the scanner as it was. */
  lemma QuotesScan(m: string, t: string, mode: Mode, d: int)
    requires Bare(m) && mode != Escaped
    ensures Scan(['"'] + (m + (['"'] + t)), mode, d) == Shift(Scan(t, mode, d), |m| + 2)
  {
    var inner := if mode == Plain then Quoted else Plain;
    calc {
      Scan(['"'] + (m + (['"'] + t)), mode, d);
      { QuoteScans(m + (['"'] + t), mode, d); }
      Shift(Scan(m + (['"'] + t), inner, d), 1);
      { BareScans(m, ['"'] + t, inner, d); }
      Shift(Shift(Scan(['"'] + t, inner, d), |m|), 1);
      { QuoteScans(t, inner, d); }
      Shift(Shift(Shift(Scan(t, mode, d), 1), |m|), 1);
    }
  }

  /** Outside strings the opening adds a level; inside a string it ends in another string. */
  lemma OpeningScans(u: string, m: string, t: string, mode: Mode, d: nat)
    requires Bare(u) && Bare(m) && mode != Escaped
    ensures Scan(Opening(u, m) + t, mode, d)
         == Shift(Scan(t, mode, if mode == Plain then d + 1 else d), |Opening(u, m)|)
  {
    var d' := if mode == Plain then d + 1 else d;
    var quotes := ['"'] + (m + (['"'] + t));
    OpeningThen(u, m, t);
    ScanStep(['('] + (u + quotes), '(', u + quotes, mode, d);
    BareScans(u, quotes, mode, d');
    QuotesScan(m, t, mode, d');
  }

  /** How short endings scan. */
  lemma BreakingEnding()
    ensures Scan("\")\")", Quoted, 1) == Some(2) && Scan("\")\")", Plain, 1) == Some(4)
    ensures Scan("", Quoted, 1) == None
  {}

  lemma HarmlessEnding()
    ensures Scan(" )\")", Quoted, 1) == Some(4) && Scan(" )\")", Plain, 1) == Some(2)
    ensures Scan("\")", Quoted, 1) == Some(2)
  {}

  lemma {:induction false} BareKeepsMode(s: string, mode: Mode)
    requires Bare(s) && mode != Escaped
    ensures ModeAfter(mode, s) == mode
  {
    if s != "" { BareKeepsMode(s[1..], mode); }
  }

  lemma ModeAfterOpening(u: string, m: string)
    requires Bare(u) && Bare(m)
    ensures ModeAfter(Plain, Opening(u, m)) == Plain
  {
    BareKeepsMode(u, Plain);
    BareKeepsMode(m, Quoted);
    LexConcat(Quoted, m, ['"']);
    LexConcat(Plain, ['"'], m + ['"']);
    LexConcat(Plain, u, ['"'] + (m + ['"']));
    LexConcat(Plain, ['('], u + (['"'] + (m + ['"'])));
  }

  /** An opening, and inside a string literal that follows it another one, then some ending. */
  function Nested(u: string, m: string, ending: string): string {
    Opening(u, m) + ([' '] + (['"'] + (Opening(u, m) + ending)))
  }

  lemma NestedScans(u: string, m: string, ending: string, t: string, d: nat)
    requires Bare(u) && Bare(m) && t == [' '] + (['"'] + ending)
    ensures Scan(Opening(u, m) + t, Plain, d) == Shift(Scan(ending, Quoted, d + 1), |Opening(u, m)| + 2)
  {
    OpeningScans(u, m, t, Plain, d);
    ScanStep(t, ' ', ['"'] + ending, Plain, d + 1);
    ScanStep(['"'] + ending, '"', ending, Plain, d + 1);
  }

  function Lead(u: string, m: string): string {
    Opening(u, m) + [' '] + ['"']
  }

  /** The text parts where the inner opening starts, and that is inside a string. */
  lemma NestedParts(u: string, m: string, tail: string)
    requires Bare(u) && Bare(m)
    ensures Opening(u, m) + ([' '] + (['"'] + tail)) == Lead(u, m) + tail
    ensures ModeAfter(Plain, Lead(u, m)) == Quoted
  {
    var opening := Opening(u, m);
    Assoc(opening, [' '], ['"'] + tail);
    Assoc(opening + [' '], ['"'], tail);
    ModeAfterOpening(u, m);
    LexConcat(Plain, opening, [' ']);
    LexConcat(Plain, opening + [' '], ['"']);
  }

  lemma NestedShape(u: string, m: string, ending: string)
    requires Bare(u) && Bare(m)
    ensures var text, n := Nested(u, m, ending), |Opening(u, m)|;
            && |text| == 2 * n + 2 + |ending|
            && text[n + 2..] == Opening(u, m) + ending && ModeAt(text, n + 2) == Quoted
  {
    NestedParts(u, m, Opening(u, m) + ending);
    ConcatParts(Lead(u, m), Opening(u, m) + ending);
  }

  lemma NestedInner(u: string, m: string, ending: string)
    requires Bare(u) && Bare(m)
    ensures |Nested(u, m, ending)| == 2 * |Opening(u, m)| + 2 + |ending|
    ensures EndOf(Nested(u, m, ending), |Opening(u, m)| + 2) == Shift(Scan(ending, Plain, 1), 2 * |Opening(u, m)| + 2)
  {
    NestedShape(u, m, ending);
    OpeningScans(u, m, ending, Plain, 0);
  }

  lemma NestedOuter(u: string, m: string, ending: string)
    requires Bare(u) && Bare(m)
    ensures EndOf(Nested(u, m, ending), 0) == Shift(Scan(ending, Quoted, 1), 2 * |Opening(u, m)| + 2)
  {
    var tail := Opening(u, m) + ending;
    NestedScans(u, m, tail, [' '] + (['"'] + tail), 0);
    OpeningScans(u, m, ending, Quoted, 1);
    assert Nested(u, m, ending)[0..] == Nested(u, m, ending);
  }

  /** What cutting the inner expression leaves. */
  lemma NestedCut(u: string, m: string, ending: string, after: string, end: nat)
    requires Bare(u) && Bare(m) && end <= |Nested(u, m, ending)| && Nested(u, m, ending)[end..] == after
    ensures var cut := Nested(u, m, ending)[..|Opening(u, m)| + 2] + after;
            && |cut| == |Opening(u, m)| + 2 + |after|
            && EndOf(cut, 0) == Shift(Scan(after, Quoted, 1), |Opening(u, m)| + 2)
  {
    NestedParts(u, m, Opening(u, m) + ending);
    ConcatParts(Lead(u, m), Opening(u, m) + ending);
    NestedParts(u, m, after);
    NestedScans(u, m, after, [' '] + (['"'] + after), 0);
    assert (Lead(u, m) + after)[0..] == Lead(u, m) + after;
  }

  const USER := "fp_text" + " " + "user" + " "
  const REFERENCE := "${REFERENCE}"

  /** The pattern matches at the start and inside the string literal. */
  lemma NestedHasPatterns(ending: string)
    ensures Bare(USER) && Bare(REFERENCE) && |Opening(USER, REFERENCE)| == 28
    ensures var text := Nested(USER, REFERENCE, ending); |text| == 58 + |ending| && text[0] == text[30] == '('
    ensures PatternAt(Nested(USER, REFERENCE, ending), 0) && PatternAt(Nested(USER, REFERENCE, ending), 30)
  {
    var opening, text := Opening(USER, REFERENCE), Nested(USER, REFERENCE, ending);
    NestedShape(USER, REFERENCE, ending);
    assert "(fp_text" + " " + "user" + " " + "\"${REFERENCE}\"" == opening;
    assert AllSpace(" ");
    assert text[0..] == text;
  }

  /** Why the matches should start outside string literals.  In
  `(fp_text user "${REFERENCE}" "(fp_text user "${REFERENCE}"")")` the pattern matches at 0 and, inside
  a string, at 30.  Both expressions have an end in the text, and still the loop raises. */
  lemma MatchInsideStringBreaksLoop()
    ensures var text := Nested(USER, REFERENCE, "\")\")");
            && PatternAt(text, 0) && PatternAt(text, 30) && ModeAt(text, 30) == Quoted
            && EndOf(text, 0) == Some(60) && EndOf(text, 30) == Some(62) && |text| == 62
            && Deleted(text, [0, 30]) == None
  {
    var ending := "\")\")";
    var text := Nested(USER, REFERENCE, ending);
    NestedHasPatterns(ending);
    NestedShape(USER, REFERENCE, ending);
    NestedInner(USER, REFERENCE, ending);
    NestedOuter(USER, REFERENCE, ending);
    BreakingEnding();
    NestedCut(USER, REFERENCE, ending, "", 62);
    DeletedPair(text, 0, 30);
  }

  lemma NestedInList(u: string, m: string, ending: string)
    requires Bare(u) && Bare(m)
    ensures Nested(u, m, ending) + ")" == Nested(u, m, ending + ")")
    ensures Scan(Nested(u, m, ending), Plain, 1) == Shift(Scan(ending, Quoted, 2), 2 * |Opening(u, m)| + 2)
  {
    var tail := Opening(u, m) + ending;
    NestedParts(u, m, tail);
    NestedParts(u, m, tail + ")");
    Assoc(Lead(u, m), tail, ")");
    Assoc(Opening(u, m), ending, ")");
    NestedScans(u, m, tail, [' '] + (['"'] + tail), 1);
    OpeningScans(u, m, ending, Quoted, 2);
  }

  /** `"(")` and then c. */
  function Crossing(c: string): string {
    ['"'] + (['('] + (['"'] + ([')'] + c)))
  }

  /** From inside a string it opens a level and ends in a string; from outside it closes one. */
  lemma CrossingScans(c: string, d: nat)
    ensures Scan(Crossing(c), Quoted, d) == Shift(Scan(c, Quoted, d + 1), 4)
    ensures Scan(Crossing(c), Plain, 1) == Some(4)
  {
    var c1, c2, c3 := [')'] + c, ['"'] + ([')'] + c), ['('] + (['"'] + ([')'] + c));
    ScanStep(Crossing(c), '"', c3, Quoted, d);
    ScanStep(c3, '(', c2, Plain, d);
    ScanStep(c2, '"', c1, Plain, d + 1);
    ScanStep(c1, ')', c, Quoted, d + 1);
    ScanStep(Crossing(c), '"', c3, Plain, 1);
    ScanStep(c3, '(', c2, Quoted, 1);
    ScanStep(c2, '"', c1, Quoted, 1);
    ScanStep(c1, ')', c, Plain, 1);
  }

  lemma QuoteAndTwo()
    ensures Scan("\"))", Quoted, 1) == Some(2) && Scan("\"))", Quoted, 2) == Some(3)
  {}

  lemma QuoteAndThree()
    ensures Scan("\")))", Quoted, 3) == Some(4) && Scan("))", Plain, 1) == Some(1)
  {}

  lemma CrossingInList(u: string, m: string)
    requires Bare(u) && Bare(m)
    ensures BalancedText(Nested(u, m, Crossing("\"))"))) && !BalancedText(")")
  {
    var ending := Crossing("\"))");
    assert "\"))" + ")" == "\")))" && ")" + ")" == "))";
    assert ending + ")" == Crossing("\")))");
    CrossingScans("\")))", 2);
    QuoteAndThree();
    NestedShape(u, m, ending);
    NestedInList(u, m, ending);
    NestedInList(u, m, ending + ")");
  }

  lemma CrossingExtents(u: string, m: string, c: string)
    requires Bare(u) && Bare(m) && |c| == 3 && Scan(c, Quoted, 2) == Some(3)
    ensures var n, text := |Opening(u, m)|, Nested(u, m, Crossing(c));
            && |text| == 2 * n + 9 && EndOf(text, 0) == Some(2 * n + 9) && EndOf(text, n + 2) == Some(2 * n + 6)
  {
    CrossingScans(c, 1);
    NestedInner(u, m, Crossing(c));
    NestedOuter(u, m, Crossing(c));
  }

  lemma NestedRest(u: string, m: string, ending: string, k: nat)
    requires Bare(u) && Bare(m) && k <= |ending|
    ensures var n, text := |Opening(u, m)|, Nested(u, m, ending);
            2 * n + 2 + k <= |text| && text[2 * n + 2 + k..] == ending[k..]
  {
    var n, text := |Opening(u, m)|, Nested(u, m, ending);
    NestedShape(u, m, ending);
    ConcatParts(Opening(u, m), ending);
    DropDrop(text, n + 2, n);
    DropDrop(text, 2 * n + 2, k);
  }

  lemma CrossingIsCut(u: string, m: string)
    requires Bare(u) && Bare(m)
    ensures Deleted(Nested(u, m, Crossing("\"))")), [0, |Opening(u, m)| + 2]) == Some(")")
  {
    var n, after := |Opening(u, m)|, "\"))";
    var text := Nested(u, m, Crossing(after));
    QuoteAndTwo();
    CrossingExtents(u, m, after);
    NestedRest(u, m, Crossing(after), 4);
    assert Crossing(after)[4..] == after;
    NestedCut(u, m, Crossing(after), after, 2 * n + 6);
    DeletedPair(text, 0, n + 2);
    LastIsLeft(text[..n + 2], after);
  }

  lemma LastIsLeft(x: string, after: string)
    requires after == "\"))"
    ensures (x + after)[..0] + (x + after)[|x| + 2..] == ")"
  {}

  /** Worse, it can do harm unnoticed.  The balanced text
  `(fp_text user "${REFERENCE}" "(fp_text user "${REFERENCE}""(")"))` loses all but its last parenthesis. */
  lemma MatchInsideStringUnbalances()
    ensures var text := Nested(USER, REFERENCE, Crossing("\"))"));
            && PatternAt(text, 0) && PatternAt(text, 30) && ModeAt(text, 30) == Quoted
            && EndOf(text, 0) == Some(65) && EndOf(text, 30) == Some(62) && |text| == 65
            && BalancedText(text) && Deleted(text, [0, 30]) == Some(")") && !BalancedText(")")
  {
    NestedHasPatterns(Crossing("\"))"));
    NestedShape(USER, REFERENCE, Crossing("\"))"));
    CrossingInList(USER, REFERENCE);
    QuoteAndTwo();
    CrossingExtents(USER, REFERENCE, "\"))");
    CrossingIsCut(USER, REFERENCE);
  }

  lemma {:induction false} BareKeepsDepth(s: string, mode: Mode)
    requires Bare(s) && mode != Escaped
    ensures Depth(mode, s) == 0
  {
    if s != "" { BareKeepsDepth(s[1..], mode); }
  }

  lemma OpeningInString(u: string, m: string)
    requires Bare(u) && Bare(m)
    ensures ModeAfter(Quoted, Opening(u, m)) == Quoted && Depth(Quoted, Opening(u, m)) == 0
  {
    BareKeepsMode(u, Quoted);
    BareKeepsMode(m, Plain);
    BareKeepsDepth(u, Quoted);
    BareKeepsDepth(m, Plain);
    LexConcat(Plain, m, ['"']);
    LexConcat(Quoted, ['"'], m + ['"']);
    LexConcat(Quoted, u, ['"'] + (m + ['"']));
    LexConcat(Quoted, ['('], u + (['"'] + (m + ['"'])));
  }

  /** The inner expression ends inside the string literal in which it starts. */
  lemma HarmlessIsUnmoved()
    ensures Unmoved(Quoted, Opening(USER, REFERENCE) + " )")
  {
    var x := Opening(USER, REFERENCE) + " )";
    NestedHasPatterns("");
    OpeningInString(USER, REFERENCE);
    LexConcat(Quoted, Opening(USER, REFERENCE), " )");
    Assoc(Opening(USER, REFERENCE), " )", "\")");
    assert " )" + "\")" == " )\")";
    HarmlessEnding();
    OpeningScans(USER, REFERENCE, " )\")", Quoted, 1);
    LongScanStaysOpen(x, "\")", Quoted, 1);
  }

  lemma PairIsTidy(text: string, m: nat)
    requires 0 < m < |text| && text[0] == text[m] == '(' && EndOf(text, m).Some?
    requires Unmoved(ModeAt(text, m), text[m..EndOf(text, m).value])
    ensures Tidy(text, [0, m])
  {
    assert text[..0] == "";
    ModeStep(text, 0);
    ModeBetween(text, 1, m);
    SliceOfTail(text, 1, m - 1);
    assert PassesLater(text)(0, m);
  }

  /** A match inside a string literal need not hurt: in
  `(fp_text user "${REFERENCE}" "(fp_text user "${REFERENCE}" )")` the matches are tidy, and the loop
  removes exactly the union. */
  lemma MatchInsideStringMayBeHarmless()
    ensures var text := Nested(USER, REFERENCE, " )\")");
            && PatternAt(text, 0) && PatternAt(text, 30) && ModeAt(text, 30) == Quoted
            && Tidy(text, [0, 30]) && AllBalanced(text, [0, 30])
            && Deleted(text, [0, 30]) == Some(Kept(text, [0, 30], 0))
  {
    var ending := " )\")";
    var text := Nested(USER, REFERENCE, ending);
    NestedHasPatterns(ending);
    NestedShape(USER, REFERENCE, ending);
    NestedInner(USER, REFERENCE, ending);
    NestedOuter(USER, REFERENCE, ending);
    HarmlessEnding();
    assert text[30..60] == Opening(USER, REFERENCE) + " )" by { SliceOfTail(text, 30, 30); }
    HarmlessIsUnmoved();
    PairIsTidy(text, 30);
    DeletedIsUnion(text, [0, 30]);
  }

  lemma DeletedPair(text: string, a: nat, b: nat)
    requires a < b < |text|
    ensures Deleted(text, [a, b]) ==
              match EndOf(text, b)
              case None => None
              case Some(end) =>
                var edited := text[..b] + text[end..];
                match EndOf(edited, a)
                case None => None
                case Some(end') => Some(edited[..a] + edited[end'..])
  {
    assert [a, b][1..] == [b] && [b][1..] == [];
    assert Deleted(text, [b][1..]) == Some(text);
  }
}
