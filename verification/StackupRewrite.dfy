/** The stackup rewrite of set_fabrication_stackup.py.

The script cuts an existing stackup expression out of a board file, sets the
general thickness and inserts its own stackup after the setup line, all by text
surgery.  Running it again is proved to reproduce the same text except for one
more blank line, hence the same S-expressions. */
module StackupRewrite {
  import opened Prelude
  import opened Sequences
  import opened BalancedScan
  import opened PythonText
  import opened SexpTrees
  import FieldSync

  // ---------------------------------------------------- the inserted stackup ---

  function Quote(s: string): Sexp {
    Str(seq(|s|, i requires 0 <= i < |s| => Literal(s[i])))
  }

  function Named(name: string, value: string): (x: Sexp)
    requires IsPlainText(name)
    ensures WellFormed(x)
  {
    List([Text(name), Text(" "), Quote(value)])
  }

  function Number(name: string, value: string): (x: Sexp)
    requires IsPlainText(name) && IsPlainText(value)
    ensures WellFormed(x)
  {
    List([Text(name), Text(" "), Text(value)])
  }

  /** Entries, each after the same separator. */
  function Separated(separator: string, entries: seq<Sexp>): (xs: seq<Sexp>)
    requires IsPlainText(separator) && forall i :: 0 <= i < |entries| ==> WellFormed(entries[i])
    ensures forall i :: 0 <= i < |xs| ==> WellFormed(xs[i])
  {
    if entries == [] then [] else [Text(separator), entries[0]] + Separated(separator, entries[1..])
  }

  function Layer(name: string, kind: string, fields: seq<Sexp>): (x: Sexp)
    requires forall i :: 0 <= i < |fields| ==> WellFormed(fields[i])
    ensures WellFormed(x)
  {
    List([Text("layer"), Text(" "), Quote(name), Text(" "), Named("type", kind)] + Separated(" ", fields))
  }

  function TopEntries(): (xs: seq<Sexp>)
    ensures forall i :: 0 <= i < |xs| ==> WellFormed(xs[i])
  {
    [Layer("F.SilkS", "Top Silk Screen", []),
     Layer("F.Paste", "Top Solder Paste", []),
     Layer("F.Mask", "Top Solder Mask", [Number("thickness", "0.01")]),
     Layer("F.Cu", "copper", [Number("thickness", "0.035")])]
  }

  function CoreEntry(): (x: Sexp)
    ensures WellFormed(x)
  {
    Layer("dielectric 1", "core", Geometry() + Electrics())
  }

  function Geometry(): (xs: seq<Sexp>)
    ensures forall i :: 0 <= i < |xs| ==> WellFormed(xs[i])
  {
    [Number("thickness", "0.91"), Named("material", "FR4")]
  }

  function Electrics(): (xs: seq<Sexp>)
    ensures forall i :: 0 <= i < |xs| ==> WellFormed(xs[i])
  {
    [Number("epsilon_r", "4.5"), Number("loss_tangent", "0.02")]
  }

  function BottomEntries(): (xs: seq<Sexp>)
    ensures forall i :: 0 <= i < |xs| ==> WellFormed(xs[i])
  {
    [Layer("B.Cu", "copper", [Number("thickness", "0.035")]),
     Layer("B.Mask", "Bottom Solder Mask", [Number("thickness", "0.01")]),
     Layer("B.Paste", "Bottom Solder Paste", []),
     Layer("B.SilkS", "Bottom Silk Screen", []),
     Named("copper_finish", "ENIG"),
     Number("dielectric_constraints", "no")]
  }

  function StackupItems(): (xs: seq<Sexp>)
    ensures forall i :: 0 <= i < |xs| ==> WellFormed(xs[i])
  {
    [Text("stackup")]
    + Separated("\n\t\t\t", TopEntries() + [CoreEntry()] + BottomEntries())
    + [Text("\n\t\t")]
  }

  /** The text that the script inserts: an indented expression on lines of its own. */
  function Inserted(items: seq<Sexp>): string {
    "\t\t" + Print(List(items)) + "\n"
  }

  const OPEN_STACKUP := "(stackup"
  const SETUP := "\t(setup\n"
  const BLANK_LINE := "\t\t\n"

  // ---------------------------------------------- str.find, str.count, re.subn ---

  function Find(t: string, pat: string): (i: Option<nat>)
    ensures i.Some? ==> i.value + |pat| <= |t|
    decreases |t|
  {
    if pat <= t then Some(0)
    else if t == "" then None
    else Shift(Find(t[1..], pat), 1)
  }

  ghost predicate OccursAt(t: string, pat: string, i: nat) {
    i <= |t| && pat <= t[i..]
  }

  lemma {:induction false} FindIsFirst(t: string, pat: string)
    ensures Find(t, pat).None? ==> forall j: nat :: !OccursAt(t, pat, j)
    ensures Find(t, pat).Some? ==> OccursAt(t, pat, Find(t, pat).value)
    ensures Find(t, pat).Some? ==> forall j: nat :: j < Find(t, pat).value ==> !OccursAt(t, pat, j)
    decreases |t|
  {
    assert t[0..] == t;
    if !(pat <= t) && t != "" {
      FindIsFirst(t[1..], pat);
      forall j: nat | 0 < j
        ensures OccursAt(t, pat, j) == OccursAt(t[1..], pat, j - 1)
      {
        if j <= |t| { assert t[j..] == t[1..][j - 1..]; }
      }
    }
  }

  lemma FirstIsFound(t: string, pat: string, i: nat)
    requires OccursAt(t, pat, i) && forall j: nat :: j < i ==> !OccursAt(t, pat, j)
    ensures Find(t, pat) == Some(i)
  {
    FindIsFirst(t, pat);
  }

  function Count(t: string, pat: string): nat
    requires pat != ""
    decreases |t|
  {
    match Find(t, pat)
    case None => 0
    case Some(i) => 1 + Count(t[i + |pat|..], pat)
  }

  predicate IsDigit(c: char) { '0' <= c <= '9' || c == '.' }

  function Blanks(s: string): (n: nat)
    ensures n <= |s|
  {
    if s == "" || !IsSpace(s[0]) then 0 else 1 + Blanks(s[1..])
  }

  function Digits(s: string): (n: nat)
    ensures n <= |s|
  {
    if s == "" || !IsDigit(s[0]) then 0 else 1 + Digits(s[1..])
  }

  const GENERAL := "(general"
  const THICKNESS := "(thickness"

  /** Length of `(general\s*(thickness\s+` at the start of s, when a number follows it. */
  function ThicknessAt(s: string): (k: Option<nat>)
    ensures k.Some? ==> 0 < k.value < |s| && Digits(s[k.value..]) > 0
  {
    if GENERAL <= s then NumberAt(s, |GENERAL| + Blanks(s[|GENERAL|..])) else None
  }

  /** Where the number starts, when `(thickness\s+` and a number stand at j. */
  function NumberAt(s: string, j: nat): (k: Option<nat>)
    requires j <= |s|
    ensures k.Some? ==> j < k.value < |s| && Digits(s[k.value..]) > 0
  {
    if !(THICKNESS <= s[j..]) then None else
    var k := j + |THICKNESS|;
    var b := Blanks(s[k..]);
    if b == 0 || Digits(s[k + b..]) == 0 then None else Some(k + b)
  }

  function Prepend(x: string, t: Option<string>): Option<string> {
    match t
    case None => None
    case Some(y) => Some(x + y)
  }

  /** `re.subn(..., count=1)`: the leftmost thickness set to 1.0, or None when the count is zero. */
  function SetThickness(s: string): Option<string>
    decreases |s|
  {
    match ThicknessAt(s)
    case Some(_) => Some(Substituted(s))
    case None => if s == "" then None else Prepend([s[0]], SetThickness(s[1..]))
  }

  // ------------------------------------------------------------ the rewrite ---

  datatype Error = Unbalanced | UnexpectedFormat

  /** The text without its first stackup expression, if it has one. */
  function CutStackup(text: string): Result<string, Error> {
    match Find(text, OPEN_STACKUP)
    case None => Ok(text)
    case Some(existing) =>
      match EndOf(text, existing)
      case None => Err(Unbalanced)
      case Some(end) => Ok(text[..existing] + text[end..])
  }

  /** The text with the stackup after its setup line, of which there must be exactly one. */
  function InsertStackup(items: seq<Sexp>, text: string): Result<string, Error> {
    InsertAfter(text, SETUP, Inserted(items))
  }

  function InsertAfter(text: string, pat: string, inserted: string): Result<string, Error>
    requires pat != ""
  {
    if Count(text, pat) != 1 then Err(UnexpectedFormat)
    else
      CountOneIsFound(text, pat);
      Ok(InsertedAt(text, Find(text, pat).value, pat, inserted))
  }

  function InsertedAt(text: string, i: nat, pat: string, inserted: string): string
    requires i + |pat| <= |text|
  {
    text[..i] + (pat + inserted) + text[i + |pat|..]
  }

  lemma CountOneIsFound(t: string, pat: string)
    requires pat != "" && Count(t, pat) == 1
    ensures Find(t, pat).Some? && Find(t[Find(t, pat).value + |pat|..], pat).None?
  {}

  lemma Insertion(text: string, pat: string, inserted: string)
    requires pat != "" && Count(text, pat) == 1
    ensures Find(text, pat).Some?
    ensures var i := Find(text, pat).value;
            i + |pat| <= |text|
            && InsertAfter(text, pat, inserted) == Ok(InsertedAt(text, i, pat, inserted))
  {
    CountOneIsFound(text, pat);
  }

  /** The rewrite of one board file, for the stackup expression with these items. */
  function Rewrite(items: seq<Sexp>, text: string): Result<string, Error> {
    match CutStackup(text)
    case Err(e) => Err(e)
    case Ok(cut) =>
      match SetThickness(cut)
      case None => Err(UnexpectedFormat)
      case Some(changed) => InsertStackup(items, changed)
  }

  // ---------------------------------------------- the thickness is set once ---

  lemma {:induction false} BlanksExactly(x: string, y: string)
    requires AllSpace(x) && (y == "" || !IsSpace(y[0]))
    ensures Blanks(x + y) == |x|
  {
    if x == "" {
      ConcatEmpty(y);
    } else {
      BlanksExactly(x[1..], y);
      TailOfConcat(x, y);
    }
  }

  lemma {:induction false} BlanksSplit(s: string)
    ensures forall i :: 0 <= i < Blanks(s) ==> IsSpace(s[i])
    ensures Blanks(s) < |s| ==> !IsSpace(s[Blanks(s)])
  {
    if s != "" && IsSpace(s[0]) { BlanksSplit(s[1..]); }
  }

  lemma {:induction false} BlanksStop(a: string, y: string)
    requires y != "" && y[0] == '('
    ensures Blanks(a + y) == Blanks(a)
  {
    if a == "" {
      ConcatEmpty(y);
      BlanksExactly("", y);
    } else {
      BlanksStop(a[1..], y);
      TailOfConcat(a, y);
    }
  }

  lemma {:induction false} DigitsStop(a: string, y: string)
    requires y == "" || !IsDigit(y[0])
    ensures Digits(a + y) == Digits(a)
  {
    if a == "" {
      ConcatEmpty(y);
    } else {
      DigitsStop(a[1..], y);
      TailOfConcat(a, y);
    }
  }

  lemma {:induction false} DigitsSplit(s: string)
    ensures forall i :: 0 <= i < Digits(s) ==> IsDigit(s[i])
    ensures Digits(s) < |s| ==> !IsDigit(s[Digits(s)])
  {
    if s != "" && IsDigit(s[0]) { DigitsSplit(s[1..]); }
  }

  /** A later `(` that does not open `(t...` cuts the pattern off: what follows it has no influence. */
  lemma ThicknessIsLocal(a: string, y: string)
    requires a != "" && |y| >= 2 && y[0] == '(' && y[1] != 't'
    ensures ThicknessAt(a + y) == ThicknessAt(a)
    ensures ThicknessAt(a).Some? ==> Digits((a + y)[ThicknessAt(a).value..]) == Digits(a[ThicknessAt(a).value..])
  {
    if |a| < |GENERAL| {
      GeneralIsCutOff(a, y);
    } else {
      var j := |GENERAL| + Blanks(a[|GENERAL|..]);
      assert GENERAL <= a + y <==> GENERAL <= a by { SamePrefix(a, y, GENERAL); }
      assert Blanks((a + y)[|GENERAL|..]) == Blanks(a[|GENERAL|..]) by { SpacesAreLocal(a, y, |GENERAL|); }
      NumberIsLocal(a, y, j);
    }
  }

  lemma NumberIsLocal(a: string, y: string, j: nat)
    requires j <= |a| && |y| >= 2 && y[0] == '(' && y[1] != 't'
    ensures NumberAt(a + y, j) == NumberAt(a, j)
    ensures NumberAt(a, j).Some? ==> Digits((a + y)[NumberAt(a, j).value..]) == Digits(a[NumberAt(a, j).value..])
  {
    ThicknessTailIsLocal(a, y, j);
  }

  lemma GeneralIsCutOff(a: string, y: string)
    requires a != "" && |a| < |GENERAL| && y != "" && y[0] == '('
    ensures !(GENERAL <= a + y) && !(GENERAL <= a)
  {
    assert (a + y)[|a|] == '(' && forall i :: 1 <= i < |GENERAL| ==> GENERAL[i] != '(';
  }

  lemma SpacesAreLocal(a: string, y: string, n: nat)
    requires n <= |a| && y != "" && y[0] == '('
    ensures Blanks((a + y)[n..]) == Blanks(a[n..])
  {
    DropConcat(a, y, n);
    BlanksStop(a[n..], y);
  }

  lemma SamePrefix(a: string, y: string, pat: string)
    requires |pat| <= |a|
    ensures pat <= a + y <==> pat <= a
  {
    assert (a + y)[..|pat|] == a[..|pat|];
  }

  lemma ThicknessTailIsLocal(a: string, y: string, j: nat)
    requires j <= |a| && |y| >= 2 && y[0] == '(' && y[1] != 't'
    ensures THICKNESS <= (a + y)[j..] <==> THICKNESS <= a[j..]
    ensures THICKNESS <= a[j..] ==>
              var k := j + |THICKNESS|;
              var b := Blanks(a[k..]);
              Blanks((a + y)[k..]) == b && Digits((a + y)[k + b..]) == Digits(a[k + b..])
  {
    var t := (a + y)[j..];
    assert t == a[j..] + y;
    if |a| - j < |THICKNESS| {
      var i := |a| - j;
      assert t[i] == '(' && t[i + 1] != 't' && forall i :: 1 <= i < |THICKNESS| ==> THICKNESS[i] != '(';
      assert !(THICKNESS <= t) && !(THICKNESS <= a[j..]);
    } else {
      var k := j + |THICKNESS|;
      var b := Blanks(a[k..]);
      SamePrefix(a[j..], y, THICKNESS);
      DropConcat(a, y, k);
      BlanksStop(a[k..], y);
      DropConcat(a, y, k + b);
      DigitsStop(a[k + b..], y);
    }
  }

  /** The pattern still matches, at the same length, after its number has been replaced. */
  lemma ThicknessSurvives(s: string, z: string)
    requires ThicknessAt(s).Some?
    requires ThicknessAt(s).value < |z| && z[..ThicknessAt(s).value] == s[..ThicknessAt(s).value]
    requires IsDigit(z[ThicknessAt(s).value])
    ensures ThicknessAt(z) == ThicknessAt(s)
  {
    var k, n := ThicknessAt(s).value, |GENERAL|;
    var j := n + Blanks(s[n..]);
    var m := j + |THICKNESS|;
    assert forall i :: 0 <= i < k ==> z[i] == z[..k][i] == s[..k][i] == s[i];
    SamePattern(s, z, 0, GENERAL);
    SamePattern(s, z, j, THICKNESS);
    SameBlanks(s, z, n, j);
    SameBlanks(s, z, m, k);
    ThicknessFrom(z, j, k);
  }

  lemma ThicknessFrom(z: string, j: nat, k: nat)
    requires GENERAL <= z && j == |GENERAL| + Blanks(z[|GENERAL|..])
    requires j <= |z| && THICKNESS <= z[j..] && j + |THICKNESS| < k < |z|
    requires Blanks(z[j + |THICKNESS|..]) == k - j - |THICKNESS| && IsDigit(z[k])
    ensures ThicknessAt(z) == Some(k)
  {
    NumberFrom(z, j, k);
  }

  lemma NumberFrom(z: string, j: nat, k: nat)
    requires j <= |z| && THICKNESS <= z[j..] && j + |THICKNESS| < k < |z|
    requires Blanks(z[j + |THICKNESS|..]) == k - j - |THICKNESS| && IsDigit(z[k])
    ensures NumberAt(z, j) == Some(k)
  {
    assert Digits(z[k..]) > 0;
  }

  lemma SamePattern(s: string, z: string, i: nat, pat: string)
    requires i + |pat| <= |s| && i + |pat| <= |z| && pat <= s[i..]
    requires forall k :: i <= k < i + |pat| ==> z[k] == s[k]
    ensures pat <= z[i..] && (i == 0 ==> pat <= z)
  {
    assert forall k :: 0 <= k < |pat| ==> pat[k] == s[i..][k] == s[i + k];
  }

  lemma SameBlanks(s: string, z: string, i: nat, j: nat)
    requires i <= j < |s| && j < |z| && j == i + Blanks(s[i..])
    requires forall k :: i <= k < j ==> z[k] == s[k]
    requires !IsSpace(z[j])
    ensures Blanks(z[i..]) == j - i
  {
    BlanksSplit(s[i..]);
    assert forall k :: i <= k < j ==> s[k] == s[i..][k - i];
    assert z[i..] == z[i..j] + z[j..];
    BlanksExactly(z[i..j], z[j..]);
  }

  /** What the substitution does where the pattern matches. */
  function Substituted(t: string): string
    requires ThicknessAt(t).Some?
  {
    var k := ThicknessAt(t).value;
    t[..k] + "1.0" + t[k + Digits(t[k..])..]
  }

  lemma SubstitutedAgain(t: string)
    requires ThicknessAt(t).Some?
    ensures ThicknessAt(Substituted(t)).Some? && Substituted(Substituted(t)) == Substituted(t)
  {
    var z, k := Substituted(t), ThicknessAt(t).value;
    var rest := t[k + Digits(t[k..])..];
    DropDrop(t, k, Digits(t[k..]));
    SplicedParts(t[..k], "1.0", rest);
    ThicknessSurvives(t, z);
    OneIsRead(t[k..], rest);
    SubstitutedIs(z, t[..k], "1.0", rest);
  }

  lemma OneIsRead(s: string, rest: string)
    requires rest == s[Digits(s)..]
    ensures Digits("1.0" + rest) == 3
  {
    DigitsSplit(s);
    DigitsStop("1.0", rest);
  }

  lemma SubstitutedIs(z: string, x: string, number: string, y: string)
    requires z == x + number + y && ThicknessAt(z) == Some(|x|) && Digits(z[|x|..]) == |number|
    ensures Substituted(z) == x + "1.0" + y
  {
    SplicedParts(x, number, y);
  }

  lemma SplicedParts(x: string, d: string, y: string)
    ensures var z := x + d + y; z[..|x|] == x && z[|x|..] == d + y && z[|x| + |d|..] == y
  {
    Assoc(x, d, y);
    ConcatParts(x, d + y);
    ConcatParts(x + d, y);
  }

  lemma SetThicknessLater(s: string)
    requires SetThickness(s).Some? && ThicknessAt(s).None?
    ensures s != "" && SetThickness(s[1..]).Some?
    ensures SetThickness(s).value == [s[0]] + SetThickness(s[1..]).value
  {}

  /** The substitution happens at one place: where the pattern matches, behind some prefix. */
  lemma {:induction false} SubstitutionSite(s: string) returns (p: string, t: string)
    requires SetThickness(s).Some?
    ensures s == p + t && ThicknessAt(t).Some? && SetThickness(s).value == p + Substituted(t)
    decreases |s|
  {
    if ThicknessAt(s).Some? {
      p, t := "", s;
    } else {
      SetThicknessLater(s);
      var q: string;
      q, t := SubstitutionSite(s[1..]);
      p := [s[0]] + q;
      Reassociate(s[0], q, t);
      Reassociate(s[0], q, Substituted(t));
      assert s == [s[0]] + s[1..];
    }
  }

  // ------------------------------------------------------ what the pattern means ---

  predicate NoDigits(pat: string) { forall i :: 0 <= i < |pat| ==> !IsDigit(pat[i]) }

  ghost predicate AllDigits(x: string) { forall i :: 0 <= i < |x| ==> IsDigit(x[i]) }

  function Assembled(blanks: string, gap: string, number: string, rest: string): string {
    GENERAL + (blanks + (THICKNESS + (gap + (number + rest))))
  }

  /** `(general`, blanks or none, `(thickness`, blanks, a number, and the rest. */
  ghost predicate IsSite(t: string, blanks: string, gap: string, number: string, rest: string) {
    && AllSpace(blanks) && AllSpace(gap) && gap != "" && AllDigits(number) && number != ""
    && t == Assembled(blanks, gap, number, rest)
  }

  lemma SiteOffsets(g: string, blanks: string, th: string, gap: string, z: string)
    ensures var t := g + (blanks + (th + (gap + z)));
            && |t| == |g| + |blanks| + |th| + |gap| + |z|
            && g <= t && t[|g|..] == blanks + (th + (gap + z))
            && th <= t[|g| + |blanks|..]
            && t[|g| + |blanks| + |th|..] == gap + z
            && t[|g| + |blanks| + |th| + |gap|..] == z
  {
    var y := th + (gap + z);
    var t := g + (blanks + y);
    ConcatParts(g, blanks + y);
    DropDrop(t, |g|, |blanks|);
    ConcatParts(blanks, y);
    DropDrop(t, |g| + |blanks|, |th|);
    ConcatParts(th, gap + z);
    DropDrop(t, |g| + |blanks| + |th|, |gap|);
    ConcatParts(gap, z);
  }

  lemma SiteMatches(t: string, blanks: string, gap: string, number: string, rest: string)
    requires IsSite(t, blanks, gap, number, rest)
    ensures ThicknessAt(t).Some?
  {
    var z := number + rest;
    SiteOffsets(GENERAL, blanks, THICKNESS, gap, z);
    BlanksExactly(blanks, THICKNESS + (gap + z));
    assert z[0] == number[0] && !IsSpace(z[0]) && Digits(z) > 0;
    BlanksExactly(gap, z);
  }

  lemma FourParts(t: string, a: nat, b: nat, c: nat, d: nat)
    requires a <= b <= c <= d <= |t|
    ensures t[0..d] == t[0..a] + (t[a..b] + (t[b..c] + t[c..d]))
  {
    SliceSplit(t, 0, a, d);
    SliceSplit(t, a, b, d);
    SliceSplit(t, b, c, d);
  }

  lemma FourAnd(p: string, q: string, r: string, s: string, x: string)
    ensures (p + (q + (r + s))) + x == p + (q + (r + (s + x)))
  {
    Assoc(p, q + (r + s), x);
    Assoc(q, r + s, x);
    Assoc(r, s, x);
  }

  lemma BlankRun(t: string, a: nat)
    requires a <= |t|
    ensures AllSpace(t[a..a + Blanks(t[a..])])
  {
    BlanksSplit(t[a..]);
    SliceOfTail(t, a, Blanks(t[a..]));
  }

  lemma DigitRun(t: string, d: nat)
    requires d <= |t|
    ensures AllDigits(t[d..d + Digits(t[d..])])
    ensures d + Digits(t[d..]) < |t| ==> !IsDigit(t[d + Digits(t[d..])])
  {
    DigitsSplit(t[d..]);
    SliceOfTail(t, d, Digits(t[d..]));
  }

  lemma SiteFits(t: string)
    requires ThicknessAt(t).Some?
    ensures GENERAL <= t && |GENERAL| + Blanks(t[|GENERAL|..]) + |THICKNESS| <= |t|
  {}

  /** How the match is measured. */
  lemma SiteMeasures(t: string, b: nat, c: nat)
    requires ThicknessAt(t).Some? && b == |GENERAL| + Blanks(t[|GENERAL|..]) && c == b + |THICKNESS| && c <= |t|
    ensures THICKNESS <= t[b..] && Blanks(t[c..]) > 0 && ThicknessAt(t) == Some(c + Blanks(t[c..]))
  {}

  lemma SiteFront(t: string, general: string, thickness: string) returns (b: nat, c: nat)
    requires general == GENERAL && thickness == THICKNESS && ThicknessAt(t).Some?
    ensures |general| <= b <= c <= |t| && t[0..|general|] == general && t[b..c] == thickness
    ensures AllSpace(t[|general|..b]) && Blanks(t[c..]) > 0 && ThicknessAt(t) == Some(c + Blanks(t[c..]))
  {
    SiteFits(t);
    b := |general| + Blanks(t[|general|..]);
    c := b + |thickness|;
    SiteMeasures(t, b, c);
    BlankRun(t, |general|);
    SliceOfTail(t, b, |thickness|);
  }

  lemma SiteBack(t: string, c: nat) returns (d: nat, e: nat)
    requires c <= |t| && Blanks(t[c..]) > 0 && ThicknessAt(t) == Some(c + Blanks(t[c..]))
    ensures c < d < e <= |t| && AllSpace(t[c..d]) && AllDigits(t[d..e]) && (e < |t| ==> !IsDigit(t[e]))
    ensures Substituted(t) == t[0..d] + "1.0" + t[e..]
  {
    d := ThicknessAt(t).value;
    e := d + Digits(t[d..]);
    SiteRuns(t, c, d, e);
    SubstitutedAt(t, d, e);
  }

  lemma SiteRuns(t: string, c: nat, d: nat, e: nat)
    requires c < d < |t| && d == c + Blanks(t[c..]) && e == d + Digits(t[d..]) && d < e
    ensures e <= |t| && AllSpace(t[c..d]) && AllDigits(t[d..e]) && (e < |t| ==> !IsDigit(t[e]))
  {
    BlankRun(t, c);
    DigitRun(t, d);
  }

  lemma SubstitutedAt(t: string, d: nat, e: nat)
    requires ThicknessAt(t) == Some(d) && e == d + Digits(t[d..])
    ensures Substituted(t) == t[0..d] + "1.0" + t[e..]
  {}

  lemma MatchSplits(t: string) returns (blanks: string, gap: string, number: string, rest: string)
    requires ThicknessAt(t).Some?
    ensures IsSite(t, blanks, gap, number, rest) && (rest != "" ==> !IsDigit(rest[0]))
    ensures Substituted(t) == Assembled(blanks, gap, "1.0", rest)
  {
    var b, c := SiteFront(t, GENERAL, THICKNESS);
    var d, e := SiteBack(t, c);
    var a := |GENERAL|;
    blanks, gap, number, rest := t[a..b], t[c..d], t[d..e], t[e..];
    SiteParts(t, a, b, c, d, e, "1.0");
  }

  lemma SiteParts(t: string, a: nat, b: nat, c: nat, d: nat, e: nat, x: string)
    requires a <= b <= c <= d <= e <= |t|
    ensures t == t[0..a] + (t[a..b] + (t[b..c] + (t[c..d] + (t[d..e] + t[e..]))))
    ensures t[0..d] + x + t[e..] == t[0..a] + (t[a..b] + (t[b..c] + (t[c..d] + (x + t[e..]))))
  {
    FourParts(t, a, b, c, d);
    SliceSplit(t, d, e, |t|);
    SliceSplit(t, 0, d, |t|);
    assert t[0..|t|] == t && t[e..|t|] == t[e..];
    FourAnd(t[0..a], t[a..b], t[b..c], t[c..d], t[d..e] + t[e..]);
    Assoc(t[0..d], x, t[e..]);
    FourAnd(t[0..a], t[a..b], t[b..c], t[c..d], x + t[e..]);
  }

  lemma HeadThenTake(s: string, m: nat, x: string)
    requires m + 1 <= |s|
    ensures [s[0]] + (s[1..][..m] + x) == s[..m + 1] + x
  {
    TailOfTake(s, m + 1);
    HeadTail(s[..m + 1]);
    Assoc([s[0]], s[1..][..m], x);
  }

  lemma {:induction false} LeftmostSite(s: string) returns (n: nat)
    requires SetThickness(s).Some?
    ensures n <= |s| && ThicknessAt(s[n..]).Some? && SetThickness(s).value == s[..n] + Substituted(s[n..])
    ensures NoSiteBefore(s, n)
    decreases |s|
  {
    if ThicknessAt(s).Some? {
      n := 0;
      assert s[0..] == s && s[..0] + Substituted(s) == Substituted(s);
    } else {
      SetThicknessLater(s);
      var m := LeftmostSite(s[1..]);
      n := m + 1;
      DropDrop(s, 1, m);
      HeadThenTake(s, m, Substituted(s[n..]));
      NoSiteOneMore(s, m);
    }
  }

  ghost predicate NoSiteBefore(s: string, n: nat) {
    n <= |s| && forall j: nat :: j < n ==> ThicknessAt(s[j..]).None?
  }

  lemma NoSiteOneMore(s: string, m: nat)
    requires s != "" && ThicknessAt(s).None? && NoSiteBefore(s[1..], m)
    ensures NoSiteBefore(s, m + 1)
  {
    forall j: nat | j < m + 1
      ensures ThicknessAt(s[j..]).None?
    {
      if j > 0 { DropDrop(s, 1, j - 1); } else { assert s[0..] == s; }
    }
  }

  lemma {:induction false} NoSiteAnywhere(s: string)
    requires SetThickness(s).None?
    ensures forall j: nat :: j <= |s| ==> ThicknessAt(s[j..]).None?
    decreases |s|
  {
    assert s[0..] == s;
    if s != "" {
      NoSiteAnywhere(s[1..]);
      forall j: nat | j <= |s|
        ensures ThicknessAt(s[j..]).None?
      {
        if j > 0 { DropDrop(s, 1, j - 1); }
      }
    }
  }

  /** The substitution fails exactly when the pattern occurs nowhere; otherwise it replaces the whole
  number of its leftmost occurrence by 1.0 and leaves everything else. */
  lemma ThicknessSetAtFirstSite(s: string)
      returns (lead: string, blanks: string, gap: string, number: string, rest: string)
    ensures SetThickness(s).None? <==>
              forall j: nat, x, y, n, z | j <= |s| :: !IsSite(s[j..], x, y, n, z)
    ensures SetThickness(s).Some? ==>
              && s == lead + Assembled(blanks, gap, number, rest)
              && IsSite(s[|lead|..], blanks, gap, number, rest) && (rest != "" ==> !IsDigit(rest[0]))
              && SetThickness(s).value == lead + Assembled(blanks, gap, "1.0", rest)
              && (forall j: nat, x, y, n, z | j < |lead| :: !IsSite(s[j..], x, y, n, z))
  {
    lead, blanks, gap, number, rest := "", "", "", "", "";
    if SetThickness(s).None? {
      NoSiteAnywhere(s);
      forall j: nat, x, y, n, z | j <= |s|
        ensures !IsSite(s[j..], x, y, n, z)
      {
        if IsSite(s[j..], x, y, n, z) { SiteMatches(s[j..], x, y, n, z); }
      }
    } else {
      var n := LeftmostSite(s);
      lead := s[..n];
      blanks, gap, number, rest := MatchSplits(s[n..]);
      TakeDrop(s, n);
      forall j: nat, x, y, n, z | j < |lead|
        ensures !IsSite(s[j..], x, y, n, z)
      {
        if IsSite(s[j..], x, y, n, z) { SiteMatches(s[j..], x, y, n, z); }
      }
    }
  }

  lemma {:induction false} SetThicknessTwice(s: string)
    requires SetThickness(s).Some?
    ensures SetThickness(SetThickness(s).value) == SetThickness(s)
    decreases |s|
  {
    if ThicknessAt(s).Some? {
      SubstitutedAgain(s);
    } else {
      SetThicknessLater(s);
      SetThicknessTwice(s[1..]);
      var tail := SetThickness(s[1..]).value;
      NoEarlierThickness(s);
      assert ([s[0]] + tail)[1..] == tail;
    }
  }

  lemma Reassociate(c: char, q: string, t: string)
    ensures [c] + (q + t) == ([c] + q) + t
  {}

  lemma NoEarlierThickness(s: string)
    requires s != "" && SetThickness(s[1..]).Some? && ThicknessAt(s).None?
    ensures ThicknessAt([s[0]] + SetThickness(s[1..]).value).None?
  {
    var p, t := SubstitutionSite(s[1..]);
    Reassociate(s[0], p, t);
    Reassociate(s[0], p, Substituted(t));
    assert s == [s[0]] + s[1..];
    SubstitutedAgain(t);
    SameBefore([s[0]] + p, t, Substituted(t));
  }

  lemma SameBefore(a: string, t: string, t': string)
    requires a != "" && ThicknessAt(t).Some? && ThicknessAt(t').Some?
    ensures ThicknessAt(a + t) == ThicknessAt(a + t')
  {
    OpensGeneral(t);
    OpensGeneral(t');
    ThicknessIsLocal(a, t);
    ThicknessIsLocal(a, t');
  }

  lemma OpensGeneral(t: string)
    requires ThicknessAt(t).Some?
    ensures |t| >= 2 && t[0] == '(' && t[1] == 'g'
  {
    assert t[0] == GENERAL[0] && t[1] == GENERAL[1];
  }

  lemma {:induction false} SetThicknessSkips(x: string, y: string)
    requires '(' !in x
    ensures SetThickness(x + y) == Prepend(x, SetThickness(y))
  {
    if x == "" {
      ConcatEmpty(y);
      PrependEmpty(SetThickness(y));
    } else {
      SetThicknessSkips(x[1..], y);
      TailOfConcat(x, y);
      NotGeneral(x + y);
      SkipOne(x + y);
      PrependTwice([x[0]], x[1..], SetThickness(y));
      HeadTail(x);
    }
  }

  lemma ConcatEmpty(y: string)
    ensures "" + y == y
  {}

  lemma PrependEmpty(t: Option<string>)
    ensures Prepend("", t) == t
  {
    if t.Some? { ConcatEmpty(t.value); }
  }

  lemma NotGeneral(y: string)
    requires y != "" && (y[0] != '(' || (|y| > 1 && y[1] != 'g'))
    ensures !(GENERAL <= y)
  {
    assert GENERAL[0] == '(' && GENERAL[1] == 'g';
  }

  lemma SkipOne(y: string)
    requires y != "" && !(GENERAL <= y)
    ensures SetThickness(y) == Prepend([y[0]], SetThickness(y[1..]))
  {}

  /** An expression `(s...` splits the search: it succeeds before it, or else goes on behind it. */
  lemma {:induction false} SetThicknessSplits(a: string, y: string)
    requires |y| >= 2 && y[0] == '(' && y[1] == 's'
    ensures SetThickness(a + y) == match SetThickness(a)
                                   case Some(a') => Some(a' + y)
                                   case None => Prepend(a + y[..2], SetThickness(y[2..]))
    decreases |a|
  {
    if a == "" {
      ConcatEmpty(y);
      SkipOpening(y);
      ConcatEmpty(y[..2]);
    } else {
      ThicknessIsLocal(a, y);
      if ThicknessAt(a).Some? {
        SubstitutedLocally(a, y);
      } else {
        SetThicknessSplits(a[1..], y);
        SplitStep(a, y);
      }
    }
  }

  lemma SkipOpening(y: string)
    requires |y| >= 2 && y[0] == '(' && y[1] == 's'
    ensures SetThickness(y) == Prepend(y[..2], SetThickness(y[2..]))
  {
    NotGeneral(y);
    SkipOne(y);
    NotGeneral(y[1..]);
    SkipOne(y[1..]);
    DropDrop(y, 1, 1);
    PrependTwice([y[0]], [y[1]], SetThickness(y[2..]));
    assert y[..2] == [y[0]] + [y[1]];
  }

  lemma SplitStep(a: string, y: string)
    requires a != "" && |y| >= 2 && ThicknessAt(a).None? && ThicknessAt(a + y).None?
    requires SetThickness(a[1..] + y) == match SetThickness(a[1..])
                                         case Some(a') => Some(a' + y)
                                         case None => Prepend(a[1..] + y[..2], SetThickness(y[2..]))
    ensures SetThickness(a + y) == match SetThickness(a)
                                   case Some(a') => Some(a' + y)
                                   case None => Prepend(a + y[..2], SetThickness(y[2..]))
  {
    TailOfConcat(a, y);
    StepWithoutMatch(a);
    StepWithoutMatch(a + y);
    if SetThickness(a[1..]).Some? {
      Assoc([a[0]], SetThickness(a[1..]).value, y);
    } else {
      PrependTwice([a[0]], a[1..] + y[..2], SetThickness(y[2..]));
      Assoc([a[0]], a[1..], y[..2]);
      HeadTail(a);
    }
  }

  lemma StepWithoutMatch(s: string)
    requires s != "" && ThicknessAt(s).None?
    ensures SetThickness(s) == Prepend([s[0]], SetThickness(s[1..]))
  {}

  lemma PrependTwice(x: string, y: string, t: Option<string>)
    ensures Prepend(x, Prepend(y, t)) == Prepend(x + y, t)
  {
    if t.Some? { Assoc(x, y, t.value); }
  }

  lemma SubstitutedLocally(a: string, y: string)
    requires ThicknessAt(a).Some? && ThicknessAt(a + y) == ThicknessAt(a)
    requires Digits((a + y)[ThicknessAt(a).value..]) == Digits(a[ThicknessAt(a).value..])
    ensures Substituted(a + y) == Substituted(a) + y
  {
    var k := ThicknessAt(a).value;
    SplicedLocally(a, y, k, k + Digits(a[k..]));
  }

  lemma SplicedLocally(a: string, y: string, k: nat, m: nat)
    requires k <= m <= |a|
    ensures (a + y)[..k] + "1.0" + (a + y)[m..] == (a[..k] + "1.0" + a[m..]) + y
  {
    DropConcat(a, y, k);
    DropConcat(a, y, m);
    Assoc(a[..k] + "1.0", a[m..], y);
  }

  // ------------------------------------------------------ running it again ---

  /** Any stackup expression: the argument below does not depend on its layers. */
  ghost predicate IsStackup(items: seq<Sexp>) {
    WellFormed(List(items)) && items != [] && items[0] == Text("stackup")
  }

  /** Text around the setup line that a further run leaves alone: its thickness is set, it has one
  setup line, between `before` and `after`, and no stackup. */
  ghost predicate Settled(before: string, after: string) {
    && SetThickness(before + SETUP + after) == Some(before + SETUP + after)
    && (forall j: nat :: j < |before| ==> !OccursAt(before + SETUP + after, SETUP, j))
    && Find(after, SETUP) == None
    && Find(before + SETUP + after, OPEN_STACKUP) == None
  }

  /** A rewritten board: the stackup stands right after the setup line. */
  function Rewritten(items: seq<Sexp>, before: string, after: string): string {
    before + SETUP + Inserted(items) + after
  }

  /** `text` has at most one stackup expression: cutting the first leaves none. */
  predicate AtMostOneStackup(text: string) {
    CutStackup(text).Ok? ==> Find(CutStackup(text).value, OPEN_STACKUP) == None
  }

  /** Exactly one stackup expression: there is one, and cutting it leaves none. */
  predicate ExactlyOneStackup(text: string) {
    Find(text, OPEN_STACKUP).Some? && CutStackup(text).Ok? && AtMostOneStackup(text)
  }

  lemma OccursInPrefix(x: string, y: string, z: string, pat: string, j: nat)
    requires j + |pat| <= |x|
    ensures OccursAt(x + y, pat, j) == OccursAt(x + z, pat, j)
  {
    assert (x + y)[j..][..|pat|] == x[j..][..|pat|] == (x + z)[j..][..|pat|];
  }

  lemma OccursInSuffix(x: string, y: string, pat: string, j: nat)
    ensures OccursAt(x + y, pat, |x| + j) == OccursAt(y, pat, j)
  {
    if j <= |y| { assert (x + y)[|x| + j..] == y[j..]; }
  }

  lemma OccursChar(t: string, pat: string, j: nat, i: nat)
    requires i < |pat|
    ensures OccursAt(t, pat, j) ==> j + i < |t| && t[j + i] == pat[i]
  {
    if OccursAt(t, pat, j) {
      assert t[j..][i] == t[j + i];
    }
  }

  /** Replacing d by digits d' between x and y adds no occurrence of a pattern without digits. */
  lemma ReplacementAddsNoOccurrence(x: string, d: string, d': string, y: string, pat: string, j: nat)
    requires NoDigits(pat) && AllDigits(d')
    requires d' != "" && pat != "" && OccursAt(x + (d' + y), pat, j)
    ensures OccursAt(x + (d + y), pat, j) || (j >= |x| + |d'| && OccursAt(x + (d + y), pat, j - |d'| + |d|))
  {
    var z := x + (d' + y);
    if j + |pat| <= |x| {
      OccursInPrefix(x, d + y, d' + y, pat, j);
    } else if j >= |x| + |d'| {
      var i := j - |x| - |d'|;
      assert (x + d') + y == z && (x + d) + y == x + (d + y);
      OccursInSuffix(x + d', y, pat, i);
      OccursInSuffix(x + d, y, pat, i);
    } else {
      NotAcrossDigits(x, d', y, pat, j);
    }
  }

  lemma NotAcrossDigits(x: string, d: string, y: string, pat: string, j: nat)
    requires NoDigits(pat) && AllDigits(d)
    requires d != "" && pat != "" && |x| - |pat| < j < |x| + |d|
    ensures !OccursAt(x + (d + y), pat, j)
  {
    var c := if j < |x| then |x| else j;
    assert IsDigit(d[c - |x|]) && (x + (d + y))[c] == d[c - |x|];
    OccursChar(x + (d + y), pat, j, c - j);
  }

  lemma SubstitutionAddsNoOccurrence(s: string, pat: string)
    requires SetThickness(s).Some? && pat != "" && NoDigits(pat)
    requires Find(s, pat).None?
    ensures Find(SetThickness(s).value, pat).None?
  {
    var x, d, y := SubstitutedPiece(s);
    DigitsAddNoOccurrence(x, d, y, pat);
  }

  lemma DigitsAddNoOccurrence(x: string, d: string, y: string, pat: string)
    requires pat != "" && NoDigits(pat)
    requires Find(x + (d + y), pat).None?
    ensures Find(x + ("1.0" + y), pat).None?
  {
    NewDigitsAddNoOccurrence(x, d, "1.0", y, pat);
  }

  lemma NewDigitsAddNoOccurrence(x: string, d: string, d': string, y: string, pat: string)
    requires pat != "" && NoDigits(pat) && AllDigits(d') && d' != ""
    requires Find(x + (d + y), pat).None?
    ensures Find(x + (d' + y), pat).None?
  {
    FindIsFirst(x + (d + y), pat);
    FindIsFirst(x + (d' + y), pat);
    if Find(x + (d' + y), pat).Some? {
      ReplacementAddsNoOccurrence(x, d, d', y, pat, Find(x + (d' + y), pat).value);
    }
  }

  /** The substitution replaces bare text behind a character that is no backslash. */
  lemma SubstitutedPiece(s: string) returns (x: string, number: string, y: string)
    requires SetThickness(s).Some?
    ensures s == x + (number + y) && SetThickness(s).value == x + ("1.0" + y)
    ensures AllDigits(number) && number != "" && FieldSync.Bare(number) && x != "" && x[|x| - 1] != '\\'
  {
    var lead, blanks, gap, rest;
    lead, blanks, gap, number, rest := ThicknessSetAtFirstSite(s);
    var front := GENERAL + (blanks + (THICKNESS + gap));
    x, y := lead + front, rest;
    FourAnd(GENERAL, blanks, THICKNESS, gap, number + rest);
    FourAnd(GENERAL, blanks, THICKNESS, gap, "1.0" + rest);
    Assoc(lead, front, number + rest);
    Assoc(lead, front, "1.0" + rest);
    assert forall i :: 0 <= i < |number| ==> IsDigit(number[i]);
    assert x[|x| - 1] == gap[|gap| - 1];
  }

  /** The text after the cut and the substitution, before the insertion. */
  function Changed(text: string): string {
    if CutStackup(text).Ok? && SetThickness(CutStackup(text).value).Some? then
      SetThickness(CutStackup(text).value).value
    else text
  }

  /** The result of a successful run on a board with at most one stackup. */
  lemma FirstRun(items: seq<Sexp>, text: string) returns (before: string, after: string)
    requires Rewrite(items, text).Ok? && AtMostOneStackup(text)
    ensures Settled(before, after) && Rewrite(items, text) == Ok(Rewritten(items, before, after))
    ensures Find(Changed(text), SETUP) == Some(|before|) && before == Changed(text)[..|before|]
  {
    RewriteInserts(items, text);
    ChangedOnce(text);
    before, after := InsertedOnce(items, Changed(text));
  }

  lemma RewriteInserts(items: seq<Sexp>, text: string)
    requires Rewrite(items, text).Ok?
    ensures CutStackup(text).Ok? && SetThickness(CutStackup(text).value).Some?
    ensures Rewrite(items, text) == InsertStackup(items, Changed(text))
  {}

  lemma ChangedOnce(text: string)
    requires CutStackup(text).Ok? && SetThickness(CutStackup(text).value).Some? && AtMostOneStackup(text)
    ensures SetThickness(Changed(text)) == Some(Changed(text)) && Find(Changed(text), OPEN_STACKUP) == None
  {
    StackupHasNoDigit(OPEN_STACKUP);
    SetOnce(CutStackup(text).value, OPEN_STACKUP);
  }

  lemma StackupHasNoDigit(pat: string)
    requires pat == OPEN_STACKUP
    ensures pat != "" && NoDigits(pat)
  {}

  lemma SetOnce(cut: string, pat: string)
    requires SetThickness(cut).Some? && pat != "" && NoDigits(pat) && Find(cut, pat) == None
    ensures var t := SetThickness(cut).value; SetThickness(t) == Some(t) && Find(t, pat) == None
  {
    var t := SetThickness(cut).value;
    assert SetThickness(t) == Some(t) by { SetThicknessTwice(cut); }
    assert Find(t, pat) == None by { SubstitutionAddsNoOccurrence(cut, pat); }
  }

  lemma InsertedOnce(items: seq<Sexp>, t: string) returns (before: string, after: string)
    requires InsertStackup(items, t).Ok? && SetThickness(t) == Some(t) && Find(t, OPEN_STACKUP) == None
    ensures Settled(before, after) && InsertStackup(items, t) == Ok(Rewritten(items, before, after))
    ensures Find(t, SETUP) == Some(|before|) && before == t[..|before|]
  {
    before, after := SplitAtSetup(t);
    Assoc(before, SETUP, Inserted(items));
  }

  lemma SplitAtSetup(t: string) returns (before: string, after: string)
    requires Count(t, SETUP) == 1
    ensures t == before + SETUP + after && Find(t, SETUP) == Some(|before|)
    ensures t[..|before|] == before && t[|before| + |SETUP|..] == after
    ensures Find(after, SETUP) == None
    ensures forall j: nat :: j < |before| ==> !OccursAt(t, SETUP, j)
  {
    CountOneIsFound(t, SETUP);
    FindIsFirst(t, SETUP);
    var i := Find(t, SETUP).value;
    before, after := t[..i], t[i + |SETUP|..];
    assert t[i..][..|SETUP|] == SETUP;
  }

  lemma StackupIsFound(items: seq<Sexp>, before: string, after: string)
    requires IsStackup(items) && Find(before + SETUP + after, OPEN_STACKUP) == None
    ensures Find(Rewritten(items, before, after), OPEN_STACKUP) == Some(|before| + |SETUP| + 2)
  {
    var head := before + SETUP;
    var tail := Inserted(items) + after;
    var u := Rewritten(items, before, after);
    assert u == head + tail;
    StackupOpens(items, after);
    OccursInSuffix(head, tail, OPEN_STACKUP, 2);
    FindIsFirst(head + after, OPEN_STACKUP);
    forall j: nat | j < |head| + 2
      ensures !OccursAt(u, OPEN_STACKUP, j)
    {
      if j + |OPEN_STACKUP| <= |head| {
        OccursInPrefix(head, tail, after, OPEN_STACKUP, j);
      } else {
        NotInSetup(before, tail, j);
      }
    }
    FirstIsFound(u, OPEN_STACKUP, |head| + 2);
  }

  /** The setup line and two tabs after it hold no start of a stackup expression. */
  lemma NotInSetup(before: string, tail: string, j: nat)
    requires |before| <= j && |tail| >= 2 && j < |before| + |SETUP| + 2 && tail[0] == tail[1] == '\t'
    ensures !OccursAt(before + SETUP + tail, OPEN_STACKUP, j)
  {
    var u := before + SETUP + tail;
    var i := j - |before|;
    assert u[j] == (SETUP + tail)[i];
    assert i == 1 ==> u[j + 2] == SETUP[3];
    OccursChar(u, OPEN_STACKUP, j, 0);
    OccursChar(u, OPEN_STACKUP, j, 2);
  }

  lemma StackupOpens(items: seq<Sexp>, after: string)
    requires IsStackup(items)
    ensures OccursAt(Inserted(items) + after, OPEN_STACKUP, 2)
    ensures |Inserted(items)| > 2 && Inserted(items)[0] == Inserted(items)[1] == '\t'
  {
    assert Print(items[0]) == "stackup";
    assert PrintAll(items) == "stackup" + PrintAll(items[1..]);
    assert Print(List(items)) == OPEN_STACKUP + (PrintAll(items[1..]) + ")");
    assert (Inserted(items) + after)[2..] == OPEN_STACKUP + (PrintAll(items[1..]) + ")" + "\n" + after);
  }

  /** Cutting the inserted stackup leaves a blank line where it stood. */
  lemma CutLeavesBlankLine(items: seq<Sexp>, before: string, after: string)
    requires IsStackup(items) && Find(before + SETUP + after, OPEN_STACKUP) == None
    ensures CutStackup(Rewritten(items, before, after)) == Ok(before + SETUP + (BLANK_LINE + after))
  {
    var u := Rewritten(items, before, after);
    var lead, rest := before + SETUP + "\t\t", "\n" + after;
    StackupIsFound(items, before, after);
    StackupExtent(items, before, after);
    assert u[..|lead|] == lead && u[|lead| + |Print(List(items))|..] == rest;
    assert lead + rest == before + SETUP + (BLANK_LINE + after);
  }

  lemma StackupExtent(items: seq<Sexp>, before: string, after: string)
    requires IsStackup(items)
    ensures Rewritten(items, before, after) == (before + SETUP + "\t\t") + Print(List(items)) + ("\n" + after)
    ensures EndOf(Rewritten(items, before, after), |before| + |SETUP| + 2)
         == Some(|before| + |SETUP| + 2 + |Print(List(items))|)
  {
    var lead := before + SETUP + "\t\t";
    EndInvertsPrint(lead, items, "\n" + after);
    assert Rewritten(items, before, after) == lead + Print(List(items)) + ("\n" + after);
  }

  /** A blank line after the setup line changes nothing that the script looks at. */
  lemma SettledWithBlankLine(before: string, after: string)
    requires Settled(before, after)
    ensures Settled(before, BLANK_LINE + after)
  {
    ThicknessWithBlankLine(before, after);
    SetupWithBlankLine(before, after);
    StackupWithBlankLine(before, after);
  }

  lemma ThicknessWithBlankLine(before: string, after: string)
    requires SetThickness(before + SETUP + after) == Some(before + SETUP + after)
    ensures SetThickness(before + SETUP + (BLANK_LINE + after)) == Some(before + SETUP + (BLANK_LINE + after))
  {
    ThicknessAroundSetup(before, after);
    ThicknessAroundSetup(before, BLANK_LINE + after);
    match SetThickness(before + "\t")
    case Some(a) => SameLead(a, before + "\t", "(setup\n" + after);
    case None => BlankLineBehind(before + SETUP, after);
  }

  lemma BlankLineBehind(x: string, after: string)
    requires Prepend(x, SetThickness(after)) == Some(x + after)
    ensures Prepend(x, SetThickness(BLANK_LINE + after)) == Some(x + (BLANK_LINE + after))
  {
    PrependedSame(x, SetThickness(after), after);
    SetThicknessSkips(BLANK_LINE, after);
  }

  lemma PrependedSame(x: string, t: Option<string>, y: string)
    requires Prepend(x, t) == Some(x + y)
    ensures t == Some(y)
  {
    SameTail(x, t.value, y);
  }

  lemma SameLead(x: string, x': string, y: string)
    requires x + y == x' + y
    ensures x == x'
  {
    assert x == (x + y)[..|x|] && x' == (x' + y)[..|x'|];
  }

  lemma SameTail(x: string, y: string, y': string)
    requires x + y == x + y'
    ensures y == y'
  {
    assert y == (x + y)[|x|..] && y' == (x + y')[|x|..];
  }

  /** The thickness is found before the setup line, or else behind it. */
  lemma ThicknessAroundSetup(before: string, after: string)
    ensures SetThickness(before + SETUP + after)
         == match SetThickness(before + "\t")
            case Some(a) => Some(a + ("(setup\n" + after))
            case None => Prepend(before + SETUP, SetThickness(after))
    ensures before + SETUP + after == (before + "\t") + ("(setup\n" + after)
  {
    var a, y := before + "\t", "(setup\n" + after;
    assert before + SETUP + after == a + y;
    assert SetThickness(a + y) == match SetThickness(a)
                                  case Some(a') => Some(a' + y)
                                  case None => Prepend(a + "(s", SetThickness("etup\n" + after)) by {
      SetupTail(after);
      SetThicknessSplits(a, y);
    }
    AcrossSetup(before, after);
  }

  lemma SetupTail(after: string)
    ensures var y := "(setup\n" + after; y[..2] == "(s" && y[2..] == "etup\n" + after && y[0] == '(' && y[1] == 's'
  {}

  lemma SetupParts(before: string)
    ensures (before + "\t" + "(s") + "etup\n" == before + SETUP
  {}

  lemma AcrossSetup(before: string, after: string)
    ensures Prepend(before + "\t" + "(s", SetThickness("etup\n" + after))
         == Prepend(before + SETUP, SetThickness(after))
  {
    SetThicknessSkips("etup\n", after);
    PrependTwice(before + "\t" + "(s", "etup\n", SetThickness(after));
    SetupParts(before);
  }

  lemma SetupWithBlankLine(before: string, after: string)
    requires Find(after, SETUP) == None
    requires forall j: nat :: j < |before| ==> !OccursAt(before + SETUP + after, SETUP, j)
    ensures Find(BLANK_LINE + after, SETUP) == None
    ensures forall j: nat :: j < |before| ==> !OccursAt(before + SETUP + (BLANK_LINE + after), SETUP, j)
  {
    BlankLineAddsNoOccurrence(after, SETUP);
    forall j: nat | j < |before|
      ensures !OccursAt(before + SETUP + (BLANK_LINE + after), SETUP, j)
    {
      OccursInPrefix(before + SETUP, after, BLANK_LINE + after, SETUP, j);
    }
  }

  lemma BlankLineAddsNoOccurrence(after: string, pat: string)
    requires pat == SETUP || pat == OPEN_STACKUP
    requires Find(after, pat) == None
    ensures Find(BLANK_LINE + after, pat) == None
  {
    var s := BLANK_LINE + after;
    FindIsFirst(s, pat);
    FindIsFirst(after, pat);
    if Find(s, pat).Some? {
      var j := Find(s, pat).value;
      OccursChar(s, pat, j, 0);
      OccursChar(s, pat, j, 1);
      assert j >= 3;
      OccursInSuffix(BLANK_LINE, after, pat, j - 3);
    }
  }

  lemma StackupWithBlankLine(before: string, after: string)
    requires Find(before + SETUP + after, OPEN_STACKUP) == None
    ensures Find(before + SETUP + (BLANK_LINE + after), OPEN_STACKUP) == None
  {
    var head := before + SETUP;
    var t := head + (BLANK_LINE + after);
    FindIsFirst(head + after, OPEN_STACKUP);
    FindIsFirst(after, OPEN_STACKUP);
    if Find(after, OPEN_STACKUP).Some? {
      OccursInSuffix(head, after, OPEN_STACKUP, Find(after, OPEN_STACKUP).value);
    }
    BlankLineAddsNoOccurrence(after, OPEN_STACKUP);
    FindIsFirst(BLANK_LINE + after, OPEN_STACKUP);
    FindIsFirst(t, OPEN_STACKUP);
    if Find(t, OPEN_STACKUP).Some? {
      var j := Find(t, OPEN_STACKUP).value;
      if j < |before| {
        OccursInPrefix(head, after, BLANK_LINE + after, OPEN_STACKUP, j);
      } else if j < |head| {
        NotInSetup(before, BLANK_LINE + after, j);
      } else {
        OccursInSuffix(head, BLANK_LINE + after, OPEN_STACKUP, j - |head|);
      }
    }
  }

  lemma SetupCounted(before: string, after: string)
    requires Find(after, SETUP) == None
    requires forall j: nat :: j < |before| ==> !OccursAt(before + SETUP + after, SETUP, j)
    ensures Find(before + SETUP + after, SETUP) == Some(|before|)
    ensures Count(before + SETUP + after, SETUP) == 1
  {
    var t := before + SETUP + after;
    assert t[|before|..][..|SETUP|] == SETUP;
    FirstIsFound(t, SETUP, |before|);
    assert t[|before| + |SETUP|..] == after;
  }

  /** Every further run succeeds and adds one blank line after the stackup, and nothing else. */
  lemma NextRun(items: seq<Sexp>, before: string, after: string)
    requires IsStackup(items) && Settled(before, after)
    ensures Rewrite(items, Rewritten(items, before, after)) == Ok(Rewritten(items, before, BLANK_LINE + after))
    ensures Settled(before, BLANK_LINE + after)
    ensures ExactlyOneStackup(Rewritten(items, before, after))
  {
    CutLeavesBlankLine(items, before, after);
    SettledWithBlankLine(before, after);
    StackupIsFound(items, before, after);
    InsertedAfterSetup(items, before, BLANK_LINE + after);
  }

  lemma InsertedAfterSetup(items: seq<Sexp>, before: string, after: string)
    requires Find(after, SETUP) == None
    requires forall j: nat :: j < |before| ==> !OccursAt(before + SETUP + after, SETUP, j)
    ensures InsertStackup(items, before + SETUP + after) == Ok(Rewritten(items, before, after))
  {
    var t := before + SETUP + after;
    SetupCounted(before, after);
    assert t[|before| + |SETUP|..] == after && t[..|before|] == before;
    assert before + (SETUP + Inserted(items)) + after == Rewritten(items, before, after);
  }

  // ---------------------------------------------------- equal up to layout ---

  /** Blanks added right after a blank, outside strings, do not show. */
  lemma {:induction false} SqueezeIgnores(x: string, blanks: string, y: string, mode: Mode, afterBlank: bool)
    requires x != "" && IsBlank(x[|x| - 1]) && ModeAfter(mode, x[..|x| - 1]) == Plain
    requires forall i :: 0 <= i < |blanks| ==> IsBlank(blanks[i])
    ensures Squeeze(x + (blanks + y), mode, afterBlank) == Squeeze(x + y, mode, afterBlank)
    decreases |x|
  {
    assert (x + (blanks + y))[1..] == x[1..] + (blanks + y) && (x + y)[1..] == x[1..] + y;
    if |x| == 1 {
      assert x[..0] == "" && x[1..] == "";
      assert x[1..] + (blanks + y) == blanks + y && x[1..] + y == y;
      SqueezeBlanks(blanks, y);
    } else {
      assert x[..|x| - 1][1..] == x[1..][..|x| - 2];
      SqueezeIgnores(x[1..], blanks, y, NextMode(mode, x[0]), mode == Plain && IsBlank(x[0]));
    }
  }

  lemma {:induction false} SqueezeBlanks(blanks: string, y: string)
    requires forall i :: 0 <= i < |blanks| ==> IsBlank(blanks[i])
    ensures Squeeze(blanks + y, Plain, true) == Squeeze(y, Plain, true)
  {
    if blanks == "" {
      assert blanks + y == y;
    } else {
      SqueezeBlanks(blanks[1..], y);
      assert (blanks + y)[1..] == blanks[1..] + y;
    }
  }

  lemma {:induction false} NoQuotesStayPlain(s: string)
    requires '"' !in s
    ensures ModeAfter(Plain, s) == Plain
  {
    if s != "" { NoQuotesStayPlain(s[1..]); }
  }

  /** The stackup ends outside string literals if the setup line starts outside them. */
  lemma PlainAfterStackup(items: seq<Sexp>, before: string)
    requires IsStackup(items) && ModeAfter(Plain, before) == Plain
    ensures ModeAfter(Plain, before + SETUP + "\t\t" + Print(List(items))) == Plain
  {
    var lead := before + SETUP + "\t\t";
    var u := Rewritten(items, before, "");
    NoQuotesStayPlain(SETUP + "\t\t");
    LexConcat(Plain, before, SETUP + "\t\t");
    assert lead == before + (SETUP + "\t\t");
    StackupExtent(items, before, "");
    assert u[..|lead|] == lead;
    FieldSync.ModeAtEnd(u, |lead|);
    assert u[..|lead| + |Print(List(items))|] == lead + Print(List(items));
  }

  lemma BlankLineIsLayout(items: seq<Sexp>, before: string, after: string)
    requires IsStackup(items) && ModeAfter(Plain, before) == Plain
    ensures Squeeze(Rewritten(items, before, BLANK_LINE + after), Plain, false)
         == Squeeze(Rewritten(items, before, after), Plain, false)
  {
    var x := before + SETUP + Inserted(items);
    PlainAfterStackup(items, before);
    assert x[..|x| - 1] == before + SETUP + "\t\t" + Print(List(items));
    SqueezeIgnores(x, BLANK_LINE, after, Plain, false);
    assert Rewritten(items, before, BLANK_LINE + after) == x + (BLANK_LINE + after);
  }

  /** The idempotence theorem.  On a board with at most one stackup that the script accepts, the
  result holds exactly one stackup after its setup line, a second run is accepted too and adds one
  blank line, which is layout only provided the setup line stands outside string literals. */
  lemma RewriteIsIdempotent(items: seq<Sexp>, text: string) returns (before: string, after: string)
    requires IsStackup(items)
    requires Rewrite(items, text).Ok? && AtMostOneStackup(text)
    ensures Rewrite(items, text).value == before + SETUP + Inserted(items) + after
    ensures Rewrite(items, Rewrite(items, text).value) == Ok(before + SETUP + Inserted(items) + (BLANK_LINE + after))
    ensures ExactlyOneStackup(Rewrite(items, text).value)
    ensures ExactlyOneStackup(Rewrite(items, Rewrite(items, text).value).value)
    ensures Find(Changed(text), SETUP) == Some(|before|) && before == Changed(text)[..|before|]
    ensures ModeAfter(Plain, before) == Plain ==>
              && Squeeze(Rewrite(items, Rewrite(items, text).value).value, Plain, false)
                 == Squeeze(Rewrite(items, text).value, Plain, false)
              && Trees(Rewrite(items, Rewrite(items, text).value).value) == Trees(Rewrite(items, text).value)
  {
    before, after := FirstRun(items, text);
    NextRun(items, before, after);
    NextRun(items, before, BLANK_LINE + after);
    if ModeAfter(Plain, before) == Plain {
      BlankLineIsLayout(items, before, after);
      LayoutDoesNotMatter(Rewrite(items, Rewrite(items, text).value).value, Rewrite(items, text).value);
    }
  }

  /** The script's own stackup is one that the theorem speaks about. */
  lemma ScriptStackup()
    ensures IsStackup(StackupItems())
  {}
}
