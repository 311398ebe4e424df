/** The quote- and escape-aware scanner `balanced_end` of set_fabrication_stackup.py.

The board files are S-expressions.  The scanner is proved against an independent
printer: it returns exactly the extent of a printed list, whatever the nesting
and whatever the strings hold, and it accepts nothing else. */
module BalancedScan {
  import opened Prelude
  import opened Sequences

  // ------------------------------------------------------------- the lexer ---

  /** Plain text, inside a string, or inside a string right after a backslash. */
  datatype Mode = Plain | Quoted | Escaped

  function NextMode(mode: Mode, c: char): Mode {
    match mode
    case Plain => if c == '"' then Quoted else Plain
    case Quoted => if c == '\\' then Escaped else if c == '"' then Plain else Quoted
    case Escaped => Quoted
  }

  /** What an unquoted character adds to the nesting depth. */
  function Weight(mode: Mode, c: char): int {
    if mode != Plain then 0 else if c == '(' then 1 else if c == ')' then -1 else 0
  }

  /** The mode after all of `s`, entered in `mode`. */
  function ModeAfter(mode: Mode, s: string): Mode
    decreases |s|
  {
    if s == "" then mode else ModeAfter(NextMode(mode, s[0]), s[1..])
  }

  /** The unquoted nesting depth gained over all of `s`, entered in `mode`. */
  function Depth(mode: Mode, s: string): int
    decreases |s|
  {
    if s == "" then 0 else Weight(mode, s[0]) + Depth(NextMode(mode, s[0]), s[1..])
  }

  lemma {:induction false} LexConcat(mode: Mode, s: string, t: string)
    ensures ModeAfter(mode, s + t) == ModeAfter(ModeAfter(mode, s), t)
    ensures Depth(mode, s + t) == Depth(mode, s) + Depth(ModeAfter(mode, s), t)
    decreases |s|
  {
    if s == "" {
      assert s + t == t;
    } else {
      LexConcat(NextMode(mode, s[0]), s[1..], t);
      TailOfConcat(s, t);
    }
  }

  // ----------------------------------------------------------- the scanner ---

  /** `n` characters of `s` close the expression: the first unquoted `)` that brings the depth to zero. */
  ghost predicate ClosesAt(s: string, n: nat) {
    && 0 < n <= |s|
    && s[n - 1] == ')'
    && ModeAfter(Plain, s[..n - 1]) == Plain
    && Depth(Plain, s[..n]) == 0
  }

  function Shift(n: Option<nat>, j: nat): Option<nat> {
    match n
    case None => None
    case Some(k) => Some(k + j)
  }

  /** The scanner from a given state: how many characters it consumes, if it finds the end. */
  function Scan(s: string, mode: Mode, depth: int): (n: Option<nat>)
    ensures n.Some? ==> 0 < n.value <= |s|
  {
    if s == "" then None
    else
      var depth' := depth + Weight(mode, s[0]);
      if mode == Plain && s[0] == ')' && depth' == 0 then Some(1)
      else Shift(Scan(s[1..], NextMode(mode, s[0]), depth'), 1)
  }

  lemma ScanStep(s: string, c: char, t: string, mode: Mode, depth: int)
    requires s == [c] + t
    ensures Scan(s, mode, depth) ==
            if mode == Plain && c == ')' && depth == 1 then Some(1)
            else Shift(Scan(t, NextMode(mode, c), depth + Weight(mode, c)), 1)
  {
    ConsParts(c, t);
  }

  /** `balanced_end`: the end of the expression that starts at `start`, or None where the script raises. */
  function EndOf(text: string, start: nat): (end: Option<nat>)
    requires start <= |text|
    ensures end.Some? ==> start < end.value <= |text|
  {
    Shift(Scan(text[start..], Plain, 0), start)
  }

  /** The scanner has reached `index` in this mode and depth, without a close so far. */
  ghost predicate Reached(text: string, start: nat, index: nat, mode: Mode, depth: int) {
    start <= index <= |text| && EndOf(text, start) == Shift(Scan(text[index..], mode, depth), index)
  }

  lemma ReachedNext(text: string, start: nat, index: nat, mode: Mode, depth: int)
    requires start <= index < |text| && Reached(text, start, index, mode, depth)
    ensures if mode == Plain && text[index] == ')' && depth == 1 then EndOf(text, start) == Some(index + 1)
            else Reached(text, start, index + 1, NextMode(mode, text[index]), depth + Weight(mode, text[index]))
  {
    HeadTail(text[index..]);
    DropDrop(text, index, 1);
    ScanStep(text[index..], text[index], text[index + 1..], mode, depth);
  }

  lemma NeverClosed(text: string, start: nat, mode: Mode, depth: int)
    requires start <= |text| && Reached(text, start, |text|, mode, depth)
    ensures EndOf(text, start) == None
  {}

  function ModeOf(quoted: bool, escaped: bool): Mode {
    if !quoted then Plain else if escaped then Escaped else Quoted
  }

  method BalancedEnd(text: string, start: nat) returns (end: Result<nat, string>)
    requires start <= |text|
    ensures end.Ok? <==> EndOf(text, start).Some?
    ensures end.Ok? ==> EndOf(text, start) == Some(end.value)
  {
    var depth := 0;
    var quoted, escaped := false, false;
    for index := start to |text|
      invariant escaped ==> quoted
      invariant Reached(text, start, index, ModeOf(quoted, escaped), depth)
    {
      var c := text[index];
      ReachedNext(text, start, index, ModeOf(quoted, escaped), depth);
      if quoted {
        if escaped {
          escaped := false;
        } else if c == '\\' {
          escaped := true;
        } else if c == '"' {
          quoted := false;
        }
      } else if c == '"' {
        quoted := true;
      } else if c == '(' {
        depth := depth + 1;
      } else if c == ')' {
        depth := depth - 1;
        if depth == 0 {
          return Ok(index + 1);
        }
      }
    }
    NeverClosed(text, start, ModeOf(quoted, escaped), depth);
    return Err("Unbalanced PCB expression");
  }

  /** The scan stops at the first close, counted from its own state. */
  lemma {:induction false} ScanFindsClose(s: string, mode: Mode, depth: int, n: nat)
    requires 0 < n <= |s| && s[n - 1] == ')'
    requires ModeAfter(mode, s[..n - 1]) == Plain && depth + Depth(mode, s[..n]) == 0
    ensures Scan(s, mode, depth).Some? && Scan(s, mode, depth).value <= n
  {
    if n == 1 {
      FirstOnly(s);
    } else {
      TailOfTake(s, n - 1);
      TailOfTake(s, n);
      ScanFindsClose(s[1..], NextMode(mode, s[0]), depth + Weight(mode, s[0]), n - 1);
    }
  }

  lemma {:induction false} ScanIsAClose(s: string, mode: Mode, depth: int)
    requires Scan(s, mode, depth).Some?
    ensures var n := Scan(s, mode, depth).value;
            && s[n - 1] == ')' && ModeAfter(mode, s[..n - 1]) == Plain && depth + Depth(mode, s[..n]) == 0
  {
    var n := Scan(s, mode, depth).value;
    if n == 1 {
      FirstOnly(s);
    } else {
      ScanIsAClose(s[1..], NextMode(mode, s[0]), depth + Weight(mode, s[0]));
      TailOfTake(s, n - 1);
      TailOfTake(s, n);
    }
  }

  /** `balanced_end` returns the least close after `start`, and raises exactly when there is none:
  the unquoted depth never comes back to zero. */
  lemma EndOfIsFirstClose(text: string, start: nat)
    requires start <= |text|
    ensures EndOf(text, start).Some? <==> exists n :: ClosesAt(text[start..], n)
    ensures EndOf(text, start).Some? ==>
              var n := EndOf(text, start).value - start;
              ClosesAt(text[start..], n) && forall m :: ClosesAt(text[start..], m) ==> n <= m
  {
    var s := text[start..];
    forall m | ClosesAt(s, m)
      ensures Scan(s, Plain, 0).Some? && Scan(s, Plain, 0).value <= m
    {
      ScanFindsClose(s, Plain, 0, m);
    }
    if Scan(s, Plain, 0).Some? {
      ScanIsAClose(s, Plain, 0);
      assert ClosesAt(s, Scan(s, Plain, 0).value);
    }
  }

  // ---------------------------------------------- passing over a piece of text ---

  predicate Closes(c: char, mode: Mode, d: int) {
    mode == Plain && c == ')' && d == 1
  }

  lemma OpenStep(c: char, t: string, mode: Mode, d: int, n: nat)
    requires Scan([c] + t, mode, d).Some? && Scan([c] + t, mode, d).value > n + 1
    ensures !Closes(c, mode, d)
    ensures var next := Scan(t, NextMode(mode, c), d + Weight(mode, c)); next.Some? && next.value > n
  {
    ScanStep([c] + t, c, t, mode, d);
  }

  lemma NextStep(c: char, t: string, mode: Mode, d: int, next: Option<nat>)
    requires !Closes(c, mode, d) && Scan(t, NextMode(mode, c), d + Weight(mode, c)) == next
    ensures Scan([c] + t, mode, d) == Shift(next, 1)
  {
    ScanStep([c] + t, c, t, mode, d);
  }

  /** Nothing in x closes the expression that is open in front of it. */
  predicate StaysOpen(x: string, mode: Mode, d: int)
    decreases |x|
  {
    x == "" || (!Closes(x[0], mode, d) && StaysOpen(x[1..], NextMode(mode, x[0]), d + Weight(mode, x[0])))
  }

  lemma {:induction false} LongScanStaysOpen(x: string, t: string, mode: Mode, d: int)
    requires Scan(x + t, mode, d).Some? && Scan(x + t, mode, d).value > |x|
    ensures StaysOpen(x, mode, d)
    decreases |x|
  {
    if x != "" {
      var c, rest := x[0], x[1..];
      HeadTail(x);
      Assoc([c], rest, t);
      OpenStep(c, rest + t, mode, d, |rest|);
      LongScanStaysOpen(rest, t, NextMode(mode, c), d + Weight(mode, c));
    }
  }

  lemma {:induction false} OpenScanContinues(x: string, t: string, mode: Mode, d: int, next: Option<nat>)
    requires StaysOpen(x, mode, d) && Scan(t, ModeAfter(mode, x), d + Depth(mode, x)) == next
    ensures Scan(x + t, mode, d) == Shift(next, |x|)
    decreases |x|
  {
    if x == "" {
      assert x + t == t;
    } else {
      var c, rest := x[0], x[1..];
      HeadTail(x);
      Assoc([c], rest, t);
      OpenScanContinues(rest, t, NextMode(mode, c), d + Weight(mode, c), next);
      NextStep(c, rest + t, mode, d, Shift(next, |rest|));
    }
  }

  /** A scan that does not end within x goes on behind it in the same way whatever follows. */
  lemma ScanContinues(x: string, t: string, t': string, mode: Mode, d: int, next: Option<nat>)
    requires Scan(x + t, mode, d).Some? && Scan(x + t, mode, d).value > |x|
    requires Scan(t', ModeAfter(mode, x), d + Depth(mode, x)) == next
    ensures Scan(x + t', mode, d) == Shift(next, |x|)
  {
    LongScanStaysOpen(x, t, mode, d);
    OpenScanContinues(x, t', mode, d, next);
  }

  lemma {:induction false} StaysOpenHigher(x: string, mode: Mode, d: int, d': int)
    requires StaysOpen(x, mode, d) && 1 <= d <= d'
    ensures StaysOpen(x, mode, d')
    decreases |x|
  {
    if x != "" {
      StaysOpenHigher(x[1..], NextMode(mode, x[0]), d + Weight(mode, x[0]), d' + Weight(mode, x[0]));
    }
  }

  /** The scanner comes out of this piece as it went in, and closes nothing that is open around it. */
  predicate Unmoved(mode: Mode, x: string) {
    StaysOpen(x, mode, 1) && ModeAfter(mode, x) == mode && Depth(mode, x) == 0
  }

  lemma UnmovedPasses(x: string, t: string, mode: Mode, d: int)
    requires Unmoved(mode, x) && d > 0
    ensures Scan(x + t, mode, d) == Shift(Scan(t, mode, d), |x|)
  {
    StaysOpenHigher(x, mode, 1, d);
    OpenScanContinues(x, t, mode, d, Scan(t, mode, d));
  }

  // ---------------------------------------------------------- S-expressions ---

  /** One character of a string literal: itself, escaped where it must be, or any escape sequence. */
  datatype StringChar = Literal(c: char) | Escape(c: char)

  /** Text holds atoms and layout; Str a string literal; List a parenthesised sequence. */
  datatype Sexp = Text(text: string) | Str(chars: seq<StringChar>) | List(items: seq<Sexp>)

  function PrintChar(k: StringChar): string {
    match k
    case Literal(c) => if c == '"' || c == '\\' then ['\\', c] else [c]
    case Escape(c) => ['\\', c]
  }

  function PrintChars(chars: seq<StringChar>): string {
    if chars == [] then "" else PrintChar(chars[0]) + PrintChars(chars[1..])
  }

  function Print(x: Sexp): string {
    match x
    case Text(text) => text
    case Str(chars) => "\"" + PrintChars(chars) + "\""
    case List(items) => "(" + PrintAll(items) + ")"
  }

  function PrintAll(xs: seq<Sexp>): string {
    if xs == [] then "" else Print(xs[0]) + PrintAll(xs[1..])
  }

  predicate IsPlainText(s: string) {
    forall k :: 0 <= k < |s| ==> s[k] != '(' && s[k] != ')' && s[k] != '"'
  }

  predicate WellFormed(x: Sexp) {
    match x
    case Text(text) => IsPlainText(text)
    case Str(_) => true
    case List(items) => forall i :: 0 <= i < |items| ==> WellFormed(items[i])
  }

  /** Scanning across a piece at positive depth consumes exactly the piece and changes nothing. */
  ghost predicate PassesBefore(s: string, rest: string, d: int) {
    Scan(s + rest, Plain, d) == Shift(Scan(rest, Plain, d), |s|)
  }

  lemma {:induction false} TextPasses(s: string, rest: string, d: int)
    requires IsPlainText(s) && d > 0
    ensures PassesBefore(s, rest, d)
  {
    if s == "" {
      assert s + rest == rest;
    } else {
      TailOfConcat(s, rest);
      TextPasses(s[1..], rest, d);
    }
  }

  lemma {:induction false} CharsPass(chars: seq<StringChar>, rest: string, d: int)
    ensures Scan(PrintChars(chars) + (['"'] + rest), Quoted, d) == Shift(Scan(rest, Plain, d), |PrintChars(chars)| + 1)
  {
    if chars == [] {
      assert PrintChars(chars) + (['"'] + rest) == ['"'] + rest;
      ScanStep(['"'] + rest, '"', rest, Quoted, d);
    } else {
      CharsPass(chars[1..], rest, d);
      Assoc(PrintChar(chars[0]), PrintChars(chars[1..]), ['"'] + rest);
      CharPasses(chars[0], PrintChars(chars[1..]) + (['"'] + rest), d);
    }
  }

  lemma CharPasses(k: StringChar, tail: string, d: int)
    ensures Scan(PrintChar(k) + tail, Quoted, d) == Shift(Scan(tail, Quoted, d), |PrintChar(k)|)
  {
    if |PrintChar(k)| == 1 {
      ScanStep([k.c] + tail, k.c, tail, Quoted, d);
    } else {
      Assoc(['\\'], [k.c], tail);
      assert PrintChar(k) == ['\\'] + [k.c];
      ScanStep(['\\'] + ([k.c] + tail), '\\', [k.c] + tail, Quoted, d);
      ScanStep([k.c] + tail, k.c, tail, Escaped, d);
    }
  }

  lemma PrintedStr(chars: seq<StringChar>, rest: string)
    ensures Print(Str(chars)) + rest == ['"'] + (PrintChars(chars) + (['"'] + rest))
  {
    Assoc("\"" + PrintChars(chars), "\"", rest);
    Assoc("\"", PrintChars(chars), "\"" + rest);
  }

  lemma PrintedList(items: seq<Sexp>, rest: string)
    ensures Print(List(items)) + rest == ['('] + (PrintAll(items) + ([')'] + rest))
  {
    Assoc("(" + PrintAll(items), ")", rest);
    Assoc("(", PrintAll(items), ")" + rest);
  }

  lemma {:induction false} SexpPasses(x: Sexp, rest: string, d: int)
    requires WellFormed(x) && d > 0
    ensures PassesBefore(Print(x), rest, d)
    decreases x
  {
    match x
    case Text(text) => TextPasses(text, rest, d);
    case Str(chars) =>
      CharsPass(chars, rest, d);
      PrintedStr(chars, rest);
      ScanStep(Print(x) + rest, '"', PrintChars(chars) + (['"'] + rest), Plain, d);
    case List(items) =>
      ListScans(items, rest, d);
  }

  /** Entering a list and leaving it again, from depth d. */
  lemma {:induction false} ListScans(items: seq<Sexp>, rest: string, d: int)
    requires WellFormed(List(items)) && d >= 0
    ensures Scan(Print(List(items)) + rest, Plain, d)
         == if d == 0 then Some(|Print(List(items))|) else Shift(Scan(rest, Plain, d), |Print(List(items))|)
    decreases items, 1
  {
    ItemsPass(items, [')'] + rest, d + 1);
    PrintedList(items, rest);
    ScanStep(Print(List(items)) + rest, '(', PrintAll(items) + ([')'] + rest), Plain, d);
    CloseScans(rest, d);
  }

  lemma CloseScans(rest: string, d: int)
    ensures Scan([')'] + rest, Plain, d + 1) == if d == 0 then Some(1) else Shift(Scan(rest, Plain, d), 1)
  {
    ScanStep([')'] + rest, ')', rest, Plain, d + 1);
  }

  lemma {:induction false} ItemsPass(xs: seq<Sexp>, rest: string, d: int)
    requires (forall i :: 0 <= i < |xs| ==> WellFormed(xs[i])) && d > 0
    ensures PassesBefore(PrintAll(xs), rest, d)
    decreases xs, 0
  {
    if xs == [] {
      assert PrintAll(xs) + rest == rest;
    } else {
      ItemsPass(xs[1..], rest, d);
      SexpPasses(xs[0], PrintAll(xs[1..]) + rest, d);
      Assoc(Print(xs[0]), PrintAll(xs[1..]), rest);
    }
  }

  /** `balanced_end` inverts printing: from the opening parenthesis of a printed list it returns
  the end of the print, whatever stands before and after. */
  lemma EndInvertsPrint(before: string, items: seq<Sexp>, after: string)
    requires WellFormed(List(items))
    ensures EndOf(before + Print(List(items)) + after, |before|) == Some(|before| + |Print(List(items))|)
  {
    ListScans(items, after, 0);
    Assoc(before, Print(List(items)), after);
    ConcatParts(before, Print(List(items)) + after);
  }

  // ------------------------------------------------ what the scanner accepts ---

  /** Reads the string literal whose body starts `s`; the scan from here ends after n characters. */
  lemma {:induction false} ReadChars(s: string, d: int, n: nat) returns (chars: seq<StringChar>, k: nat)
    requires Scan(s, Quoted, d) == Some(n)
    ensures k <= n <= |s| && s[..k] == PrintChars(chars) + ['"']
    ensures Scan(s[k..], Plain, d) == Some(n - k)
    decreases |s|
  {
    if s[0] == '"' {
      StepInString(s, d, n);
      chars, k := [], 1;
      assert s[..1] == [] + ['"'];
    } else if s[0] == '\\' {
      StepEscape(s, d, n);
      var rest, j := ReadChars(s[2..], d, n - 2);
      chars, k := [Escape(s[1])] + rest, j + 2;
      PrintCharsCons(s, 2, Escape(s[1]), rest, j);
    } else {
      StepInString(s, d, n);
      var rest, j := ReadChars(s[1..], d, n - 1);
      chars, k := [Literal(s[0])] + rest, j + 1;
      assert s[..1] == PrintChar(Literal(s[0]));
      PrintCharsCons(s, 1, Literal(s[0]), rest, j);
    }
  }

  /** One step of the scan inside a string literal. */
  lemma StepInString(s: string, d: int, n: nat)
    requires Scan(s, Quoted, d) == Some(n)
    ensures Scan(s[1..], NextMode(Quoted, s[0]), d) == Some(n - 1)
  {
    HeadTail(s);
    ScanStep(s, s[0], s[1..], Quoted, d);
  }

  /** An escape takes two characters. */
  lemma StepEscape(s: string, d: int, n: nat)
    requires Scan(s, Quoted, d) == Some(n) && s[0] == '\\'
    ensures n >= 2 && s[..2] == PrintChar(Escape(s[1])) && Scan(s[2..], Quoted, d) == Some(n - 2)
  {
    StepInString(s, d, n);
    HeadTail(s[1..]);
    DropDrop(s, 1, 1);
    ScanStep(s[1..], s[1], s[2..], Escaped, d);
  }

  lemma PrintCharsCons(s: string, i: nat, c: StringChar, rest: seq<StringChar>, j: nat)
    requires i + j <= |s| && s[..i] == PrintChar(c) && s[i..][..j] == PrintChars(rest) + ['"']
    ensures s[..j + i] == PrintChars([c] + rest) + ['"'] && s[i..][j..] == s[j + i..]
  {
    TakeSplit(s, i, j);
    DropDrop(s, i, j);
    ConsParts(c, rest);
    Assoc(PrintChar(c), PrintChars(rest), ['"']);
  }

  /** Reads the items up to the parenthesis that closes the current level. */
  lemma {:induction false} ReadItems(s: string, d: int, n: nat) returns (items: seq<Sexp>, k: nat)
    requires Scan(s, Plain, d) == Some(n) && d > 0
    ensures WellFormed(List(items))
    ensures k <= n <= |s| && s[..k] == PrintAll(items) + [')']
    ensures if d == 1 then k == n else Scan(s[k..], Plain, d - 1) == Some(n - k)
    decreases |s|, 1
  {
    if s[0] == ')' {
      items, k := [], 1;
      NoItems(s, d, n);
    } else {
      var head, j := ReadItem(s, d, n);
      var rest, m := ReadItems(s[j..], d, n - j);
      items, k := [head] + rest, j + m;
      assert s[..k] == PrintAll(items) + [')'] && WellFormed(List(items)) by { ItemsCons(s, j, head, rest, m); }
      RestScans(s, j, m, k, d, n);
    }
  }

  lemma RestScans(s: string, j: nat, m: nat, k: nat, d: int, n: int)
    requires j <= k <= |s| && k == j + m
    requires if d == 1 then m == n - j else Scan(s[j..][m..], Plain, d - 1) == Some(n - j - m)
    ensures if d == 1 then k == n else Scan(s[k..], Plain, d - 1) == Some(n - k)
  {
    DropDrop(s, j, m);
  }

  lemma NoItems(s: string, d: int, n: nat)
    requires Scan(s, Plain, d) == Some(n) && d > 0 && s[0] == ')'
    ensures s[..1] == PrintAll([]) + [')']
    ensures if d == 1 then n == 1 else Scan(s[1..], Plain, d - 1) == Some(n - 1)
  {
    StepClose(s, d, n);
    assert s[..1] == [] + [')'];
  }

  lemma StepClose(s: string, d: int, n: nat)
    requires Scan(s, Plain, d) == Some(n) && d > 0 && s[0] == ')'
    ensures if d == 1 then n == 1 else Scan(s[1..], Plain, d - 1) == Some(n - 1)
  {
    HeadTail(s);
    ScanStep(s, s[0], s[1..], Plain, d);
  }

  /** Any other plain character is followed by the rest of the scan, in its mode and at its depth. */
  lemma StepInPlain(s: string, d: int, n: nat)
    requires Scan(s, Plain, d) == Some(n) && d > 0 && s[0] != ')'
    ensures n > 1 && Scan(s[1..], NextMode(Plain, s[0]), d + Weight(Plain, s[0])) == Some(n - 1)
  {
    HeadTail(s);
    ScanStep(s, s[0], s[1..], Plain, d);
  }

  lemma ItemsCons(s: string, j: nat, head: Sexp, rest: seq<Sexp>, m: nat)
    requires j + m <= |s| && s[..j] == Print(head) && s[j..][..m] == PrintAll(rest) + [')']
    requires WellFormed(head) && WellFormed(List(rest))
    ensures s[..j + m] == PrintAll([head] + rest) + [')']
    ensures WellFormed(List([head] + rest))
  {
    TakeSplit(s, j, m);
    ConsParts(head, rest);
    Assoc(Print(head), PrintAll(rest), [')']);
  }

  lemma {:induction false} ReadItem(s: string, d: int, n: nat) returns (x: Sexp, k: nat)
    requires Scan(s, Plain, d) == Some(n) && d > 0 && s[0] != ')'
    ensures WellFormed(x)
    ensures 0 < k < n <= |s| && s[..k] == Print(x)
    ensures Scan(s[k..], Plain, d) == Some(n - k)
    decreases |s|, 0
  {
    StepInPlain(s, d, n);
    if s[0] == '(' {
      var inner, m := ReadItems(s[1..], d + 1, n - 1);
      x, k := List(inner), 1 + m;
      assert s[..k] == Print(x) by { ListEnclosed(s, m, inner); }
      DropDrop(s, 1, m);
    } else if s[0] == '"' {
      var chars, m := ReadChars(s[1..], d, n - 1);
      x, k := Str(chars), 1 + m;
      assert s[..k] == Print(x) by { StringEnclosed(s, m, chars); }
      DropDrop(s, 1, m);
    } else {
      x, k := Text([s[0]]), 1;
    }
  }

  lemma ListEnclosed(s: string, m: nat, items: seq<Sexp>)
    requires 1 + m <= |s| && s[0] == '(' && s[1..][..m] == PrintAll(items) + [')']
    ensures s[..1 + m] == Print(List(items))
  {
    Enclosed(s, m, PrintAll(items), ')');
  }

  lemma StringEnclosed(s: string, m: nat, chars: seq<StringChar>)
    requires 1 + m <= |s| && s[0] == '"' && s[1..][..m] == PrintChars(chars) + ['"']
    ensures s[..1 + m] == Print(Str(chars))
  {
    Enclosed(s, m, PrintChars(chars), '"');
  }

  lemma Enclosed(s: string, m: nat, body: string, close: char)
    requires 1 + m <= |s| && s[1..][..m] == body + [close]
    ensures s[..1 + m] == [s[0]] + body + [close]
  {
    TakeSplit(s, 1, m);
    Assoc([s[0]], body, [close]);
  }

  /** Conversely, whatever the scanner accepts from an opening parenthesis is the print of a list. */
  lemma AcceptedIsPrinted(text: string, start: nat) returns (items: seq<Sexp>)
    requires start < |text| && text[start] == '(' && EndOf(text, start).Some?
    ensures WellFormed(List(items)) && text[start..EndOf(text, start).value] == Print(List(items))
  {
    var s := text[start..];
    var k: nat;
    HeadTail(s);
    ScanStep(s, '(', s[1..], Plain, 0);
    items, k := ReadItems(s[1..], 1, Scan(s, Plain, 0).value - 1);
    TakeSplit(s, 1, k);
    Assoc("(", PrintAll(items), ")");
    assert text[start..start + k + 1] == s[..1 + k];
  }
}
