/** Which boards the stackup script accepts, and what it makes of them.

Both are stated over the text itself: where patterns occur, where an expression closes and where the
thickness stands. */
module StackupAcceptance {
  import opened Prelude
  import opened Sequences
  import opened BalancedScan
  import opened StackupRewrite
  import FieldSync

  // --------------------------------------------------------- acceptable boards ---

  /** Here the first stackup expression starts. */
  ghost predicate FirstAt(text: string, pat: string, i: nat) {
    OccursAt(text, pat, i) && forall j: nat :: j < i ==> !OccursAt(text, pat, j)
  }

  ghost predicate Occurs(text: string, pat: string) {
    exists i: nat :: OccursAt(text, pat, i)
  }

  ghost predicate OccursOnce(text: string, pat: string) {
    exists i: nat :: OccursAt(text, pat, i) && forall j: nat :: OccursAt(text, pat, j) ==> j == i
  }

  /** `cut` is the text itself, if it has no stackup, or else the text without its first one, which closes. */
  ghost predicate CutTo(text: string, cut: string) {
    (!Occurs(text, OPEN_STACKUP) && cut == text)
    || exists i: nat, e: nat :: i <= e <= |text| && FirstAt(text, OPEN_STACKUP, i) && EndOf(text, i) == Some(e)
                                && cut == text[..i] + text[e..]
  }

  /** The pattern of the substitution matches somewhere. */
  ghost predicate HasSite(t: string) {
    exists j: nat, blanks, gap, number, rest :: j <= |t| && IsSite(t[j..], blanks, gap, number, rest)
  }

  /** What a board needs: its first stackup, if it has one, closes, and what is left has a thickness and
  exactly one setup line. */
  ghost predicate Acceptable(text: string) {
    exists cut :: CutTo(text, cut) && HasSite(cut) && OccursOnce(cut, SETUP)
  }

  lemma FirstIffFound(t: string, pat: string, i: nat)
    ensures FirstAt(t, pat, i) <==> Find(t, pat) == Some(i)
    ensures Occurs(t, pat) <==> Find(t, pat).Some?
  {
    FindIsFirst(t, pat);
    if FirstAt(t, pat, i) { FirstIsFound(t, pat, i); }
  }

  lemma CutIff(text: string, cut: string)
    ensures CutTo(text, cut) <==> CutStackup(text) == Ok(cut)
  {
    forall i: nat
      ensures FirstAt(text, OPEN_STACKUP, i) <==> Find(text, OPEN_STACKUP) == Some(i)
    {
      FirstIffFound(text, OPEN_STACKUP, i);
    }
    FirstIffFound(text, OPEN_STACKUP, 0);
    if CutStackup(text) == Ok(cut) && Find(text, OPEN_STACKUP).Some? {
      var i := Find(text, OPEN_STACKUP).value;
      var e := EndOf(text, i).value;
      assert FirstAt(text, OPEN_STACKUP, i) && EndOf(text, i) == Some(e) && cut == text[..i] + text[e..];
    }
  }

  lemma HasSiteIff(t: string)
    ensures HasSite(t) <==> SetThickness(t).Some?
  {
    var lead, blanks, gap, number, rest := ThicknessSetAtFirstSite(t);
    if SetThickness(t).Some? {
      assert t[|lead|..] == Assembled(blanks, gap, number, rest);
    }
  }

  /** A pattern in which no character comes twice does not overlap itself. */
  lemma NoOverlap(t: string, pat: string, i: nat, j: nat)
    requires pat != "" && forall k :: 1 <= k < |pat| ==> pat[k] != pat[0]
    requires OccursAt(t, pat, i) && OccursAt(t, pat, j) && i < j
    ensures i + |pat| <= j
  {
    OccursChar(t, pat, j, 0);
    if j < i + |pat| { OccursChar(t, pat, i, j - i); }
  }

  lemma OtherOccurrences(t: string, pat: string, i: nat)
    requires pat != "" && (forall k :: 1 <= k < |pat| ==> pat[k] != pat[0]) && FirstAt(t, pat, i)
    requires i + |pat| <= |t|
    ensures forall j: nat :: OccursAt(t, pat, j) && j != i
                        <==> j >= i + |pat| && OccursAt(t[i + |pat|..], pat, j - i - |pat|)
  {
    var n := i + |pat|;
    TakeDrop(t, n);
    forall j: nat
      ensures OccursAt(t, pat, j) && j != i <==> j >= n && OccursAt(t[n..], pat, j - n)
    {
      if OccursAt(t, pat, j) && j != i { NoOverlap(t, pat, i, j); }
      if j >= n { OccursInSuffix(t[..n], t[n..], pat, j - n); }
    }
  }

  lemma CountIsOneIff(t: string, pat: string)
    requires pat != "" && forall k :: 1 <= k < |pat| ==> pat[k] != pat[0]
    ensures Count(t, pat) == 1 <==> OccursOnce(t, pat)
  {
    FirstIffFound(t, pat, 0);
    if Find(t, pat).Some? {
      var i := Find(t, pat).value;
      FirstIffFound(t, pat, i);
      FirstIffFound(t[i + |pat|..], pat, 0);
      OnceIff(t, pat, i);
      assert Count(t, pat) == 1 + Count(t[i + |pat|..], pat);
    }
  }

  lemma OnceIff(t: string, pat: string, i: nat)
    requires pat != "" && (forall k :: 1 <= k < |pat| ==> pat[k] != pat[0]) && FirstAt(t, pat, i) && i + |pat| <= |t|
    ensures OccursOnce(t, pat) <==> !Occurs(t[i + |pat|..], pat)
  {
    OtherOccurrences(t, pat, i);
    if Occurs(t[i + |pat|..], pat) {
      var j: nat :| OccursAt(t[i + |pat|..], pat, j);
      assert j + (i + |pat|) - i - |pat| == j && OccursAt(t, pat, j + (i + |pat|));
    } else {
      assert forall j: nat :: OccursAt(t, pat, j) ==> j == i;
    }
  }

  /** Exchanging a number for another moves the occurrences of a pattern without digits, and no more. */
  lemma OccurrencesMove(x: string, d: string, d': string, y: string, pat: string, j: nat)
    requires pat != "" && NoDigits(pat) && AllDigits(d) && AllDigits(d') && d != "" && d' != ""
    ensures OccursAt(x + (d + y), pat, j) <==>
              if j + |pat| <= |x| then OccursAt(x + (d' + y), pat, j)
              else j >= |x| + |d| && OccursAt(x + (d' + y), pat, j - |d| + |d'|)
  {
    if j + |pat| <= |x| {
      OccursInPrefix(x, d + y, d' + y, pat, j);
    } else if j >= |x| + |d| {
      Assoc(x, d, y);
      Assoc(x, d', y);
      OccursInSuffix(x + d, y, pat, j - |x| - |d|);
      OccursInSuffix(x + d', y, pat, j - |x| - |d|);
    } else {
      NotAcrossDigits(x, d, y, pat, j);
    }
  }

  lemma StillOnce(x: string, d: string, d': string, y: string, pat: string)
    requires pat != "" && NoDigits(pat) && AllDigits(d) && AllDigits(d') && d != "" && d' != ""
    requires OccursOnce(x + (d + y), pat)
    ensures OccursOnce(x + (d' + y), pat)
  {
    var i: nat :| OccursAt(x + (d + y), pat, i) && forall j: nat :: OccursAt(x + (d + y), pat, j) ==> j == i;
    OccurrencesMove(x, d, d', y, pat, i);
    var i' := if i + |pat| <= |x| then i else i - |d| + |d'|;
    assert OccursAt(x + (d' + y), pat, i');
    forall j: nat | OccursAt(x + (d' + y), pat, j)
      ensures j == i'
    {
      OccurrencesMove(x, d', d, y, pat, j);
    }
  }

  /** Setting the thickness keeps the number of setup lines. */
  lemma SetupStaysOnce(cut: string, pat: string)
    requires pat != "" && NoDigits(pat) && SetThickness(cut).Some?
    ensures OccursOnce(cut, pat) <==> OccursOnce(SetThickness(cut).value, pat)
  {
    var x, number, y := SubstitutedPiece(cut);
    if OccursOnce(cut, pat) { StillOnce(x, number, "1.0", y, pat); }
    if OccursOnce(SetThickness(cut).value, pat) { StillOnce(x, "1.0", number, y, pat); }
  }

  lemma SetupDoesNotOverlap(pat: string)
    requires pat == SETUP
    ensures pat != "" && NoDigits(pat) && forall k :: 1 <= k < |pat| ==> pat[k] != pat[0]
  {}

  /** Exactly which boards the script accepts, and how it turns the others away. */
  lemma AcceptedIff(items: seq<Sexp>, text: string)
    ensures Rewrite(items, text).Ok? <==> Acceptable(text)
    ensures Rewrite(items, text) == Err(Unbalanced) <==>
              exists i: nat :: i <= |text| && FirstAt(text, OPEN_STACKUP, i) && EndOf(text, i) == None
  {
    forall cut
      ensures CutTo(text, cut) <==> CutStackup(text) == Ok(cut)
    {
      CutIff(text, cut);
    }
    forall i: nat
      ensures FirstAt(text, OPEN_STACKUP, i) <==> Find(text, OPEN_STACKUP) == Some(i)
    {
      FirstIffFound(text, OPEN_STACKUP, i);
    }
    if CutStackup(text).Ok? {
      var cut := CutStackup(text).value;
      HasSiteIff(cut);
      if SetThickness(cut).Some? {
        SetupDoesNotOverlap(SETUP);
        SetupStaysOnce(cut, SETUP);
        CountIsOneIff(SetThickness(cut).value, SETUP);
      }
    }
  }

  /** What an accepted board becomes: without its first stackup, if it had one, with its leftmost
  thickness set to 1.0, and with the new stackup behind its one setup line. */
  lemma AcceptedBecomes(items: seq<Sexp>, text: string)
      returns (lead: string, blanks: string, gap: string, number: string, rest: string, before: string, after: string)
    requires Acceptable(text)
    ensures CutTo(text, lead + Assembled(blanks, gap, number, rest))
    ensures IsSite(Assembled(blanks, gap, number, rest), blanks, gap, number, rest)
    ensures rest != "" ==> !IsDigit(rest[0])
    ensures forall j: nat, x, y, n, z | j < |lead| ::
              !IsSite((lead + Assembled(blanks, gap, number, rest))[j..], x, y, n, z)
    ensures lead + Assembled(blanks, gap, "1.0", rest) == before + SETUP + after
    ensures Rewrite(items, text) == Ok(before + SETUP + ("\t\t" + Print(List(items)) + "\n") + after)
  {
    AcceptedIff(items, text);
    var cut := CutStackup(text).value;
    CutIff(text, cut);
    lead, blanks, gap, number, rest := ThicknessSetAtFirstSite(cut);
    before, after := SplitAtSetup(SetThickness(cut).value);
    Assoc(before, SETUP, Inserted(items));
  }

  /** The body of the script's loop, for one board file. */
  method RewriteBoard(items: seq<Sexp>, board: string) returns (r: Result<string, Error>)
    ensures r == Rewrite(items, board)
    ensures r.Ok? <==> Acceptable(board)
    ensures r == Err(Unbalanced) <==>
              exists i: nat :: i <= |board| && FirstAt(board, OPEN_STACKUP, i) && EndOf(board, i) == None
  {
    AcceptedIff(items, board);
    var text := board;
    var existing := Find(text, OPEN_STACKUP);
    if existing.Some? {
      var end := BalancedEnd(text, existing.value);
      if end.Err? {
        return Err(Unbalanced);
      }
      text := text[..existing.value] + text[end.value..];
    }
    var changed := SetThickness(text);
    if changed.None? {
      return Err(UnexpectedFormat);
    }
    text := changed.value;
    var count := Count(text, SETUP);
    if count != 1 {
      return Err(UnexpectedFormat);
    }
    Insertion(text, SETUP, Inserted(items));
    var i := Find(text, SETUP).value;
    return Ok(InsertedAt(text, i, SETUP, Inserted(items)));
  }
}
