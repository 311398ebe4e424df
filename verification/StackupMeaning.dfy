/** What the stackup rewrite does to the expressions of a board: a balanced board stays balanced, and a
second run gives the same trees. */
module StackupMeaning {
  import opened Prelude
  import opened Sequences
  import opened BalancedScan
  import opened SexpTrees
  import opened StackupRewrite
  import FieldSync

  /** The stackup to be cut and the setup line start outside string literals. */
  ghost predicate SitesArePlain(text: string) {
    && (Find(text, OPEN_STACKUP).Some? ==> FieldSync.ModeAt(text, Find(text, OPEN_STACKUP).value) == Plain)
    && (Find(Changed(text), SETUP).Some? ==> FieldSync.ModeAt(Changed(text), Find(Changed(text), SETUP).value) == Plain)
  }

  // ----------------------------------------------------- exchanging a piece ---

  /** The scanner passes this piece in this state and comes out as it went in. */
  ghost predicate Passes(piece: string, rest: string, mode: Mode, d: int) {
    Scan(piece + rest, mode, d) == Shift(Scan(rest, mode, d), |piece|)
  }

  /** The state in which the scan of a balanced text reaches its middle. */
  lemma StateBehind(x: string, y: string)
    requires FieldSync.BalancedText(x + y)
    ensures 1 + Depth(Plain, x) > 0
    ensures Scan(x + (y + ")"), Plain, 1) == Some(|x| + |y| + 1)
    ensures Scan(y + ")", ModeAfter(Plain, x), 1 + Depth(Plain, x)) == Some(|y| + 1)
  {
    Assoc(x, y, ")");
    var s := x + (y + ")");
    FieldSync.ScanResumes(s, Plain, 1, |s|, |x|);
    ConcatParts(x, y + ")");
  }

  /** A piece of a balanced text may be exchanged for another that the scanner passes just so. */
  lemma ExchangeKeepsBalance(x: string, piece: string, piece': string, y: string)
    requires FieldSync.BalancedText(x + (piece + y))
    requires Passes(piece, y + ")", ModeAfter(Plain, x), 1 + Depth(Plain, x))
    requires Passes(piece', y + ")", ModeAfter(Plain, x), 1 + Depth(Plain, x))
    ensures FieldSync.BalancedText(x + (piece' + y))
  {
    var mode, d := ModeAfter(Plain, x), 1 + Depth(Plain, x);
    StateBehind(x, piece + y);
    Assoc(piece, y, ")");
    Assoc(piece', y, ")");
    Exchanged(Scan(y + ")", mode, d), |piece|, |piece'|, |y|);
    ScanContinues(x, (piece + y) + ")", (piece' + y) + ")", Plain, 1, Some(|piece'| + |y| + 1));
    Assoc(x, piece' + y, ")");
  }

  lemma Exchanged(rest: Option<nat>, n: nat, n': nat, m: nat)
    requires Shift(rest, n) == Some(n + m + 1)
    ensures Shift(rest, n') == Some(n' + m + 1)
  {}

  // ------------------------------------------------------------ the three edits ---

  lemma CutKeepsBalance(text: string)
    requires FieldSync.BalancedText(text) && SitesArePlain(text) && CutStackup(text).Ok?
    ensures FieldSync.BalancedText(CutStackup(text).value)
  {
    match Find(text, OPEN_STACKUP)
    case None =>
    case Some(i) =>
      FindIsFirst(text, OPEN_STACKUP);
      assert text[i..][0] == '(';
      FieldSync.MatchesAreTidy(text, [i]);
      FieldSync.DeletedIsUnion(text, [i]);
      assert [i][1..] == [] && FieldSync.Deleted(text, []) == Some(text);
      FieldSync.DeletionKeepsBalance(text, [i]);
  }

  lemma NotEscapedBehind(x: string)
    requires x != "" && x[|x| - 1] != '\\'
    ensures ModeAfter(Plain, x) != Escaped
  {
    var n := |x| - 1;
    TakeSnoc(x, n);
    LexConcat(Plain, x[..n], [x[n]]);
    assert [x[n]][1..] == "" && x[..n + 1] == x;
  }

  lemma ThicknessKeepsBalance(s: string)
    requires FieldSync.BalancedText(s) && SetThickness(s).Some?
    ensures FieldSync.BalancedText(SetThickness(s).value)
  {
    var x, number, y := SubstitutedPiece(s);
    NotEscapedBehind(x);
    var mode, d := ModeAfter(Plain, x), 1 + Depth(Plain, x);
    FieldSync.BareScans(number, y + ")", mode, d);
    FieldSync.BareScans("1.0", y + ")", mode, d);
    ExchangeKeepsBalance(x, number, "1.0", y);
  }

  lemma InsertedPasses(items: seq<Sexp>, rest: string, d: int)
    requires WellFormed(List(items)) && d > 0
    ensures Passes(Inserted(items), rest, Plain, d)
  {
    var printed := Print(List(items));
    Assoc("\t\t" + printed, "\n", rest);
    Assoc("\t\t", printed, "\n" + rest);
    TextPasses("\t\t", printed + ("\n" + rest), d);
    SexpPasses(List(items), "\n" + rest, d);
    TextPasses("\n", rest, d);
  }

  /** An expression may be inserted anywhere outside strings. */
  lemma InsertingKeepsBalance(items: seq<Sexp>, x: string, y: string)
    requires WellFormed(List(items)) && FieldSync.BalancedText(x + y) && ModeAfter(Plain, x) == Plain
    ensures FieldSync.BalancedText(x + (Inserted(items) + y))
  {
    assert "" + y == y && "" + (y + ")") == y + ")";
    StateBehind(x, y);
    InsertedPasses(items, y + ")", 1 + Depth(Plain, x));
    ExchangeKeepsBalance(x, "", Inserted(items), y);
  }

  lemma InsertionKeepsBalance(items: seq<Sexp>, t: string)
    requires WellFormed(List(items)) && FieldSync.BalancedText(t) && InsertStackup(items, t).Ok?
    requires Find(t, SETUP).Some? ==> FieldSync.ModeAt(t, Find(t, SETUP).value) == Plain
    ensures FieldSync.BalancedText(InsertStackup(items, t).value)
  {
    var before, after := SplitAtSetup(t);
    NoQuotesStayPlain(SETUP);
    LexConcat(Plain, before, SETUP);
    InsertingKeepsBalance(items, before + SETUP, after);
    Assoc(before, SETUP, Inserted(items));
    Assoc(before + SETUP, Inserted(items), after);
  }

  /** The rewrite of a balanced board, with the old stackup and the setup line outside string
  literals, is balanced. */
  lemma RewriteKeepsBalance(items: seq<Sexp>, text: string)
    requires WellFormed(List(items)) && FieldSync.BalancedText(text) && SitesArePlain(text)
    requires Rewrite(items, text).Ok?
    ensures FieldSync.BalancedText(Rewrite(items, text).value)
  {
    CutKeepsBalance(text);
    ThicknessKeepsBalance(CutStackup(text).value);
    InsertionKeepsBalance(items, Changed(text));
  }

  /** On a balanced board with at most one stackup, a run gives a board that has trees, and a second run
  gives the same trees. */
  lemma SecondRunKeepsTrees(items: seq<Sexp>, text: string)
    requires IsStackup(items) && FieldSync.BalancedText(text) && SitesArePlain(text)
    requires Rewrite(items, text).Ok? && AtMostOneStackup(text)
    ensures var once := Rewrite(items, text).value;
            && Trees(once).Some? && Rewrite(items, once).Ok?
            && Trees(Rewrite(items, once).value) == Trees(once)
  {
    RewriteKeepsBalance(items, text);
    BalancedHasTrees(Rewrite(items, text).value);
    var before, after := RewriteIsIdempotent(items, text);
  }
}
