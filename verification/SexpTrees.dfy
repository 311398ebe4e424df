/** What a board file means: the trees of its S-expressions, whatever its layout.

A text is cut into tokens, and tokens are read into trees.  The reading is proved to be the only
sequence of trees with these tokens, to exist for every balanced text, and not to depend on how much
blank space stands between tokens. */
module SexpTrees {
  import opened Prelude
  import opened Sequences
  import opened BalancedScan
  import FieldSync

  // ---------------------------------------------------------------- tokens ---

  /** A quoted token keeps its quotes and escapes. */
  datatype Token = Open | Close | Word(text: string) | Quote(text: string)

  predicate IsBlank(c: char) { c == ' ' || c == '\t' || c == '\n' || c == '\r' }

  function Flush(word: string): seq<Token> {
    if word == "" then [] else [Word(word)]
  }

  /** The tokens of `s`, entered in `mode` with part of a token read already. */
  function Tokens(s: string, mode: Mode, part: string): seq<Token>
    decreases |s|
  {
    if s == "" then Flush(part)
    else
      var c, rest := s[0], s[1..];
      if mode != Plain then
        if NextMode(mode, c) == Plain then [Quote(part + [c])] + Tokens(rest, Plain, "")
        else Tokens(rest, NextMode(mode, c), part + [c])
      else if c == '(' then Flush(part) + ([Open] + Tokens(rest, Plain, ""))
      else if c == ')' then Flush(part) + ([Close] + Tokens(rest, Plain, ""))
      else if c == '"' then Flush(part) + Tokens(rest, Quoted, [c])
      else if IsBlank(c) then Flush(part) + Tokens(rest, Plain, "")
      else Tokens(rest, Plain, part + [c])
  }

  /** The text with every run of blanks outside string literals squeezed to one space. */
  function Squeeze(s: string, mode: Mode, afterBlank: bool): string
    decreases |s|
  {
    if s == "" then ""
    else if mode == Plain && IsBlank(s[0]) then
      (if afterBlank then "" else " ") + Squeeze(s[1..], mode, true)
    else [s[0]] + Squeeze(s[1..], NextMode(mode, s[0]), false)
  }

  lemma SqueezeCons(c: char, t: string, mode: Mode, afterBlank: bool)
    ensures Squeeze([c] + t, mode, afterBlank)
         == if mode == Plain && IsBlank(c) then (if afterBlank then "" else " ") + Squeeze(t, mode, true)
            else [c] + Squeeze(t, NextMode(mode, c), false)
  {
    ConsParts(c, t);
  }

  lemma TokensCons(c: char, t: string, mode: Mode, part: string)
    ensures Tokens([c] + t, mode, part)
         == if mode != Plain then
              if NextMode(mode, c) == Plain then [Quote(part + [c])] + Tokens(t, NextMode(mode, c), "")
              else Tokens(t, NextMode(mode, c), part + [c])
            else if c == '(' then Flush(part) + ([Open] + Tokens(t, NextMode(mode, c), ""))
            else if c == ')' then Flush(part) + ([Close] + Tokens(t, NextMode(mode, c), ""))
            else if c == '"' then Flush(part) + Tokens(t, NextMode(mode, c), [c])
            else if IsBlank(c) then Flush(part) + Tokens(t, NextMode(mode, c), "")
            else Tokens(t, NextMode(mode, c), part + [c])
  {
    ConsParts(c, t);
  }

  lemma BlankToken(c: char, t: string, part: string)
    requires IsBlank(c)
    ensures Tokens([c] + t, Plain, part) == Flush(part) + Tokens(t, Plain, "")
  {
    ConsParts(c, t);
  }

  /** A first character decides alike whatever follows it. */
  lemma TokensAgree(c: char, t: string, t': string, mode: Mode, part: string)
    requires mode == Plain ==> !IsBlank(c)
    requires forall part' :: Tokens(t, NextMode(mode, c), part') == Tokens(t', NextMode(mode, c), part')
    ensures Tokens([c] + t, mode, part) == Tokens([c] + t', mode, part)
  {
    TokensCons(c, t, mode, part);
    TokensCons(c, t', mode, part);
  }

  /** Squeezing keeps the tokens: equal squeezed texts have the same tokens. */
  lemma {:induction false} SqueezeKeepsTokens(s: string, mode: Mode, afterBlank: bool, part: string)
    requires afterBlank ==> mode == Plain && part == ""
    ensures Tokens(Squeeze(s, mode, afterBlank), mode, part) == Tokens(s, mode, part)
    decreases |s|
  {
    if s != "" {
      var c, rest := s[0], s[1..];
      HeadTail(s);
      SqueezeCons(c, rest, mode, afterBlank);
      if mode == Plain && IsBlank(c) {
        SqueezeKeepsTokens(rest, Plain, true, "");
        BlankToken(c, rest, part);
        BlankToken(' ', Squeeze(rest, Plain, true), part);
        assert "" + Squeeze(rest, Plain, true) == Squeeze(rest, Plain, true);
        assert Flush("") + Tokens(rest, Plain, "") == Tokens(rest, Plain, "");
      } else {
        forall part'
          ensures Tokens(Squeeze(rest, NextMode(mode, c), false), NextMode(mode, c), part')
               == Tokens(rest, NextMode(mode, c), part')
        {
          SqueezeKeepsTokens(rest, NextMode(mode, c), false, part');
        }
        TokensAgree(c, Squeeze(rest, NextMode(mode, c), false), rest, mode, part);
      }
    }
  }

  // ----------------------------------------------------------------- trees ---

  datatype Tree = Leaf(token: Token) | Node(items: seq<Tree>)

  /** Leaves are words and quotes. */
  predicate Proper(ts: seq<Tree>) {
    forall i :: 0 <= i < |ts| ==>
      match ts[i]
      case Leaf(token) => token != Open && token != Close
      case Node(items) => Proper(items)
  }

  function Flat(ts: seq<Tree>): seq<Token>
    decreases ts
  {
    if ts == [] then [] else FlatTree(ts[0]) + Flat(ts[1..])
  }

  function FlatTree(t: Tree): seq<Token> {
    match t
    case Leaf(token) => [token]
    case Node(items) => [Open] + (Flat(items) + [Close])
  }

  /** Reads tokens; `top` holds the items of the current level so far, `stack` those of the levels around it. */
  function Read(tokens: seq<Token>, stack: seq<seq<Tree>>, top: seq<Tree>): Option<seq<Tree>>
    decreases |tokens|
  {
    if tokens == [] then if stack == [] then Some(top) else None
    else
      match tokens[0]
      case Open => Read(tokens[1..], stack + [top], [])
      case Close =>
        if stack == [] then None
        else Read(tokens[1..], stack[..|stack| - 1], stack[|stack| - 1] + [Node(top)])
      case _ => Read(tokens[1..], stack, top + [Leaf(tokens[0])])
  }

  function Trees(text: string): Option<seq<Tree>> {
    Read(Tokens(text, Plain, ""), [], [])
  }

  lemma ReadCons(token: Token, rest: seq<Token>, stack: seq<seq<Tree>>, top: seq<Tree>)
    ensures Read([token] + rest, stack, top)
         == match token
            case Open => Read(rest, stack + [top], [])
            case Close =>
              if stack == [] then None else Read(rest, stack[..|stack| - 1], stack[|stack| - 1] + [Node(top)])
            case _ => Read(rest, stack, top + [Leaf(token)])
  {
    ConsParts(token, rest);
  }

  /** Reading inverts flattening. */
  lemma {:induction false} ReadFlat(ts: seq<Tree>, rest: seq<Token>, stack: seq<seq<Tree>>, top: seq<Tree>)
    requires Proper(ts)
    ensures Read(Flat(ts) + rest, stack, top) == Read(rest, stack, top + ts)
    decreases ts, 0
  {
    if ts == [] {
      assert Flat(ts) + rest == rest && top + ts == top;
    } else {
      HeadTail(ts);
      Assoc(FlatTree(ts[0]), Flat(ts[1..]), rest);
      ReadFlatTree(ts, Flat(ts[1..]) + rest, stack, top);
      ReadFlat(ts[1..], rest, stack, top + [ts[0]]);
      Assoc(top, [ts[0]], ts[1..]);
    }
  }

  lemma {:induction false} ReadFlatTree(ts: seq<Tree>, rest: seq<Token>, stack: seq<seq<Tree>>, top: seq<Tree>)
    requires ts != [] && Proper(ts)
    ensures Read(FlatTree(ts[0]) + rest, stack, top) == Read(rest, stack, top + [ts[0]])
    decreases ts[0], 1
  {
    match ts[0]
    case Leaf(token) => ReadCons(token, rest, stack, top);
    case Node(items) =>
      var tail := [Close] + rest;
      Assoc([Open], Flat(items) + [Close], rest);
      Assoc(Flat(items), [Close], rest);
      ReadCons(Open, Flat(items) + tail, stack, top);
      ReadFlat(items, tail, stack + [top], []);
      assert [] + items == items;
      ReadCons(Close, rest, stack + [top], items);
      assert (stack + [top])[..|stack|] == stack;
  }

  /** The tokens that were read to get here. */
  function Unwound(stack: seq<seq<Tree>>, top: seq<Tree>): seq<Token>
    decreases |stack|
  {
    if stack == [] then Flat(top)
    else Unwound(stack[..|stack| - 1], stack[|stack| - 1]) + ([Open] + Flat(top))
  }

  lemma {:induction false} FlatSnoc(ts: seq<Tree>, t: Tree)
    ensures Flat(ts + [t]) == Flat(ts) + FlatTree(t)
  {
    if ts == [] {
      assert [] + [t] == [t] && [t][1..] == [] && FlatTree(t) + [] == FlatTree(t) == [] + FlatTree(t);
    } else {
      TailOfConcat(ts, [t]);
      FlatSnoc(ts[1..], t);
      Assoc(FlatTree(ts[0]), Flat(ts[1..]), FlatTree(t));
    }
  }

  lemma UnwoundLeaf(stack: seq<seq<Tree>>, top: seq<Tree>, t: Tree)
    ensures Unwound(stack, top + [t]) == Unwound(stack, top) + FlatTree(t)
  {
    FlatSnoc(top, t);
    if stack != [] {
      var outer := Unwound(stack[..|stack| - 1], stack[|stack| - 1]);
      Assoc([Open], Flat(top), FlatTree(t));
      Assoc(outer, [Open] + Flat(top), FlatTree(t));
    }
  }

  lemma UnwoundOpen(stack: seq<seq<Tree>>, top: seq<Tree>)
    ensures Unwound(stack + [top], []) == Unwound(stack, top) + [Open]
  {
    assert (stack + [top])[..|stack|] == stack && [Open] + Flat([]) == [Open];
  }

  lemma UnwoundClose(stack: seq<seq<Tree>>, top: seq<Tree>)
    requires stack != []
    ensures Unwound(stack[..|stack| - 1], stack[|stack| - 1] + [Node(top)]) == Unwound(stack, top) + [Close]
  {
    var outer := Unwound(stack[..|stack| - 1], stack[|stack| - 1]);
    UnwoundLeaf(stack[..|stack| - 1], stack[|stack| - 1], Node(top));
    Assoc([Open], Flat(top), [Close]);
    Assoc(outer, [Open] + Flat(top), [Close]);
  }

  /** Nothing is lost in reading. */
  lemma {:induction false} FlatRead(tokens: seq<Token>, stack: seq<seq<Tree>>, top: seq<Tree>)
    requires Read(tokens, stack, top).Some?
    ensures Flat(Read(tokens, stack, top).value) == Unwound(stack, top) + tokens
    decreases |tokens|
  {
    if tokens == [] {
      assert Flat(top) + [] == Flat(top);
    } else {
      var token, rest := tokens[0], tokens[1..];
      HeadTail(tokens);
      ReadCons(token, rest, stack, top);
      match token
      case Open =>
        UnwoundOpen(stack, top);
        FlatRead(rest, stack + [top], []);
        Assoc(Unwound(stack, top), [Open], rest);
      case Close =>
        UnwoundClose(stack, top);
        FlatRead(rest, stack[..|stack| - 1], stack[|stack| - 1] + [Node(top)]);
        Assoc(Unwound(stack, top), [Close], rest);
      case _ =>
        UnwoundLeaf(stack, top, Leaf(token));
        FlatRead(rest, stack, top + [Leaf(token)]);
        Assoc(Unwound(stack, top), [token], rest);
    }
  }

  lemma {:induction false} ReadIsProper(tokens: seq<Token>, stack: seq<seq<Tree>>, top: seq<Tree>)
    requires Read(tokens, stack, top).Some?
    requires Proper(top) && forall i :: 0 <= i < |stack| ==> Proper(stack[i])
    ensures Proper(Read(tokens, stack, top).value)
    decreases |tokens|
  {
    if tokens != [] {
      match tokens[0]
      case Open => ReadIsProper(tokens[1..], stack + [top], []);
      case Close => ReadIsProper(tokens[1..], stack[..|stack| - 1], stack[|stack| - 1] + [Node(top)]);
      case _ => ReadIsProper(tokens[1..], stack, top + [Leaf(tokens[0])]);
    }
  }

  /** The trees of a text are the only ones whose tokens are those of the text. */
  lemma TreesIff(text: string, ts: seq<Tree>)
    ensures Trees(text) == Some(ts) <==> Proper(ts) && Flat(ts) == Tokens(text, Plain, "")
  {
    var tokens := Tokens(text, Plain, "");
    if Trees(text) == Some(ts) {
      ReadIsProper(tokens, [], []);
      FlatRead(tokens, [], []);
      assert Flat([]) + tokens == tokens;
    }
    if Proper(ts) && Flat(ts) == tokens {
      ReadFlat(ts, [], [], []);
      assert tokens + [] == tokens && [] + ts == ts;
    }
  }

  /** Texts that differ only in how much blank space they have outside strings have the same trees. */
  lemma LayoutDoesNotMatter(s: string, t: string)
    requires Squeeze(s, Plain, false) == Squeeze(t, Plain, false)
    ensures Trees(s) == Trees(t)
  {
    SqueezeKeepsTokens(s, Plain, false, "");
    SqueezeKeepsTokens(t, Plain, false, "");
  }

  // -------------------------------------------------- balanced texts have trees ---

  /** Parentheses never close more than is open, and close all. */
  predicate Nested(tokens: seq<Token>, depth: nat) {
    if tokens == [] then depth == 0
    else
      match tokens[0]
      case Open => Nested(tokens[1..], depth + 1)
      case Close => depth > 0 && Nested(tokens[1..], depth - 1)
      case _ => Nested(tokens[1..], depth)
  }

  lemma {:induction false} NestedIsRead(tokens: seq<Token>, stack: seq<seq<Tree>>, top: seq<Tree>)
    ensures Read(tokens, stack, top).Some? <==> Nested(tokens, |stack|)
    decreases |tokens|
  {
    if tokens != [] {
      match tokens[0]
      case Open => NestedIsRead(tokens[1..], stack + [top], []);
      case Close =>
        if stack != [] { NestedIsRead(tokens[1..], stack[..|stack| - 1], stack[|stack| - 1] + [Node(top)]); }
      case _ => NestedIsRead(tokens[1..], stack, top + [Leaf(tokens[0])]);
    }
  }

  lemma NestedCons(token: Token, rest: seq<Token>, depth: nat)
    ensures Nested([token] + rest, depth)
         == match token
            case Open => Nested(rest, depth + 1)
            case Close => depth > 0 && Nested(rest, depth - 1)
            case _ => Nested(rest, depth)
  {
    ConsParts(token, rest);
  }

  lemma NestedFlush(part: string, rest: seq<Token>, depth: nat)
    ensures Nested(Flush(part) + rest, depth) == Nested(rest, depth)
  {
    if part == "" {
      assert [] + rest == rest;
    } else {
      NestedCons(Word(part), rest, depth);
    }
  }

  /** How the first character moves the depth. */
  lemma NestedStep(c: char, t: string, mode: Mode, part: string, depth: nat)
    requires depth + Weight(mode, c) >= 0
    requires forall part' :: Nested(Tokens(t, NextMode(mode, c), part'), depth + Weight(mode, c))
    ensures Nested(Tokens([c] + t, mode, part), depth)
  {
    TokensCons(c, t, mode, part);
    var mode' := NextMode(mode, c);
    if mode != Plain {
      if mode' == Plain { NestedCons(Quote(part + [c]), Tokens(t, mode', ""), depth); }
    } else if c == '(' {
      NestedFlush(part, [Open] + Tokens(t, mode', ""), depth);
      NestedCons(Open, Tokens(t, mode', ""), depth);
    } else if c == ')' {
      NestedFlush(part, [Close] + Tokens(t, mode', ""), depth);
      NestedCons(Close, Tokens(t, mode', ""), depth);
    } else {
      NestedFlush(part, Tokens(t, mode', if c == '"' then [c] else ""), depth);
    }
  }

  lemma {:induction false} ScannedIsNested(s: string, mode: Mode, part: string, depth: nat)
    requires Scan(s + [')'], mode, depth + 1) == Some(|s| + 1)
    ensures Nested(Tokens(s, mode, part), depth)
    decreases |s|
  {
    if s == "" {
      assert s + [')'] == [')'] + "";
      ScanStep([')'] + "", ')', "", mode, depth + 1);
      NestedFlush(part, [], depth);
      assert Flush(part) + [] == Flush(part);
    } else {
      var c, rest := s[0], s[1..];
      HeadTail(s);
      Assoc([c], rest, [')']);
      ScanStep(s + [')'], c, rest + [')'], mode, depth + 1);
      forall part'
        ensures Nested(Tokens(rest, NextMode(mode, c), part'), depth + Weight(mode, c))
      {
        ScannedIsNested(rest, NextMode(mode, c), part', depth + Weight(mode, c));
      }
      NestedStep(c, rest, mode, part, depth);
    }
  }

  /** Every balanced text has trees. */
  lemma BalancedHasTrees(text: string)
    requires FieldSync.BalancedText(text)
    ensures Trees(text).Some?
  {
    ScannedIsNested(text, Plain, "", 0);
    NestedIsRead(Tokens(text, Plain, ""), [], []);
  }
}
