/** The law that the stackup script states for its numbers: the layers add up to the nominal millimetre. */
module StackupThickness {
  import opened BalancedScan
  import opened StackupRewrite

  function Digit(c: char): real {
    if '0' <= c <= '9' then (c as int - '0' as int) as real else 0.0
  }

  function Fraction(s: string): real {
    if s == "" then 0.0 else (Digit(s[0]) + Fraction(s[1..])) / 10.0
  }

  /** The value of a decimal number as KiCad writes it. */
  function Decimal(s: string, whole: real): real {
    if s == "" then whole
    else if s[0] == '.' then whole + Fraction(s[1..])
    else Decimal(s[1..], 10.0 * whole + Digit(s[0]))
  }

  predicate IsThickness(items: seq<Sexp>) {
    |items| == 3 && items[0] == Text("thickness") && items[1] == Text(" ") && items[2].Text?
  }

  /** The sum of all thicknesses in an expression, at any depth. */
  function Thickness(x: Sexp): real {
    match x
    case List(items) => if IsThickness(items) then Decimal(items[2].text, 0.0) else Total(items)
    case _ => 0.0
  }

  function Total(xs: seq<Sexp>): real {
    if xs == [] then 0.0 else Thickness(xs[0]) + Total(xs[1..])
  }

  lemma {:induction false} TotalConcat(xs: seq<Sexp>, ys: seq<Sexp>)
    ensures Total(xs + ys) == Total(xs) + Total(ys)
  {
    if xs == [] {
      assert xs + ys == ys;
    } else {
      TotalConcat(xs[1..], ys);
      assert (xs + ys)[1..] == xs[1..] + ys;
    }
  }

  lemma TotalOne(x: Sexp)
    ensures Total([x]) == Thickness(x)
  {
    assert [x][1..] == [];
  }

  lemma TotalTwo(x: Sexp, y: Sexp)
    ensures Total([x, y]) == Thickness(x) + Thickness(y)
  {
    assert [x, y] == [x] + [y];
    TotalConcat([x], [y]);
    TotalOne(x);
    TotalOne(y);
  }

  lemma {:induction false} SeparatedTotal(separator: string, entries: seq<Sexp>)
    requires IsPlainText(separator) && forall i :: 0 <= i < |entries| ==> WellFormed(entries[i])
    ensures Total(Separated(separator, entries)) == Total(entries)
  {
    if entries != [] {
      SeparatedTotal(separator, entries[1..]);
      TotalConcat([Text(separator), entries[0]], Separated(separator, entries[1..]));
      TotalTwo(Text(separator), entries[0]);
    }
  }

  lemma NamedThickness(name: string, value: string)
    requires IsPlainText(name)
    ensures Thickness(Named(name, value)) == 0.0
  {
    var items := [Text(name), Text(" "), Quote(value)];
    assert items == [Text(name), Text(" ")] + [Quote(value)];
    TotalConcat([Text(name), Text(" ")], [Quote(value)]);
    TotalTwo(Text(name), Text(" "));
    TotalOne(Quote(value));
  }

  lemma OtherNumber(name: string, value: string)
    requires IsPlainText(name) && IsPlainText(value) && name != "thickness"
    ensures Thickness(Number(name, value)) == 0.0
  {
    var items := [Text(name), Text(" "), Text(value)];
    assert items == [Text(name), Text(" ")] + [Text(value)];
    TotalConcat([Text(name), Text(" ")], [Text(value)]);
    TotalTwo(Text(name), Text(" "));
    TotalOne(Text(value));
  }

  lemma TotalFour(a: Sexp, b: Sexp, c: Sexp, d: Sexp)
    ensures Total([a, b, c, d]) == Thickness(a) + Thickness(b) + Thickness(c) + Thickness(d)
  {
    assert [a, b, c, d] == [a, b] + [c, d];
    TotalConcat([a, b], [c, d]);
    TotalTwo(a, b);
    TotalTwo(c, d);
  }

  lemma FrontThickness(name: string, typed: Sexp)
    requires Thickness(typed) == 0.0
    ensures Total([Text("layer"), Text(" "), Quote(name), Text(" "), typed]) == 0.0
  {
    var front := [Text("layer"), Text(" "), Quote(name), Text(" ")];
    TotalFour(Text("layer"), Text(" "), Quote(name), Text(" "));
    TotalOne(typed);
    TotalConcat(front, [typed]);
    assert [Text("layer"), Text(" "), Quote(name), Text(" "), typed] == front + [typed];
  }

  lemma LayerSplits(name: string, kind: string, fields: seq<Sexp>) returns (front: seq<Sexp>)
    requires forall i :: 0 <= i < |fields| ==> WellFormed(fields[i])
    ensures Layer(name, kind, fields) == List(front + Separated(" ", fields))
    ensures front != [] && front[0] == Text("layer") && Total(front) == 0.0
  {
    var typed := Named("type", kind);
    NamedThickness("type", kind);
    FrontThickness(name, typed);
    front := [Text("layer"), Text(" "), Quote(name), Text(" "), typed];
  }

  lemma ListThickness(front: seq<Sexp>, rest: seq<Sexp>)
    requires front != [] && front[0] == Text("layer")
    ensures Thickness(List(front + rest)) == Total(front) + Total(rest)
  {
    TotalConcat(front, rest);
    assert (front + rest)[0] == front[0];
  }

  lemma FieldsThickness(name: string, kind: string, fields: seq<Sexp>, front: seq<Sexp>)
    requires forall i :: 0 <= i < |fields| ==> WellFormed(fields[i])
    requires front != [] && front[0] == Text("layer") && Total(front) == 0.0
    requires Layer(name, kind, fields) == List(front + Separated(" ", fields))
    ensures Thickness(Layer(name, kind, fields)) == Total(fields)
  {
    SeparatedTotal(" ", fields);
    ListThickness(front, Separated(" ", fields));
  }

  /** A layer is as thick as its fields say. */
  lemma LayerThickness(name: string, kind: string, fields: seq<Sexp>)
    requires forall i :: 0 <= i < |fields| ==> WellFormed(fields[i])
    ensures Thickness(Layer(name, kind, fields)) == Total(fields)
  {
    var front := LayerSplits(name, kind, fields);
    FieldsThickness(name, kind, fields, front);
  }

  lemma PlainLayer(name: string, kind: string)
    ensures Thickness(Layer(name, kind, [])) == 0.0
  {
    LayerThickness(name, kind, []);
  }

  lemma ThickLayer(name: string, kind: string, value: string)
    requires IsPlainText(value)
    ensures Thickness(Layer(name, kind, [Number("thickness", value)])) == Decimal(value, 0.0)
  {
    LayerThickness(name, kind, [Number("thickness", value)]);
    TotalOne(Number("thickness", value));
  }

  lemma TopThickness()
    ensures Total(TopEntries()) == Decimal("0.01", 0.0) + Decimal("0.035", 0.0)
  {
    var a, b := Layer("F.SilkS", "Top Silk Screen", []), Layer("F.Paste", "Top Solder Paste", []);
    var c := Layer("F.Mask", "Top Solder Mask", [Number("thickness", "0.01")]);
    var d := Layer("F.Cu", "copper", [Number("thickness", "0.035")]);
    PlainLayer("F.SilkS", "Top Silk Screen");
    PlainLayer("F.Paste", "Top Solder Paste");
    ThickLayer("F.Mask", "Top Solder Mask", "0.01");
    ThickLayer("F.Cu", "copper", "0.035");
    TotalFour(a, b, c, d);
  }

  lemma GeometryThickness()
    ensures Total(Geometry()) == Decimal("0.91", 0.0)
  {
    TotalTwo(Number("thickness", "0.91"), Named("material", "FR4"));
    NamedThickness("material", "FR4");
  }

  lemma ElectricsThickness()
    ensures Total(Electrics()) == 0.0
  {
    TotalTwo(Number("epsilon_r", "4.5"), Number("loss_tangent", "0.02"));
    OtherNumber("epsilon_r", "4.5");
    OtherNumber("loss_tangent", "0.02");
  }

  lemma CoreThickness()
    ensures Thickness(CoreEntry()) == Decimal("0.91", 0.0)
  {
    CoreIs(Geometry(), Electrics());
    GeometryThickness();
    ElectricsThickness();
  }

  lemma CoreIs(geometry: seq<Sexp>, electrics: seq<Sexp>)
    requires forall i :: 0 <= i < |geometry| ==> WellFormed(geometry[i])
    requires forall i :: 0 <= i < |electrics| ==> WellFormed(electrics[i])
    ensures Thickness(Layer("dielectric 1", "core", geometry + electrics)) == Total(geometry) + Total(electrics)
  {
    LayerThickness("dielectric 1", "core", geometry + electrics);
    TotalConcat(geometry, electrics);
  }

  lemma BottomThickness()
    ensures Total(BottomEntries()) == Decimal("0.035", 0.0) + Decimal("0.01", 0.0)
  {
    var a := Layer("B.Cu", "copper", [Number("thickness", "0.035")]);
    var b := Layer("B.Mask", "Bottom Solder Mask", [Number("thickness", "0.01")]);
    var c, d := Layer("B.Paste", "Bottom Solder Paste", []), Layer("B.SilkS", "Bottom Silk Screen", []);
    var e, f := Named("copper_finish", "ENIG"), Number("dielectric_constraints", "no");
    ThickLayer("B.Cu", "copper", "0.035");
    ThickLayer("B.Mask", "Bottom Solder Mask", "0.01");
    PlainLayer("B.Paste", "Bottom Solder Paste");
    PlainLayer("B.SilkS", "Bottom Silk Screen");
    NamedThickness("copper_finish", "ENIG");
    OtherNumber("dielectric_constraints", "no");
    BottomIs(a, b, c, d, e, f);
  }

  lemma BottomIs(a: Sexp, b: Sexp, c: Sexp, d: Sexp, e: Sexp, f: Sexp)
    ensures Total([a, b, c, d, e, f])
         == Thickness(a) + Thickness(b) + Thickness(c) + Thickness(d) + Thickness(e) + Thickness(f)
  {
    assert [a, b, c, d, e, f] == [a, b, c, d] + [e, f];
    TotalConcat([a, b, c, d], [e, f]);
    TotalFour(a, b, c, d);
    TotalTwo(e, f);
  }

  lemma Decimals()
    ensures Decimal("0.01", 0.0) == 0.01 && Decimal("0.035", 0.0) == 0.035 && Decimal("0.91", 0.0) == 0.91
  {}

  /** Two copper layers of 35 um, two mask layers of 10 um and the core make up 1 mm. */
  lemma StackupIsOneMillimetre()
    ensures Total(StackupItems()) == 1.0
  {
    var entries := TopEntries() + [CoreEntry()] + BottomEntries();
    var middle := Separated("\n\t\t\t", entries);
    TopThickness();
    CoreThickness();
    BottomThickness();
    Decimals();
    TotalConcat(TopEntries() + [CoreEntry()], BottomEntries());
    TotalConcat(TopEntries(), [CoreEntry()]);
    TotalOne(CoreEntry());
    SeparatedTotal("\n\t\t\t", entries);
    TotalConcat([Text("stackup")] + middle, [Text("\n\t\t")]);
    TotalConcat([Text("stackup")], middle);
    TotalOne(Text("stackup"));
    TotalOne(Text("\n\t\t"));
  }
}
