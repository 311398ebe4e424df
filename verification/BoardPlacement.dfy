/** The greedy component placer of the tag board (place_tag_board.py). */
module BoardPlacement {
  import opened Prelude

  // ---------------------------------------------------------------- geometry ---

  /** A courtyard rectangle in millimetres; y grows downwards, as in pcbnew. */
  datatype Box = Box(left: real, top: real, right: real, bottom: real)

  predicate ValidBox(b: Box) { b.left <= b.right && b.top <= b.bottom }

  function Translate(b: Box, x: real, y: real): Box {
    Box(b.left + x, b.top + y, b.right + x, b.bottom + y)
  }

  predicate Intersects(first: Box, second: Box, gap: real) {
    !(first.right + gap <= second.left || second.right + gap <= first.left
      || first.bottom + gap <= second.top || second.bottom + gap <= first.top)
  }

  function Abs(a: real): real { if a < 0.0 then -a else a }

  ghost predicate Contains(b: Box, x: real, y: real) {
    b.left <= x <= b.right && b.top <= y <= b.bottom
  }

  /** Some point of one box is closer than the gap to some point of the other, along both axes. */
  ghost predicate Near(first: Box, second: Box, gap: real) {
    exists x1, y1, x2, y2 ::
      Contains(first, x1, y1) && Contains(second, x2, y2) && Abs(x1 - x2) < gap && Abs(y1 - y2) < gap
  }

  lemma NearestPair(lo1: real, hi1: real, lo2: real, hi2: real, gap: real) returns (p1: real, p2: real)
    requires lo1 <= hi1 && lo2 <= hi2 && gap > 0.0 && hi1 + gap > lo2 && hi2 + gap > lo1
    ensures lo1 <= p1 <= hi1 && lo2 <= p2 <= hi2 && Abs(p1 - p2) < gap
  {
    if hi1 < lo2 {
      p1, p2 := hi1, lo2;
    } else if hi2 < lo1 {
      p1, p2 := lo1, hi2;
    } else {
      p1 := if lo1 > lo2 then lo1 else lo2;
      p2 := p1;
    }
  }

  /** The interval test means what it should: boxes collide exactly when they come closer than the gap. */
  lemma IntersectsMeansNear(first: Box, second: Box, gap: real)
    requires ValidBox(first) && ValidBox(second) && gap > 0.0
    ensures Intersects(first, second, gap) <==> Near(first, second, gap)
  {
    if Intersects(first, second, gap) {
      var x1, x2 := NearestPair(first.left, first.right, second.left, second.right, gap);
      var y1, y2 := NearestPair(first.top, first.bottom, second.top, second.bottom, gap);
      assert Contains(first, x1, y1) && Contains(second, x2, y2);
    }
  }

  // ---------------------------------------------------------------- the rules ---

  const OUTLINE := Box(100.0, 100.0, 160.0, 142.0)
  const PACK := Box(110.5, 104.0, 148.0, 135.0)
  const BLOCKED_ABOVE := Box(107.255, 81.205, 152.745, 100.755)
  const BLOCKED_BODY := Box(122.05, 100.755, 137.95, 116.545)
  const MARGIN := 0.45
  const GAP := 0.15
  const PACK_GAP := 0.4

  datatype Part = Part(flipped: bool, box: Box)

  type Layout = map<string, Part>

  predicate InsideOutline(b: Box) {
    && b.left >= OUTLINE.left + MARGIN && b.top >= OUTLINE.top + MARGIN
    && b.right <= OUTLINE.right - MARGIN && b.bottom <= OUTLINE.bottom - MARGIN
  }

  /** Part p does not collide with another part; the module U1 counts as its two blocked regions. */
  predicate Clears(p: Part, otherRef: string, other: Part) {
    p.flipped == other.flipped ==>
      if otherRef == "U1" then !Intersects(p.box, BLOCKED_ABOVE, GAP) && !Intersects(p.box, BLOCKED_BODY, GAP)
      else !Intersects(p.box, other.box, GAP)
  }

  /** The part may stand there, given what has been placed before. */
  predicate Fits(placed: Layout, ref: string, p: Part) {
    && (ref != "U1" ==> InsideOutline(p.box))
    && (p.flipped && ref != "RT1" ==> !Intersects(p.box, PACK, PACK_GAP))
    && forall other :: other in placed ==> Clears(p, other, placed[other])
  }

  /** The design rules on a whole layout. */
  ghost predicate Legal(placed: Layout) {
    && (forall r :: r in placed && r != "U1" ==> InsideOutline(placed[r].box))
    && (forall r :: r in placed && placed[r].flipped && r != "RT1" ==> !Intersects(placed[r].box, PACK, PACK_GAP))
    && (forall r, q | r in placed && q in placed && r != q && r != "U1" && q != "U1" ::
          placed[r].flipped == placed[q].flipped ==> !Intersects(placed[r].box, placed[q].box, GAP))
    && ("U1" in placed ==> forall r :: r in placed && r != "U1" && placed[r].flipped == placed["U1"].flipped ==>
                             !Intersects(placed[r].box, BLOCKED_ABOVE, GAP)
                             && !Intersects(placed[r].box, BLOCKED_BODY, GAP))
  }

  /** What stood in the first layout still stands there in the second. */
  ghost predicate Keeps(before: Layout, after: Layout) {
    forall q :: q in before ==> q in after && after[q] == before[q]
  }

  lemma StillKeeps(a: Layout, b: Layout, c: Layout)
    requires Keeps(a, b) && Keeps(b, c)
    ensures Keeps(a, c)
  {}

  lemma IntersectsSymmetric(a: Box, b: Box, gap: real)
    ensures Intersects(a, b, gap) == Intersects(b, a, gap)
  {}

  /** Checking one new part against the placed ones decides whether the whole layout stays legal, provided
  the module comes first: parts placed before U1 are never checked against its blocked regions. */
  lemma FitsIffLegal(placed: Layout, ref: string, p: Part)
    requires Legal(placed) && ref !in placed && (ref == "U1" ==> placed == map[])
    ensures Fits(placed, ref, p) <==> Legal(placed[ref := p])
  {
    if Fits(placed, ref, p) { FittingKeepsLegal(placed, ref, p); }
    if Legal(placed[ref := p]) { LegalMeansFits(placed, ref, p); }
  }

  lemma FittingKeepsLegal(placed: Layout, ref: string, p: Part)
    requires Legal(placed) && Fits(placed, ref, p) && ref !in placed
    requires ref == "U1" ==> placed == map[]
    ensures Legal(placed[ref := p])
  {
    var placed' := placed[ref := p];
    forall r, q | r in placed' && q in placed' && r != q && r != "U1" && q != "U1"
                  && placed'[r].flipped == placed'[q].flipped
      ensures !Intersects(placed'[r].box, placed'[q].box, GAP)
    {
      if r == ref {
        assert Clears(p, q, placed[q]);
      } else if q == ref {
        assert Clears(p, r, placed[r]);
        IntersectsSymmetric(p.box, placed[r].box, GAP);
      }
    }
    if "U1" in placed' && ref != "U1" {
      assert Clears(p, "U1", placed["U1"]);
    }
  }

  lemma LegalMeansFits(placed: Layout, ref: string, p: Part)
    requires Legal(placed[ref := p]) && ref !in placed
    requires ref == "U1" ==> placed == map[]
    ensures Fits(placed, ref, p)
  {
    var placed' := placed[ref := p];
    assert placed'[ref] == p;
    forall other | other in placed
      ensures Clears(p, other, placed[other])
    {
      assert placed'[other] == placed[other] && other in placed' && other != ref;
    }
  }

  lemma PlacingKeepsLegal(placed: Layout, ref: string, p: Part)
    requires Fits(placed, ref, p) && ref !in placed
    ensures Legal(placed) && (ref == "U1" ==> placed == map[]) ==> Legal(placed[ref := p])
  {
    if Legal(placed) && (ref == "U1" ==> placed == map[]) { FittingKeepsLegal(placed, ref, p); }
  }

  /** Inside the outline means: no point of the box is closer than 0.45 mm to an edge of the board. */
  lemma InsideIff(b: Box)
    requires ValidBox(b)
    ensures InsideOutline(b) <==>
              forall x, y :: Contains(b, x, y) ==> 100.45 <= x <= 159.55 && 100.45 <= y <= 141.55
  {
    assert Contains(b, b.left, b.top) && Contains(b, b.right, b.bottom);
  }

  // ------------------------------------------------------------- the search grid ---

  /** A grid point with its squared distance from the anchor. */
  datatype Spot = Spot(d2: real, x: real, y: real)

  function Square(a: real): real { a * a }

  function GridSpot(tx: real, ty: real, xi: int, yi: int): Spot {
    var x, y := xi as real / 2.0, yi as real / 2.0;
    Spot(Square(x - tx) + Square(y - ty), x, y)
  }

  /** The squared distance of a point from the anchor. */
  ghost function Distance2(tx: real, ty: real, x: real, y: real): real {
    Square(x - tx) + Square(y - ty)
  }

  /** A point of the half-millimetre grid within 14 mm of the anchor. */
  ghost predicate GridPoint(tx: real, ty: real, x: real, y: real) {
    && Distance2(tx, ty, x, y) <= 14.0 * 14.0
    && exists xi, yi :: 202 <= xi < 318 && 202 <= yi < 282 && InHalves(x, xi) && InHalves(y, yi)
  }

  ghost predicate InHalves(x: real, n: int) { x + x == n as real }

  /** Nearer to the anchor than the other point, or as near and before it by x and then y, or the same. */
  ghost predicate NoLater(tx: real, ty: real, x: real, y: real, x': real, y': real) {
    var d, d' := Distance2(tx, ty, x, y), Distance2(tx, ty, x', y');
    d < d' || (d == d' && (x < x' || (x == x' && y <= y')))
  }

  predicate LexLeq(a: Spot, b: Spot) {
    a.d2 < b.d2 || (a.d2 == b.d2 && (a.x < b.x || (a.x == b.x && a.y <= b.y)))
  }

  predicate SortedSpots(s: seq<Spot>) {
    forall i, j :: 0 <= i < j < |s| ==> LexLeq(s[i], s[j])
  }

  function Insert(a: Spot, s: seq<Spot>): (r: seq<Spot>)
    requires SortedSpots(s)
    ensures SortedSpots(r) && forall b :: b in r <==> b == a || b in s
  {
    if s == [] || LexLeq(a, s[0]) then
      var r := [a] + s;
      assert forall i :: 0 < i < |r| ==> r[i] == s[i - 1];
      r
    else
      var rest := Insert(a, s[1..]);
      var r := [s[0]] + rest;
      assert forall b :: b in rest ==> LexLeq(s[0], b) by {
        assert forall b :: b in s[1..] ==> LexLeq(s[0], b);
      }
      assert forall i :: 0 < i < |r| ==> r[i] == rest[i - 1] && r[i] in rest;
      assert s == [s[0]] + s[1..];
      r
  }

  /** `sorted(candidates)`: the same spots by distance, then x, then y. */
  function Sorted(s: seq<Spot>): (r: seq<Spot>)
    ensures SortedSpots(r) && forall b :: b in r <==> b in s
  {
    if s == [] then []
    else
      assert s == [s[0]] + s[1..];
      Insert(s[0], Sorted(s[1..]))
  }

  /** The spots of the first columns of the grid. */
  ghost predicate InColumns(tx: real, ty: real, xi: int, s: Spot) {
    s.d2 <= 196.0 && exists i, j :: 202 <= i < xi && 202 <= j < 282 && s == GridSpot(tx, ty, i, j)
  }

  lemma ColumnsAreGrid(tx: real, ty: real, s: Spot)
    ensures InColumns(tx, ty, 318, s) <==> GridPoint(tx, ty, s.x, s.y) && s.d2 == Distance2(tx, ty, s.x, s.y)
  {
    if InColumns(tx, ty, 318, s) {
      var i, j :| 202 <= i < 318 && 202 <= j < 282 && s == GridSpot(tx, ty, i, j);
      assert InHalves(s.x, i) && InHalves(s.y, j);
    }
    if GridPoint(tx, ty, s.x, s.y) && s.d2 == Distance2(tx, ty, s.x, s.y) {
      var i, j :| 202 <= i < 318 && 202 <= j < 282 && InHalves(s.x, i) && InHalves(s.y, j);
      assert s == GridSpot(tx, ty, i, j);
    }
  }

  /** All grid points within 14 mm, with their squared distances. */
  method Candidates(tx: real, ty: real) returns (spots: seq<Spot>)
    ensures forall s :: s in spots <==> GridPoint(tx, ty, s.x, s.y) && s.d2 == Distance2(tx, ty, s.x, s.y)
  {
    spots := [];
    for xi := 202 to 318
      invariant forall s :: s in spots <==> InColumns(tx, ty, xi, s)
    {
      ghost var before := spots;
      for yi := 202 to 282
        invariant forall s :: s in spots <==>
                    s in before || (s.d2 <= 196.0 && exists j :: 202 <= j < yi && s == GridSpot(tx, ty, xi, j))
      {
        var spot := GridSpot(tx, ty, xi, yi);
        if spot.d2 <= 196.0 {
          spots := spots + [spot];
        }
      }
    }
    forall s { ColumnsAreGrid(tx, ty, s); }
  }

  // ----------------------------------------------------------------- the placer ---

  function Refs(spots: seq<(string, real, real)>): set<string> {
    set s | s in spots :: s.0
  }

  function Elements(s: seq<string>): set<string> {
    set x | x in s
  }

  /** The table of fixed parts: known parts, each once, the module first. */
  predicate FixedTable(spots: seq<(string, real, real)>, refs: set<string>) {
    && (forall i :: 0 <= i < |spots| ==> spots[i].0 in refs)
    && (forall i, j :: 0 <= i < j < |spots| ==> spots[i].0 != spots[j].0)
    && spots != [] && spots[0].0 == "U1"
  }

  lemma NextIsNew(spots: seq<(string, real, real)>, refs: set<string>, i: nat)
    requires FixedTable(spots, refs) && i < |spots|
    ensures spots[i].0 in refs && spots[i].0 !in Refs(spots[..i]) && (spots[i].0 == "U1" ==> i == 0)
    ensures i == 0 ==> Refs(spots[..i]) == {}
    ensures "U1" in Refs(spots)
  {
    assert forall s :: s in spots[..i] ==> exists j :: 0 <= j < i && spots[j] == s;
    assert spots[0] in spots;
  }

  /** One placement more. */
  lemma RefsNext(spots: seq<(string, real, real)>, i: nat)
    requires i < |spots|
    ensures Refs(spots[..i + 1]) == Refs(spots[..i]) + {spots[i].0}
  {
    assert spots[..i + 1] == spots[..i] + [spots[i]];
    assert forall s :: s in spots[..i + 1] <==> s in spots[..i] || s == spots[i];
  }

  lemma ElementsNext(s: seq<string>, i: nat)
    requires i < |s|
    ensures Elements(s[..i + 1]) == Elements(s[..i]) + {s[i]}
  {
    assert s[..i + 1] == s[..i] + [s[i]];
  }

  datatype Error = LeavesBoard | EntersPack | Overlaps | NoAnchor | NoOpenPlacement

  class Footprint {
    const flipped: bool
    const extent: Box   // courtyard relative to the position
    var x: real
    var y: real

    constructor (flipped: bool, extent: Box)
      ensures this.flipped == flipped && this.extent == extent
    {
      this.flipped, this.extent := flipped, extent;
      x, y := 0.0, 0.0;
    }

    function PartAt(x: real, y: real): Part {
      Part(flipped, Translate(extent, x, y))
    }

    function Current(): Part
      reads this
    {
      PartAt(x, y)
    }
  }

  /** The footprints of the board and the dictionary `placed`. */
  class Placer {
    const footprints: map<string, Footprint>
    var placed: map<string, Footprint>

    ghost predicate Valid()
      reads this
    {
      && (forall r, q :: r in footprints && q in footprints && r != q ==> footprints[r] != footprints[q])
      && (forall r :: r in placed ==> r in footprints && placed[r] == footprints[r])
    }

    ghost function Placed(): Layout
      reads this, placed.Values
    {
      map r | r in placed :: placed[r].Current()
    }

    constructor (footprints: map<string, Footprint>)
      requires forall r, q :: r in footprints && q in footprints && r != q ==> footprints[r] != footprints[q]
      ensures Valid() && this.footprints == footprints && placed == map[]
    {
      this.footprints := footprints;
      this.placed := map[];
    }

    /** The checks of `place` on a part that is not recorded yet. */
    method Obstacle(ref: string, p: Part) returns (e: Option<Error>)
      requires Valid()
      ensures e.None? <==> Fits(Placed(), ref, p)
    {
      if ref != "U1" && !InsideOutline(p.box) {
        return Some(LeavesBoard);
      }
      if p.flipped && ref != "RT1" && Intersects(p.box, PACK, PACK_GAP) {
        return Some(EntersPack);
      }
      var others := placed.Keys;
      while others != {}
        invariant others <= placed.Keys
        invariant forall q :: q in placed && q !in others ==> Clears(p, q, placed[q].Current())
      {
        var q :| q in others;
        if !Clears(p, q, placed[q].Current()) {
          assert q in Placed();
          return Some(Overlaps);
        }
        others := others - {q};
      }
      return None;
    }

    /** `place`: moves the footprint, and records it exactly when it fits there.  Where the script
    returns False or raises, the error says why; `placed` and the other parts are then untouched.
    The layout stays legal as long as the module is the first part placed. */
    method Place(ref: string, x: real, y: real) returns (r: Result<(), Error>)
      requires Valid() && ref in footprints && ref !in placed
      modifies this`placed, footprints[ref]
      ensures Valid() && footprints[ref].x == x && footprints[ref].y == y
      ensures r.Ok? <==> Fits(old(Placed()), ref, footprints[ref].PartAt(x, y))
      ensures placed == if r.Ok? then old(placed)[ref := footprints[ref]] else old(placed)
      ensures Placed() == if r.Ok? then old(Placed())[ref := footprints[ref].PartAt(x, y)] else old(Placed())
      ensures Legal(old(Placed())) && (ref == "U1" ==> old(Placed()) == map[]) ==> Legal(Placed())
    {
      Move(ref, x, y);
      var e := Obstacle(ref, footprints[ref].Current());
      if e.Some? {
        return Err(e.value);
      }
      Record(ref);
      PlacingKeepsLegal(old(Placed()), ref, footprints[ref].PartAt(x, y));
      return Ok(());
    }

    method Move(ref: string, x: real, y: real)
      requires Valid() && ref in footprints && ref !in placed
      modifies footprints[ref]
      ensures Valid() && footprints[ref].x == x && footprints[ref].y == y && Placed() == old(Placed())
    {
      assert forall q :: q in placed ==> placed[q] != footprints[ref];
      footprints[ref].x, footprints[ref].y := x, y;
    }

    method Record(ref: string)
      requires Valid() && ref in footprints && ref !in placed
      modifies this`placed
      ensures Valid() && placed == old(placed)[ref := footprints[ref]]
      ensures Placed() == old(Placed())[ref := footprints[ref].Current()]
    {
      ghost var before := Placed();
      placed := placed[ref := footprints[ref]];
      assert forall r :: r in before ==> r != ref && r in Placed() && Placed()[r] == before[r];
    }

    /** `automatic_place`: the part goes to the least fitting grid point in the order distance, x, y;
    it raises exactly when the part has no anchor or no grid point fits. */
    method AutomaticPlace(ref: string, anchors: map<string, (real, real)>) returns (r: Result<Spot, Error>)
      requires Valid() && ref in footprints && ref !in placed
      modifies this`placed, footprints[ref]
      ensures Valid()
      ensures r == Err(NoAnchor) <==> ref !in anchors
      ensures r.Err? ==> placed == old(placed) && Placed() == old(Placed())
      ensures r.Err? && ref in anchors ==>
                r == Err(NoOpenPlacement)
                && forall x, y | GridPoint(anchors[ref].0, anchors[ref].1, x, y) ::
                     !Fits(old(Placed()), ref, footprints[ref].PartAt(x, y))
      ensures r.Ok? ==>
                var (tx, ty), (x, y) := anchors[ref], (r.value.x, r.value.y);
                && GridPoint(tx, ty, x, y)
                && Fits(old(Placed()), ref, footprints[ref].PartAt(x, y))
                && placed == old(placed)[ref := footprints[ref]]
                && Placed() == old(Placed())[ref := footprints[ref].PartAt(x, y)]
                && forall x', y' | GridPoint(tx, ty, x', y')
                                   && Fits(old(Placed()), ref, footprints[ref].PartAt(x', y')) ::
                     NoLater(tx, ty, x, y, x', y')
      ensures Legal(old(Placed())) && ref != "U1" ==> Legal(Placed())
    {
      if ref !in anchors {
        return Err(NoAnchor);
      }
      var target := anchors[ref];
      var candidates := Candidates(target.0, target.1);
      var order := Sorted(candidates);
      var spot := PlaceFirst(ref, order);
      if spot.None? {
        NoneFits(ref, old(Placed()), target, candidates);
        return Err(NoOpenPlacement);
      }
      FirstIsBest(ref, old(Placed()), target, candidates, spot.value);
      return Ok(spot.value);
    }

    lemma NoneFits(ref: string, before: Layout, target: (real, real), candidates: seq<Spot>)
      requires ref in footprints
      requires forall s :: s in candidates <==>
                 GridPoint(target.0, target.1, s.x, s.y) && s.d2 == Distance2(target.0, target.1, s.x, s.y)
      requires forall s :: s in candidates ==> !Fits(before, ref, footprints[ref].PartAt(s.x, s.y))
      ensures forall x, y | GridPoint(target.0, target.1, x, y) :: !Fits(before, ref, footprints[ref].PartAt(x, y))
    {
      forall x, y | GridPoint(target.0, target.1, x, y)
        ensures !Fits(before, ref, footprints[ref].PartAt(x, y))
      {
        assert Spot(Distance2(target.0, target.1, x, y), x, y) in candidates;
      }
    }

    lemma FirstIsBest(ref: string, before: Layout, target: (real, real), candidates: seq<Spot>, best: Spot)
      requires ref in footprints && best in candidates
      requires forall s :: s in candidates <==>
                 GridPoint(target.0, target.1, s.x, s.y) && s.d2 == Distance2(target.0, target.1, s.x, s.y)
      requires forall s :: s in candidates && Fits(before, ref, footprints[ref].PartAt(s.x, s.y)) ==> LexLeq(best, s)
      ensures forall x, y | GridPoint(target.0, target.1, x, y) && Fits(before, ref, footprints[ref].PartAt(x, y)) ::
                NoLater(target.0, target.1, best.x, best.y, x, y)
    {
      forall x, y | GridPoint(target.0, target.1, x, y) && Fits(before, ref, footprints[ref].PartAt(x, y))
        ensures NoLater(target.0, target.1, best.x, best.y, x, y)
      {
        assert Spot(Distance2(target.0, target.1, x, y), x, y) in candidates;
      }
    }

    /** The part goes to the first spot of the list where it fits. */
    method PlaceFirst(ref: string, order: seq<Spot>) returns (r: Option<Spot>)
      requires Valid() && ref in footprints && ref !in placed && SortedSpots(order)
      modifies this`placed, footprints[ref]
      ensures Valid()
      ensures r.None? ==> placed == old(placed) && Placed() == old(Placed())
      ensures r.None? ==> forall s :: s in order ==> !Fits(old(Placed()), ref, footprints[ref].PartAt(s.x, s.y))
      ensures r.Some? ==>
                && r.value in order && Fits(old(Placed()), ref, footprints[ref].PartAt(r.value.x, r.value.y))
                && placed == old(placed)[ref := footprints[ref]]
                && Placed() == old(Placed())[ref := footprints[ref].PartAt(r.value.x, r.value.y)]
                && forall s :: s in order && Fits(old(Placed()), ref, footprints[ref].PartAt(s.x, s.y)) ==>
                     LexLeq(r.value, s)
      ensures Legal(old(Placed())) && ref != "U1" ==> Legal(Placed())
    {
      for i := 0 to |order|
        invariant Valid() && placed == old(placed) && Placed() == old(Placed())
        invariant Legal(old(Placed())) && ref != "U1" ==> Legal(Placed())
        invariant forall j :: 0 <= j < i ==> !Fits(old(Placed()), ref, footprints[ref].PartAt(order[j].x, order[j].y))
      {
        var done := Place(ref, order[i].x, order[i].y);
        if done.Ok? {
          return Some(order[i]);
        }
      }
      return None;
    }

    /** In this layout the part of each of these spots stands there. */
    ghost predicate AtSpots(layout: Layout, spots: seq<(string, real, real)>) {
      forall i :: 0 <= i < |spots| ==> At(layout, spots[i].0, spots[i].1, spots[i].2)
    }

    ghost predicate At(layout: Layout, ref: string, x: real, y: real) {
      ref in layout && ref in footprints && layout[ref] == footprints[ref].PartAt(x, y)
    }

    lemma StillAtSpots(layout: Layout, layout': Layout, spots: seq<(string, real, real)>)
      requires AtSpots(layout, spots) && Keeps(layout, layout')
      ensures AtSpots(layout', spots)
    {
      forall i | 0 <= i < |spots|
        ensures At(layout', spots[i].0, spots[i].1, spots[i].2)
      {
        assert At(layout, spots[i].0, spots[i].1, spots[i].2);
      }
    }

    lemma OneSpotMore(layout: Layout, spots: seq<(string, real, real)>, i: nat)
      requires i < |spots| && AtSpots(layout, spots[..i]) && spots[i].0 !in layout && spots[i].0 in footprints
      ensures AtSpots(layout[spots[i].0 := footprints[spots[i].0].PartAt(spots[i].1, spots[i].2)], spots[..i + 1])
    {
      var s, part := spots[i], footprints[spots[i].0].PartAt(spots[i].1, spots[i].2);
      StillAtSpots(layout, layout[s.0 := part], spots[..i]);
      assert At(layout[s.0 := part], s.0, s.1, s.2);
      assert forall j :: 0 <= j < i ==> spots[..i + 1][j] == spots[..i][j];
    }

    /** The placement loops of `main`: the fixed parts, the module first, then the rest by anchor.
    The layout obeys the design rules after every placement, also when a later one raises. */
    method PlaceAll(spots: seq<(string, real, real)>, components: seq<string>, anchors: map<string, (real, real)>)
      returns (r: Result<(), Error>)
      requires Valid() && placed == map[]
      requires FixedTable(spots, footprints.Keys)
      requires forall i :: 0 <= i < |components| ==> components[i] in footprints
      modifies this`placed, footprints.Values
      ensures Valid() && Legal(Placed())
      ensures r.Ok? ==> placed.Keys == Refs(spots) + Elements(components) && AtSpots(Placed(), spots)
    {
      r := PlaceFixed(spots);
      if r.Ok? {
        ghost var before := Placed();
        r := PlaceComponents(components, anchors);
        StillAtSpots(before, Placed(), spots);
      }
    }

    method PlaceFixed(spots: seq<(string, real, real)>) returns (r: Result<(), Error>)
      requires Valid() && placed == map[]
      requires FixedTable(spots, footprints.Keys)
      modifies this`placed, footprints.Values
      ensures Valid() && Legal(Placed())
      ensures r.Ok? ==> placed.Keys == Refs(spots) && "U1" in placed && AtSpots(Placed(), spots)
    {
      for i := 0 to |spots|
        invariant Valid() && Legal(Placed())
        invariant placed.Keys == Refs(spots[..i]) && AtSpots(Placed(), spots[..i])
      {
        RefsNext(spots, i);
        NextIsNew(spots, footprints.Keys, i);
        ghost var before := Placed();
        var done := PlaceNext(spots[i].0, spots[i].1, spots[i].2);
        if done.Err? {
          return done;
        }
        OneSpotMore(before, spots, i);
      }
      assert spots[..|spots|] == spots;
      return Ok(());
    }

    /** A further part: the module only onto the empty board. */
    method PlaceNext(ref: string, x: real, y: real) returns (r: Result<(), Error>)
      requires Valid() && Legal(Placed()) && ref in footprints && ref !in placed && (ref == "U1" ==> placed == map[])
      modifies this`placed, footprints[ref]
      ensures Valid() && Legal(Placed())
      ensures placed.Keys == if r.Ok? then old(placed.Keys) + {ref} else old(placed.Keys)
      ensures Placed() == if r.Ok? then old(Placed())[ref := footprints[ref].PartAt(x, y)] else old(Placed())
    {
      r := Place(ref, x, y);
    }

    /** A further component, after the module. */
    method PlaceByAnchor(ref: string, anchors: map<string, (real, real)>) returns (r: Result<(), Error>)
      requires Valid() && Legal(Placed()) && "U1" in placed && ref in footprints && ref !in placed
      modifies this`placed, footprints[ref]
      ensures Valid() && Legal(Placed()) && Keeps(old(Placed()), Placed())
      ensures placed.Keys == if r.Ok? then old(placed.Keys) + {ref} else old(placed.Keys)
    {
      var spot := AutomaticPlace(ref, anchors);
      r := if spot.Ok? then Ok(()) else Err(spot.error);
    }

    method PlaceComponents(components: seq<string>, anchors: map<string, (real, real)>) returns (r: Result<(), Error>)
      requires Valid() && Legal(Placed()) && "U1" in placed
      requires forall i :: 0 <= i < |components| ==> components[i] in footprints
      modifies this`placed, footprints.Values
      ensures Valid() && Legal(Placed())
      ensures r.Ok? ==> placed.Keys == old(placed.Keys) + Elements(components)
      ensures Keeps(old(Placed()), Placed())
    {
      ghost var start, keys := Placed(), placed.Keys;
      for i := 0 to |components|
        invariant Valid() && Legal(Placed()) && "U1" in placed
        invariant placed.Keys == keys + Elements(components[..i]) && Keeps(start, Placed())
      {
        var ref := components[i];
        ElementsNext(components, i);
        if ref !in placed {
          ghost var before := Placed();
          var done := PlaceByAnchor(ref, anchors);
          StillKeeps(start, before, Placed());
          if done.Err? {
            return done;
          }
        }
      }
      assert components[..|components|] == components;
      return Ok(());
    }
  }
}
