/** The rectangles of characters that the content process caches for the parent
    process, against the layout they were taken from. */
module ContentRects {
  import opened BasicTypes

  datatype Rect = Rect(x: int, y: int, width: int, height: int)
  {
    predicate IsEmpty() { width <= 0 || height <= 0 }
    function XMost(): int { x + width }
    function YMost(): int { y + height }

    function Union(r: Rect): Rect {
      if IsEmpty() then r
      else if r.IsEmpty() then this
      else
        var left, top := Min(x, r.x), Min(y, r.y);
        Rect(left, top, Max(XMost(), r.XMost()) - left, Max(YMost(), r.YMost()) - top)
    }

    predicate Contains(r: Rect) {
      x <= r.x && y <= r.y && r.XMost() <= XMost() && r.YMost() <= YMost()
    }
  }

  const EMPTY := Rect(0, 0, 0, 0)

  /** Where each character is laid out: never in an empty rectangle. */
  type Layout = nat -> Rect

  ghost predicate IsLayout(layout: Layout) {
    forall o: nat :: !layout(o).IsEmpty()
  }

  // ----- Bounding boxes -----

  /** `u` is the smallest rectangle around the characters at `offsets`: it contains
      them all, and each of its edges is an edge of one of them. */
  ghost predicate IsBoundingBox(u: Rect, layout: Layout, offsets: set<nat>) {
    if offsets == {} then u.IsEmpty()
    else
      && !u.IsEmpty()
      && (forall o :: o in offsets ==> u.Contains(layout(o)))
      && (exists o :: o in offsets && layout(o).x == u.x)
      && (exists o :: o in offsets && layout(o).y == u.y)
      && (exists o :: o in offsets && layout(o).XMost() == u.XMost())
      && (exists o :: o in offsets && layout(o).YMost() == u.YMost())
  }

  lemma BoundingBoxIsUnique(u: Rect, v: Rect, layout: Layout, offsets: set<nat>)
    requires offsets != {}
    requires IsBoundingBox(u, layout, offsets) && IsBoundingBox(v, layout, offsets)
    ensures u == v
  {
  }

  lemma UnionIsBoundingBox(a: Rect, b: Rect, layout: Layout, s: set<nat>, t: set<nat>)
    requires IsBoundingBox(a, layout, s) && IsBoundingBox(b, layout, t)
    ensures IsBoundingBox(a.Union(b), layout, s + t)
  {
  }

  lemma OneCharacter(layout: Layout, o: nat)
    requires IsLayout(layout)
    ensures IsBoundingBox(layout(o), layout, {o})
  {
  }

  // ----- The array of rects of the composition string -----

  datatype TextRectArray = TextRectArray(start: uint32, rects: seq<Rect>)
  {
    predicate IsValid() { start != UINT32_MAX && start + |rects| <= UINT32_MAX }
    predicate HasRects() { IsValid() && rects != [] }
    function EndOffset(): uint32 { if IsValid() then start + |rects| else UINT32_MAX }
    predicate InRange(o: uint32) { IsValid() && start <= o < EndOffset() }

    predicate IsOverlappingWith(o: uint32, length: uint32) {
      HasRects() && o != UINT32_MAX && length != 0 && o + length <= UINT32_MAX
      && o < EndOffset() && o + length > start
    }

    function GetRect(o: uint32): Rect {
      if InRange(o) then rects[o - start] else EMPTY
    }

    /** The part of the array that serves a query, as offsets; `length` is added with
        the wrap-around of a 32-bit integer. */
    function FirstServed(o: uint32, round: bool): uint32
      requires HasRects()
    {
      var first := Max(o, start);
      if round && first >= EndOffset() then EndOffset() - 1 else first
    }

    function EndServed(o: uint32, length: uint32, round: bool): uint32
      requires HasRects()
    {
      var last := Min(Wrap(o + length), EndOffset());
      if round && last < start + 1 then start + 1 else last
    }

    function UnionOf(i: nat, n: nat): Rect
      requires i + n <= |rects|
    {
      if n == 0 then EMPTY else UnionOf(i, n - 1).Union(rects[i + n - 1])
    }

    predicate Serves(o: uint32, length: uint32, round: bool) {
      && HasRects() && (round || IsOverlappingWith(o, length))
      && EndServed(o, length, round) >= FirstServed(o, round)
    }

    function UnionAsFarAsPossible(o: uint32, length: uint32, round: bool): Rect {
      if !Serves(o, length, round) then EMPTY
      else
        var first := FirstServed(o, round);
        UnionOf(first - start, EndServed(o, length, round) - first)
    }
  }

  /** GetUnionRectAsFarAsPossible reads no rect outside the array. */
  method GetUnionRectAsFarAsPossible(a: TextRectArray, o: uint32, length: uint32, round: bool) returns (rect: Rect)
    ensures rect == a.UnionAsFarAsPossible(o, length, round)
  {
    rect := EMPTY;
    if !a.HasRects() || (!round && !a.IsOverlappingWith(o, length)) {
      return;
    }
    var startOffset := Max(o, a.start);
    if round && startOffset >= a.EndOffset() {
      startOffset := a.EndOffset() - 1;
    }
    var endOffset := Min(Wrap(o + length), a.EndOffset());
    if round && endOffset < a.start + 1 {
      endOffset := a.start + 1;
    }
    if endOffset < startOffset {
      return;
    }
    var i := 0;
    while i < endOffset - startOffset
      invariant 0 <= i <= endOffset - startOffset
      invariant rect == a.UnionOf(startOffset - a.start, i)
    {
      rect := rect.Union(a.rects[startOffset - a.start + i]);
      i := i + 1;
    }
  }

  /** With rounding, a query that does not wrap unions at least one stored rect
      exactly when it is not an empty query that starts inside the array. */
  lemma RoundingFindsARect(a: TextRectArray, o: uint32, length: uint32)
    requires a.HasRects() && o + length <= UINT32_MAX && forall r :: r in a.rects ==> !r.IsEmpty()
    ensures !a.UnionAsFarAsPossible(o, length, true).IsEmpty()
            <==> length > 0 || o <= a.start || a.EndOffset() <= o
  {
  }

  /** The array holds the layout of the offsets it covers. */
  ghost predicate Matches(a: TextRectArray, layout: Layout) {
    forall i :: 0 <= i < |a.rects| ==> a.rects[i] == layout(a.start + i)
  }

  /** The offsets first, ..., last - 1. */
  function OffsetsOf(first: nat, last: nat): (r: set<nat>)
    ensures forall k: nat :: k in r <==> first <= k < last
    decreases last
  {
    if last <= first then {} else OffsetsOf(first, last - 1) + {last - 1}
  }

  lemma AddCharacter(u: Rect, layout: Layout, s: set<nat>, o: nat, t: set<nat>)
    requires IsLayout(layout) && IsBoundingBox(u, layout, s) && t == s + {o}
    ensures IsBoundingBox(u.Union(layout(o)), layout, t)
  {
    OneCharacter(layout, o);
    UnionIsBoundingBox(u, layout(o), layout, s, {o});
  }

  lemma NextOffset(first: nat, last: nat)
    requires first <= last
    ensures OffsetsOf(first, last + 1) == OffsetsOf(first, last) + {last}
  {
  }

  lemma {:induction false} SliceIsBoundingBox(a: TextRectArray, layout: Layout, i: nat, n: nat)
    requires IsLayout(layout) && Matches(a, layout) && i + n <= |a.rects|
    ensures IsBoundingBox(a.UnionOf(i, n), layout, OffsetsOf(a.start + i, a.start + i + n))
  {
    if n == 0 {
    } else {
      SliceIsBoundingBox(a, layout, i, n - 1);
      var last := a.start + i + n - 1;
      assert a.rects[i + n - 1] == layout(last);
      NextOffset(a.start + i, last);
      AddCharacter(
        a.UnionOf(i, n - 1), layout, OffsetsOf(a.start + i, last), last, OffsetsOf(a.start + i, last + 1));
    }
  }

  /** The offsets of a range that the array has. */
  function InArray(a: TextRectArray, o: nat, length: nat): (r: set<nat>)
    ensures forall k :: k in r <==> o <= k < o + length && a.HasRects() && a.start <= k < a.EndOffset()
  {
    if a.HasRects() then OffsetsOf(Max(o, a.start), Min(o + length, a.EndOffset())) else {}
  }

  /** The same, but for a range before or behind the array the nearest offset that the
      array has. */
  function NearestInArray(a: TextRectArray, o: nat, length: nat): set<nat> {
    if !a.HasRects() then {}
    else if o + length <= a.start then {a.start as nat}
    else if o >= a.EndOffset() then {(a.EndOffset() - 1) as nat}
    else InArray(a, o, length)
  }

  function Serving(a: TextRectArray, o: nat, length: nat, round: bool): set<nat> {
    if round then NearestInArray(a, o, length) else InArray(a, o, length)
  }

  /** The part of the array that serves a query, as an index and a count. */
  lemma ServedSlice(a: TextRectArray, o: uint32, length: uint32, round: bool) returns (i: nat, n: nat)
    requires a.Serves(o, length, round)
    ensures i + n <= |a.rects| && a.UnionAsFarAsPossible(o, length, round) == a.UnionOf(i, n)
    ensures a.start + i == a.FirstServed(o, round) && a.start + i + n == a.EndServed(o, length, round)
  {
    i := a.FirstServed(o, round) - a.start;
    n := a.EndServed(o, length, round) - a.FirstServed(o, round);
  }

  lemma ServedOffsets(a: TextRectArray, o: uint32, length: uint32, round: bool)
    requires o + length <= UINT32_MAX
    ensures a.Serves(o, length, round) ==>
      OffsetsOf(a.FirstServed(o, round), a.EndServed(o, length, round)) == Serving(a, o, length, round)
    ensures !a.Serves(o, length, round) ==> Serving(a, o, length, round) == {}
  {
  }

  /** What the array serves is the bounding box of what it has of the range; with rounding,
      if it has nothing of it, the rectangle nearest to the range. */
  lemma ServesBoundingBox(a: TextRectArray, layout: Layout, o: uint32, length: uint32, round: bool)
    requires IsLayout(layout) && Matches(a, layout) && o + length <= UINT32_MAX
    ensures IsBoundingBox(a.UnionAsFarAsPossible(o, length, round), layout, Serving(a, o, length, round))
  {
    ServedOffsets(a, o, length, round);
    if a.Serves(o, length, round) {
      var i, n := ServedSlice(a, o, length, round);
      SliceIsBoundingBox(a, layout, i, n);
    }
  }

  /** A query overlaps the array exactly if its range has no overflow and some character of
      it is in the array. */
  lemma OverlapsExactly(a: TextRectArray, o: uint32, length: uint32)
    ensures a.IsOverlappingWith(o, length) <==> o + length <= UINT32_MAX && InArray(a, o, length) != {}
  {
    if a.IsOverlappingWith(o, length) { assert Max(o, a.start) in InArray(a, o, length); }
  }

  predicate HasPixel(r: Rect, x: int, y: int) {
    r.x <= x < r.XMost() && r.y <= y < r.YMost()
  }

  /** An empty rectangle is one without a pixel. */
  lemma EmptyExactly(r: Rect)
    ensures r.IsEmpty() <==> forall x, y :: !HasPixel(r, x, y)
  {
    assert !r.IsEmpty() ==> HasPixel(r, r.x, r.y);
  }
}
