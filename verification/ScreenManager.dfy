/** Choosing the screen on which a window lies, or the nearest one. */
module ScreenManagers {
  import opened BasicTypes

  /** Right and bottom edges fit 32 bits, as the code's sums need. */
  datatype RawRect = Rect(x: int32, y: int32, width: int32, height: int32)
  type Rect = r: RawRect |
    -0x8000_0000 <= r.x + r.width < 0x8000_0000 && -0x8000_0000 <= r.y + r.height < 0x8000_0000
    witness Rect(0, 0, 0, 0)

  // ----- Areas and distances, as they are computed -----

  /** The length of what two intervals have in common. */
  function Common(a: int, aLength: int, b: int, bLength: int): nat {
    Max(0, Min(a + aLength, b + bLength) - Max(a, b))
  }

  function Area(window: Rect, screen: Rect): uint32 {
    Wrap(Common(window.x, window.width, screen.x, screen.width)
         * Common(window.y, window.height, screen.y, screen.height))
  }

  /** How far two intervals lie apart. */
  function Gap(a: int, aLength: int, b: int, bLength: int): nat {
    if a > b + bLength then a - (b + bLength) else if a + aLength < b then b - (a + aLength) else 0
  }

  function Distance(window: Rect, screen: Rect): uint32 {
    var dx := Wrap(Gap(window.x, window.width, screen.x, screen.width));
    var dy := Wrap(Gap(window.y, window.height, screen.y, screen.height));
    Wrap(Wrap(dx * dx) + Wrap(dy * dy))
  }

  // ----- The choice -----

  /** The first screen with the most area in common with the window. */
  ghost predicate SharesMost(window: Rect, screens: seq<Rect>, k: nat) {
    && k < |screens|
    && (forall j :: 0 <= j < |screens| ==> Area(window, screens[j]) <= Area(window, screens[k]))
    && (forall j :: 0 <= j < k ==> Area(window, screens[j]) < Area(window, screens[k]))
  }

  /** The first screen at the least computed distance. */
  ghost predicate SeemsNearest(window: Rect, screens: seq<Rect>, k: nat) {
    && k < |screens|
    && (forall j :: 0 <= j < |screens| ==> Distance(window, screens[k]) <= Distance(window, screens[j]))
    && (forall j :: 0 <= j < k ==> Distance(window, screens[k]) < Distance(window, screens[j]))
  }

  ghost predicate SharesSome(window: Rect, screens: seq<Rect>) {
    exists j :: 0 <= j < |screens| && Area(window, screens[j]) > 0
  }

  datatype Choice = EmptyScreen | Listed(index: nat)

  class ScreenManager {
    var screenList: seq<Rect>

    constructor ()
      ensures screenList == []
    {
      screenList := [];
    }

    method Refresh(screens: seq<Rect>)
      modifies this
      ensures screenList == screens
    {
      screenList := screens;
    }

    method GetPrimaryScreen() returns (which: Choice)
      ensures which == if screenList == [] then EmptyScreen else Listed(0)
    {
      which := if screenList == [] then EmptyScreen else Listed(0);
    }

    method ScreenForRect(window: Rect) returns (which: Choice)
      ensures which.EmptyScreen? <==> screenList == []
      ensures |screenList| == 1 ==> which == Listed(0)
      ensures |screenList| > 1 && SharesSome(window, screenList) ==> SharesMost(window, screenList, which.index)
      ensures |screenList| > 1 && !SharesSome(window, screenList) ==> SeemsNearest(window, screenList, which.index)
    {
      if screenList == [] {
        return EmptyScreen;
      }
      if |screenList| == 1 {
        which := GetPrimaryScreen();
        return;
      }
      var best, area := 0, 0;
      for i := 0 to |screenList|
        invariant best < |screenList| && 0 <= area
        invariant area == 0 ==> best == 0
        invariant area > 0 ==> best < i && area == Area(window, screenList[best])
        invariant forall j :: 0 <= j < i ==> Area(window, screenList[j]) <= area
        invariant area > 0 ==> forall j :: 0 <= j < best ==> Area(window, screenList[j]) < area
      {
        var tempArea := Area(window, screenList[i]);
        if tempArea > area {
          best, area := i, tempArea;
        }
      }
      if area > 0 {
        return Listed(best);
      }
      var distance := UINT32_RANGE - 1;
      for i := 0 to |screenList|
        invariant best < |screenList|
        invariant distance == UINT32_RANGE - 1 ==> best == 0
        invariant distance < UINT32_RANGE - 1 ==> best < i && distance == Distance(window, screenList[best])
        invariant forall j :: 0 <= j < i ==> distance <= Distance(window, screenList[j])
        invariant distance < UINT32_RANGE - 1 ==>
          forall j :: 0 <= j < best ==> distance < Distance(window, screenList[j])
      {
        var tempDistance := Distance(window, screenList[i]);
        if tempDistance < distance {
          best, distance := i, tempDistance;
          if distance == 0 {
            break;
          }
        }
      }
      which := Listed(best);
    }
  }

  // ----- What the area means -----

  predicate HasPixel(r: Rect, i: int, j: int) {
    r.x <= i < r.x + r.width && r.y <= j < r.y + r.height
  }

  /** The pixels of one column, and of a block of columns. */
  function Column(x: int, y: int, h: nat): (r: set<(int, int)>)
    ensures forall p :: p in r <==> p.0 == x && y <= p.1 < y + h
    ensures |r| == h
  {
    if h == 0 then {} else Column(x, y, h - 1) + {(x, y + h - 1)}
  }

  function Block(x: int, w: nat, y: int, h: nat): (r: set<(int, int)>)
    ensures forall p :: p in r <==> x <= p.0 < x + w && y <= p.1 < y + h
    ensures |r| == w * h
  {
    if w == 0 then {}
    else
      assert Block(x, w - 1, y, h) !! Column(x + w - 1, y, h);
      Block(x, w - 1, y, h) + Column(x + w - 1, y, h)
  }

  /** The computed area is the number of pixels that window and screen share: exactly
      when that number fits 32 bits. The code multiplies in signed 32 bits; products
      that overflow there, from 2^31 on, are taken to wrap around. */
  lemma AreaCountsSharedPixels(window: Rect, screen: Rect, shared: set<(int, int)>)
    requires forall p :: p in shared <==> HasPixel(window, p.0, p.1) && HasPixel(screen, p.0, p.1)
    ensures Area(window, screen) == |shared| <==> |shared| < UINT32_RANGE
  {
    var w := Common(window.x, window.width, screen.x, screen.width);
    var h := Common(window.y, window.height, screen.y, screen.height);
    var block := Block(Max(window.x, screen.x), w, Max(window.y, screen.y), h);
    assert block == shared;
    WrapIsIdentity(w * h);
  }

  // ----- What the distance means -----

  datatype Point = Point(x: real, y: real)

  /** Rectangles are closed: their right and bottom edges belong to them. */
  predicate Covers(r: Rect, p: Point) {
    r.x as real <= p.x <= (r.x + r.width) as real && r.y as real <= p.y <= (r.y + r.height) as real
  }

  function SumOfSquares(x: real, y: real): real { x * x + y * y }

  function SquaredDistance(p: Point, q: Point): real {
    SumOfSquares(p.x - q.x, p.y - q.y)
  }

  function SquaredGap(window: Rect, screen: Rect): nat {
    var dx := Gap(window.x, window.width, screen.x, screen.width);
    var dy := Gap(window.y, window.height, screen.y, screen.height);
    SquareIsNatural(dx);
    SquareIsNatural(dy);
    dx * dx + dy * dy
  }

  lemma SquareIsNatural(n: int)
    ensures n * n >= 0
  {
  }

  lemma SumOfSquaresGrows(x: real, y: real, r: real, s: real)
    requires (x >= r || -x >= r) && (y >= s || -y >= s) && r >= 0.0 && s >= 0.0
    ensures SumOfSquares(x, y) >= SumOfSquares(r, s)
  {
  }

  lemma SumOfSquaresOfNumbers(x: int, y: int, dx: nat, dy: nat)
    requires (x == dx || -x == dx) && (y == dy || -y == dy)
    ensures SumOfSquares(x as real, y as real) == (dx * dx + dy * dy) as real
  {
  }

  lemma GapSeparates(a: int, aLength: int, b: int, bLength: int, p: real, q: real)
    requires a as real <= p <= (a + aLength) as real && b as real <= q <= (b + bLength) as real
    ensures p - q >= Gap(a, aLength, b, bLength) as real || q - p >= Gap(a, aLength, b, bLength) as real
  {
  }

  /** The gaps give a lower bound for the distance of any two points. */
  lemma GapIsLowerBound(window: Rect, screen: Rect, p: Point, q: Point)
    requires Covers(window, p) && Covers(screen, q)
    ensures SquaredDistance(p, q) >= SquaredGap(window, screen) as real
  {
    var dx := Gap(window.x, window.width, screen.x, screen.width);
    var dy := Gap(window.y, window.height, screen.y, screen.height);
    GapSeparates(window.x, window.width, screen.x, screen.width, p.x, q.x);
    GapSeparates(window.y, window.height, screen.y, screen.height, p.y, q.y);
    SumOfSquaresGrows(p.x - q.x, p.y - q.y, dx as real, dy as real);
    SumOfSquaresOfNumbers(dx, dy, dx, dy);
  }

  /** A coordinate in each interval, as close together as possible. */
  function Nearest(a: int, aLength: int, b: int, bLength: int): (int, int) {
    if a > b + bLength then (a, b + bLength)
    else if a + aLength < b then (a + aLength, b)
    else (Max(a, b), Max(a, b))
  }

  function NearestPoints(window: Rect, screen: Rect): (Point, Point) {
    var (px, qx) := Nearest(window.x, window.width, screen.x, screen.width);
    var (py, qy) := Nearest(window.y, window.height, screen.y, screen.height);
    (Point(px as real, py as real), Point(qx as real, qy as real))
  }

  lemma GapIsAttained(window: Rect, screen: Rect)
    requires IsProper(window) && IsProper(screen)
    ensures var (p, q) := NearestPoints(window, screen);
      Covers(window, p) && Covers(screen, q) && SquaredDistance(p, q) == SquaredGap(window, screen) as real
  {
    var (px, qx) := Nearest(window.x, window.width, screen.x, screen.width);
    var (py, qy) := Nearest(window.y, window.height, screen.y, screen.height);
    SumOfSquaresOfNumbers(px - qx, py - qy,
      Gap(window.x, window.width, screen.x, screen.width), Gap(window.y, window.height, screen.y, screen.height));
    assert (px - qx) as real == px as real - qx as real && (py - qy) as real == py as real - qy as real;
  }

  /** The distance is right exactly when it fits 32 bits. */
  lemma DistanceIsExactlyRight(window: Rect, screen: Rect)
    ensures Distance(window, screen) == SquaredGap(window, screen) <==> SquaredGap(window, screen) < UINT32_RANGE
  {
    var dx: int := Gap(window.x, window.width, screen.x, screen.width);
    var dy: int := Gap(window.y, window.height, screen.y, screen.height);
    WrapIsIdentity(dx);
    WrapIsIdentity(dy);
    WrapSum(dx * dx, dy * dy);
    WrapIsIdentity(SquaredGap(window, screen));
  }

  lemma WrapSum(a: int, b: int)
    ensures Wrap(Wrap(a) + Wrap(b)) == Wrap(a + b)
  {
  }

  lemma WrapIsIdentity(n: nat)
    ensures Wrap(n) == n <==> n < UINT32_RANGE
  {
  }

  /** 46340 is the largest gap on both axes for which it always fits. */
  lemma LargestSafeGap(g: nat)
    ensures (forall x: nat, y: nat :: x <= g && y <= g ==> x * x + y * y < UINT32_RANGE) <==> g <= 46340
  {
    if g <= 46340 {
      forall x: nat, y: nat | x <= g && y <= g ensures x * x + y * y < UINT32_RANGE {
        SquareIsAtMost(x, 46340);
        SquareIsAtMost(y, 46340);
      }
    } else {
      var x: nat := 46341;
      assert x <= g && !(x * x + x * x < UINT32_RANGE);
    }
  }

  lemma SquareIsAtMost(n: nat, bound: nat)
    requires n <= bound
    ensures n * n <= bound * bound
  {
  }

  predicate GapsAreSafe(window: Rect, screen: Rect) {
    && Gap(window.x, window.width, screen.x, screen.width) <= 46340
    && Gap(window.y, window.height, screen.y, screen.height) <= 46340
  }

  predicate IsProper(r: Rect) { r.width >= 0 && r.height >= 0 }

  predicate AllAreSafe(window: Rect, screens: seq<Rect>) {
    IsProper(window) && forall s :: s in screens ==> IsProper(s) && GapsAreSafe(window, s)
  }

  /** The screen has a point that is as near to the window as any point of any screen,
      and no earlier screen has one. */
  ghost predicate IsNearest(window: Rect, screens: seq<Rect>, k: nat) {
    k < |screens| &&
    var (p', q') := NearestPoints(window, screens[k]);
    && Covers(window, p') && Covers(screens[k], q')
    && forall j, p, q :: 0 <= j < |screens| && Covers(window, p) && Covers(screens[j], q) ==>
         && SquaredDistance(p', q') <= SquaredDistance(p, q)
         && (j < k ==> SquaredDistance(p', q') < SquaredDistance(p, q))
  }

  /** With safe gaps, the screen that seems nearest is nearest. */
  lemma SeemingIsBeing(window: Rect, screens: seq<Rect>, k: nat)
    ensures AllAreSafe(window, screens) && SeemsNearest(window, screens, k) ==> IsNearest(window, screens, k)
  {
    if AllAreSafe(window, screens) && SeemsNearest(window, screens, k) {
      SafeDistance(window, screens[k]);
      GapIsAttained(window, screens[k]);
      var (p', q') := NearestPoints(window, screens[k]);
      forall j, p, q | 0 <= j < |screens| && Covers(window, p) && Covers(screens[j], q)
        ensures SquaredDistance(p', q') <= SquaredDistance(p, q)
        ensures j < k ==> SquaredDistance(p', q') < SquaredDistance(p, q)
      {
        SafeDistance(window, screens[j]);
        GapIsLowerBound(window, screens[j], p, q);
      }
    }
  }

  lemma SafeDistance(window: Rect, screen: Rect)
    requires GapsAreSafe(window, screen)
    ensures Distance(window, screen) == SquaredGap(window, screen)
  {
    SquareIsAtMost(Gap(window.x, window.width, screen.x, screen.width), 46340);
    SquareIsAtMost(Gap(window.y, window.height, screen.y, screen.height), 46340);
    DistanceIsExactlyRight(window, screen);
  }

  /** One pixel more on both axes, and a screen 65535 pixels away seems to be nearer
      than one at 100 pixels. */
  lemma FarScreenSeemsNearest()
    ensures var window, near, far := Rect(0, 0, 10, 10), Rect(110, 0, 800, 600), Rect(46351, 46351, 800, 600);
      && SquaredGap(window, near) == 10000 < SquaredGap(window, far)
      && Distance(window, far) < Distance(window, near)
  {
    var window, far := Rect(0, 0, 10, 10), Rect(46351, 46351, 800, 600);
    assert Gap(window.x, window.width, far.x, far.width) == 46341;
    assert 46341 * 46341 == 2147488281;
  }
}
