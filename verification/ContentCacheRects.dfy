/** Filling the cache of rectangles and answering queries from it. */
module ContentCacheRects {
  import opened BasicTypes
  import opened ContentRects

  datatype Composition = Composition(start: uint32, textLength: uint32)
  {
    /** The character behind the composition is cached as well. */
    function Length(): uint32 { Wrap(textLength + 1) }
  }

  /** What the content process finds when it fills the cache: the composition, if
      any, which of its queries succeed, and the answer for the whole selection. */
  datatype Scene = Scene(
    anchor: uint32,
    focus: uint32,
    composition: Option<Composition>,
    compositionAnswers: bool,
    anchorAnswers: bool,
    focusAnswers: bool,
    selectionAnswers: bool,
    firstAnswers: bool,
    selectionRect: Rect)
  {
    predicate IsSelectionValid() { anchor != UINT32_MAX && focus != UINT32_MAX }
    function SelectionStart(): uint32 { Min(anchor, focus) }
    function SelectionEnd(): uint32 { Max(anchor, focus) }

    predicate AllAnswer() {
      IsSelectionValid() && compositionAnswers && anchorAnswers && focusAnswers && selectionAnswers && firstAnswers
    }
  }

  /** A successful query for a range returns its bounding box. */
  ghost predicate IsSceneOf(s: Scene, layout: Layout) {
    IsLayout(layout) &&
    IsBoundingBox(s.selectionRect, layout, OffsetsOf(s.SelectionStart(), s.SelectionEnd()))
  }

  datatype NamedCharacter = NamedCharacter(isReached: bool, offset: int, rect: Rect)

  function WithNamed(r: Rect, named: seq<NamedCharacter>): Rect {
    if named == [] then r
    else
      var last := named[|named| - 1];
      var u := WithNamed(r, named[..|named| - 1]);
      if last.isReached then u.Union(last.rect) else u
  }

  function ArrayPart(a: TextRectArray, o: uint32, length: uint32, round: bool): Rect {
    if (round && a.HasRects()) || a.IsOverlappingWith(o, length)
    then a.UnionAsFarAsPossible(o, length, round)
    else EMPTY
  }

  /** The cached fields. */
  datatype Cache = Cache(
    anchor: uint32,
    focus: uint32,
    anchorNext: Rect,
    anchorPrev: Rect,
    focusNext: Rect,
    focusPrev: Rect,
    selectionRect: Rect,
    firstCharRect: Rect,
    textRects: TextRectArray)
  {
    predicate Collapsed() { anchor == focus }
    predicate Reversed() { focus < anchor }
    function StartOffset(): uint32 { if Reversed() then focus else anchor }
    function Length(): uint32 { if Reversed() then anchor - focus else focus - anchor }
    function StartCharRect(): Rect { if Reversed() then focusNext else anchorNext }

    function GetTextRect(o: uint32, round: bool): (bool, Rect) {
      if o == 0 then Found(firstCharRect)
      else if o == anchor then Found(anchorNext)
      else if anchor != 0 && o == anchor - 1 then Found(anchorPrev)
      else if o == focus then Found(focusNext)
      else if focus != 0 && o == focus - 1 then Found(focusPrev)
      else if textRects.InRange(o) then Found(textRects.GetRect(o))
      else if !round then (false, EMPTY)
      else if !textRects.IsValid() then Found(StartCharRect())
      else if o < textRects.start then Found(textRects.GetRect(textRects.start))
      else if textRects.EndOffset() == 0 then Found(textRects.GetRect(UINT32_MAX))
      else Found(textRects.GetRect(textRects.EndOffset() - 1))
    }

    predicate IsSelection(o: uint32, length: uint32) {
      !Collapsed() && o == StartOffset() && length == Length()
    }

    predicate IsNamedCharacter(o: uint32, length: uint32) {
      length == 1 && (o == 0 || o == anchor || o + 1 == anchor || o == focus || o + 1 == focus)
    }

    predicate RefusesFirst(o: uint32) {
      o == 0 && anchor != 0 && focus != 0 && !textRects.InRange(0)
    }

    /** There is a rectangle for the character. */
    predicate Has(k: nat) {
      || (textRects.HasRects() && textRects.start <= k < textRects.EndOffset())
      || (k == 0 && !firstCharRect.IsEmpty())
      || (k == anchor && !anchorNext.IsEmpty()) || (k + 1 == anchor && !anchorPrev.IsEmpty())
      || (k == focus && !focusNext.IsEmpty()) || (k + 1 == focus && !focusPrev.IsEmpty())
    }

    /** The separately cached characters, and whether a query reaches them. */
    function Named(o: uint32, length: uint32): seq<NamedCharacter> {
      [ NamedCharacter(o == 0, 0, firstCharRect),
        NamedCharacter(o <= anchor < o + length, anchor, anchorNext),
        NamedCharacter(o <= anchor - 1 < o + length, anchor - 1, anchorPrev),
        NamedCharacter(o <= focus < o + length, focus, focusNext),
        NamedCharacter(o <= focus - 1 < o + length, focus - 1, focusPrev) ]
    }

    function GetUnionTextRects(o: uint32, length: uint32, round: bool): (bool, Rect) {
      if o + length > UINT32_MAX then (false, EMPTY)
      else if IsSelection(o, length) then Found(selectionRect)
      else if IsNamedCharacter(o, length) then GetTextRect(o, false)
      else if RefusesFirst(o) then (false, EMPTY)
      else Found(WithNamed(ArrayPart(textRects, o, length, round), Named(o, length)))
    }
  }

  function Found(r: Rect): (bool, Rect) { (!r.IsEmpty(), r) }

  // ----- Filling -----

  function CharsAt(layout: Layout, first: nat, n: nat): (r: seq<Rect>)
    ensures |r| == n && forall i :: 0 <= i < n ==> r[i] == layout(first + i)
  {
    seq(n, i requires 0 <= i < n => layout(first + i))
  }

  function TextRects(s: Scene, layout: Layout): TextRectArray {
    if s.composition.None? then TextRectArray(UINT32_MAX, [])
    else
      var c := s.composition.value;
      TextRectArray(c.start, if s.compositionAnswers then CharsAt(layout, c.start, c.Length()) else [])
  }

  /** The characters around `o` are known if the array has them or a query answers. */
  predicate KnowsAround(a: TextRectArray, o: uint32, answers: bool) {
    answers || (a.InRange(o) && (o == 0 || a.InRange(o - 1)))
  }

  function Next(layout: Layout, o: uint32, known: bool): Rect {
    if known then layout(o) else EMPTY
  }

  function Prev(layout: Layout, o: uint32, known: bool): Rect {
    if known && o > 0 then layout(o - 1) else EMPTY
  }

  predicate KnowsFocus(s: Scene, a: TextRectArray) {
    KnowsAround(a, s.focus, if s.anchor == s.focus then s.anchorAnswers else s.focusAnswers)
  }

  /** The first character's rect as CacheTextRects picks it. When the anchor is at 1
      it is taken from the focus. */
  function FirstChar(s: Scene, layout: Layout, a: TextRectArray): Rect {
    if s.focus == 0 then Next(layout, 0, KnowsFocus(s, a))
    else if s.focus == 1 then Prev(layout, 1, KnowsFocus(s, a))
    else if s.anchor == 0 then Next(layout, 0, KnowsAround(a, 0, s.anchorAnswers))
    else if s.anchor == 1 then Prev(layout, s.focus, KnowsFocus(s, a))
    else if a.InRange(0) then a.GetRect(0)
    else if s.firstAnswers then layout(0)
    else EMPTY
  }

  function Fill(s: Scene, layout: Layout): Cache {
    if !s.IsSelectionValid() then
      Cache(s.anchor, s.focus, EMPTY, EMPTY, EMPTY, EMPTY, EMPTY, EMPTY, TextRectArray(UINT32_MAX, []))
    else
      var a := TextRects(s, layout);
      var anchorKnown, focusKnown := KnowsAround(a, s.anchor, s.anchorAnswers), KnowsFocus(s, a);
      Cache(
        s.anchor, s.focus,
        Next(layout, s.anchor, anchorKnown), Prev(layout, s.anchor, anchorKnown),
        Next(layout, s.focus, focusKnown), Prev(layout, s.focus, focusKnown),
        if s.anchor != s.focus && s.selectionAnswers then s.selectionRect else EMPTY,
        FirstChar(s, layout, a),
        a)
  }

  // ----- Agreement with the layout -----

  /** The first character's rect is taken from the wrong end of the selection. */
  predicate TakesFirstFromFocus(s: Scene) {
    s.anchor == 1 && s.focus >= 2
  }

  /** Every hit is the layout's rectangle. */
  lemma HitsAgreeWithLayout(s: Scene, layout: Layout, o: uint32)
    requires IsLayout(layout)
    requires o == 0 ==> !TakesFirstFromFocus(s)
    ensures var (hit, rect) := Fill(s, layout).GetTextRect(o, false); hit ==> rect == layout(o)
  {
  }

  /** The composition's text or the character behind it. */
  predicate CompositionCovers(s: Scene, o: nat) {
    s.composition.Some? && var c := s.composition.value;
      c.start + c.textLength < UINT32_MAX && c.start <= o <= c.start + c.textLength
  }

  /** The first character, or one beside the anchor or the focus. */
  predicate IsNamed(s: Scene, o: nat) {
    o == 0 || o == s.anchor || o + 1 == s.anchor || o == s.focus || o + 1 == s.focus
  }

  /** The offsets whose characters a fully answered scene caches. */
  predicate IsCached(s: Scene, o: nat) {
    IsNamed(s, o) || CompositionCovers(s, o)
  }

  /** When all its queries are answered, the cache hits exactly the cached offsets. */
  lemma HitsAreCachedOffsets(s: Scene, layout: Layout, o: uint32)
    requires IsLayout(layout) && s.AllAnswer()
    ensures Fill(s, layout).GetTextRect(o, false).0 <==> IsCached(s, o)
    ensures Fill(s, layout).Has(o) <==> IsCached(s, o)
  {
  }

  // ----- Exactly when the cache agrees -----

  ghost predicate Agrees(s: Scene, layout: Layout, o: uint32) {
    var (hit, rect) := Fill(s, layout).GetTextRect(o, false); hit ==> rect == layout(o)
  }

  function Column(o: nat): Rect { Rect(o, 0, 1, 1) }

  function Answered(anchor: uint32, focus: uint32, composition: Option<Composition>): Scene {
    Scene(anchor, focus, composition, true, true, true, true, true, EMPTY)
  }

  /** Whatever is laid out where, whatever composition there is and whichever queries
      fail, every hit agrees with the layout: exactly when the selection is not
      anchored at 1 and extended to the right of it. */
  lemma CacheAgreesExactly(anchor: uint32, focus: uint32)
    ensures !(anchor == 1 && 2 <= focus < UINT32_MAX) <==>
      (forall s: Scene, layout: Layout, o: uint32 ::
        s.anchor == anchor && s.focus == focus && IsLayout(layout) ==> Agrees(s, layout, o))
  {
    if anchor == 1 && 2 <= focus < UINT32_MAX {
      assert IsLayout(Column);
      var s := Answered(anchor, focus, None);
      assert Fill(s, Column).GetTextRect(0, false) == (true, Column(focus - 1));
      assert !Agrees(s, Column, 0);
    } else {
      forall s: Scene, layout: Layout, o: uint32 | s.anchor == anchor && s.focus == focus && IsLayout(layout)
        ensures Agrees(s, layout, o)
      {
        if s.IsSelectionValid() { HitsAgreeWithLayout(s, layout, o); }
      }
    }
  }

  // ----- Unions -----

  function KnownWithin(c: Cache, o: nat, length: nat): (r: set<nat>)
    ensures forall k :: k in r <==> o <= k < o + length && c.Has(k)
  {
    set k | k in OffsetsOf(o, o + length) && c.Has(k)
  }

  lemma ArrayPartIsServed(a: TextRectArray, o: uint32, length: uint32, round: bool)
    ensures ArrayPart(a, o, length, round) == a.UnionAsFarAsPossible(o, length, round)
  {
  }

  /** Every named character that is reached carries its rectangle of the layout. */
  ghost predicate CarryLayout(named: seq<NamedCharacter>, layout: Layout) {
    forall n :: n in named && n.isReached ==> n.offset >= 0 && n.rect == layout(n.offset)
  }

  function Reached(named: seq<NamedCharacter>): (r: set<nat>)
    ensures forall k: nat :: k in r <==> exists n :: n in named && n.isReached && n.offset == k
  {
    set n | n in named && n.isReached && n.offset >= 0 :: n.offset
  }

  lemma ReachedOneMore(init: seq<NamedCharacter>, last: NamedCharacter)
    requires last.isReached ==> last.offset >= 0
    ensures Reached(init + [last]) == if last.isReached then Reached(init) + {last.offset} else Reached(init)
  {
  }

  lemma {:induction false} WithNamedIsBoundingBox(r: Rect, layout: Layout, known: set<nat>, named: seq<NamedCharacter>)
    requires IsLayout(layout) && IsBoundingBox(r, layout, known) && CarryLayout(named, layout)
    ensures IsBoundingBox(WithNamed(r, named), layout, known + Reached(named))
  {
    if named == [] {
      assert known + Reached(named) == known;
    } else {
      var init, last := named[..|named| - 1], named[|named| - 1];
      assert named == init + [last] && last in named;
      WithNamedIsBoundingBox(r, layout, known, init);
      ReachedOneMore(init, last);
      if last.isReached {
        AddCharacter(WithNamed(r, init), layout, known + Reached(init), last.offset, known + Reached(named));
      }
    }
  }

  /** The content process knows the character, however its other queries went. */
  predicate ArrayKnows(s: Scene, o: nat) {
    s.compositionAnswers && CompositionCovers(s, o)
  }

  predicate FocusKnown(s: Scene) {
    || (if s.anchor == s.focus then s.anchorAnswers else s.focusAnswers)
    || (ArrayKnows(s, s.focus) && (s.focus == 0 || ArrayKnows(s, s.focus - 1)))
  }

  lemma ArrayServes(s: Scene, layout: Layout, o: uint32)
    ensures TextRects(s, layout).InRange(o) <==> ArrayKnows(s, o)
    ensures KnowsFocus(s, TextRects(s, layout)) <==> FocusKnown(s)
  {
  }

  predicate AnchorKnown(s: Scene) {
    s.anchorAnswers || (ArrayKnows(s, s.anchor) && (s.anchor == 0 || ArrayKnows(s, s.anchor - 1)))
  }

  /** A separate query is made for the first character only if neither end of the selection
      nor the composition should have it. */
  predicate FirstKnown(s: Scene) {
    if s.focus <= 1 || s.anchor == 1 then FocusKnown(s)
    else if s.anchor == 0 then AnchorKnown(s)
    else ArrayKnows(s, 0) || s.firstAnswers
  }

  lemma FirstIsKnownExactly(s: Scene, layout: Layout)
    requires IsLayout(layout) && s.IsSelectionValid()
    ensures Fill(s, layout).firstCharRect.IsEmpty() <==> !FirstKnown(s)
  {
    ArrayServes(s, layout, 0);
    AnchorServes(s, layout);
  }

  lemma AnchorServes(s: Scene, layout: Layout)
    requires s.IsSelectionValid()
    ensures KnowsAround(TextRects(s, layout), s.anchor, s.anchorAnswers) <==> AnchorKnown(s)
  {
    ArrayServes(s, layout, s.anchor);
    if s.anchor > 0 { ArrayServes(s, layout, s.anchor - 1); }
  }

  lemma EndsAreKnownExactly(s: Scene, layout: Layout)
    requires IsLayout(layout) && s.IsSelectionValid()
    ensures var c := Fill(s, layout);
      && (!c.anchorNext.IsEmpty() <==> AnchorKnown(s))
      && (!c.anchorPrev.IsEmpty() <==> AnchorKnown(s) && s.anchor > 0)
      && (!c.focusNext.IsEmpty() <==> FocusKnown(s))
      && (!c.focusPrev.IsEmpty() <==> FocusKnown(s) && s.focus > 0)
  {
    AnchorServes(s, layout);
    ArrayServes(s, layout, 0);
  }

  lemma ArrayHas(s: Scene, layout: Layout, o: nat)
    ensures var a := TextRects(s, layout);
      a.HasRects() && a.start <= o < a.EndOffset() <==> ArrayKnows(s, o)
  {
    if o < UINT32_MAX { ArrayServes(s, layout, o); }
  }

  /** However the queries went, there are rectangles for exactly the characters that one of
      the successful ones was about. */
  lemma KnowsExactly(s: Scene, layout: Layout, o: nat)
    requires IsLayout(layout) && s.IsSelectionValid()
    ensures Fill(s, layout).Has(o) <==>
      || ArrayKnows(s, o) || (o == 0 && FirstKnown(s))
      || ((o == s.anchor || o + 1 == s.anchor) && AnchorKnown(s))
      || ((o == s.focus || o + 1 == s.focus) && FocusKnown(s))
  {
    FirstIsKnownExactly(s, layout);
    EndsAreKnownExactly(s, layout);
    ArrayHas(s, layout, o);
  }

  /** The first character's wrong rectangle reaches the answer. */
  predicate LeaksFirstFromFocus(s: Scene, o: uint32, length: uint32) {
    && s.IsSelectionValid() && TakesFirstFromFocus(s) && o == 0 && length < s.focus
    && FocusKnown(s) && (length == 1 || ArrayKnows(s, 0))
  }

  function Shown(n: NamedCharacter): NamedCharacter {
    n.(isReached := n.isReached && !n.rect.IsEmpty())
  }

  /** The named characters that contribute something, each with the offset that its
      rectangle is laid out at. */
  function NamedByLayout(s: Scene, layout: Layout, o: uint32, length: uint32): seq<NamedCharacter> {
    var n := Fill(s, layout).Named(o, length);
    var first := if TakesFirstFromFocus(s) then n[0].(offset := s.focus - 1) else n[0];
    [Shown(first), Shown(n[1]), Shown(n[2]), Shown(n[3]), Shown(n[4])]
  }

  predicate IsTidy(r: Rect) { r == EMPTY || !r.IsEmpty() }

  /** Neither offsets nor empty rectangles matter. */
  lemma {:induction false} OnlyShownMatter(r: Rect, named: seq<NamedCharacter>, shown: seq<NamedCharacter>)
    requires |named| == |shown| && IsTidy(r)
    requires forall i :: 0 <= i < |named| ==>
      && shown[i].rect == named[i].rect && IsTidy(named[i].rect)
      && shown[i].isReached == (named[i].isReached && !named[i].rect.IsEmpty())
    ensures WithNamed(r, named) == WithNamed(r, shown) && IsTidy(WithNamed(r, named))
  {
    if named == [] {
    } else {
      OnlyShownMatter(r, named[..|named| - 1], shown[..|shown| - 1]);
    }
  }

  lemma NamedAreTidy(s: Scene, layout: Layout, o: uint32, length: uint32)
    requires IsLayout(layout)
    ensures var c := Fill(s, layout);
      && IsTidy(c.firstCharRect) && IsTidy(c.anchorNext) && IsTidy(c.anchorPrev)
      && IsTidy(c.focusNext) && IsTidy(c.focusPrev)
  {
  }

  lemma {:induction false} UnionIsTidy(a: TextRectArray, i: nat, n: nat)
    requires i + n <= |a.rects| && forall r :: r in a.rects ==> IsTidy(r)
    ensures IsTidy(a.UnionOf(i, n))
  {
    if n == 0 {
    } else {
      UnionIsTidy(a, i, n - 1);
    }
  }

  lemma NamedCarryLayout(s: Scene, layout: Layout, o: uint32, length: uint32)
    requires IsLayout(layout) && length > 0
    ensures CarryLayout(NamedByLayout(s, layout, o, length), layout)
  {
  }

  /** The first character's rectangle is at hand, or the focus too is in the range. */
  predicate FirstIsHarmless(s: Scene, c: Cache, o: uint32, length: uint32) {
    TakesFirstFromFocus(s) && o == 0 && !c.firstCharRect.IsEmpty() ==> s.focus <= length && c.textRects.InRange(0)
  }

  lemma ReachedOffsets(s: Scene, layout: Layout, o: uint32, length: uint32)
    requires IsLayout(layout) && length > 0 && FirstIsHarmless(s, Fill(s, layout), o, length)
    ensures InArray(Fill(s, layout).textRects, o, length) + Reached(NamedByLayout(s, layout, o, length))
            == KnownWithin(Fill(s, layout), o, length)
  {
    var named := NamedByLayout(s, layout, o, length);
    forall k | k in KnownWithin(Fill(s, layout), o, length)
      ensures k in InArray(Fill(s, layout).textRects, o, length) + Reached(named)
    {
      assert named[0] in named && named[1] in named && named[2] in named && named[3] in named && named[4] in named;
    }
  }

  /** What the array contributes when it has nothing of the range. */
  function Rounded(c: Cache, o: uint32, length: uint32, round: bool): set<nat> {
    if round then NearestInArray(c.textRects, o, length) else {}
  }

  lemma RoundedServes(c: Cache, o: uint32, length: uint32, round: bool, reached: set<nat>)
    requires o + length <= UINT32_MAX
    requires InArray(c.textRects, o, length) + reached == KnownWithin(c, o, length)
    ensures Serving(c.textRects, o, length, round) + reached == KnownWithin(c, o, length) + Rounded(c, o, length, round)
  {
  }

  /** A query for several characters, when the cache answers it from its parts, returns the
      bounding box of exactly the known characters in the range, and with rounding of the
      character that the array has nearest to a range of which it has none. */
  lemma PartsAreBoundingBox(s: Scene, layout: Layout, o: uint32, length: uint32, round: bool)
    requires IsLayout(layout) && length > 0 && o + length <= UINT32_MAX
    requires FirstIsHarmless(s, Fill(s, layout), o, length)
    ensures var c := Fill(s, layout);
      IsBoundingBox(WithNamed(ArrayPart(c.textRects, o, length, round), c.Named(o, length)), layout,
                    KnownWithin(c, o, length) + Rounded(c, o, length, round))
  {
    var c := Fill(s, layout);
    var named := NamedByLayout(s, layout, o, length);
    var part := ArrayPart(c.textRects, o, length, round);
    ArrayPartIsServed(c.textRects, o, length, round);
    ServesBoundingBox(c.textRects, layout, o, length, round);
    NamedCarryLayout(s, layout, o, length);
    WithNamedIsBoundingBox(part, layout, Serving(c.textRects, o, length, round), named);
    ReachedOffsets(s, layout, o, length);
    RoundedServes(c, o, length, round, Reached(named));
    NamedByLayoutSuffice(s, layout, o, length, round);
  }

  lemma NamedByLayoutSuffice(s: Scene, layout: Layout, o: uint32, length: uint32, round: bool)
    requires IsLayout(layout)
    ensures var c := Fill(s, layout);
      var part := ArrayPart(c.textRects, o, length, round);
      WithNamed(part, c.Named(o, length)) == WithNamed(part, NamedByLayout(s, layout, o, length))
  {
    var c := Fill(s, layout);
    ArrayPartIsTidy(s, layout, o, length, round);
    NamedAreTidy(s, layout, o, length);
    OnlyShownMatter(ArrayPart(c.textRects, o, length, round), c.Named(o, length), NamedByLayout(s, layout, o, length));
  }

  lemma ArrayPartIsTidy(s: Scene, layout: Layout, o: uint32, length: uint32, round: bool)
    requires IsLayout(layout)
    ensures IsTidy(ArrayPart(Fill(s, layout).textRects, o, length, round))
  {
    var a := Fill(s, layout).textRects;
    ArrayPartIsServed(a, o, length, round);
    if a.Serves(o, length, round) {
      var i, n := ServedSlice(a, o, length, round);
      UnionIsTidy(a, i, n);
    }
  }

  predicate AsksSelection(s: Scene, o: uint32, length: uint32) {
    s.anchor != s.focus && o == s.SelectionStart() && o + length == s.SelectionEnd()
  }

  /** The first character is neither at an end of the selection nor in the array. */
  predicate LacksFirst(s: Scene, o: uint32) {
    o == 0 && s.anchor != 0 && s.focus != 0 && !(s.IsSelectionValid() && ArrayKnows(s, 0))
  }

  lemma CacheDecides(s: Scene, layout: Layout, o: uint32, length: uint32)
    ensures var c := Fill(s, layout);
      && (c.IsSelection(o, length) <==> AsksSelection(s, o, length))
      && (c.IsNamedCharacter(o, length) <==> length == 1 && IsNamed(s, o))
      && (c.RefusesFirst(o) <==> LacksFirst(s, o))
  {
    ArrayServes(s, layout, 0);
  }

  /** What GetUnionTextRects answers: nothing for a range that does not fit 32 bits; the
      whole selection's box; one separately cached character; a refusal at offset 0; or
      the box of exactly the characters of the range that there are rectangles for, with
      rounding together with the nearest one in the array, if it has none in the range. */
  ghost predicate AnswersUnion(s: Scene, layout: Layout, o: uint32, length: uint32, round: bool) {
    var c := Fill(s, layout);
    var (hit, rect) := c.GetUnionTextRects(o, length, round);
    if o + length > UINT32_MAX then !hit
    else if AsksSelection(s, o, length) then
      && (hit <==> s.IsSelectionValid() && s.selectionAnswers)
      && (hit ==> IsBoundingBox(rect, layout, OffsetsOf(o, o + length)))
    else if length == 1 && IsNamed(s, o) then
      && (hit ==> IsBoundingBox(rect, layout, {o as nat}))
      && (s.AllAnswer() ==> hit)
    else if LacksFirst(s, o) then !hit
    else
      && (hit <==> KnownWithin(c, o, length) + Rounded(c, o, length, round) != {})
      && IsBoundingBox(rect, layout, KnownWithin(c, o, length) + Rounded(c, o, length, round))
  }

  lemma OneCharacterUnion(s: Scene, layout: Layout, o: uint32)
    requires IsLayout(layout) && o < UINT32_MAX && Fill(s, layout).IsNamedCharacter(o, 1)
    requires !LeaksFirstFromFocus(s, o, 1)
    ensures var (hit, rect) := Fill(s, layout).GetTextRect(o, false);
      (hit ==> IsBoundingBox(rect, layout, {o as nat})) && (s.AllAnswer() ==> hit)
  {
    ArrayServes(s, layout, o);
    if s.AllAnswer() { HitsAreCachedOffsets(s, layout, o); }
    if o == 0 && TakesFirstFromFocus(s) {
      assert !Fill(s, layout).GetTextRect(o, false).0;
    } else {
      HitsAgreeWithLayout(s, layout, o);
      OneCharacter(layout, o);
    }
  }

  /** A query for one character, with rounding: what is cached for it is the answer, and
      otherwise the rectangle that the array has nearest to it; without a composition
      that of the character at the selection's start. */
  lemma RoundedCharacterIsNearest(s: Scene, layout: Layout, o: uint32)
    requires IsLayout(layout) && s.IsSelectionValid()
    ensures var c := Fill(s, layout); var (hit, rect) := c.GetTextRect(o, true);
      if IsNamed(s, o) || c.textRects.InRange(o) then (hit, rect) == c.GetTextRect(o, false)
      else if c.textRects.IsValid() then
        && (hit <==> c.textRects.HasRects())
        && (hit ==> IsBoundingBox(rect, layout, NearestInArray(c.textRects, o, 1)))
      else hit ==> IsBoundingBox(rect, layout, {s.SelectionStart() as nat})
  {
    var c := Fill(s, layout);
    if c.textRects.HasRects() {
      OneCharacter(layout, if o < c.textRects.start then c.textRects.start else c.textRects.EndOffset() - 1);
    }
    OneCharacter(layout, s.SelectionStart());
  }

  lemma SelectionUnion(s: Scene, layout: Layout, o: uint32, length: uint32, round: bool)
    requires IsSceneOf(s, layout) && Fill(s, layout).IsSelection(o, length) && o + length <= UINT32_MAX
    ensures AnswersUnion(s, layout, o, length, round)
  {
    assert o == s.SelectionStart() && o + length == s.SelectionEnd();
    assert s.SelectionStart() in OffsetsOf(o, o + length);
  }

  lemma PartsUnion(s: Scene, layout: Layout, o: uint32, length: uint32, round: bool)
    requires IsLayout(layout) && length > 0 && o + length <= UINT32_MAX
    requires FirstIsHarmless(s, Fill(s, layout), o, length)
    requires var c := Fill(s, layout);
      !c.IsSelection(o, length) && !c.IsNamedCharacter(o, length) && !c.RefusesFirst(o)
    ensures var c := Fill(s, layout); var (hit, rect) := c.GetUnionTextRects(o, length, round);
      var known := KnownWithin(c, o, length) + Rounded(c, o, length, round);
      (hit <==> known != {}) && IsBoundingBox(rect, layout, known)
  {
    PartsAreBoundingBox(s, layout, o, length, round);
  }

  /** However the content process's queries went, the answer is what AnswersUnion says
      unless the first character's rectangle leaks. */
  lemma UnionIsBoundingBoxOfKnown(s: Scene, layout: Layout, o: uint32, length: uint32, round: bool)
    requires IsSceneOf(s, layout) && length > 0 && !LeaksFirstFromFocus(s, o, length)
    ensures AnswersUnion(s, layout, o, length, round)
  {
    CacheDecides(s, layout, o, length);
    if o + length > UINT32_MAX {
    } else if AsksSelection(s, o, length) {
      SelectionUnion(s, layout, o, length, round);
    } else if length == 1 && IsNamed(s, o) {
      OneCharacterUnion(s, layout, o);
    } else if !LacksFirst(s, o) {
      ArrayServes(s, layout, 0);
      PartsUnion(s, layout, o, length, round);
    }
  }

  /** The answer is the box of some characters of the range. */
  ghost predicate StaysWithin(s: Scene, layout: Layout, o: uint32, length: uint32) {
    var (hit, rect) := Fill(s, layout).GetUnionTextRects(o, length, false);
    hit ==> exists some: set<nat> ::
      some != {} && some <= OffsetsOf(o, o + length) && IsBoundingBox(rect, layout, some)
  }

  lemma UnionStaysWithin(s: Scene, layout: Layout, o: uint32, length: uint32)
    requires IsSceneOf(s, layout) && length > 0 && o + length <= UINT32_MAX
    requires !LeaksFirstFromFocus(s, o, length)
    ensures StaysWithin(s, layout, o, length)
  {
    UnionIsBoundingBoxOfKnown(s, layout, o, length, false);
    var c := Fill(s, layout);
    var some := if c.IsSelection(o, length) then OffsetsOf(o, o + length)
                else if c.IsNamedCharacter(o, length) then {o as nat} else KnownWithin(c, o, length);
    var (hit, rect) := c.GetUnionTextRects(o, length, false);
    if hit {
      assert o in OffsetsOf(o, o + length);
      assert some != {} && some <= OffsetsOf(o, o + length) && IsBoundingBox(rect, layout, some);
    }
  }

  lemma {:induction false} UnionReaches(r: Rect, named: seq<NamedCharacter>, i: nat)
    requires i < |named| && named[i].isReached && !named[i].rect.IsEmpty()
    ensures !WithNamed(r, named).IsEmpty() && WithNamed(r, named).XMost() >= named[i].rect.XMost()
  {
    if i == |named| - 1 {
    } else {
      UnionReaches(r, named[..|named| - 1], i);
    }
  }

  lemma LeakEscapes(s: Scene, length: uint32)
    requires length > 0 && LeaksFirstFromFocus(s, 0, length)
    ensures !StaysWithin(s, Column, 0, length)
  {
    ArrayServes(s, Column, 0);
    var c := Fill(s, Column);
    var (hit, rect) := c.GetUnionTextRects(0, length, false);
    if length != 1 {
      UnionReaches(ArrayPart(c.textRects, 0, length, false), c.Named(0, length), 0);
    }
    assert hit && rect.XMost() >= s.focus > length;
    forall some: set<nat> | some != {} && some <= OffsetsOf(0, length)
      ensures !IsBoundingBox(rect, Column, some)
    {
      BeyondColumn(rect, length, some);
    }
  }

  lemma BeyondColumn(r: Rect, length: nat, some: set<nat>)
    requires some != {} && some <= OffsetsOf(0, length) && r.XMost() > length
    ensures !IsBoundingBox(r, Column, some)
  {
  }

  lemma ColumnBox(first: nat, last: nat)
    requires first < last
    ensures IsBoundingBox(Rect(first, 0, last - first, 1), Column, OffsetsOf(first, last))
  {
    assert first in OffsetsOf(first, last) && last - 1 in OffsetsOf(first, last);
    assert Column(first).x == first && Column(last - 1).XMost() == last;
    assert Column(first).y == 0 && Column(first).YMost() == 1;
  }

  /** The selection's answer is that of the layout. */
  function WithSelectionRect(s: Scene, r: Rect): Scene {
    s.(selectionRect := r)
  }

  /** With this layout and this rectangle of the selection, if they fit each other. */
  ghost predicate StaysWithinFor(s: Scene, layout: Layout, r: Rect, o: uint32, length: uint32) {
    IsSceneOf(WithSelectionRect(s, r), layout) ==> StaysWithin(WithSelectionRect(s, r), layout, o, length)
  }

  ghost predicate AlwaysStaysWithin(s: Scene, o: uint32, length: uint32) {
    forall layout: Layout, r: Rect :: StaysWithinFor(s, layout, r, o, length)
  }

  lemma ColumnLays()
    ensures IsLayout(Column)
  {
  }

  lemma SelectionOfColumn(s: Scene, first: nat, last: nat)
    requires first < last && s.selectionRect == Rect(first, 0, last - first, 1)
    ensures IsBoundingBox(s.selectionRect, Column, OffsetsOf(first, last))
  {
    ColumnBox(first, last);
  }

  lemma ColumnScene(s: Scene)
    requires s.anchor == 1 && s.focus >= 2 && s.selectionRect == Rect(1, 0, s.focus - 1, 1)
    ensures IsSceneOf(s, Column)
  {
    ColumnLays();
    SelectionOfColumn(s, s.SelectionStart(), s.SelectionEnd());
  }

  lemma LeakEscapesSome(s: Scene, length: uint32)
    requires length > 0 && LeaksFirstFromFocus(s, 0, length)
    ensures !AlwaysStaysWithin(s, 0, length)
  {
    var r := Rect(1, 0, s.focus - 1, 1);
    ColumnScene(WithSelectionRect(s, r));
    LeakEscapes(WithSelectionRect(s, r), length);
    OneEscapes(s, Column, r, 0, length);
  }

  lemma OneEscapes(s: Scene, layout: Layout, r: Rect, o: uint32, length: uint32)
    requires IsSceneOf(WithSelectionRect(s, r), layout) && !StaysWithin(WithSelectionRect(s, r), layout, o, length)
    ensures !AlwaysStaysWithin(s, o, length)
  {
    assert !StaysWithinFor(s, layout, r, o, length);
  }

  lemma StaysWithinAny(s: Scene, layout: Layout, r: Rect, o: uint32, length: uint32)
    requires length > 0 && o + length <= UINT32_MAX && !LeaksFirstFromFocus(s, o, length)
    ensures StaysWithinFor(s, layout, r, o, length)
  {
    if IsSceneOf(WithSelectionRect(s, r), layout) {
      UnionStaysWithin(WithSelectionRect(s, r), layout, o, length);
    }
  }

  /** For every layout and however the queries went, a union stays within the queried
      characters: exactly when the first character's rectangle was not taken from a
      known focus beyond the range. */
  lemma UnionStaysWithinExactly(s: Scene, o: uint32, length: uint32)
    requires length > 0 && o + length <= UINT32_MAX
    ensures AlwaysStaysWithin(s, o, length) <==> !LeaksFirstFromFocus(s, o, length)
  {
    if LeaksFirstFromFocus(s, o, length) {
      LeakEscapesSome(s, length);
    } else {
      forall layout: Layout, r: Rect ensures StaysWithinFor(s, layout, r, o, length) {
        StaysWithinAny(s, layout, r, o, length);
      }
    }
  }

  // ----- The objects -----

  method GetUnionTextRects(c: Cache, o: uint32, length: uint32, round: bool) returns (hit: bool, rect: Rect)
    ensures (hit, rect) == c.GetUnionTextRects(o, length, round)
  {
    rect := EMPTY;
    if o + length > UINT32_MAX {
      return false, rect;
    }
    if !c.Collapsed() && o == c.StartOffset() && length == c.Length() {
      return !c.selectionRect.IsEmpty(), c.selectionRect;
    }
    if length == 1 {
      if o == 0 {
        return !c.firstCharRect.IsEmpty(), c.firstCharRect;
      }
      if o == c.anchor {
        return !c.anchorNext.IsEmpty(), c.anchorNext;
      }
      if c.anchor != 0 && o == c.anchor - 1 {
        return !c.anchorPrev.IsEmpty(), c.anchorPrev;
      }
      if o == c.focus {
        return !c.focusNext.IsEmpty(), c.focusNext;
      }
      if c.focus != 0 && o == c.focus - 1 {
        return !c.focusPrev.IsEmpty(), c.focusPrev;
      }
    }
    if o == 0 && o != c.anchor && o != c.focus && !c.textRects.InRange(o) {
      return false, rect;
    }
    if (round && c.textRects.HasRects()) || c.textRects.IsOverlappingWith(o, length) {
      rect := GetUnionRectAsFarAsPossible(c.textRects, o, length, round);
    }
    rect := UniteNamed(c, o, length, rect);
    hit := !rect.IsEmpty();
  }

  method UniteNamed(c: Cache, o: uint32, length: uint32, part: Rect) returns (rect: Rect)
    requires o + length <= UINT32_MAX
    ensures rect == WithNamed(part, c.Named(o, length))
  {
    rect := part;
    if o == 0 {
      rect := rect.Union(c.firstCharRect);
    }
    if o <= c.anchor && c.anchor < o + length {
      rect := rect.Union(c.anchorNext);
    }
    if c.anchor != 0 && o <= c.anchor - 1 && c.anchor - 1 < o + length {
      rect := rect.Union(c.anchorPrev);
    }
    if o <= c.focus && c.focus < o + length {
      rect := rect.Union(c.focusNext);
    }
    if c.focus != 0 && o <= c.focus - 1 && c.focus - 1 < o + length {
      rect := rect.Union(c.focusPrev);
    }
    NamedUnrolled(part, c.Named(o, length));
  }

  lemma NamedUnrolled(r: Rect, n: seq<NamedCharacter>)
    requires |n| == 5
    ensures WithNamed(r, n) ==
      var r0 := if n[0].isReached then r.Union(n[0].rect) else r;
      var r1 := if n[1].isReached then r0.Union(n[1].rect) else r0;
      var r2 := if n[2].isReached then r1.Union(n[2].rect) else r1;
      var r3 := if n[3].isReached then r2.Union(n[3].rect) else r2;
      if n[4].isReached then r3.Union(n[4].rect) else r3
  {
    UnrollNamed(r, n, 0);
    UnrollNamed(r, n, 1);
    UnrollNamed(r, n, 2);
    UnrollNamed(r, n, 3);
    UnrollNamed(r, n, 4);
    assert n[..5] == n && n[..0] == [];
  }

  lemma UnrollNamed(r: Rect, n: seq<NamedCharacter>, i: nat)
    requires i < |n|
    ensures WithNamed(r, n[..i + 1]) ==
      if n[i].isReached then WithNamed(r, n[..i]).Union(n[i].rect) else WithNamed(r, n[..i])
  {
    assert n[..i + 1][..i] == n[..i];
  }

  /** What layout answers when it is asked for the rectangles of `n` characters. */
  function Queried(layout: Layout, first: nat, n: nat, answers: bool): seq<Rect> {
    if answers then CharsAt(layout, first, n) else []
  }

  class ContentCacheInChild {
    var anchor: uint32
    var focus: uint32
    var anchorNext: Rect
    var anchorPrev: Rect
    var focusNext: Rect
    var focusPrev: Rect
    var selectionRect: Rect
    var firstCharRect: Rect
    var textRects: TextRectArray

    function Cached(): Cache
      reads this
    {
      Cache(anchor, focus, anchorNext, anchorPrev, focusNext, focusPrev, selectionRect, firstCharRect, textRects)
    }

    method ClearRects()
      modifies this
      ensures Cached() == Cache(old(anchor), old(focus), EMPTY, EMPTY, EMPTY, EMPTY, EMPTY, EMPTY,
                                TextRectArray(UINT32_MAX, []))
    {
      textRects := TextRectArray(UINT32_MAX, []);
      anchorNext, anchorPrev := EMPTY, EMPTY;
      focusNext, focusPrev := EMPTY, EMPTY;
      selectionRect, firstCharRect := EMPTY, EMPTY;
    }

    method CacheAnchor(s: Scene, layout: Layout)
      requires anchor == s.anchor && textRects == TextRects(s, layout) && anchorNext == EMPTY && anchorPrev == EMPTY
      modifies this`anchorNext, this`anchorPrev
      ensures var known := KnowsAround(textRects, anchor, s.anchorAnswers);
        anchorNext == Next(layout, anchor, known) && anchorPrev == Prev(layout, anchor, known)
    {
      if textRects.InRange(anchor) && (anchor == 0 || textRects.InRange(anchor - 1)) {
        anchorNext := textRects.GetRect(anchor);
        if anchor != 0 {
          anchorPrev := textRects.GetRect(anchor - 1);
        }
      } else {
        var startOffset := if anchor != 0 then anchor - 1 else 0;
        var length := if anchor != 0 then 2 else 1;
        var rects := Queried(layout, startOffset, length, s.anchorAnswers);
        if rects != [] {
          if |rects| > 1 {
            anchorPrev, anchorNext := rects[0], rects[1];
          } else if |rects| != 0 {
            anchorNext := rects[0];
          }
        }
      }
    }

    method CacheFocus(s: Scene, layout: Layout)
      requires anchor == s.anchor && focus == s.focus && textRects == TextRects(s, layout)
      requires focusNext == EMPTY && focusPrev == EMPTY
      requires var known := KnowsAround(textRects, anchor, s.anchorAnswers);
        anchorNext == Next(layout, anchor, known) && anchorPrev == Prev(layout, anchor, known)
      modifies this`focusNext, this`focusPrev
      ensures var known := KnowsFocus(s, textRects);
        focusNext == Next(layout, focus, known) && focusPrev == Prev(layout, focus, known)
    {
      if anchor == focus {
        focusNext, focusPrev := anchorNext, anchorPrev;
      } else if textRects.InRange(focus) && (focus == 0 || textRects.InRange(focus - 1)) {
        focusNext := textRects.GetRect(focus);
        if focus != 0 {
          focusPrev := textRects.GetRect(focus - 1);
        }
      } else {
        var startOffset := if focus != 0 then focus - 1 else 0;
        var length := if focus != 0 then 2 else 1;
        var rects := Queried(layout, startOffset, length, s.focusAnswers);
        if rects != [] {
          if |rects| > 1 {
            focusPrev, focusNext := rects[0], rects[1];
          } else if |rects| != 0 {
            focusNext := rects[0];
          }
        }
      }
    }

    /** Returns whether the selection is valid; what could not be retrieved is left
        empty. */
    method CacheTextRects(s: Scene, layout: Layout) returns (ok: bool)
      requires anchor == s.anchor && focus == s.focus
      modifies this
      ensures ok == s.IsSelectionValid() && Cached() == Fill(s, layout)
    {
      ClearRects();
      if anchor == UINT32_MAX || focus == UINT32_MAX {
        return false;
      }
      if s.composition.Some? {
        var c := s.composition.value;
        textRects := TextRectArray(c.start, Queried(layout, c.start, c.Length(), s.compositionAnswers));
      }
      CacheAnchor(s, layout);
      CacheFocus(s, layout);
      if anchor != focus && s.selectionAnswers {
        selectionRect := s.selectionRect;
      }
      CacheFirstChar(s, layout);
      return true;
    }

    method CacheFirstChar(s: Scene, layout: Layout)
      requires anchor == s.anchor && focus == s.focus && textRects == TextRects(s, layout) && firstCharRect == EMPTY
      requires anchorNext == Next(layout, anchor, KnowsAround(textRects, anchor, s.anchorAnswers))
      requires focusNext == Next(layout, focus, KnowsFocus(s, textRects))
      requires focusPrev == Prev(layout, focus, KnowsFocus(s, textRects))
      modifies this`firstCharRect
      ensures firstCharRect == FirstChar(s, layout, textRects)
    {
      if focus == 0 {
        firstCharRect := focusNext;
      } else if focus == 1 {
        firstCharRect := focusPrev;
      } else if anchor == 0 {
        firstCharRect := anchorNext;
      } else if anchor == 1 {
        firstCharRect := focusPrev;
      } else if textRects.InRange(0) {
        firstCharRect := textRects.GetRect(0);
      } else {
        var rects := Queried(layout, 0, 1, s.firstAnswers);
        if rects != [] {
          firstCharRect := rects[0];
        }
      }
    }
  }
}
