/** The composition string, clauses and caret that wait to be dispatched. */
module PendingCompositions {
  import opened BasicTypes
  import opened LineBreaks

  predicate IsClauseType(k: TextRangeType) {
    k.RawClause? || k.SelectedRawClause? || k.ConvertedClause? || k.SelectedClause?
  }

  const NO_CARET := TextRange(0, 0, Uninitialized)

  datatype Pending = Pending(text: ShortString, clauses: Option<seq<TextRange>>, caret: TextRange, replaced: bool)
  {
    function Clauses(): seq<TextRange> {
      if clauses.None? then [] else clauses.value
    }

    function EndOfClauses(): uint32 {
      if clauses.None? || clauses.value == [] then 0 else clauses.value[|clauses.value| - 1].end
    }

    function Append(length: uint32, kind: TextRangeType): Pending {
      var start := EndOfClauses();
      var clause := TextRange(start, Wrap(start + length), kind);
      this.(clauses := Some(Clauses() + [clause]))
    }

    /** ReplaceNativeLineBreakers: ranges move only when the length has changed. */
    function Replace(): Pending {
      NormalisedText(text);
      var text': ShortString := Normalise(text);
      if |text'| == |text| then this.(text := text', replaced := true)
      else this.(
        text := text',
        clauses := if clauses.None? then None else Some(AdjustAll(clauses.value, text)),
        caret := if caret.kind.Caret? then Adjusted(caret, text) else caret,
        replaced := true)
    }

    predicate IsConsistent() {
      && (clauses.Some? && clauses.value != [] ==> EndOfClauses() == |text|)
      && (caret.kind.Caret? ==> caret.end <= |text|)
    }

    function WithCaret(): Pending {
      if !caret.kind.Caret? then this
      else this.(clauses := Some(Clauses() + [caret]))
    }

    /** What a flush dispatches. */
    function Flushed(): Pending {
      if replaced then WithCaret() else WithCaret().Replace()
    }

    /** What Clear leaves: the caret's offsets stay, but nobody reads them. */
    function Cleared(): Pending {
      Pending("", None, caret.(kind := Uninitialized), false)
    }

    /** The pending composition after a flush that was not refused for want of a
        listener or a widget. */
    function AfterFlush(): Pending {
      (if IsConsistent() then Flushed() else this).Cleared()
    }
  }

  /** The object between two flushes: what has been replaced contains no CR. */
  predicate IsClean(p: Pending) {
    p.replaced ==> '\r' !in p.text
  }

  const CLEARED := Pending("", None, NO_CARET, false)

  function ClausesOf(rs: seq<TextRange>): seq<TextRange> {
    if rs == [] then []
    else
      var last := rs[|rs| - 1];
      ClausesOf(rs[..|rs| - 1]) + if last.kind.Caret? then [] else [last]
  }

  /** The last caret of the ranges, if any. */
  function CaretOf(rs: seq<TextRange>, none: TextRange): TextRange {
    if rs == [] then none
    else if rs[|rs| - 1].kind.Caret? then rs[|rs| - 1]
    else CaretOf(rs[..|rs| - 1], none)
  }

  function Ranged(rs: seq<TextRange>, none: TextRange): Pending {
    var clauses := ClausesOf(rs);
    Pending("", if clauses == [] then None else Some(clauses), CaretOf(rs, none), false)
  }

  lemma RangedOneMore(rs: seq<TextRange>, i: nat, none: TextRange)
    requires i < |rs|
    ensures var before := Ranged(rs[..i], none);
      Ranged(rs[..i + 1], none) ==
        if rs[i].kind.Caret? then before.(caret := rs[i])
        else before.(clauses := Some((if before.clauses.None? then [] else before.clauses.value) + [rs[i]]))
  {
    assert rs[..i + 1][..i] == rs[..i];
    assert ClausesOf(rs[..i]) + [] == ClausesOf(rs[..i]);
  }

  /** Set: without ranges the whole string becomes one raw clause. */
  function SetTo(s: ShortString, ranges: seq<TextRange>, none: TextRange): Pending {
    if ranges != [] then Ranged(ranges, none).(text := s).Replace()
    else if s == "" then Pending("", None, none, false)
    else Pending(s, Some([TextRange(0, |s|, RawClause)]), none, false).Replace()
  }

  // ----- What is dispatched -----

  /** Appending a clause keeps the clauses contiguous: exactly when their total length
      still fits 32 bits. */
  lemma AppendedClausesTileExactly(p: Pending, length: uint32, kind: TextRangeType)
    requires Tile(p.Clauses(), p.EndOfClauses()) && length > 0
    ensures var r := p.Append(length, kind);
      Tile(r.clauses.value, r.EndOfClauses()) <==> p.EndOfClauses() + length <= UINT32_MAX
  {
  }

  lemma {:induction false} AdjustAllAppend(rs: seq<TextRange>, r: TextRange, native: string)
    requires |native| <= UINT32_MAX
    ensures AdjustAll(rs + [r], native) == AdjustAll(rs, native) + [Adjusted(r, native)]
  {
  }

  // ----- Replacing in Set or in the flush -----

  /** The caret would end behind the string that is left. */
  predicate Overhangs(caret: TextRange, native: string) {
    if caret.start > caret.end then SplitsBreak(native, caret.start)
    else
      && caret.end <= |native| && SplitsBreak(native[..caret.end], caret.start)
      && (caret.end == |native| || (caret.end + 1 == |native| && SplitsBreak(native, caret.end)))
  }

  predicate LastClauseSplits(p: Pending) {
    p.Clauses() != [] && SplitsBreak(p.text, p.Clauses()[|p.Clauses()| - 1].start)
  }

  /** Where a range ends whose end lies before its start: it reaches to the end. */
  lemma InvertedEnds(r: TextRange, native: string)
    requires |native| <= UINT32_MAX && r.end < r.start && r.end <= |native|
    ensures Adjusted(r, native).end == |Collapse(native)| + if SplitsBreak(native, r.start) then 1 else 0
  {
    assert Collapse("") == "" && native[0..] == native;
    if r.start <= |native| {
      CollapseParts(native, r.start);
      assert native[0..r.start] == native[..r.start];
      assert r.start == |native| ==> native[r.start..] == "";
    }
  }

  lemma LastClauseEndsExactly(last: TextRange, native: string)
    requires |native| <= UINT32_MAX && last.end == |native|
    ensures Adjusted(last, native).end == |Normalise(native)| <==> !SplitsBreak(native, last.start)
  {
    NormaliseLength(native);
    assert native[..|native|] == native;
    if last.start <= last.end { LastEnds(last, |native|, native); } else { InvertedEnds(last, native); }
  }

  lemma RestOfBreak(rest: string)
    ensures |Collapse(rest)| == 0 <==> rest == ""
    ensures StartsWithLF(rest) ==> (|Collapse(rest)| == 1 <==> |rest| == 1)
  {
    if rest == "" {
    } else {
      CollapseStep(rest);
      if |rest| > 1 { CollapseStep(rest[1..]); }
    }
  }

  lemma CaretEndsExactly(caret: TextRange, native: string)
    requires |native| <= UINT32_MAX && caret.end <= |native|
    ensures Adjusted(caret, native).end <= |Normalise(native)| <==> !Overhangs(caret, native)
  {
    NormaliseLength(native);
    if caret.start > caret.end {
      InvertedEnds(caret, native);
    } else {
      AdjustedInBounds(caret, native);
      CollapseParts(native[..caret.end], caret.start);
      assert native[..caret.end][..caret.start] == native[..caret.start];
      assert native[..caret.end][caret.start..] == native[caret.start..caret.end];
      CollapseParts(native, caret.end);
      RestOfBreak(native[caret.end..]);
    }
  }

  lemma OverhangsOnlyABreak(caret: TextRange, native: string)
    ensures Overhangs(caret, native) ==> SplitsBreak(native, caret.start)
  {
  }

  /** A flush that would dispatch the parts refuses the same after Set has replaced the
      line breaks: exactly when the last clause starts inside a CRLF or the caret would
      end behind what is left. */
  lemma RefusedAfterSetExactly(p: Pending)
    requires !p.replaced && p.IsConsistent()
    ensures p.Replace().IsConsistent() <==> !LastClauseSplits(p) && !(p.caret.kind.Caret? && Overhangs(p.caret, p.text))
  {
    UnchangedLengthMovesNothing(p.text);
    if |Normalise(p.text)| == |p.text| {
      assert forall k :: !SplitsBreak(p.text, k);
      OverhangsOnlyABreak(p.caret, p.text);
    } else {
      if p.Clauses() != [] { LastClauseEndsExactly(p.Clauses()[|p.Clauses()| - 1], p.text); }
      if p.caret.kind.Caret? { CaretEndsExactly(p.caret, p.text); }
    }
  }

  const CR_CLAUSE := TextRange(0, 1, RawClause)
  const LF_CLAUSE := TextRange(1, 2, RawClause)
  const BOTH_CLAUSES := [CR_CLAUSE, LF_CLAUSE]
  const FIRST_CLAUSE := [CR_CLAUSE]

  lemma CollapsedBreak()
    ensures Normalise("\r\n") == "\n"
    ensures Adjusted(CR_CLAUSE, "\r\n") == CR_CLAUSE && Adjusted(LF_CLAUSE, "\r\n") == LF_CLAUSE
  {
    CollapseStep("\r\n");
    CollapseStep("\r");
    CollapseStep("\n");
    NormaliseLength("\r\n");
    AdjustedInBounds(CR_CLAUSE, "\r\n");
    AdjustedInBounds(LF_CLAUSE, "\r\n");
    assert "\r\n"[..0] == "" && "\r\n"[..1] == "\r" && "\r\n"[0..1] == "\r" && "\r\n"[1..2] == "\n";
  }

  function OnBreak(clauses: seq<TextRange>): Pending {
    Pending("\r\n", Some(clauses), NO_CARET, false)
  }

  lemma ReplacedOnBreak(clauses: seq<TextRange>)
    requires forall r :: r in clauses ==> r == CR_CLAUSE || r == LF_CLAUSE
    ensures OnBreak(clauses).Replace() == Pending("\n", Some(clauses), NO_CARET, true)
  {
    CollapsedBreak();
    assert forall i :: 0 <= i < |clauses| ==> clauses[i] in clauses;
    assert AdjustAll(clauses, "\r\n") == clauses;
  }

  lemma {:induction false} SetOnBreak(clauses: seq<TextRange>)
    requires clauses != [] && forall r :: r in clauses ==> !r.kind.Caret?
    ensures SetTo("\r\n", clauses, NO_CARET) == OnBreak(clauses).Replace()
  {
    WithoutCaret(clauses);
  }

  lemma {:induction false} WithoutCaret(rs: seq<TextRange>)
    requires forall r :: r in rs ==> !r.kind.Caret?
    ensures ClausesOf(rs) == rs && CaretOf(rs, NO_CARET) == NO_CARET
  {
    if rs == [] {
    } else {
      WithoutCaret(rs[..|rs| - 1]);
      assert rs[|rs| - 1] in rs;
    }
  }

  /** A clause on each character of a CRLF: set one by one they are dispatched, but not
      when they are set at once. */
  lemma SetRefusesWhatPartsDispatch()
    ensures var p := OnBreak(BOTH_CLAUSES);
      && p.IsConsistent() && p.Flushed().text == "\n"
      && SetTo("\r\n", BOTH_CLAUSES, NO_CARET) == p.Replace() && !p.Replace().IsConsistent()
  {
    SetOnBreak(BOTH_CLAUSES);
    ReplacedOnBreak(BOTH_CLAUSES);
  }

  /** And a clause on the CR alone the other way round. */
  lemma SetDispatchesWhatPartsRefuse()
    ensures !OnBreak(FIRST_CLAUSE).IsConsistent()
    ensures SetTo("\r\n", FIRST_CLAUSE, NO_CARET).IsConsistent()
  {
    SetOnBreak(FIRST_CLAUSE);
    ReplacedOnBreak(FIRST_CLAUSE);
  }

  /** If a flush accepts both, replacing at once, as Set does, or only at the flush makes
      no difference to what is dispatched. */
  lemma ReplacingEarlyIsTheSame(p: Pending)
    requires !p.replaced
    ensures p.Replace().Flushed() == p.Flushed()
  {
    NormalisedText(p.text);
    var none: seq<TextRange> := [];
    AdjustAllAppend(p.Clauses(), p.caret, p.text);
    assert AdjustAll(none, p.text) == none;
  }

  /** Whether or not the length changed, the clauses of a flush are the adjusted ones. */
  lemma FlushedIsAdjusted(p: Pending)
    requires p.IsConsistent() && !p.replaced && p.clauses.Some?
    requires Tile(p.clauses.value, |p.text|)
    requires p.caret.kind.Caret? ==> p.caret.start <= p.caret.end
    ensures var f, n := p.Flushed(), |p.clauses.value|;
      && f.clauses.Some? && |f.clauses.value| >= n
      && f.text == Normalise(p.text)
      && f.clauses.value[..n] == AdjustAll(p.clauses.value, p.text)
      && (p.caret.kind.Caret? ==> f.clauses.value[n..] == [Adjusted(p.caret, p.text)])
    ensures p.Replace().Flushed() == p.Flushed()
  {
    AdjustedInFlush(p);
    ReplacingEarlyIsTheSame(p);
  }

  lemma AdjustedInFlush(p: Pending)
    requires p.IsConsistent() && !p.replaced && p.clauses.Some?
    requires Tile(p.clauses.value, |p.text|)
    requires p.caret.kind.Caret? ==> p.caret.start <= p.caret.end
    ensures var f, n := p.Flushed(), |p.clauses.value|;
      && f.clauses.Some? && |f.clauses.value| >= n
      && f.text == Normalise(p.text)
      && f.clauses.value[..n] == AdjustAll(p.clauses.value, p.text)
      && (p.caret.kind.Caret? ==> f.clauses.value[n..] == [Adjusted(p.caret, p.text)])
  {
    var rs := p.clauses.value;
    StartsLieBefore(rs, |p.text|);
    AdjustAllAppend(rs, p.caret, p.text);
    UnchangedLengthMovesNothing(p.text);
    if |Normalise(p.text)| == |p.text| { UnmovedClauses(rs, p.text); }
  }

  lemma UnmovedClauses(rs: seq<TextRange>, native: string)
    requires |native| <= UINT32_MAX && MovesNoRange(native) && forall r :: r in rs ==> r.IsInBounds(|native|)
    ensures AdjustAll(rs, native) == rs
  {
    assert forall i :: 0 <= i < |rs| ==> rs[i] in rs && Adjusted(rs[i], native) == rs[i];
  }

  /** A flush, of the parts or of what Set has replaced, dispatches text without CR; its
      clauses tile that text exactly when no clause started between a CR and its LF, and
      then every clause, and a caret that cuts no break either, selects the normalised
      form of what it selected before. */
  lemma FlushCarriesRanges(p: Pending)
    requires p.IsConsistent() && !p.replaced && p.clauses.Some?
    requires Tile(p.clauses.value, |p.text|)
    requires p.caret.kind.Caret? ==> p.caret.start <= p.caret.end
    ensures var f, n := p.Flushed(), |p.clauses.value|;
      && '\r' !in f.text && f.clauses.Some? && |f.clauses.value| >= n
      && (Tile(f.clauses.value[..n], |f.text|) <==> NoStartSplits(p.clauses.value, p.text))
      && (NoStartSplits(p.clauses.value, p.text) ==>
            forall i :: 0 <= i < n ==> Carries(p.clauses.value[i], f.clauses.value[i], p.text, f.text))
      && (p.caret.kind.Caret? && !SplitsBreak(p.text, p.caret.start) && !SplitsBreak(p.text, p.caret.end) ==>
            |f.clauses.value| == n + 1 && Carries(p.caret, f.clauses.value[n], p.text, f.text))
    ensures p.Replace().Flushed() == p.Flushed()
  {
    var f, rs := p.Flushed(), p.clauses.value;
    FlushedIsAdjusted(p);
    NormalisedText(p.text);
    ClausesStillTileExactly(rs, p.text);
    if NoStartSplits(rs, p.text) {
      forall i | 0 <= i < |rs| ensures Carries(rs[i], f.clauses.value[i], p.text, f.text) {
        assert f.clauses.value[i] == f.clauses.value[..|rs|][i];
        ClausesSelectNormalised(rs, p.text, rs[i]);
      }
    }
    if p.caret.kind.Caret? {
      assert f.clauses.value[|rs|] == f.clauses.value[|rs|..][0];
      if !SplitsBreak(p.text, p.caret.start) && !SplitsBreak(p.text, p.caret.end) {
        AdjustedSelectsNormalised(p.caret, p.text);
      }
    }
  }

  ghost predicate Carries(r: TextRange, moved: TextRange, native: string, text: string) {
    && r.IsInBounds(|native|) && moved.IsInBounds(|text|) && moved.kind == r.kind
    && text[moved.start..moved.end] == Normalise(native[r.start..r.end])
  }

  /** Text that was set with its ranges is clean too, so every flush is. */
  lemma EveryFlushIsClean(p: Pending)
    requires IsClean(p)
    ensures '\r' !in p.Flushed().text
  {
    NormalisedText(p.text);
  }

  /** Whether a flush dispatches or refuses what is pending, nothing of it is left: another
      one, with nothing set in between, dispatches an empty text and no ranges. */
  lemma FlushLeavesNothing(p: Pending)
    ensures var left := p.AfterFlush();
      && left.IsConsistent()
      && left.Flushed().text == "" && left.Flushed().clauses.None? && left.EndOfClauses() == 0
      && IsClean(left)
  {
  }

  lemma SetIsClean(s: ShortString, ranges: seq<TextRange>, none: TextRange)
    ensures IsClean(SetTo(s, ranges, none))
  {
    NormalisedText(s);
  }

  class PendingComposition {
    var text: ShortString
    var clauses: Option<seq<TextRange>>
    var caret: TextRange
    var replacedNativeLineBreakers: bool

    function Now(): Pending
      reads this
    {
      Pending(text, clauses, caret, replacedNativeLineBreakers)
    }

    constructor ()
      ensures Now() == CLEARED
    {
      text, clauses, caret, replacedNativeLineBreakers := "", None, NO_CARET, false;
    }

    method Clear()
      modifies this
      ensures Now() == old(Now()).Cleared()
    {
      text, clauses := "", None;
      caret := caret.(kind := Uninitialized);
      replacedNativeLineBreakers := false;
    }

    method SetString(s: ShortString)
      modifies this`text
      ensures Now() == old(Now()).(text := s)
    {
      text := s;
    }

    method AppendClause(length: uint32, kind: TextRangeType) returns (ok: bool)
      modifies this`clauses
      ensures ok == (length != 0 && IsClauseType(kind))
      ensures Now() == if ok then old(Now()).Append(length, kind) else old(Now())
    {
      if length == 0 {
        return false;
      }
      if !IsClauseType(kind) {
        return false;
      }
      if clauses.None? {
        clauses := Some([]);
      }
      var start := if clauses.value == [] then 0 else clauses.value[|clauses.value| - 1].end;
      clauses := Some(clauses.value + [TextRange(start, Wrap(start + length), kind)]);
      return true;
    }

    method SetCaret(offset: uint32, length: uint32)
      modifies this`caret
      ensures Now() == old(Now()).(caret := TextRange(offset, Wrap(offset + length), Caret))
    {
      caret := TextRange(offset, Wrap(offset + length), Caret);
    }

    method Set(s: ShortString, ranges: seq<TextRange>)
      modifies this
      ensures Now() == SetTo(s, ranges, old(caret).(kind := Uninitialized))
    {
      Clear();
      SetString(s);
      if ranges == [] {
        if text != "" {
          var _ := AppendClause(|text|, RawClause);
          assert clauses.value == [TextRange(0, |s|, RawClause)];
          ReplaceNativeLineBreakers();
        }
        return;
      }
      ghost var none := caret;
      var i := 0;
      while i < |ranges|
        invariant 0 <= i <= |ranges|
        invariant Now() == Ranged(ranges[..i], none).(text := s)
      {
        RangedOneMore(ranges, i, none);
        if ranges[i].kind.Caret? {
          caret := ranges[i];
        } else {
          if clauses.None? {
            clauses := Some([]);
          }
          clauses := Some(clauses.value + [ranges[i]]);
        }
        i := i + 1;
      }
      assert ranges[..i] == ranges;
      ReplaceNativeLineBreakers();
    }

    /** Ranges move only when the length of the string has changed. */
    method ReplaceNativeLineBreakers()
      modifies this
      ensures Now() == old(Now()).Replace()
    {
      replacedNativeLineBreakers := true;
      if text == "" {
        return;
      }
      var nativeString := text;
      NormalisedText(text);
      text := Normalise(text);
      if |nativeString| == |text| {
        return;
      }
      if clauses.Some? {
        var adjusted := AdjustClauses(clauses.value, nativeString);
        clauses := Some(adjusted);
      }
      if caret.kind.Caret? {
        caret := AdjustRange(caret, nativeString);
      }
    }

    static method AdjustClauses(rs: seq<TextRange>, native: string) returns (adjusted: seq<TextRange>)
      requires |native| <= UINT32_MAX
      ensures adjusted == AdjustAll(rs, native)
    {
      adjusted := rs;
      var i := 0;
      while i < |adjusted|
        invariant 0 <= i <= |adjusted| == |rs|
        invariant forall k :: 0 <= k < i ==> adjusted[k] == Adjusted(rs[k], native)
        invariant forall k :: i <= k < |adjusted| ==> adjusted[k] == rs[k]
      {
        var r := AdjustRange(adjusted[i], native);
        adjusted := adjusted[i := r];
        i := i + 1;
      }
    }

    static method AdjustRange(nativeRange: TextRange, native: string) returns (range: TextRange)
      requires |native| <= UINT32_MAX
      ensures range == Adjusted(nativeRange, native)
    {
      AdjustedFits(nativeRange, native);
      range := nativeRange;
      if nativeRange.start > 0 {
        range := range.(start := |Collapse(Substring(native, 0, nativeRange.start))|);
      }
      if nativeRange.Length() == 0 {
        range := range.(end := range.start);
      } else {
        var clause := Collapse(Substring(native, nativeRange.start, nativeRange.Length()));
        range := range.(end := range.start + |clause|);
      }
    }

    /** Takes the pending composition for a change event, or refuses it and, if it is
        inconsistent, forgets it. */
    method Flush(isAvailable: bool) returns (change: Option<Pending>)
      modifies this
      ensures change.Some? <==> isAvailable && old(Now()).IsConsistent()
      ensures change.Some? ==> change.value == old(Now()).Flushed()
      ensures Now() == if isAvailable then old(Now()).AfterFlush() else old(Now())
    {
      if !isAvailable {
        return None;
      }
      if clauses.Some? && clauses.value != [] && clauses.value[|clauses.value| - 1].end != |text| {
        Clear();
        return None;
      }
      if caret.kind.Caret? {
        if caret.end > |text| {
          Clear();
          return None;
        }
        clauses := Some((if clauses.None? then [] else clauses.value) + [caret]);
      }
      if !replacedNativeLineBreakers {
        ReplaceNativeLineBreakers();
      }
      change := Some(Now());
      Clear();
    }
  }
}
