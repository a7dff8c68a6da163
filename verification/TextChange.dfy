/** Changes of the focused editor's text, and how successive changes become one. */
module TextChanges {
  import opened BasicTypes

  /** Why the text changed. */
  datatype Causes = Causes(
    onlyByComposition: bool,
    includingDuringComposition: bool,
    includingWithoutComposition: bool)
  {
    /** A change during the composition counts until the text changes without one. */
    function Then(next: Causes): Causes {
      Causes(
        onlyByComposition && next.onlyByComposition,
        if !next.onlyByComposition && !next.includingDuringComposition then false
        else next.includingDuringComposition || includingDuringComposition,
        includingWithoutComposition || next.includingWithoutComposition)
    }
  }

  /** The text from `start` to `removedEnd` became the text from `start` to `addedEnd`. */
  datatype Change = Change(start: int, removedEnd: int, addedEnd: int, causes: Causes)
  {
    predicate Fits() {
      0 <= start <= UINT32_MAX && 0 <= removedEnd <= UINT32_MAX && 0 <= addedEnd <= UINT32_MAX
    }

    predicate IsValid() {
      !(start == UINT32_MAX && removedEnd == 0 && addedEnd == 0)
    }

    predicate IsProper() {
      start <= removedEnd && start <= addedEnd
    }

    function Growth(): int { addedEnd - removedEnd }

    /** The growth as the code has it, in 32 unsigned bits. */
    function Difference(): uint32 { Wrap(addedEnd - removedEnd) }

    /** The end of what `next` removed, before this change moved it. */
    function RemovedInOldText(next: Change): int {
      Max(Wrap(next.removedEnd - Difference()), removedEnd)
    }

    /** The end of what this change added, after `next` has moved it. */
    function AddedInNewText(next: Change): int {
      Max(next.addedEnd, Wrap(addedEnd + next.Difference()))
    }
  }

  /** TextChangeDataBase::MergeWith: `next` was made to the text that `first` left. */
  function Merged(first: Change, next: Change): Change {
    var causes := first.causes.Then(next.causes);
    if !first.IsValid() then next
    else if next.start >= first.addedEnd then
      Change(first.start, first.RemovedInOldText(next), next.addedEnd, causes)
    else if next.start >= first.start then
      if next.removedEnd >= first.addedEnd
      then Change(first.start, first.RemovedInOldText(next), next.addedEnd, causes)
      else Change(first.start, first.removedEnd, first.AddedInNewText(next), causes)
    else if next.removedEnd >= first.start then
      if next.removedEnd >= first.addedEnd
      then Change(next.start, first.RemovedInOldText(next), next.addedEnd, causes)
      else Change(next.start, first.removedEnd, first.AddedInNewText(next), causes)
    else Change(next.start, first.removedEnd, first.AddedInNewText(next), causes)
  }

  /** The least stretch that covers both changes, on unbounded offsets. */
  function Hull(first: Change, next: Change): Change {
    Change(
      Min(first.start, next.start),
      Max(first.removedEnd, next.removedEnd - first.Growth()),
      Max(next.addedEnd, first.addedEnd + next.Growth()),
      first.causes.Then(next.causes))
  }

  lemma WrapOfDifference(n: int, d: int)
    ensures Wrap(n - Wrap(d)) == Wrap(n - d) && Wrap(n + Wrap(d)) == Wrap(n + d)
  {
    var q := d / UINT32_RANGE;
    assert d == q * UINT32_RANGE + Wrap(d);
    WrapOfMultiple(n - d, q);
    WrapOfMultiple(n + d, -q);
  }

  lemma WrapOfMultiple(n: int, q: int)
    ensures Wrap(n + q * UINT32_RANGE) == Wrap(n)
  {
  }

  lemma WrapIsLess(n: int)
    requires n >= 0
    ensures Wrap(n) == n <==> n <= UINT32_MAX
    ensures Wrap(n) <= n
  {
    var q := n / UINT32_RANGE;
    assert n == q * UINT32_RANGE + Wrap(n) && q >= 0;
  }

  /** The new change ends behind what the old one added. */
  lemma RemovedEndIsRightExactly(first: Change, next: Change)
    requires first.Fits() && first.removedEnd <= next.removedEnd - first.Growth()
    ensures first.RemovedInOldText(next) == next.removedEnd - first.Growth()
            <==> next.removedEnd - first.Growth() <= UINT32_MAX
  {
    WrapOfDifference(next.removedEnd, first.Growth());
    WrapIsLess(next.removedEnd - first.Growth());
  }

  /** The new change ends inside or before what the old one added. */
  lemma AddedEndIsRightExactly(first: Change, next: Change)
    requires next.Fits() && next.addedEnd <= first.addedEnd + next.Growth()
    ensures first.AddedInNewText(next) == first.addedEnd + next.Growth()
            <==> first.addedEnd + next.Growth() <= UINT32_MAX
  {
    WrapOfDifference(first.addedEnd, next.Growth());
    WrapIsLess(first.addedEnd + next.Growth());
  }

  /** The six cases are one formula, exactly when no end moves out of 32 bits. */
  lemma MergedIsHullExactly(first: Change, next: Change)
    requires first.Fits() && first.IsProper() && next.Fits() && next.IsProper()
    ensures Merged(first, next) == Hull(first, next)
            <==> next.removedEnd - first.Growth() <= UINT32_MAX && first.addedEnd + next.Growth() <= UINT32_MAX
  {
    if next.removedEnd >= first.addedEnd {
      RemovedEndIsRightExactly(first, next);
      assert Hull(first, next).removedEnd == next.removedEnd - first.Growth();
      assert Hull(first, next).addedEnd == next.addedEnd;
    } else {
      AddedEndIsRightExactly(first, next);
      assert Hull(first, next).removedEnd == first.removedEnd;
      assert Hull(first, next).addedEnd == first.addedEnd + next.Growth();
    }
  }

  lemma HullIsAssociative(a: Change, b: Change, c: Change)
    ensures Hull(Hull(a, b), c) == Hull(a, Hull(b, c))
  {
    HullGrowth(a, b);
    HullGrowth(b, c);
  }

  /** The change covers both, `next` being made to the text that `first` left. */
  predicate CoversBoth(c: Change, first: Change, next: Change) {
    && c.start <= first.start && c.start <= next.start
    && c.removedEnd >= first.removedEnd && c.removedEnd >= next.removedEnd - first.Growth()
    && c.addedEnd >= next.addedEnd && c.addedEnd >= first.addedEnd + next.Growth()
  }

  /** No change that covers both covers less. */
  lemma HullIsLeast(first: Change, next: Change, c: Change)
    ensures CoversBoth(Hull(first, next), first, next)
    ensures CoversBoth(c, first, next) ==>
      c.start <= Hull(first, next).start
      && c.removedEnd >= Hull(first, next).removedEnd && c.addedEnd >= Hull(first, next).addedEnd
  {
  }

  lemma HullGrowth(a: Change, b: Change)
    ensures Hull(a, b).Growth() == a.Growth() + b.Growth()
  {
  }

  // ----- What a change says about the text -----

  predicate Covers(c: Change, before: string, after: string) {
    0 <= c.start <= c.removedEnd <= |before| && c.start <= c.addedEnd <= |after|
  }

  /** The stored text of an IME that fetches no more of the current text than what
      the change covers. */
  function Updated(c: Change, stored: string, current: string): string
    requires Covers(c, stored, current)
  {
    stored[..c.start] + current[c.start..c.addedEnd] + stored[c.removedEnd..]
  }

  predicate Describes(c: Change, before: string, after: string) {
    Covers(c, before, after) && Updated(c, before, after) == after
  }

  ghost predicate KeepsFront(c: Change, before: string, after: string)
    requires Covers(c, before, after)
  {
    forall i :: 0 <= i < c.start ==> after[i] == before[i]
  }

  ghost predicate MovesBack(c: Change, before: string, after: string)
    requires Covers(c, before, after)
  {
    |after| == |before| + c.Growth() && forall i :: c.addedEnd <= i < |after| ==> after[i] == before[i - c.Growth()]
  }

  /** Describes, character by character: the text before and behind the change is left alone. */
  ghost predicate LeavesTheRest(c: Change, before: string, after: string)
    requires Covers(c, before, after)
  {
    KeepsFront(c, before, after) && MovesBack(c, before, after)
  }

  lemma DescribesByCharacter(c: Change, before: string, after: string)
    requires Covers(c, before, after)
    ensures Describes(c, before, after) <==> LeavesTheRest(c, before, after)
  {
    var u := Updated(c, before, after);
    forall i | 0 <= i < |u|
      ensures u[i] == (if i < c.start then before[i] else if i < c.addedEnd then after[i] else before[i - c.Growth()])
    {
      UpdatedAt(c, before, after, i);
    }
    if LeavesTheRest(c, before, after) {
      assert forall i :: 0 <= i < |u| ==> u[i] == after[i];
    }
  }

  lemma UpdatedAt(c: Change, stored: string, current: string, i: nat)
    requires Covers(c, stored, current) && i < |Updated(c, stored, current)|
    ensures Updated(c, stored, current)[i]
            == (if i < c.start then stored[i] else if i < c.addedEnd then current[i] else stored[i - c.Growth()])
  {
    var front := stored[..c.start] + current[c.start..c.addedEnd];
    assert Updated(c, stored, current) == front + stored[c.removedEnd..] && |front| == c.addedEnd;
  }

  lemma HullKeepsFront(first: Change, next: Change, t0: string, t1: string, t2: string)
    requires Covers(first, t0, t1) && Covers(next, t1, t2) && Covers(Hull(first, next), t0, t2)
    requires KeepsFront(first, t0, t1) && KeepsFront(next, t1, t2)
    ensures KeepsFront(Hull(first, next), t0, t2)
  {
    forall i | 0 <= i < Hull(first, next).start ensures t2[i] == t0[i] {
      assert t2[i] == t1[i];
    }
  }

  lemma HullMovesBack(first: Change, next: Change, t0: string, t1: string, t2: string)
    requires Covers(first, t0, t1) && Covers(next, t1, t2) && Covers(Hull(first, next), t0, t2)
    requires MovesBack(first, t0, t1) && MovesBack(next, t1, t2)
    ensures MovesBack(Hull(first, next), t0, t2)
  {
    HullGrowth(first, next);
    forall i | Hull(first, next).addedEnd <= i < |t2|
      ensures t2[i] == t0[i - Hull(first, next).Growth()]
    {
      var j := i - next.Growth();
      assert first.addedEnd <= j < |t1|;
      assert t2[i] == t1[j];
    }
  }

  lemma HullDescribes(first: Change, next: Change, t0: string, t1: string, t2: string)
    requires Describes(first, t0, t1) && Describes(next, t1, t2)
    ensures Describes(Hull(first, next), t0, t2)
  {
    DescribesByCharacter(first, t0, t1);
    DescribesByCharacter(next, t1, t2);
    HullCovers(first, next, t0, t1, t2);
    HullKeepsFront(first, next, t0, t1, t2);
    HullMovesBack(first, next, t0, t1, t2);
    DescribesByCharacter(Hull(first, next), t0, t2);
  }

  lemma HullCovers(first: Change, next: Change, t0: string, t1: string, t2: string)
    requires Covers(first, t0, t1) && Covers(next, t1, t2)
    requires |t1| == |t0| + first.Growth() && |t2| == |t1| + next.Growth()
    ensures Covers(Hull(first, next), t0, t2)
  {
  }

  /** An IME that was told of two changes at once stores the current text. */
  lemma MergedDescribes(first: Change, next: Change, t0: ShortString, t1: ShortString, t2: ShortString)
    requires Describes(first, t0, t1) && Describes(next, t1, t2)
    ensures Merged(first, next) == Hull(first, next) && Describes(Merged(first, next), t0, t2)
  {
    HullDescribes(first, next, t0, t1, t2);
    MergedIsHullExactly(first, next);
  }

  // ----- Lists of changes -----

  const CLEARED := Change(UINT32_MAX, 0, 0, Causes(false, false, false))

  /** What is merged into cleared data, one change after the other. */
  function Accumulated(changes: seq<Change>): Change {
    if changes == [] then CLEARED
    else Merged(Accumulated(changes[..|changes| - 1]), changes[|changes| - 1])
  }

  ghost predicate IsHistory(changes: seq<Change>, texts: seq<ShortString>) {
    |texts| == |changes| + 1 && forall i :: 0 <= i < |changes| ==> Describes(changes[i], texts[i], texts[i + 1])
  }

  function HullOfAll(changes: seq<Change>): Change
    requires changes != []
  {
    if |changes| == 1 then changes[0]
    else Hull(HullOfAll(changes[..|changes| - 1]), changes[|changes| - 1])
  }

  lemma {:induction false} HullOfConcat(a: seq<Change>, b: seq<Change>)
    requires a != [] && b != []
    ensures HullOfAll(a + b) == Hull(HullOfAll(a), HullOfAll(b))
  {
    var n := |b| - 1;
    assert (a + b)[..|a| + n] == a + b[..n];
    if n == 0 {
      assert a + b[..n] == a;
    } else {
      HullOfConcat(a, b[..n]);
      HullIsAssociative(HullOfAll(a), HullOfAll(b[..n]), b[n]);
    }
  }

  /** However many changes are merged, the result leads from the first text to the last. */
  lemma {:induction false} AccumulatedDescribes(changes: seq<Change>, texts: seq<ShortString>)
    requires changes != [] && IsHistory(changes, texts)
    ensures Describes(Accumulated(changes), texts[0], texts[|changes|])
    ensures Accumulated(changes) == HullOfAll(changes)
  {
    var n := |changes| - 1;
    if n == 0 {
      assert Accumulated(changes) == changes[0];
    } else {
      AccumulatedDescribes(changes[..n], texts[..n + 1]);
      MergedDescribes(Accumulated(changes[..n]), changes[n], texts[0], texts[n], texts[n + 1]);
    }
  }

  /** Merging in batches is merging one by one. */
  lemma AccumulatedConcat(a: seq<Change>, b: seq<Change>, texts: seq<ShortString>)
    requires a != [] && b != [] && IsHistory(a + b, texts)
    ensures Accumulated(a + b) == Merged(Accumulated(a), Accumulated(b))
  {
    HullOfConcat(a, b);
    HistoryParts(a, b, texts);
    AccumulatedDescribes(a + b, texts);
    AccumulatedDescribes(a, texts[..|a| + 1]);
    AccumulatedDescribes(b, texts[|a|..]);
    MergedDescribes(Accumulated(a), Accumulated(b), texts[0], texts[|a|], texts[|a| + |b|]);
  }

  lemma HistoryParts(a: seq<Change>, b: seq<Change>, texts: seq<ShortString>)
    requires IsHistory(a + b, texts)
    ensures IsHistory(a, texts[..|a| + 1]) && IsHistory(b, texts[|a|..])
  {
    forall i | 0 <= i < |a| ensures Describes(a[i], texts[i], texts[i + 1]) {
      assert (a + b)[i] == a[i];
    }
    forall i | 0 <= i < |b| ensures Describes(b[i], texts[|a| + i], texts[|a| + i + 1]) {
      assert (a + b)[|a| + i] == b[i];
    }
  }

  datatype Cause = ByComposition | DuringComposition | WithoutComposition

  /** TextChangeData's constructor sets one of the flags. */
  function CausesOf(c: Cause): Causes {
    Causes(c == ByComposition, c == DuringComposition, c == WithoutComposition)
  }

  function AllCauses(cs: seq<Cause>): Causes
    requires cs != []
  {
    if |cs| == 1 then CausesOf(cs[0]) else AllCauses(cs[..|cs| - 1]).Then(CausesOf(cs[|cs| - 1]))
  }

  /** Some change happened during the composition, and no later one happened without. */
  ghost predicate ChangedDuringLatest(cs: seq<Cause>) {
    exists i :: 0 <= i < |cs| && cs[i] == DuringComposition && WithoutComposition !in cs[i..]
  }

  lemma ChangedDuringLatestAppend(cs: seq<Cause>, c: Cause)
    ensures ChangedDuringLatest(cs + [c])
            <==> c != WithoutComposition && (c == DuringComposition || ChangedDuringLatest(cs))
  {
    var all := cs + [c];
    assert all[|cs|..] == [c];
    forall i | 0 <= i < |cs| ensures all[i..] == cs[i..] + [c] && all[i] == cs[i] {}
    if ChangedDuringLatest(cs) && c != WithoutComposition {
      var i :| 0 <= i < |cs| && cs[i] == DuringComposition && WithoutComposition !in cs[i..];
      assert all[i] == DuringComposition && WithoutComposition !in all[i..];
    }
  }

  /** What the flags of merged changes tell about the single changes. */
  lemma {:induction false} FlagsTellCauses(cs: seq<Cause>)
    requires cs != []
    ensures AllCauses(cs).onlyByComposition <==> forall c :: c in cs ==> c == ByComposition
    ensures AllCauses(cs).includingWithoutComposition <==> WithoutComposition in cs
    ensures AllCauses(cs).includingDuringComposition <==> ChangedDuringLatest(cs)
  {
    var n := |cs| - 1;
    assert cs == cs[..n] + [cs[n]];
    assert cs[n] in cs && forall c :: c in cs <==> c in cs[..n] || c == cs[n];
    ChangedDuringLatestAppend(cs[..n], cs[n]);
    if n == 0 {
    } else {
      FlagsTellCauses(cs[..n]);
    }
  }

  class TextChangeData {
    var startOffset: uint32
    var removedEndOffset: uint32
    var addedEndOffset: uint32
    var causedOnlyByComposition: bool
    var includingChangesDuringComposition: bool
    var includingChangesWithoutComposition: bool

    ghost function Data(): Change
      reads this
    {
      Change(startOffset, removedEndOffset, addedEndOffset, Flags())
    }

    ghost function Flags(): Causes
      reads this
    {
      Causes(
        causedOnlyByComposition, includingChangesDuringComposition, includingChangesWithoutComposition)
    }

    constructor (start: uint32, removedEnd: uint32, addedEnd: uint32, caused: bool, occurredDuring: bool)
      ensures Data().start == start && Data().removedEnd == removedEnd && Data().addedEnd == addedEnd
      ensures Flags() == CausesOf(
        if caused then ByComposition else if occurredDuring then DuringComposition else WithoutComposition)
    {
      startOffset, removedEndOffset, addedEndOffset := start, removedEnd, addedEnd;
      causedOnlyByComposition := caused;
      includingChangesDuringComposition := !caused && occurredDuring;
      includingChangesWithoutComposition := !caused && !occurredDuring;
    }

    method Difference() returns (d: uint32)
      ensures d == Data().Difference()
    {
      d := Wrap(addedEndOffset - removedEndOffset);
    }

    method RemovedEndInOldText(newData: TextChangeData) returns (end: uint32)
      ensures end == Data().RemovedInOldText(newData.Data())
    {
      var difference := Difference();
      end := Wrap(newData.removedEndOffset - difference);
      if end < removedEndOffset { end := removedEndOffset; }
    }

    method AddedEndInNewText(newData: TextChangeData) returns (end: uint32)
      ensures end == Data().AddedInNewText(newData.Data())
    {
      var difference: int := newData.Difference();
      end := Wrap(addedEndOffset + difference);
      if end < newData.addedEndOffset { end := newData.addedEndOffset; }
    }

    /** The data to merge may be this very object. */
    method MergeWith(newData: TextChangeData)
      modifies this
      ensures Data() == Merged(old(Data()), old(newData.Data()))
    {
      if startOffset == UINT32_MAX && removedEndOffset == 0 && addedEndOffset == 0 {
        startOffset, removedEndOffset, addedEndOffset :=
          newData.startOffset, newData.removedEndOffset, newData.addedEndOffset;
        causedOnlyByComposition := newData.causedOnlyByComposition;
        includingChangesDuringComposition := newData.includingChangesDuringComposition;
        includingChangesWithoutComposition := newData.includingChangesWithoutComposition;
        return;
      }
      MergeFlagsWith(newData);
      MergeOffsetsWith(newData);
    }

    method MergeOffsetsWith(newData: TextChangeData)
      requires Data().IsValid()
      modifies this`startOffset, this`removedEndOffset, this`addedEndOffset
      ensures Data() == Merged(old(Data()), old(newData.Data())).(causes := old(Flags()))
    {
      var removedEnd := RemovedEndInOldText(newData);
      var addedEnd := AddedEndInNewText(newData);
      var oldStart, oldAddedEnd := startOffset, addedEndOffset;
      if newData.startOffset >= oldAddedEnd {
        removedEndOffset, addedEndOffset := removedEnd, newData.addedEndOffset;
        return;
      }
      if newData.startOffset >= oldStart {
        if newData.removedEndOffset >= oldAddedEnd {
          removedEndOffset, addedEndOffset := removedEnd, newData.addedEndOffset;
          return;
        }
        addedEndOffset := addedEnd;
        return;
      }
      startOffset := newData.startOffset;
      if newData.removedEndOffset >= oldStart {
        if newData.removedEndOffset >= oldAddedEnd {
          removedEndOffset, addedEndOffset := removedEnd, newData.addedEndOffset;
          return;
        }
        addedEndOffset := addedEnd;
        return;
      }
      addedEndOffset := addedEnd;
    }

    method MergeFlagsWith(newData: TextChangeData)
      modifies this`causedOnlyByComposition, this`includingChangesWithoutComposition
      modifies this`includingChangesDuringComposition
      ensures Flags() == old(Flags()).Then(old(newData.Flags()))
    {
      var onlyByComposition := newData.causedOnlyByComposition;
      causedOnlyByComposition := newData.causedOnlyByComposition && causedOnlyByComposition;
      includingChangesWithoutComposition :=
        newData.includingChangesWithoutComposition || includingChangesWithoutComposition;
      if !onlyByComposition && !newData.includingChangesDuringComposition {
        includingChangesDuringComposition := false;
      } else {
        includingChangesDuringComposition :=
          newData.includingChangesDuringComposition || includingChangesDuringComposition;
      }
    }
  }
}
