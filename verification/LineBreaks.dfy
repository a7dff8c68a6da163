/** Replacing native line breaks in a string, and moving ranges along with it. */
module LineBreaks {
  import opened BasicTypes

  /** All occurrences of `target`, found from left to right, become `replacement`. */
  function ReplaceSubstring(s: string, target: string, replacement: string): string
    requires target != ""
    decreases |s|
  {
    if |s| < |target| then s
    else if s[..|target|] == target then
      replacement + ReplaceSubstring(s[|target|..], target, replacement)
    else [s[0]] + ReplaceSubstring(s[1..], target, replacement)
  }

  function Collapse(s: string): string {
    ReplaceSubstring(s, "\r\n", "\n")
  }

  /** The text that web content gets to see. */
  function Normalise(s: string): string {
    ReplaceSubstring(Collapse(s), "\r", "\n")
  }

  predicate StartsWithLF(s: string) { s != "" && s[0] == '\n' }

  /** Position k lies between a CR and its LF. */
  predicate SplitsBreak(s: string, k: int) {
    0 < k < |s| && s[k - 1] == '\r' && s[k] == '\n'
  }

  ghost predicate HasNativeBreak(s: string) {
    exists k :: SplitsBreak(s, k)
  }

  lemma CollapseStep(s: string)
    requires s != ""
    ensures Collapse(s) ==
      if SplitsBreak(s, 1) then "\n" + Collapse(s[2..]) else [s[0]] + Collapse(s[1..])
  {
  }

  /** How the lengths of the collapsed parts of a string add up, and that the parts
      make the whole unless a break lies across them. */
  ghost predicate CollapsesInParts(s: string, k: nat)
    requires k <= |s|
  {
    && |Collapse(s[..k])| + |Collapse(s[k..])| == |Collapse(s)| + (if SplitsBreak(s, k) then 1 else 0)
    && (!SplitsBreak(s, k) ==> Collapse(s) == Collapse(s[..k]) + Collapse(s[k..]))
  }

  /** What comes before a string r does not change how its parts collapse. */
  lemma PartsAfter(s: string, k: nat, r: string, j: nat, before: string)
    requires k <= |s| && j <= |r| && CollapsesInParts(r, j)
    requires Collapse(s) == before + Collapse(r) && Collapse(s[..k]) == before + Collapse(r[..j])
    requires s[k..] == r[j..] && (SplitsBreak(s, k) <==> SplitsBreak(r, j))
    ensures CollapsesInParts(s, k)
  {
    assert before + (Collapse(r[..j]) + Collapse(r[j..])) == (before + Collapse(r[..j])) + Collapse(r[j..]);
  }

  lemma PartsAfterCharacter(s: string, k: nat)
    requires 0 < k <= |s| && !SplitsBreak(s, 1) && CollapsesInParts(s[1..], k - 1)
    ensures CollapsesInParts(s, k)
  {
    CollapseStep(s);
    CollapseStep(s[..k]);
    assert s[1..][..k - 1] == s[..k][1..] && s[1..][k - 1..] == s[k..];
    PartsAfter(s, k, s[1..], k - 1, [s[0]]);
  }

  lemma PartsAfterBreak(s: string, k: nat)
    requires 2 <= k <= |s| && SplitsBreak(s, 1) && CollapsesInParts(s[2..], k - 2)
    ensures CollapsesInParts(s, k)
  {
    CollapseStep(s);
    CollapseStep(s[..k]);
    assert s[2..][..k - 2] == s[..k][2..] && s[2..][k - 2..] == s[k..];
    PartsAfter(s, k, s[2..], k - 2, "\n");
  }

  lemma PartsAcrossBreak(s: string)
    requires SplitsBreak(s, 1)
    ensures CollapsesInParts(s, 1)
  {
    CollapseStep(s);
    CollapseStep(s[..1]);
    CollapseStep(s[1..]);
    assert s[..1] == "\r" && s[1..][1..] == s[2..];
    assert Collapse(s[..1][1..]) == "";
  }

  /** Collapsing works on the parts of a string, but a break that lies across the two
      parts then counts twice. */
  lemma {:induction false} CollapseParts(s: string, k: nat)
    requires k <= |s|
    ensures CollapsesInParts(s, k)
    decreases |s|
  {
    if k == 0 {
      assert s[..0] == "" && s[0..] == s;
      assert Collapse(s) == "" + Collapse(s);
    } else if !SplitsBreak(s, 1) {
      CollapseParts(s[1..], k - 1);
      PartsAfterCharacter(s, k);
    } else if k == 1 {
      PartsAcrossBreak(s);
    } else {
      CollapseParts(s[2..], k - 2);
      PartsAfterBreak(s, k);
    }
  }

  lemma {:induction false} CollapseShortens(s: string)
    ensures |Collapse(s)| <= |s|
    ensures |Collapse(s)| == |s| <==> !HasNativeBreak(s)
    ensures !HasNativeBreak(s) ==> Collapse(s) == s
    decreases |s|
  {
    if s == "" {
    } else {
      CollapseStep(s);
      if SplitsBreak(s, 1) {
        CollapseShortens(s[2..]);
      } else {
        CollapseShortens(s[1..]);
        if HasNativeBreak(s[1..]) {
          var k :| SplitsBreak(s[1..], k);
          assert SplitsBreak(s, k + 1);
        }
        if HasNativeBreak(s) {
          var k :| SplitsBreak(s, k);
          assert SplitsBreak(s[1..], k - 1);
        }
      }
    }
  }

  function Mapped(c: char): char { if c == '\r' then '\n' else c }

  /** Replacing single CRs changes characters one by one. */
  lemma {:induction false} ReplaceCRIsPointwise(s: string)
    ensures |ReplaceSubstring(s, "\r", "\n")| == |s|
    ensures forall i :: 0 <= i < |s| ==> ReplaceSubstring(s, "\r", "\n")[i] == Mapped(s[i])
  {
    if s == "" {
    } else {
      ReplaceCRIsPointwise(s[1..]);
      assert s[..1] == [s[0]];
      assert forall i :: 1 <= i < |s| ==> s[1..][i - 1] == s[i];
    }
  }

  lemma NormaliseLength(s: string)
    ensures |Normalise(s)| == |Collapse(s)|
    ensures forall i :: 0 <= i < |Normalise(s)| ==> Normalise(s)[i] == Mapped(Collapse(s)[i])
  {
    ReplaceCRIsPointwise(Collapse(s));
  }

  /** Web content sees no CR, and fewer characters exactly when there was a CRLF. */
  lemma NormalisedText(s: string)
    ensures '\r' !in Normalise(s)
    ensures |Normalise(s)| <= |s|
    ensures |Normalise(s)| == |s| <==> !HasNativeBreak(s)
  {
    NormaliseLength(s);
    CollapseShortens(s);
  }

  /** Every line break, be it CRLF, CR or LF, is one LF, and nothing else changes. */
  function WithLF(s: string): string
    decreases |s|
  {
    if s == "" then ""
    else if SplitsBreak(s, 1) then "\n" + WithLF(s[2..])
    else if s[0] == '\r' then "\n" + WithLF(s[1..])
    else [s[0]] + WithLF(s[1..])
  }

  /** Replacing first all CRLFs and then all CRs does that. */
  lemma {:induction false} NormaliseMakesLF(s: string)
    ensures Normalise(s) == WithLF(s)
    decreases |s|
  {
    if s == "" {
    } else {
      CollapseStep(s);
      var rest := if SplitsBreak(s, 1) then s[2..] else s[1..];
      NormaliseMakesLF(rest);
      var head := if SplitsBreak(s, 1) then '\n' else s[0];
      assert Collapse(s) == [head] + Collapse(rest);
      assert Collapse(s)[..1] == [head] && Collapse(s)[1..] == Collapse(rest);
    }
  }

  // ----- Ranges -----

  datatype TextRangeType =
    | Uninitialized
    | Caret
    | RawClause
    | SelectedRawClause
    | ConvertedClause
    | SelectedClause

  datatype TextRange = TextRange(start: uint32, end: uint32, kind: TextRangeType)
  {
    function Length(): uint32 { Wrap(end - start) }
    predicate IsInBounds(n: nat) { start <= end <= n }
  }

  /** A substring as far as it exists. */
  function Substring(s: string, start: nat, length: nat): (r: string)
    ensures start + length <= |s| ==> r == s[start..start + length]
    ensures |r| <= length
  {
    if start >= |s| then "" else if start + length <= |s| then s[start..start + length] else s[start..]
  }

  function AdjustedStart(r: TextRange, native: string): nat {
    if r.start > 0 then |Collapse(Substring(native, 0, r.start))| else 0
  }

  function AdjustedEnd(r: TextRange, native: string): nat {
    AdjustedStart(r, native)
    + if r.Length() == 0 then 0 else |Collapse(Substring(native, r.start, r.Length()))|
  }

  lemma AdjustedFits(r: TextRange, native: string)
    ensures AdjustedStart(r, native) <= r.start
    ensures AdjustedEnd(r, native) <= AdjustedStart(r, native) + r.Length()
    ensures |native| <= UINT32_MAX ==> AdjustedEnd(r, native) <= UINT32_MAX
  {
    CollapseShortens(Substring(native, 0, r.start));
    CollapseShortens(Substring(native, r.start, r.Length()));
    CollapseShortens(native);
    assert r.start < |native| ==> |Substring(native, r.start, r.Length())| <= |native| - r.start;
  }

  /** AdjustRange: the offsets that a range has in the normalised string. */
  function Adjusted(r: TextRange, native: string): TextRange
    requires |native| <= UINT32_MAX
  {
    AdjustedFits(r, native);
    r.(start := AdjustedStart(r, native), end := AdjustedEnd(r, native))
  }

  lemma AdjustedInBounds(r: TextRange, native: string)
    requires |native| <= UINT32_MAX && r.IsInBounds(|native|)
    ensures Adjusted(r, native).start == |Collapse(native[..r.start])|
    ensures Adjusted(r, native).end == |Collapse(native[..r.start])| + |Collapse(native[r.start..r.end])|
  {
    assert Collapse("") == "";
    assert r.Length() == r.end - r.start;
    assert native[..0] == "" && native[r.start..r.start] == "";
  }

  /** A range that cuts no CRLF in two selects, after normalisation, the normalised
      text that it selected before. */
  lemma AdjustedSelectsNormalised(r: TextRange, native: string)
    requires |native| <= UINT32_MAX && r.IsInBounds(|native|)
    requires !SplitsBreak(native, r.start) && !SplitsBreak(native, r.end)
    ensures var a := Adjusted(r, native);
      a.IsInBounds(|Normalise(native)|) && Normalise(native)[a.start..a.end] == Normalise(native[r.start..r.end])
  {
    AdjustedInBounds(r, native);
    CollapsedInParts(native, r.start, r.end);
    NormalisedPart(native, Collapse(native[..r.start]), native[r.start..r.end], Collapse(native[r.end..]));
  }

  lemma CollapsedInParts(s: string, i: nat, j: nat)
    requires i <= j <= |s| && !SplitsBreak(s, i) && !SplitsBreak(s, j)
    ensures Collapse(s) == Collapse(s[..i]) + Collapse(s[i..j]) + Collapse(s[j..])
  {
    CollapseParts(s, i);
    CollapseParts(s[i..], j - i);
    assert s[i..][..j - i] == s[i..j] && s[i..][j - i..] == s[j..];
    assert SplitsBreak(s[i..], j - i) ==> SplitsBreak(s, j);
  }

  lemma NormalisedPart(s: string, before: string, part: string, after: string)
    requires Collapse(s) == before + Collapse(part) + after
    ensures |before| + |Collapse(part)| <= |Normalise(s)|
    ensures Normalise(s)[|before|..|before| + |Collapse(part)|] == Normalise(part)
  {
    NormaliseLength(s);
    NormaliseLength(part);
  }

  /** Ranges that follow each other without a gap from 0 to n. */
  ghost predicate Tile(rs: seq<TextRange>, n: nat) {
    if rs == [] then n == 0
    else
      var last := rs[|rs| - 1];
      last.start <= last.end == n && Tile(rs[..|rs| - 1], last.start)
  }

  lemma LastTile(rs: seq<TextRange>, n: nat)
    requires rs != []
    ensures var last := rs[|rs| - 1]; Tile(rs, n) <==> last.start <= last.end == n && Tile(rs[..|rs| - 1], last.start)
  {
  }

  function AdjustAll(rs: seq<TextRange>, native: string): (r: seq<TextRange>)
    requires |native| <= UINT32_MAX
    ensures |r| == |rs| && forall i :: 0 <= i < |rs| ==> r[i] == Adjusted(rs[i], native)
  {
    if rs == [] then [] else AdjustAll(rs[..|rs| - 1], native) + [Adjusted(rs[|rs| - 1], native)]
  }

  ghost predicate NoStartSplits(rs: seq<TextRange>, native: string) {
    forall r :: r in rs ==> !SplitsBreak(native, r.start)
  }

  /** The starts of the ranges before k see the same breaks in the longer text. */
  lemma SplitsAreLocal(init: seq<TextRange>, k: nat, n: nat, native: string)
    requires k <= n <= |native| && Tile(init, k) && !SplitsBreak(native[..n], k)
    ensures NoStartSplits(init, native[..k]) <==> NoStartSplits(init, native[..n])
  {
  }

  lemma StartsSplit(rs: seq<TextRange>, n: nat, native: string)
    requires n <= |native| && rs != [] && Tile(rs, n)
    ensures var init, k := rs[..|rs| - 1], rs[|rs| - 1].start;
      NoStartSplits(rs, native[..n]) <==> !SplitsBreak(native[..n], k) && NoStartSplits(init, native[..k])
  {
    var init, last := rs[..|rs| - 1], rs[|rs| - 1];
    assert rs == init + [last] && last in rs;
    if !SplitsBreak(native[..n], last.start) { SplitsAreLocal(init, last.start, n, native); }
  }

  /** The last clause still ends where the string ends unless it starts inside a break. */
  lemma LastEnds(last: TextRange, n: nat, native: string)
    requires |native| <= UINT32_MAX && n <= |native| && last.start <= last.end == n
    ensures var a := Adjusted(last, native);
      && a.start == |Collapse(native[..last.start])| <= a.end
      && (a.end == |Collapse(native[..n])| <==> !SplitsBreak(native[..n], last.start))
  {
    var k := last.start;
    AdjustedInBounds(last, native);
    CollapseParts(native[..n], k);
    assert native[..n][..k] == native[..k] && native[..n][k..] == native[k..n];
  }

  lemma {:induction false} AdjustedPrefixTiles(rs: seq<TextRange>, n: nat, native: string)
    requires |native| <= UINT32_MAX && n <= |native| && Tile(rs, n)
    ensures Tile(AdjustAll(rs, native), |Collapse(native[..n])|) <==> NoStartSplits(rs, native[..n])
  {
    if rs == [] {
      assert native[..0] == "" && Collapse("") == "";
    } else {
      var init, last := rs[..|rs| - 1], rs[|rs| - 1];
      AdjustedPrefixTiles(init, last.start, native);
      StartsSplit(rs, n, native);
      LastEnds(last, n, native);
      var adjusted := AdjustAll(rs, native);
      assert adjusted[..|rs| - 1] == AdjustAll(init, native);
      LastTile(adjusted, |Collapse(native[..n])|);
    }
  }

  /** Clauses that tile the string tile the normalised string: exactly when no clause
      starts between a CR and its LF. */
  lemma ClausesStillTileExactly(rs: seq<TextRange>, native: string)
    requires |native| <= UINT32_MAX && Tile(rs, |native|)
    ensures Tile(AdjustAll(rs, native), |Normalise(native)|) <==> NoStartSplits(rs, native)
  {
    AdjustedPrefixTiles(rs, |native|, native);
    NormaliseLength(native);
    assert native[..|native|] == native;
  }

  /** Two clauses on the two characters of a CRLF: the second one ends behind the string
      that is left. */
  lemma SplitBreakLeavesClauseBehind()
    ensures var native, rs := "\r\n", [TextRange(0, 1, RawClause), TextRange(1, 2, RawClause)];
      && Tile(rs, |native|) && !NoStartSplits(rs, native)
      && |Normalise(native)| == 1 && AdjustAll(rs, native)[1] == TextRange(1, 2, RawClause)
      && !Tile(AdjustAll(rs, native), |Normalise(native)|)
  {
    var native := "\r\n";
    var first, second := TextRange(0, 1, RawClause), TextRange(1, 2, RawClause);
    var rs := [first, second];
    assert Tile([first], 1) by { assert [first][..0] == []; }
    assert rs[..1] == [first];
    assert rs[1] in rs && SplitsBreak(native, 1);
    CollapseStep(native);
    NormaliseLength(native);
    CollapseStep("\r");
    CollapseStep("\n");
    AdjustedInBounds(second, native);
    assert native[..1] == "\r" && native[1..2] == "\n";
    ClausesStillTileExactly(rs, native);
  }

  lemma {:induction false} EndsAreStarts(rs: seq<TextRange>, n: nat, r: TextRange)
    requires Tile(rs, n) && r in rs
    ensures r.end == n || exists q :: q in rs && q.start == r.end
  {
    var init, last := rs[..|rs| - 1], rs[|rs| - 1];
    assert rs == init + [last] && last in rs;
    if r == last {
    } else {
      EndsAreStarts(init, last.start, r);
    }
  }

  /** Then every clause also selects the normalised text that it selected before. */
  lemma ClausesSelectNormalised(rs: seq<TextRange>, native: string, r: TextRange)
    requires |native| <= UINT32_MAX && Tile(rs, |native|) && NoStartSplits(rs, native) && r in rs
    ensures r.IsInBounds(|native|) && var a := Adjusted(r, native);
      a.IsInBounds(|Normalise(native)|) && Normalise(native)[a.start..a.end] == Normalise(native[r.start..r.end])
  {
    StartsLieBefore(rs, |native|);
    EndsAreStarts(rs, |native|, r);
    AdjustedSelectsNormalised(r, native);
  }

  ghost predicate MovesNoRange(native: string)
    requires |native| <= UINT32_MAX
  {
    forall r: TextRange :: r.IsInBounds(|native|) ==> Adjusted(r, native) == r
  }

  /** When the length has not changed, no range needs to move; that is the case
      exactly when there was no CRLF. */
  lemma UnchangedLengthMovesNothing(native: string)
    requires |native| <= UINT32_MAX
    ensures MovesNoRange(native) <==> |Normalise(native)| == |native|
    ensures |Normalise(native)| == |native| <==> !HasNativeBreak(native)
  {
    NormalisedText(native);
    var whole := TextRange(0, |native|, RawClause);
    AdjustedInBounds(whole, native);
    assert native[..0] == "" && native[0..|native|] == native && Collapse("") == "";
    NormaliseLength(native);
    if |Normalise(native)| == |native| {
      forall r: TextRange | r.IsInBounds(|native|) ensures Adjusted(r, native) == r {
        AdjustedInBounds(r, native);
        NoBreakInPart(native, 0, r.start);
        NoBreakInPart(native, r.start, r.end);
      }
    }
  }

  lemma NoBreakInPart(s: string, i: nat, j: nat)
    requires i <= j <= |s| && !HasNativeBreak(s)
    ensures Collapse(s[i..j]) == s[i..j]
  {
    forall k ensures !SplitsBreak(s[i..j], k) {
      assert SplitsBreak(s[i..j], k) ==> SplitsBreak(s, i + k);
    }
    CollapseShortens(s[i..j]);
  }

  lemma {:induction false} StartsLieBefore(rs: seq<TextRange>, n: nat)
    requires Tile(rs, n)
    ensures forall r :: r in rs ==> r.start <= r.end <= n
  {
    if rs == [] {
    } else {
      var init, last := rs[..|rs| - 1], rs[|rs| - 1];
      StartsLieBefore(init, last.start);
      assert rs == init + [last];
    }
  }
}
