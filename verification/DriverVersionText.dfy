/** Reading the version number of a graphics driver from a string such as "8.17.12.5896",
    and printing it. */
module DriverVersionTexts {
  import opened BasicTypes
  import opened DriverVersions

  const NUL := '\0'

  // ----- Splitting at the dots -----

  function Fields(s: string): (r: seq<string>)
    ensures r != []
  {
    if s == "" then [""] else Extended(Fields(s[..|s| - 1]), s[|s| - 1])
  }

  /** A dot begins a field; any other character belongs to the last one. */
  function Extended(f: seq<string>, c: char): (r: seq<string>)
    requires f != []
    ensures r != []
  {
    if c == '.' then f + [""] else f[|f| - 1 := f[|f| - 1] + [c]]
  }

  function Joined(f: seq<string>): string
    requires f != []
  {
    if |f| == 1 then f[0] else Joined(f[..|f| - 1]) + "." + f[|f| - 1]
  }

  predicate HasNo(c: char, f: seq<string>) {
    forall i :: 0 <= i < |f| ==> c !in f[i]
  }

  lemma FieldsOfPrefix(s: string, i: nat)
    requires i < |s|
    ensures Fields(s[..i + 1]) == Extended(Fields(s[..i]), s[i])
  {
    assert s[..i + 1][..i] == s[..i];
  }

  /** The fields are what the dots separate. */
  lemma FieldsAreSeparatedByDots(s: string)
    ensures Joined(Fields(s)) == s && HasNo('.', Fields(s))
    ensures |Fields(s)| == multiset(s)['.'] + 1
  {
    FieldsJoin(s);
    FieldsHaveNo('.', s);
    FieldsCountDots(s);
  }

  lemma {:induction false} FieldsJoin(s: string)
    ensures Joined(Fields(s)) == s
  {
    if s == "" {
    } else {
      var init, c := s[..|s| - 1], s[|s| - 1];
      FieldsJoin(init);
      ExtendedJoins(Fields(init), c);
      assert s == init + [c];
    }
  }

  lemma ExtendedJoins(f: seq<string>, c: char)
    requires f != []
    ensures Joined(Extended(f, c)) == Joined(f) + [c]
  {
  }

  lemma {:induction false} FieldsHaveNo(x: char, s: string)
    requires x == '.' || x !in s
    ensures HasNo(x, Fields(s))
  {
    if s == "" {
    } else {
      FieldsHaveNo(x, s[..|s| - 1]);
    }
  }

  lemma {:induction false} FieldsCountDots(s: string)
    ensures |Fields(s)| == multiset(s)['.'] + 1
  {
    if s == "" {
    } else {
      FieldsCountDots(s[..|s| - 1]);
      assert s == s[..|s| - 1] + [s[|s| - 1]];
    }
  }

  lemma {:induction false} FieldsGrow(s: string, i: nat)
    requires i <= |s|
    ensures |Fields(s[..i])| <= |Fields(s)|
    decreases |s|
  {
    if i == |s| {
      assert s[..i] == s;
    } else {
      FieldsGrow(s[..|s| - 1], i);
      assert s[..|s| - 1][..i] == s[..i];
    }
  }

  /** The number of characters before the terminator. */
  function StrLen(s: string): (n: nat)
    ensures n <= |s| && NUL !in s[..n] && (n < |s| ==> s[n] == NUL)
  {
    if s == "" || s[0] == NUL then 0
    else
      var n := StrLen(s[1..]);
      assert s[..1 + n] == [s[0]] + s[1..][..n];
      1 + n
  }

  lemma {:induction false} StrLenIs(s: string, n: nat)
    requires n <= |s| && NUL !in s[..n] && (n < |s| ==> s[n] == NUL)
    ensures StrLen(s) == n
  {
  }

  function CString(s: string): (t: string)
    ensures NUL !in t
  {
    s[..StrLen(s)]
  }

  function Take4(s: string): (r: string)
    ensures |r| <= 4
  {
    if |s| <= 4 then s else s[..4]
  }

  /** A buffer begins with t, which its terminator ends within five characters. */
  ghost predicate Holds(buffer: array<char>, t: string)
    reads buffer
  {
    |t| <= 4 < buffer.Length && buffer[..|t|] == t && buffer[|t|] == NUL
  }

  ghost predicate HoldAll(dest: seq<array<char>>, n: nat, f: seq<string>)
    reads dest
  {
    n <= |dest| && n <= |f| && forall row :: 0 <= row < n ==> Holds(dest[row], Take4(f[row]))
  }

  ghost predicate AreBuffers(dest: seq<array<char>>) {
    && (forall i :: 0 <= i < |dest| ==> dest[i].Length >= 5)
    && (forall i, j :: 0 <= i < j < |dest| ==> dest[i] != dest[j])
  }

  /** Ends the current field. */
  method Terminate(dest: seq<array<char>>, destIdx: nat, destPos: nat, ghost f: seq<string>)
    requires AreBuffers(dest) && destIdx < |dest| && destIdx < |f| && HoldAll(dest, destIdx, f)
    requires destPos <= 4 && dest[destIdx][..destPos] == Take4(f[destIdx])
    modifies dest[destIdx]
    ensures HoldAll(dest, destIdx + 1, f)
  {
    dest[destIdx][destPos] := NUL;
  }

  /** Adds a character to the current field. */
  method Append(dest: seq<array<char>>, destIdx: nat, destPos: nat, c: char, ghost f: seq<string>)
    requires AreBuffers(dest) && destIdx < |dest| && HoldAll(dest, destIdx, f) && destPos < 4
    modifies dest[destIdx]
    ensures HoldAll(dest, destIdx, f) && dest[destIdx][..destPos + 1] == old(dest[destIdx][..destPos]) + [c]
  {
    dest[destIdx][destPos] := c;
  }

  /** Only the fields before the n-th matter. */
  lemma SameFields(dest: seq<array<char>>, n: nat, f: seq<string>, g: seq<string>)
    requires HoldAll(dest, n, f) && n <= |g| && f[..n] == g[..n]
    ensures HoldAll(dest, n, g)
  {
  }

  /** The fields read so far: the last one is not ended. */
  ghost predicate IsReading(dest: seq<array<char>>, destIdx: nat, destPos: nat, f: seq<string>)
    reads dest
  {
    && |dest| == 4 && AreBuffers(dest)
    && destIdx == |f| - 1 <= 4
    && destPos == |Take4(f[destIdx])|
    && HoldAll(dest, destIdx, f)
    && (destIdx < 4 ==> dest[destIdx][..destPos] == Take4(f[destIdx]))
  }

  /** Reads one more character. */
  method Put(dest: seq<array<char>>, destIdx: nat, destPos: nat, c: char, ghost f: seq<string>)
    returns (nextIdx: nat, nextPos: nat)
    requires IsReading(dest, destIdx, destPos, f) && destIdx < 4
    modifies dest[destIdx]
    ensures IsReading(dest, nextIdx, nextPos, Extended(f, c))
  {
    if c == '.' {
      Terminate(dest, destIdx, destPos, f);
      SameFields(dest, destIdx + 1, f, Extended(f, c));
      return destIdx + 1, 0;
    }
    Take4Extended(f[destIdx], c);
    SameFields(dest, destIdx, f, Extended(f, c));
    if destPos > 3 {
      return destIdx, destPos;
    }
    Append(dest, destIdx, destPos, c, Extended(f, c));
    return destIdx, destPos + 1;
  }

  method SplitDriverVersion(source: string, dest: seq<array<char>>) returns (ok: bool)
    requires |dest| == 4 && AreBuffers(dest)
    modifies dest
    ensures ok <==> |Fields(CString(source))| == 4
    ensures ok ==> HoldAll(dest, 4, Fields(CString(source)))
  {
    var len := StrLen(source);
    ghost var s := CString(source);
    var destIdx, destPos := 0, 0;
    for i := 0 to len
      invariant IsReading(dest, destIdx, destPos, Fields(s[..i]))
    {
      if destIdx >= 4 {
        FieldsGrow(s, i);
        return false;
      }
      FieldsOfPrefix(s, i);
      destIdx, destPos := Put(dest, destIdx, destPos, source[i], Fields(s[..i]));
    }
    assert s[..len] == s;
    if destIdx >= 4 {
      return false;
    }
    Terminate(dest, destIdx, destPos, Fields(s));
    ok := destIdx == 3;
  }

  lemma Take4Extended(t: string, c: char)
    ensures Take4(t + [c]) == if |t| > 3 then Take4(t) else Take4(t) + [c]
  {
  }

  // ----- Padding -----

  /** Zeros on the right, up to four characters. */
  function Padded(t: string): (r: string)
    requires |t| <= 4
    ensures |r| == 4
    decreases 4 - |t|
  {
    if |t| == 4 then t else Padded(t + "0")
  }

  lemma {:induction false} PaddedIsZeros(t: string)
    requires |t| <= 4
    ensures forall k :: 0 <= k < 4 ==> Padded(t)[k] == if k < |t| then t[k] else '0'
    decreases 4 - |t|
  {
    if |t| == 4 {
    } else {
      PaddedIsZeros(t + "0");
    }
  }

  method PadDriverDecimal(s: array<char>, ghost t: string)
    requires Holds(s, t) && NUL !in t
    modifies s
    ensures Holds(s, Padded(t))
  {
    PaddedIsZeros(t);
    for i := 0 to 4
      invariant i <= |t|
      invariant s[..] == old(s[..])
    {
      if s[i] == NUL {
        for c := i to 4
          invariant s[..c] == Padded(t)[..c]
        {
          s[c] := '0';
        }
        break;
      }
    }
    s[4] := NUL;
  }

  // ----- Reading numbers -----

  predicate IsDigit(c: char) { '0' <= c <= '9' }

  function DigitValue(c: char): nat
    requires IsDigit(c)
  {
    c as int - '0' as int
  }

  predicate IsNumeral(t: string) {
    forall i :: 0 <= i < |t| ==> IsDigit(t[i])
  }

  predicate IsSpace(c: char) {
    c == ' ' || '\t' <= c <= '\r'
  }

  /** The digits in front, after some that have been read. */
  function LeadingDigits(t: string, read: nat): nat
    decreases |t|
  {
    if t == "" || !IsDigit(t[0]) then read else LeadingDigits(t[1..], 10 * read + DigitValue(t[0]))
  }

  /** The C library's atoi, on strings that are too short for overflow. */
  function Atoi(t: string): int
    decreases |t|
  {
    if t != "" && IsSpace(t[0]) then Atoi(t[1..])
    else if t != "" && t[0] == '-' then
      var n: int := LeadingDigits(t[1..], 0);
      -n
    else if t != "" && t[0] == '+' then LeadingDigits(t[1..], 0)
    else LeadingDigits(t, 0)
  }

  /** The value of a numeral. */
  function Digits(t: string): nat
    requires IsNumeral(t)
  {
    if t == "" then 0 else 10 * Digits(t[..|t| - 1]) + DigitValue(t[|t| - 1])
  }

  lemma {:induction false} LeadingDigitsOfNumeral(t: string, i: nat)
    requires IsNumeral(t) && i <= |t|
    ensures LeadingDigits(t[i..], Digits(t[..i])) == Digits(t)
    decreases |t| - i
  {
    if i < |t| {
      assert t[..i + 1][..i] == t[..i];
      assert t[i..][1..] == t[i + 1..];
      LeadingDigitsOfNumeral(t, i + 1);
    } else {
      assert t[..i] == t;
    }
  }

  /** The blanks of the C locale. */
  predicate IsBlank(c: char) {
    c as int == 0x20 || 0x09 <= c as int <= 0x0D
  }

  lemma SpaceIsBlank(c: char)
    ensures IsSpace(c) <==> IsBlank(c)
  {
    assert c as int == 0x20 ==> c == 0x20 as char;
  }

  /** Nothing at the front of the text would be read as part of a number. */
  predicate EndsNumber(t: string, hasSign: bool) {
    t == "" || (!IsDigit(t[0]) && (hasSign || (!IsBlank(t[0]) && t[0] != '-' && t[0] != '+')))
  }

  lemma {:induction false} LeadingDigitsBefore(t: string, i: nat, rest: string)
    requires IsNumeral(t) && i <= |t| && (rest == "" || !IsDigit(rest[0]))
    ensures LeadingDigits(t[i..] + rest, Digits(t[..i])) == Digits(t)
    decreases |t| - i
  {
    if i == |t| {
      assert t[..i] == t && t[i..] + rest == rest;
    } else {
      assert t[..i + 1][..i] == t[..i];
      assert (t[i..] + rest)[1..] == t[i + 1..] + rest;
      LeadingDigitsBefore(t, i + 1, rest);
    }
  }

  /** atoi skips blanks, takes a sign and then digits as far as there are any. */
  lemma {:induction false} AtoiReads(blanks: string, sign: string, digits: string, rest: string)
    requires forall i :: 0 <= i < |blanks| ==> IsBlank(blanks[i])
    requires (sign == "" || sign == "-" || sign == "+") && IsNumeral(digits)
    requires EndsNumber(rest, sign != "" || digits != "")
    ensures Atoi(blanks + sign + digits + rest) == if sign == "-" then 0 - Digits(digits) else Digits(digits)
    decreases |blanks|
  {
    var t := blanks + sign + digits + rest;
    if blanks == "" {
      var number := digits + rest;
      assert t == sign + number && digits[0..] == digits && digits[..0] == "";
      LeadingDigitsBefore(digits, 0, rest);
      assert LeadingDigits(number, 0) == Digits(digits);
      if sign != "" {
        assert t[0] == sign[0] && t[1..] == number;
      } else if digits != "" {
        assert t == number && t[0] == digits[0];
      } else {
        assert t == rest;
        if rest != "" { SpaceIsBlank(rest[0]); }
      }
    } else {
      SpaceIsBlank(blanks[0]);
      assert IsBlank(blanks[0]) && t[0] == blanks[0];
      assert t[1..] == blanks[1..] + sign + digits + rest;
      AtoiReads(blanks[1..], sign, digits, rest);
    }
  }

  lemma AtoiOfNumeral(t: string)
    requires IsNumeral(t)
    ensures Atoi(t) == Digits(t)
  {
    assert t[..0] == "" && t[0..] == t;
    LeadingDigitsOfNumeral(t, 0);
  }

  lemma {:induction false} LeadingDigitsFit(t: string, read: nat, bound: nat)
    requires read <= bound
    ensures 0 <= LeadingDigits(t, read)
    ensures |t| == 0 ==> LeadingDigits(t, read) <= bound
    ensures |t| == 1 ==> LeadingDigits(t, read) <= 10 * bound + 9
    ensures |t| == 2 ==> LeadingDigits(t, read) <= 100 * bound + 99
    ensures |t| == 3 ==> LeadingDigits(t, read) <= 1000 * bound + 999
    ensures |t| == 4 ==> LeadingDigits(t, read) <= 10000 * bound + 9999
    decreases |t|
  {
    if t == "" || !IsDigit(t[0]) {
    } else {
      LeadingDigitsFit(t[1..], 10 * read + DigitValue(t[0]), 10 * bound + 9);
    }
  }

  /** Four characters cannot exceed a field; they can only be negative. */
  lemma {:induction false} AtoiFits(t: string)
    requires |t| <= 4
    ensures Atoi(t) <= 9999
    decreases |t|
  {
    LeadingDigitsFit(t, 0, 0);
    if t == "" {
    } else {
      LeadingDigitsFit(t[1..], 0, 0);
      if IsSpace(t[0]) { AtoiFits(t[1..]); }
    }
  }

  // ----- Parsing -----

  datatype Reading = Reading(a: int, b: int, c: int, d: int)
  {
    predicate IsNegative() { a < 0 || b < 0 || c < 0 || d < 0 }
    predicate Fits() { IsField(a) && IsField(b) && IsField(c) && IsField(d) }
  }

  function Read(f: seq<string>): Reading
    requires |f| == 4
  {
    Reading(Atoi(Take4(f[0])), Atoi(Padded(Take4(f[1]))), Atoi(Padded(Take4(f[2]))), Atoi(Padded(Take4(f[3]))))
  }

  function Parse(version: string): Option<nat> {
    var f := Fields(CString(version));
    if |f| != 4 then None else Combined(Read(f))
  }

  function Combined(r: Reading): Option<nat> {
    if r.Fits() then Some(Pack(r.a, r.b, r.c, r.d)) else None
  }

  method Combine(r: Reading) returns (ok: bool, numeric: nat)
    ensures Combined(r) == if ok then Some(numeric) else None
    ensures !ok ==> numeric == 0
  {
    if r.a < 0 || r.a > 0xffff { return false, 0; }
    if r.b < 0 || r.b > 0xffff { return false, 0; }
    if r.c < 0 || r.c > 0xffff { return false, 0; }
    if r.d < 0 || r.d > 0xffff { return false, 0; }
    return true, Pack(r.a, r.b, r.c, r.d);
  }

  /** Parsing fails exactly without three dots, or when a field is negative; no field is
      ever too large. */
  lemma ParsesExactly(version: string)
    ensures |Fields(CString(version))| == 4 <==> multiset(CString(version))['.'] == 3
    ensures Parse(version).Some? <==> |Fields(CString(version))| == 4 && !Read(Fields(CString(version))).IsNegative()
  {
    var f := Fields(CString(version));
    FieldsCountDots(CString(version));
    if |f| == 4 {
      AtoiFits(Take4(f[0]));
      AtoiFits(Padded(Take4(f[1])));
      AtoiFits(Padded(Take4(f[2])));
      AtoiFits(Padded(Take4(f[3])));
    }
  }

  /** What comparisons use: a version that cannot be parsed counts as 0. */
  function Numeric(version: string): nat {
    var p := Parse(version);
    if p.Some? then p.value else 0
  }

  method ToInteger(s: array<char>, ghost t: string) returns (n: int)
    requires Holds(s, t) && NUL !in t
    ensures n == Atoi(t)
  {
    StrLenIs(s[..], |t|);
    assert s[..][..|t|] == t;
    var len := StrLen(s[..]);
    n := Atoi(s[..len]);
  }

  lemma PaddedHasNoNul(t: string)
    requires |t| <= 4 && NUL !in t
    ensures NUL !in Padded(t)
  {
    PaddedIsZeros(t);
  }

  /** Pads the last three fields and reads all of them. */
  method ReadFields(dest: seq<array<char>>, ghost f: seq<string>) returns (r: Reading)
    requires |dest| == 4 && AreBuffers(dest)
    requires |f| == 4 && HasNo(NUL, f) && HoldAll(dest, 4, f)
    modifies dest
    ensures r == Read(f)
  {
    assert Holds(dest[0], Take4(f[0])) && Holds(dest[1], Take4(f[1]));
    assert Holds(dest[2], Take4(f[2])) && Holds(dest[3], Take4(f[3]));
    PadDriverDecimal(dest[1], Take4(f[1]));
    PadDriverDecimal(dest[2], Take4(f[2]));
    PadDriverDecimal(dest[3], Take4(f[3]));
    PaddedHasNoNul(Take4(f[1]));
    PaddedHasNoNul(Take4(f[2]));
    PaddedHasNoNul(Take4(f[3]));
    var a := ToInteger(dest[0], Take4(f[0]));
    var b := ToInteger(dest[1], Padded(Take4(f[1])));
    var c := ToInteger(dest[2], Padded(Take4(f[2])));
    var d := ToInteger(dest[3], Padded(Take4(f[3])));
    r := Reading(a, b, c, d);
  }

  method NewBuffers() returns (dest: seq<array<char>>)
    ensures |dest| == 4 && AreBuffers(dest) && fresh(dest)
  {
    var aStr, bStr, cStr, dStr := new char[8], new char[8], new char[8], new char[8];
    dest := [aStr, bStr, cStr, dStr];
  }

  method ParseDriverVersion(version: string) returns (ok: bool, numeric: nat)
    ensures ok <==> Parse(version).Some?
    ensures numeric == Numeric(version)
  {
    var dest := NewBuffers();
    var split := SplitDriverVersion(version, dest);
    if !split {
      return false, 0;
    }
    FieldsHaveNo(NUL, CString(version));
    var r := ReadFields(dest, Fields(CString(version)));
    ok, numeric := Combine(r);
  }

  // ----- The order of versions -----

  /** What a digit counts at the n-th place behind a decimal point. */
  function Place(n: nat): real { if n == 0 then 1.0 else Place(n - 1) / 10.0 }

  lemma Places()
    ensures Place(1) == 0.1 && Place(2) == 0.01 && Place(3) == 0.001 && Place(4) == 0.0001
  {
    assert Place(2) == 0.01;
  }

  /** A numeral read as the digits behind a decimal point. */
  function Fraction(t: string): real
    requires IsNumeral(t)
  {
    if t == "" then 0.0
    else Fraction(t[..|t| - 1]) + DigitValue(t[|t| - 1]) as real * Place(|t|)
  }

  /** Zeros on the right do not change a decimal fraction. */
  lemma {:induction false} PaddedKeepsFraction(t: string)
    requires |t| <= 4 && IsNumeral(t)
    ensures IsNumeral(Padded(t)) && Fraction(Padded(t)) == Fraction(t)
    decreases 4 - |t|
  {
    if |t| == 4 {
    } else {
      assert (t + "0")[..|t|] == t;
      PaddedKeepsFraction(t + "0");
    }
  }

  lemma FourDigits(t: string)
    requires |t| == 4 && IsNumeral(t)
    ensures Digits(t) as real == Fraction(t) * 10000.0
    ensures Atoi(t) == Digits(t) <= 9999
  {
    DigitsOfFour(t);
    FractionOfFour(t);
    AtoiOfNumeral(t);
    AtoiFits(t);
  }

  lemma DigitsOfFour(t: string)
    requires |t| == 4 && IsNumeral(t)
    ensures Digits(t) == 1000 * DigitValue(t[0]) + 100 * DigitValue(t[1]) + 10 * DigitValue(t[2]) + DigitValue(t[3])
  {
    assert t[..3][..2] == t[..2] && t[..2][..1] == t[..1] && t[..1][..0] == "";
    assert Digits(t[..1]) == DigitValue(t[0]);
    assert Digits(t[..2]) == 10 * Digits(t[..1]) + DigitValue(t[1]);
    assert Digits(t[..3]) == 10 * Digits(t[..2]) + DigitValue(t[2]);
  }

  lemma FractionOfFour(t: string)
    requires |t| == 4 && IsNumeral(t)
    ensures Fraction(t) == DigitValue(t[0]) as real * 0.1 + DigitValue(t[1]) as real * 0.01
                           + DigitValue(t[2]) as real * 0.001 + DigitValue(t[3]) as real * 0.0001
  {
    Places();
    assert t[..3][..2] == t[..2] && t[..2][..1] == t[..1] && t[..1][..0] == "";
    assert Fraction(t[..1]) == DigitValue(t[0]) as real * 0.1;
    assert Fraction(t[..2]) == Fraction(t[..1]) + DigitValue(t[1]) as real * 0.01;
    assert Fraction(t[..3]) == Fraction(t[..2]) + DigitValue(t[2]) as real * 0.001;
  }

  lemma PaddedDigits(t: string)
    requires |t| <= 4 && IsNumeral(t)
    ensures IsNumeral(Padded(t)) && Digits(Padded(t)) as real == Fraction(t) * 10000.0
    ensures Atoi(Padded(t)) == Digits(Padded(t)) <= 9999
  {
    PaddedKeepsFraction(t);
    FourDigits(Padded(t));
  }

  /** Four fields of digits. Only the first four characters of each count. */
  predicate IsVersion(f: seq<string>) {
    |f| == 4 && forall i :: 0 <= i < 4 ==> IsNumeral(Take4(f[i]))
  }

  /** The first fields compare as whole numbers, the others as decimal fractions. */
  predicate Precedes(f: seq<string>, g: seq<string>)
    requires IsVersion(f) && IsVersion(g)
  {
    var a, b, c, d := Digits(Take4(f[0])), Fraction(Take4(f[1])), Fraction(Take4(f[2])), Fraction(Take4(f[3]));
    var p, q, r, s := Digits(Take4(g[0])), Fraction(Take4(g[1])), Fraction(Take4(g[2])), Fraction(Take4(g[3]));
    a < p || (a == p && (b < q || (b == q && (c < r || (c == r && d < s)))))
  }

  lemma ReadsVersion(f: seq<string>)
    requires IsVersion(f)
    ensures var r := Read(f);
      && r.Fits() && r.a == Digits(Take4(f[0]))
      && r.b as real == Fraction(Take4(f[1])) * 10000.0
      && r.c as real == Fraction(Take4(f[2])) * 10000.0
      && r.d as real == Fraction(Take4(f[3])) * 10000.0
  {
    AtoiOfNumeral(Take4(f[0]));
    AtoiFits(Take4(f[0]));
    PaddedDigits(Take4(f[1]));
    PaddedDigits(Take4(f[2]));
    PaddedDigits(Take4(f[3]));
  }

  lemma ScaledOrder(m: int, n: int, x: real, y: real)
    requires m as real == x * 10000.0 && n as real == y * 10000.0
    ensures m < n <==> x < y
    ensures m == n <==> x == y
  {
  }

  lemma ReadingsInOrder(f: seq<string>, g: seq<string>)
    requires IsVersion(f) && IsVersion(g)
    ensures var r, s := Read(f), Read(g);
      r.Fits() && s.Fits() &&
      (Packed(r.a, r.b, r.c, r.d) < Packed(s.a, s.b, s.c, s.d) <==> Precedes(f, g))
  {
    ReadsVersion(f);
    ReadsVersion(g);
    var r, s := Read(f), Read(g);
    ScaledOrder(r.b, s.b, Fraction(Take4(f[1])), Fraction(Take4(g[1])));
    ScaledOrder(r.c, s.c, Fraction(Take4(f[2])), Fraction(Take4(g[2])));
    ScaledOrder(r.d, s.d, Fraction(Take4(f[3])), Fraction(Take4(g[3])));
    PackedOrder(r.a, r.b, r.c, r.d, s.a, s.b, s.c, s.d);
  }

  lemma ParsedVersion(v: string)
    requires IsVersion(Fields(CString(v)))
    ensures var r := Read(Fields(CString(v))); r.Fits() && Parse(v) == Some(Packed(r.a, r.b, r.c, r.d))
  {
    var r := Read(Fields(CString(v)));
    ReadsVersion(Fields(CString(v)));
    PackIsPositional(r.a, r.b, r.c, r.d);
  }

  /** Versions made of digits compare as if their last three fields were decimals:
      .98 is larger than .978. */
  lemma ParsedOrderIsDecimalOrder(v: string, w: string)
    requires IsVersion(Fields(CString(v))) && IsVersion(Fields(CString(w)))
    ensures Parse(v).Some? && Parse(w).Some?
    ensures Parse(v).value < Parse(w).value <==> Precedes(Fields(CString(v)), Fields(CString(w)))
  {
    ParsedVersion(v);
    ParsedVersion(w);
    ReadingsInOrder(Fields(CString(v)), Fields(CString(w)));
  }

  // ----- Printing -----

  function Print(n: nat): (t: string)
    ensures t != "" && IsNumeral(t)
  {
    var digit := ('0' as int + n % 10) as char;
    if n < 10 then [digit] else Print(n / 10) + [digit]
  }

  function Dotted(a: nat, b: nat, c: nat, d: nat): string {
    Print(a) + "." + Print(b) + "." + Print(c) + "." + Print(d)
  }

  lemma {:induction false} PrintedLength(n: nat)
    ensures |Print(n)| <= 4 <==> n <= 9999
    ensures |Print(n)| <= 3 <==> n <= 999
    ensures |Print(n)| <= 2 <==> n <= 99
    ensures |Print(n)| <= 1 <==> n <= 9
  {
    if n < 10 {
    } else {
      PrintedLength(n / 10);
      assert |Print(n)| == |Print(n / 10)| + 1;
    }
  }

  lemma {:induction false} PrintedDigits(n: nat)
    ensures Digits(Print(n)) == n
  {
    if n < 10 {
    } else {
      PrintedDigits(n / 10);
      assert Print(n)[..|Print(n)| - 1] == Print(n / 10);
    }
  }

  /** The last field goes on. */
  function Prolonged(f: seq<string>, t: string): seq<string>
    requires f != []
  {
    f[|f| - 1 := f[|f| - 1] + t]
  }

  lemma {:induction false} FieldsOfAppended(s: string, t: string)
    requires '.' !in t
    ensures Fields(s + t) == Prolonged(Fields(s), t)
  {
    if t == "" {
      assert s + t == s;
      ProlongedByNone(Fields(s));
    } else {
      var init, c := t[..|t| - 1], t[|t| - 1];
      FieldsOfAppended(s, init);
      FieldsOfOneMore(s + init, c);
      LastCharacter(s, t);
      ProlongedTwice(Fields(s), init, c);
    }
  }

  lemma ProlongedByNone(f: seq<string>)
    requires f != []
    ensures Prolonged(f, "") == f
  {
    assert f[|f| - 1] + "" == f[|f| - 1];
  }

  lemma LastCharacter(s: string, t: string)
    requires t != ""
    ensures t == t[..|t| - 1] + [t[|t| - 1]] && s + t == (s + t[..|t| - 1]) + [t[|t| - 1]]
  {
  }

  lemma FieldsOfOneMore(s: string, c: char)
    ensures Fields(s + [c]) == Extended(Fields(s), c)
  {
    assert (s + [c])[..|s|] == s;
  }

  lemma ProlongedTwice(f: seq<string>, t: string, c: char)
    requires f != [] && c != '.'
    ensures Extended(Prolonged(f, t), c) == Prolonged(f, t + [c])
  {
    assert (f[|f| - 1] + t) + [c] == f[|f| - 1] + (t + [c]);
  }

  lemma FieldsOfNext(s: string, t: string)
    requires '.' !in t
    ensures Fields(s + "." + t) == Fields(s) + [t]
  {
    FieldsOfOneMore(s, '.');
    FieldsOfAppended(s + ".", t);
    assert "" + t == t;
  }

  lemma PrintedCharacters(n: nat)
    ensures '.' !in Print(n) && NUL !in Print(n)
  {
  }

  lemma FieldsOfDotted(a: nat, b: nat, c: nat, d: nat)
    ensures Fields(CString(Dotted(a, b, c, d))) == [Print(a), Print(b), Print(c), Print(d)]
  {
    PrintedCharacters(a);
    PrintedCharacters(b);
    PrintedCharacters(c);
    PrintedCharacters(d);
    var s := Dotted(a, b, c, d);
    assert NUL !in s;
    assert s[..|s|] == s;
    StrLenIs(s, |s|);
    FieldsOfFour(Print(a), Print(b), Print(c), Print(d));
  }

  lemma FieldsOfTwo(a: string, b: string)
    requires '.' !in a && '.' !in b
    ensures Fields(a + "." + b) == [a, b]
  {
    assert "" + a == a;
    FieldsOfAppended("", a);
    FieldsOfNext(a, b);
  }

  lemma FieldsOfFour(a: string, b: string, c: string, d: string)
    requires '.' !in a && '.' !in b && '.' !in c && '.' !in d
    ensures Fields(a + "." + b + "." + c + "." + d) == [a, b, c, d]
  {
    var ab := a + "." + b;
    var abc := ab + "." + c;
    FieldsOfTwo(a, b);
    FieldsOfNext(ab, c);
    FieldsOfNext(abc, d);
  }

  /** A numeral without leading zeros that is padded like the number it stands for. */
  lemma {:induction false} PaddedLikeNumber(t: string, n: uint32)
    requires |t| <= 4 && IsNumeral(t) && Digits(t) == n
    requires |t| <= 3 <==> n <= 999
    requires |t| <= 2 <==> n <= 99
    requires |t| <= 1 <==> n <= 9
    requires n > 0 && t != ""
    ensures IsNumeral(Padded(t)) && Digits(Padded(t)) == PadNumber(n)
    decreases 4 - |t|
  {
    if |t| == 4 {
    } else {
      assert (t + "0")[..|t|] == t;
      PaddedLikeNumber(t + "0", 10 * n);
    }
  }

  /** What a printed component is read as. */
  lemma PrintedIsRead(n: nat)
    requires IsField(n)
    ensures IsNumeral(Take4(Print(n)))
    ensures Atoi(Take4(Print(n))) == n <==> n <= 9999
    ensures Atoi(Padded(Take4(Print(n)))) == PadNumber(n) <==> n <= 9999
    ensures Atoi(Padded(Take4(Print(n)))) == n <==> n == 0 || 1000 <= n <= 9999
    ensures IsField(Atoi(Take4(Print(n)))) && IsField(Atoi(Padded(Take4(Print(n)))))
  {
    PrintedDigits(n);
    PrintedLength(n);
    PaddedRange(n);
    var t := Take4(Print(n));
    PaddedDigits(t);
    AtoiOfNumeral(t);
    AtoiFits(t);
    if 0 < n <= 9999 {
      PaddedLikeNumber(t, n);
    } else if n == 0 {
      assert Print(0) == "0";
      ZeroStaysZero();
    }
  }

  lemma {:induction false} AllZeros(t: string)
    requires forall i :: 0 <= i < |t| ==> t[i] == '0'
    ensures Digits(t) == 0
  {
    if t == "" {
    } else {
      AllZeros(t[..|t| - 1]);
    }
  }

  lemma ZeroStaysZero()
    ensures IsNumeral(Padded("0")) && Digits(Padded("0")) == 0
  {
    PaddedIsZeros("0");
    AllZeros(Padded("0"));
  }

  lemma DottedIsRead(a: nat, b: nat, c: nat, d: nat)
    requires IsField(a) && IsField(b) && IsField(c) && IsField(d)
    ensures var r := Read([Print(a), Print(b), Print(c), Print(d)]);
      r.Fits() && Parse(Dotted(a, b, c, d)) == Some(Packed(r.a, r.b, r.c, r.d))
  {
    FieldsOfDotted(a, b, c, d);
    PrintedIsRead(a);
    PrintedIsRead(b);
    PrintedIsRead(c);
    PrintedIsRead(d);
    var r := Read([Print(a), Print(b), Print(c), Print(d)]);
    PackIsPositional(r.a, r.b, r.c, r.d);
  }

  predicate AreShort(a: int, b: int, c: int, d: int) {
    a <= 9999 && b <= 9999 && c <= 9999 && d <= 9999
  }

  /** A version in a blocklist entry and its text mean the same number if no component
      has more than four digits, and for components of 16 bits only then. */
  lemma ParseAgreesWithBuiltExactly(a: uint32, b: uint32, c: uint32, d: uint32)
    ensures AreShort(a, b, c, d) ==> Parse(Dotted(a, b, c, d)) == Some(Built(a, b, c, d))
    ensures IsField(a) && IsField(b) && IsField(c) && IsField(d) ==>
      (Parse(Dotted(a, b, c, d)) == Some(Built(a, b, c, d)) <==> AreShort(a, b, c, d))
  {
    if IsField(a) && IsField(b) && IsField(c) && IsField(d) {
      DottedIsRead(a, b, c, d);
      BuiltIsPositional(a, b, c, d);
      PrintedIsRead(a);
      PrintedIsRead(b);
      PrintedIsRead(c);
      PrintedIsRead(d);
      var r := Read([Print(a), Print(b), Print(c), Print(d)]);
      PackedOrder(r.a, r.b, r.c, r.d, a, PadNumber(b), PadNumber(c), PadNumber(d));
    }
  }

  /** A wider component can agree by accident: its upper bits are shifted away, and its
      last digit is cut off. */
  lemma WideComponentAgreesByAccident()
    ensures Parse(Dotted(72817, 0, 0, 0)) == Some(Built(72817, 0, 0, 0))
  {
    FieldsOfDotted(72817, 0, 0, 0);
    FieldsOfDotted(7281, 0, 0, 0);
    LastDigitIsCutOff(7281, 7);
    ParseAgreesWithBuiltExactly(7281, 0, 0, 0);
    UpperBitsAreShiftedAway(7281, 1);
  }

  lemma LastDigitIsCutOff(n: nat, digit: nat)
    requires 1000 <= n <= 9999 && digit <= 9
    ensures Take4(Print(10 * n + digit)) == Take4(Print(n))
  {
    PrintedDigits(n);
    PrintedLength(n);
    assert (10 * n + digit) / 10 == n;
    assert Print(10 * n + digit)[..4] == Print(n);
  }

  lemma UpperBitsAreShiftedAway(n: nat, k: nat)
    requires n + k * FIELD_RANGE < UINT32_RANGE
    ensures ShiftLeft(n + k * FIELD_RANGE, 48) == ShiftLeft(n, 48)
  {
    Powers();
    assert (n + k * FIELD_RANGE) * Pow2(48) == n * Pow2(48) + k * UINT64_RANGE;
  }

  /** How a blocked driver's suggested version is printed. */
  function Suggested(v: uint64): string {
    Dotted(Field(v, 3), Field(v, 2), Field(v, 1), Field(v, 0))
  }

  /** The field has four digits, or is 0. */
  predicate IsPadded(n: int) { n == 0 || 1000 <= n <= 9999 }

  /** Printing a version and parsing it gives the version back: exactly when its first
      field has at most four digits and the others are padded. */
  lemma PrintingRoundTripsExactly(v: uint64)
    ensures Parse(Suggested(v)) == Some(v)
            <==> Field(v, 3) <= 9999 && IsPadded(Field(v, 2)) && IsPadded(Field(v, 1)) && IsPadded(Field(v, 0))
  {
    var a, b, c, d := Field(v, 3), Field(v, 2), Field(v, 1), Field(v, 0);
    FieldsOfNumber(v);
    DottedIsRead(a, b, c, d);
    PrintedIsRead(a);
    PrintedIsRead(b);
    PrintedIsRead(c);
    PrintedIsRead(d);
    var r := Read([Print(a), Print(b), Print(c), Print(d)]);
    PackedOrder(r.a, r.b, r.c, r.d, a, b, c, d);
  }

  /** So the version of every blocklist entry whose components have at most four digits
      survives being printed as a suggestion. */
  lemma SuggestionRoundTrips(a: nat, b: nat, c: nat, d: nat)
    requires a <= 9999 && b <= 9999 && c <= 9999 && d <= 9999
    ensures Built(a, b, c, d) < UINT64_RANGE && Parse(Suggested(Built(a, b, c, d))) == Some(Built(a, b, c, d))
  {
    BuiltIsPositional(a, b, c, d);
    var v := Built(a, b, c, d);
    FieldsOfNumber(v);
    PackedOrder(Field(v, 3), Field(v, 2), Field(v, 1), Field(v, 0), a, PadNumber(b), PadNumber(c), PadNumber(d));
    PaddedRange(b);
    PaddedRange(c);
    PaddedRange(d);
    PrintingRoundTripsExactly(v);
  }
}
