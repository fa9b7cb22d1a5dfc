/** Strict HTTP byte ranges, section 14.1.2 of RFC 9110. */
module ByteRange {
  import opened Wrappers

  const MAX_RANGE_HEADER := 128

  datatype Range = Range(first: nat, last: nat)

  predicate IsBlank(c: char) { c == ' ' || c == '\t' }

  function TrimLeft(s: string): string {
    if s != [] && IsBlank(s[0]) then TrimLeft(s[1..]) else s
  }

  function TrimRight(s: string): string {
    if s != [] && IsBlank(s[|s| - 1]) then TrimRight(s[..|s| - 1]) else s
  }

  function Lower(c: char): char {
    if 'A' <= c <= 'Z' then (c as int + 32) as char else c
  }

  predicate HasUnit(s: string) {
    |s| >= 6 && forall i :: 0 <= i < 6 ==> Lower(s[i]) == "bytes="[i]
  }

  predicate IsDigit(c: char) { '0' <= c <= '9' }

  predicate IsDecimal(s: string) { s != [] && forall i :: 0 <= i < |s| ==> IsDigit(s[i]) }

  function Decimal(s: string): nat
    requires forall i :: 0 <= i < |s| ==> IsDigit(s[i])
  {
    if s == [] then 0 else
    var last := s[|s| - 1];
    assert IsDigit(last);
    Decimal(s[..|s| - 1]) * 10 + (last as int - '0' as int)
  }

  function IndexOf(s: string, c: char): (i: nat)
    ensures i <= |s| && (i < |s| ==> s[i] == c) && forall k :: 0 <= k < i ==> s[k] != c
  {
    if s == [] then 0 else if s[0] == c then 0 else
    var i := IndexOf(s[1..], c);
    assert forall k :: 0 < k < i + 1 ==> s[k] == s[1..][k - 1];
    i + 1
  }

  /** The two sides of the only dash. */
  function SplitDash(s: string): Option<(string, string)> {
    var i := IndexOf(s, '-');
    if i == |s| || '-' in s[i + 1..] || ',' in s then None else Some((s[..i], s[i + 1..]))
  }

  function Min(a: nat, b: nat): nat { if a <= b then a else b }

  /** `parse_single_byte_range`; `None` is "range unsatisfiable". */
  function Parse(value: string, size: nat): (r: Option<Range>)
    ensures r.Some? ==> r.value.first <= r.value.last < size
  {
    var normalized := TrimRight(TrimLeft(value));
    if |value| > MAX_RANGE_HEADER || !HasUnit(normalized) || size == 0 then None
    else match SplitDash(normalized[6..])
      case None => None
      case Some((first, last)) =>
        if (first == [] && last == []) || (first != [] && !IsDecimal(first)) || (last != [] && !IsDecimal(last)) then None
        else if first != [] then
          var start := Decimal(first);
          if start >= size then None
          else if last == [] then Some(Range(start, size - 1))
          else if Decimal(last) < start then None
          else Some(Range(start, Min(Decimal(last), size - 1)))
        else
          var suffix := Decimal(last);
          if suffix == 0 then None
          else Some(Range(if suffix >= size then 0 else size - suffix, size - 1))
  }

  // ----- Printing -----

  function Digits(n: nat): (s: string)
    ensures IsDecimal(s)
  {
    if n < 10 then [('0' as int + n) as char] else Digits(n / 10) + [('0' as int + n % 10) as char]
  }

  lemma {:induction false} DigitsReadBack(n: nat)
    ensures Decimal(Digits(n)) == n
  {
    if n >= 10 {
      DigitsReadBack(n / 10);
      assert Digits(n)[..|Digits(n)| - 1] == Digits(n / 10);
    } else {
      assert Digits(n)[..0] == [];
    }
  }

  function Print(first: string, last: string): string {
    "bytes=" + first + "-" + last
  }

  lemma SplitPrinted(first: string, last: string)
    requires (first == [] || IsDecimal(first)) && (last == [] || IsDecimal(last))
    ensures SplitDash(first + "-" + last) == Some((first, last))
  {
    var s := first + "-" + last;
    var i := IndexOf(s, '-');
    assert s[|first|] == '-';
    assert forall k :: 0 <= k < |first| ==> s[k] == first[k];
    assert i == |first|;
    assert s[i + 1..] == last && s[..i] == first;
    assert forall k :: |first| < k < |s| ==> s[k] == last[k - |first| - 1];
  }

  lemma PrintedUnit(sides: string)
    ensures HasUnit("bytes=" + sides) && ("bytes=" + sides)[6..] == sides
    ensures !IsBlank(("bytes=" + sides)[0])
  {
    var s := "bytes=" + sides;
    assert forall i :: 0 <= i < 6 ==> s[i] == "bytes="[i] == Lower("bytes="[i]);
    assert s[0] == 'b';
  }

  lemma NotTrimmed(s: string)
    requires s != [] && !IsBlank(s[0]) && !IsBlank(s[|s| - 1])
    ensures TrimRight(TrimLeft(s)) == s
  {
  }

  /** A printed range needs no trimming and keeps its unit. */
  lemma PrintedIsNormal(first: string, last: string)
    requires (first == [] || IsDecimal(first)) && (last == [] || IsDecimal(last))
    ensures TrimRight(TrimLeft(Print(first, last))) == Print(first, last)
    ensures HasUnit(Print(first, last)) && Print(first, last)[6..] == first + "-" + last
  {
    var s, sides := Print(first, last), first + "-" + last;
    assert s == "bytes=" + sides;
    assert s[|s| - 1] == if last == [] then '-' else last[|last| - 1];
    hide TrimLeft, TrimRight, HasUnit, Print;
    PrintedUnit(sides);
    NotTrimmed(s);
  }

  lemma ParsePrinted(first: string, last: string, size: nat)
    requires (first == [] || IsDecimal(first)) && (last == [] || IsDecimal(last)) && size > 0
    requires first != [] || last != []
    requires |Print(first, last)| <= MAX_RANGE_HEADER
    ensures Parse(Print(first, last), size) ==
      if first == [] then
        if Decimal(last) == 0 then None
        else Some(Range(if Decimal(last) >= size then 0 else size - Decimal(last), size - 1))
      else if Decimal(first) >= size || (last != [] && Decimal(last) < Decimal(first)) then None
      else Some(Range(Decimal(first), if last == [] then size - 1 else Min(Decimal(last), size - 1)))
  {
    PrintedIsNormal(first, last);
    SplitPrinted(first, last);
  }

  /** Printing then parsing a valid range returns it; an end past the file is cut to it. */
  lemma RangeRoundTrip(first: nat, last: nat, size: nat)
    requires first <= last && first < size && |Print(Digits(first), Digits(last))| <= MAX_RANGE_HEADER
    ensures Parse(Print(Digits(first), Digits(last)), size) == Some(Range(first, Min(last, size - 1)))
    ensures last < size ==> Parse(Print(Digits(first), Digits(last)), size) == Some(Range(first, last))
  {
    DigitsReadBack(first);
    DigitsReadBack(last);
    ParsePrinted(Digits(first), Digits(last), size);
  }

  /** A suffix range names exactly the last `n` bytes, or the whole file when it is shorter. */
  lemma SuffixRoundTrip(n: nat, size: nat)
    requires 0 < n && 0 < size && |Print([], Digits(n))| <= MAX_RANGE_HEADER
    ensures Parse(Print([], Digits(n)), size).Some?
    ensures var r := Parse(Print([], Digits(n)), size).value;
            r.last == size - 1 && r.last - r.first + 1 == Min(n, size)
  {
    DigitsReadBack(n);
    ParsePrinted([], Digits(n), size);
  }

  // ----- Blanks and case -----

  ghost predicate AllBlank(s: string) { forall i :: 0 <= i < |s| ==> IsBlank(s[i]) }

  /** The unit in whatever case. */
  predicate IsUnit(u: string) { |u| == 6 && forall i :: 0 <= i < 6 ==> Lower(u[i]) == "bytes="[i] }

  lemma UnitIsNotBlank(u: string)
    requires IsUnit(u)
    ensures !IsBlank(u[0]) && !IsBlank(u[5])
  {
    assert "bytes="[0] == 'b' && "bytes="[5] == '=';
  }

  lemma {:induction false} TrimLeftBlanks(left: string, s: string)
    requires AllBlank(left) && s != [] && !IsBlank(s[0])
    ensures TrimLeft(left + s) == s
  {
    if left == [] {
      assert left + s == s;
    } else {
      assert (left + s)[1..] == left[1..] + s;
      TrimLeftBlanks(left[1..], s);
    }
  }

  lemma {:induction false} TrimRightBlanks(s: string, right: string)
    requires AllBlank(right)
    ensures TrimRight(s + right) == TrimRight(s)
  {
    if right == [] {
      assert s + right == s;
    } else {
      assert (s + right)[..|s + right| - 1] == s + right[..|right| - 1];
      TrimRightBlanks(s, right[..|right| - 1]);
    }
  }

  lemma {:induction false} TrimRightStops(u: string, s: string)
    requires u != [] && !IsBlank(u[|u| - 1])
    ensures TrimRight(u + s) == u + TrimRight(s)
  {
    if s == [] {
      assert u + s == u;
    } else if IsBlank(s[|s| - 1]) {
      assert (u + s)[..|u + s| - 1] == u + s[..|s| - 1];
      TrimRightStops(u, s[..|s| - 1]);
    }
  }

  lemma NormalForm(left: string, unit: string, spec: string, right: string)
    requires AllBlank(left) && IsUnit(unit) && AllBlank(right)
    ensures var n := TrimRight(TrimLeft(left + unit + spec + right)); HasUnit(n) && n[6..] == TrimRight(spec)
  {
    UnitIsNotBlank(unit);
    assert left + unit + spec + right == left + (unit + spec + right);
    TrimLeftBlanks(left, unit + spec + right);
    TrimRightBlanks(unit + spec, right);
    TrimRightStops(unit, spec);
  }

  lemma SameNormalForm(a: string, b: string, size: nat)
    requires |a| <= MAX_RANGE_HEADER && |b| <= MAX_RANGE_HEADER
    requires HasUnit(TrimRight(TrimLeft(a))) && HasUnit(TrimRight(TrimLeft(b)))
    requires TrimRight(TrimLeft(a))[6..] == TrimRight(TrimLeft(b))[6..]
    ensures Parse(a, size) == Parse(b, size)
  {
    hide TrimLeft, TrimRight, HasUnit, SplitDash;
  }

  /** Blanks around a header and the case of its unit do not matter. */
  lemma BlanksAndCaseAreIgnored(left: string, unit: string, spec: string, right: string, size: nat)
    requires AllBlank(left) && IsUnit(unit) && AllBlank(right)
    requires |left + unit + spec + right| <= MAX_RANGE_HEADER
    ensures Parse(left + unit + spec + right, size) == Parse("bytes=" + spec, size)
  {
    NormalForm(left, unit, spec, right);
    NormalForm([], "bytes=", spec, []);
    assert [] + "bytes=" + spec + [] == "bytes=" + spec;
    hide TrimLeft, TrimRight, HasUnit, Parse;
    SameNormalForm(left + unit + spec + right, "bytes=" + spec, size);
  }

  lemma {:induction false} TrimLeftSplits(s: string) returns (left: string)
    ensures s == left + TrimLeft(s) && AllBlank(left)
  {
    left := [];
    if s != [] && IsBlank(s[0]) {
      left := TrimLeftSplits(s[1..]);
      left := [s[0]] + left;
      assert s == [s[0]] + s[1..];
    }
  }

  lemma {:induction false} TrimRightSplits(s: string) returns (right: string)
    ensures s == TrimRight(s) + right && AllBlank(right)
  {
    right := [];
    if s != [] && IsBlank(s[|s| - 1]) {
      right := TrimRightSplits(s[..|s| - 1]);
      right := right + [s[|s| - 1]];
      assert s == s[..|s| - 1] + [s[|s| - 1]];
    }
  }

  lemma Assemble(left: string, unit: string, spec: string, right: string)
    ensures left + ((unit + spec) + right) == left + unit + spec + right
  {
  }

  /** The two sides of an accepted header's dash. */
  lemma AcceptedSides(value: string, size: nat) returns (first: string, last: string)
    requires Parse(value, size).Some?
    ensures |value| <= MAX_RANGE_HEADER && HasUnit(TrimRight(TrimLeft(value)))
    ensures TrimRight(TrimLeft(value))[6..] == first + "-" + last
    ensures (first == [] || IsDecimal(first)) && (last == [] || IsDecimal(last)) && (first != [] || last != [])
  {
    var sides := SplitDash(TrimRight(TrimLeft(value))[6..]);
    first, last := sides.value.0, sides.value.1;
    hide TrimLeft, TrimRight;
  }

  lemma UnitOf(normalized: string) returns (unit: string)
    requires HasUnit(normalized)
    ensures IsUnit(unit) && normalized == unit + normalized[6..]
  {
    unit := normalized[..6];
  }

  lemma PrintedAs(first: string, last: string)
    ensures "bytes=" + (first + "-" + last) == Print(first, last)
  {
  }

  /** And nothing else is accepted: a header that parses is a unit and two runs of digits, one
      of them perhaps empty, around a dash, with blanks at most around the whole. */
  lemma AcceptedIsPrinted(value: string, size: nat) returns (left: string, unit: string, first: string, last: string, right: string)
    requires Parse(value, size).Some?
    ensures value == left + unit + (first + "-" + last) + right && AllBlank(left) && IsUnit(unit) && AllBlank(right)
    ensures (first == [] || IsDecimal(first)) && (last == [] || IsDecimal(last)) && (first != [] || last != [])
    ensures Parse(value, size) == Parse(Print(first, last), size)
  {
    first, last := AcceptedSides(value, size);
    left := TrimLeftSplits(value);
    right := TrimRightSplits(TrimLeft(value));
    unit := UnitOf(TrimRight(TrimLeft(value)));
    PrintedAs(first, last);
    hide Parse, TrimLeft, TrimRight, HasUnit, IsDecimal, IsUnit, AllBlank, Print, IsBlank;
    Assemble(left, unit, first + "-" + last, right);
    BlanksAndCaseAreIgnored(left, unit, first + "-" + last, right, size);
  }
}
