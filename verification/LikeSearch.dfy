/** Literal catalog search over SQL LIKE patterns with a backslash escape, section 8.5 of
    ISO/IEC 9075-2. */
module LikeSearch {
  import opened Wrappers

  const MAX_QUERY_LENGTH := 200

  /** What the database and the runtime decide: which characters compare equal under
      ILIKE, which are blank and which are printable. */
  datatype Charset = Charset(fold: char -> char, blank: char -> bool, printable: char -> bool)

  /** `str.replace` of one character by a string. */
  function Replace(s: string, c: char, replacement: string): string {
    if s == [] then [] else (if s[0] == c then replacement else [s[0]]) + Replace(s[1..], c, replacement)
  }

  function ThreeReplaces(s: string): string {
    Replace(Replace(Replace(s, '\\', "\\\\"), '%', "\\%"), '_', "\\_")
  }

  predicate IsSpecial(c: char) { c == '\\' || c == '%' || c == '_' }

  function EscapeChar(c: char): string {
    if IsSpecial(c) then ['\\', c] else [c]
  }

  /** The escape as one pass over the characters. */
  function Escape(s: string): string {
    if s == [] then [] else EscapeChar(s[0]) + Escape(s[1..])
  }

  lemma {:induction false} ReplaceConcat(a: string, b: string, c: char, replacement: string)
    ensures Replace(a + b, c, replacement) == Replace(a, c, replacement) + Replace(b, c, replacement)
  {
    if a == [] {
      assert a + b == b;
    } else {
      assert (a + b)[0] == a[0] && (a + b)[1..] == a[1..] + b;
      ReplaceConcat(a[1..], b, c, replacement);
    }
  }

  lemma ReplaceOne(x: char, c: char, replacement: string)
    ensures Replace([x], c, replacement) == if x == c then replacement else [x]
  {
    assert [x][1..] == [];
  }

  lemma ReplaceEscaped(x: char, c: char, replacement: string)
    requires c != '\\'
    ensures Replace(['\\', x], c, replacement) == ['\\'] + Replace([x], c, replacement)
  {
    ReplaceConcat(['\\'], [x], c, replacement);
    ReplaceOne('\\', c, replacement);
    assert ['\\'] + [x] == ['\\', x];
  }

  lemma EscapesOne(x: char)
    ensures ThreeReplaces([x]) == EscapeChar(x)
  {
    ReplaceOne(x, '\\', "\\\\");
    ReplaceOne(x, '%', "\\%");
    ReplaceOne(x, '_', "\\_");
    if x == '\\' {
      ReplaceEscaped('\\', '%', "\\%");
      ReplaceOne('\\', '%', "\\%");
      ReplaceEscaped('\\', '_', "\\_");
      ReplaceOne('\\', '_', "\\_");
    } else if x == '%' {
      ReplaceEscaped('%', '_', "\\_");
      ReplaceOne('%', '_', "\\_");
    }
  }

  /** The three successive replacements are one per-character escape. */
  lemma {:induction false} ThreeReplacesAreEscape(s: string)
    ensures ThreeReplaces(s) == Escape(s)
  {
    if s != [] {
      var a, b := [s[0]], s[1..];
      assert s == a + b;
      ReplaceConcat(a, b, '\\', "\\\\");
      var a1, b1 := Replace(a, '\\', "\\\\"), Replace(b, '\\', "\\\\");
      ReplaceConcat(a1, b1, '%', "\\%");
      ReplaceConcat(Replace(a1, '%', "\\%"), Replace(b1, '%', "\\%"), '_', "\\_");
      EscapesOne(s[0]);
      ThreeReplacesAreEscape(b);
    }
  }

  function Trim(s: string, blank: char -> bool): string {
    if s != [] && blank(s[0]) then Trim(s[1..], blank)
    else if s != [] && blank(s[|s| - 1]) then Trim(s[..|s| - 1], blank)
    else s
  }

  ghost predicate AllBlank(s: string, blank: char -> bool) { forall i :: 0 <= i < |s| ==> blank(s[i]) }

  /** Trimming leaves the stretch between the blanks at either end, and nothing shorter. */
  ghost predicate IsCore(s: string, core: string, blank: char -> bool) {
    && (exists left, right :: s == left + core + right && AllBlank(left, blank) && AllBlank(right, blank))
    && (core != [] ==> !blank(core[0]) && !blank(core[|core| - 1]))
  }

  lemma Regroup(a: string, b: string, c: string, d: string)
    ensures a + (b + c + d) == (a + b) + c + d
  {
  }

  lemma {:induction false} TrimSplits(s: string, blank: char -> bool) returns (left: string, right: string)
    ensures s == left + Trim(s, blank) + right && AllBlank(left, blank) && AllBlank(right, blank)
    ensures var core := Trim(s, blank); core != [] ==> !blank(core[0]) && !blank(core[|core| - 1])
    decreases |s|
  {
    left, right := [], [];
    if s != [] && blank(s[0]) {
      left, right := TrimSplits(s[1..], blank);
      Regroup([s[0]], left, Trim(s, blank), right);
      assert s == [s[0]] + s[1..];
      left := [s[0]] + left;
    } else if s != [] && blank(s[|s| - 1]) {
      left, right := TrimSplits(s[..|s| - 1], blank);
      assert s == s[..|s| - 1] + [s[|s| - 1]] == left + Trim(s, blank) + (right + [s[|s| - 1]]);
      right := right + [s[|s| - 1]];
    }
  }

  lemma TrimLeavesCore(s: string, blank: char -> bool)
    ensures IsCore(s, Trim(s, blank), blank)
  {
    var left, right := TrimSplits(s, blank);
  }

  /** Only blank queries trim to nothing. */
  lemma BlankTrimsToNothing(s: string, blank: char -> bool)
    ensures Trim(s, blank) == [] <==> AllBlank(s, blank)
  {
    TrimLeavesCore(s, blank);
    var core := Trim(s, blank);
    var left, right :| s == left + core + right && AllBlank(left, blank) && AllBlank(right, blank);
    if core != [] { assert s[|left|] == core[0]; }
  }

  datatype Pattern = NoFilter | Like(pattern: string) | Invalid

  /** `_literal_search_pattern`. */
  function LiteralSearchPattern(value: Option<string>, cs: Charset): Pattern {
    if value == None then NoFilter else
    var normalized := Trim(value.value, cs.blank);
    if normalized == [] then NoFilter
    else if |normalized| > MAX_QUERY_LENGTH || exists i :: 0 <= i < |normalized| && !cs.printable(normalized[i]) then Invalid
    else Like("%" + ThreeReplaces(normalized) + "%")
  }

  /** A missing or blank query filters nothing; any other is refused exactly if what is left
      of it is over the limit or not printable. */
  lemma QueryIsClassified(value: Option<string>, cs: Charset)
    ensures LiteralSearchPattern(value, cs) == NoFilter <==> value == None || AllBlank(value.value, cs.blank)
    ensures value.Some? && !AllBlank(value.value, cs.blank) ==>
              exists core :: core != [] && IsCore(value.value, core, cs.blank) &&
                (LiteralSearchPattern(value, cs) == Invalid <==>
                   |core| > MAX_QUERY_LENGTH || exists i :: 0 <= i < |core| && !cs.printable(core[i]))
  {
    if value.Some? {
      BlankTrimsToNothing(value.value, cs.blank);
      TrimLeavesCore(value.value, cs.blank);
      assert AllBlank(value.value, cs.blank) || IsCore(value.value, Trim(value.value, cs.blank), cs.blank);
    }
  }

  // ----- LIKE -----

  predicate Same(cs: Charset, a: char, b: char) { cs.fold(a) == cs.fold(b) }

  /** A percent sign stands for any string, an underscore for any character, and a
      backslash takes the next pattern character literally. */
  predicate Matches(cs: Charset, pattern: string, text: string)
    decreases |pattern| + |text|
  {
    if pattern == [] then text == []
    else if pattern[0] == '%' then Matches(cs, pattern[1..], text) || (text != [] && Matches(cs, pattern, text[1..]))
    else if pattern[0] == '_' then text != [] && Matches(cs, pattern[1..], text[1..])
    else if pattern[0] == '\\' then
      |pattern| > 1 && text != [] && Same(cs, pattern[1], text[0]) && Matches(cs, pattern[2..], text[1..])
    else text != [] && Same(cs, pattern[0], text[0]) && Matches(cs, pattern[1..], text[1..])
  }

  predicate StartsWith(cs: Charset, text: string, q: string) {
    |q| <= |text| && forall k :: 0 <= k < |q| ==> Same(cs, q[k], text[k])
  }

  ghost predicate Occurs(cs: Charset, text: string, q: string) {
    exists i :: 0 <= i <= |text| && StartsWith(cs, text[i..], q)
  }

  lemma {:induction false} PercentMatchesAll(cs: Charset, text: string)
    ensures Matches(cs, "%", text)
    decreases |text|
  {
    assert "%"[1..] == [];
    if text != [] { PercentMatchesAll(cs, text[1..]); }
  }

  /** An escaped query followed by a percent sign matches the texts it is a prefix of. */
  lemma {:induction false} EscapedPrefix(cs: Charset, q: string, text: string)
    ensures Matches(cs, Escape(q) + "%", text) <==> StartsWith(cs, text, q)
    decreases |q|
  {
    if q == [] {
      assert Escape(q) + "%" == "%";
      PercentMatchesAll(cs, text);
    } else {
      var rest := Escape(q[1..]) + "%";
      assert Escape(q) + "%" == EscapeChar(q[0]) + rest;
      EscapedHead(cs, q[0], rest, text);
      if text != [] {
        EscapedPrefix(cs, q[1..], text[1..]);
        PrefixSplits(cs, text, q);
      }
    }
  }

  lemma EscapedHead(cs: Charset, c: char, rest: string, text: string)
    ensures Matches(cs, EscapeChar(c) + rest, text) <==> text != [] && Same(cs, c, text[0]) && Matches(cs, rest, text[1..])
  {
    var pattern := EscapeChar(c) + rest;
    if IsSpecial(c) {
      assert pattern[0] == '\\' && pattern[1] == c && pattern[2..] == rest;
    } else {
      assert pattern[0] == c && pattern[1..] == rest;
    }
  }

  lemma PrefixSplits(cs: Charset, text: string, q: string)
    requires q != [] && text != []
    ensures StartsWith(cs, text, q) <==> Same(cs, q[0], text[0]) && StartsWith(cs, text[1..], q[1..])
  {
    if Same(cs, q[0], text[0]) && StartsWith(cs, text[1..], q[1..]) {
      forall k | 0 <= k < |q| ensures Same(cs, q[k], text[k]) {
        if k > 0 { assert q[k] == q[1..][k - 1] && text[k] == text[1..][k - 1]; }
      }
    }
  }

  /** A leading percent sign moves the prefix anywhere into the text. */
  lemma {:induction false} EscapedAnywhere(cs: Charset, q: string, text: string)
    ensures Matches(cs, "%" + (Escape(q) + "%"), text) <==> Occurs(cs, text, q)
    decreases |text|
  {
    var rest := Escape(q) + "%";
    assert ("%" + rest)[0] == '%' && ("%" + rest)[1..] == rest;
    EscapedPrefix(cs, q, text);
    assert text[0..] == text;
    if text != [] {
      EscapedAnywhere(cs, q, text[1..]);
      OccursLater(cs, text, q);
    } else {
      assert Occurs(cs, text, q) ==> StartsWith(cs, text, q);
    }
  }

  lemma OccursLater(cs: Charset, text: string, q: string)
    requires text != []
    ensures Occurs(cs, text, q) <==> StartsWith(cs, text, q) || Occurs(cs, text[1..], q)
  {
    assert text[0..] == text;
    if Occurs(cs, text, q) {
      var i :| 0 <= i <= |text| && StartsWith(cs, text[i..], q);
      if i > 0 { assert text[i..] == text[1..][i - 1..]; }
    }
    if Occurs(cs, text[1..], q) {
      var i :| 0 <= i <= |text[1..]| && StartsWith(cs, text[1..][i..], q);
      assert text[1..][i..] == text[i + 1..];
    }
  }

  /** A search finds exactly the texts that contain the query, without the blanks around it,
      as it stands. */
  lemma SearchIsSubstring(value: string, cs: Charset, text: string)
    requires LiteralSearchPattern(Some(value), cs).Like?
    ensures IsCore(value, Trim(value, cs.blank), cs.blank)
    ensures Matches(cs, LiteralSearchPattern(Some(value), cs).pattern, text) <==> Occurs(cs, text, Trim(value, cs.blank))
  {
    var q := Trim(value, cs.blank);
    TrimLeavesCore(value, cs.blank);
    ThreeReplacesAreEscape(q);
    assert "%" + ThreeReplaces(q) + "%" == "%" + (Escape(q) + "%");
    EscapedAnywhere(cs, q, text);
  }
}
