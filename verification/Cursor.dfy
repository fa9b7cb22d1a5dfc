/** Signed paging cursors of the library: canonical JSON in unpadded base64url. */
module Cursors {
  import opened Wrappers
  import ByteRange
  import Base64Url

  const MAX_CURSOR_BYTES := 4_096

  /** The publication a cursor belongs to and the page it resumes at. */
  datatype Cursor = Cursor(
    author: string, scope: string, job: string, source: string, tree: string, manifest: string,
    fileCount: nat, nextIndex: nat
  )

  /** The HMAC under the service's own key, in hexadecimal. */
  type Signer = string -> string

  ghost predicate IsSigner(sign: Signer) { forall s :: IsDigest(sign(s)) }

  predicate IsHex(c: char) { '0' <= c <= '9' || 'a' <= c <= 'f' }

  predicate IsDigest(s: string) { |s| == 64 && forall i :: 0 <= i < |s| ==> IsHex(s[i]) }

  predicate IsUuid(s: string) {
    |s| == 36 && forall i :: 0 <= i < |s| ==> if i == 8 || i == 13 || i == 18 || i == 23 then s[i] == '-' else IsHex(s[i])
  }

  predicate Valid(c: Cursor) {
    && IsUuid(c.author) && IsUuid(c.job)
    && IsDigest(c.scope) && IsDigest(c.source) && IsDigest(c.tree) && IsDigest(c.manifest)
    && c.nextIndex <= c.fileCount
  }

  // ----- Canonical JSON of a fixed shape -----

  /** The canonical spellings of a value that compares equal to 1: the integer, the float
      and the truth value. */
  datatype Spelling = One | OneFloat | TrueWord

  function Spell(v: Spelling): string {
    match v case One => "1" case OneFloat => "1.0" case TrueWord => "true"
  }

  datatype Slot = Text(piece: string) | Chars(n: nat) | Number | Version

  datatype Value = Str(s: string) | Nat(n: nat) | Ver(v: Spelling)

  /** The canonical payload: sorted keys, no spaces, fixed-length values but for two numbers
      and the version. */
  const AUTHOR: seq<Slot> := [Text("{\"author_id\":\""), Chars(36)]
  const JOB: seq<Slot> := [Text("\",\"job_id\":\""), Chars(36)]
  const COUNT: seq<Slot> := [Text("\",\"managed_file_count\":"), Number, Text(",\"manifest_sha256\":\""), Chars(64)]
  const NEXT: seq<Slot> := [Text("\",\"next_index\":"), Number, Text(",\"publication_scope\":\""), Chars(64)]
  const SOURCE: seq<Slot> := [Text("\",\"schema_version\":"), Version, Text(",\"source_fingerprint\":\""), Chars(64)]
  const TREE: seq<Slot> := [Text("\",\"tree_sha256\":\""), Chars(64)]
  const LATER: seq<Slot> := NEXT + (SOURCE + (TREE + [Text("\"}")]))
  const PAYLOAD: seq<Slot> := AUTHOR + (JOB + (COUNT + LATER))
  const SIGNATURE: seq<Slot> := [Text(",\"signature\":\""), Chars(64)]
  const ENVELOPE: seq<Slot> := [Text("{\"payload\":")] + (PAYLOAD + (SIGNATURE + [Text("\"}")]))

  function Values(c: Cursor, v: Spelling): seq<Value> {
    [Str(c.author), Str(c.job), Nat(c.fileCount), Str(c.manifest), Nat(c.nextIndex), Str(c.scope), Ver(v), Str(c.source), Str(c.tree)]
  }

  /** What follows a value of open length: fixed text that starts with a comma. */
  predicate CommaAt(slots: seq<Slot>, i: nat) {
    i < |slots| && slots[i].Text? && slots[i].piece != [] && slots[i].piece[0] == ','
  }

  /** The values fill the slots, and an open value is always followed by a comma. */
  predicate Fits(slots: seq<Slot>, values: seq<Value>)
    decreases |slots|
  {
    if slots == [] then values == []
    else match slots[0]
      case Text(_) => Fits(slots[1..], values)
      case Chars(n) => values != [] && values[0].Str? && |values[0].s| == n && Fits(slots[1..], values[1..])
      case Number => values != [] && values[0].Nat? && Fits(slots[1..], values[1..]) && CommaAt(slots, 1)
      case Version => values != [] && values[0].Ver? && Fits(slots[1..], values[1..]) && CommaAt(slots, 1)
  }

  function Print(slots: seq<Slot>, values: seq<Value>): string
    requires Fits(slots, values)
    decreases |slots|
  {
    if slots == [] then []
    else match slots[0]
      case Text(piece) => piece + Print(slots[1..], values)
      case Chars(_) => values[0].s + Print(slots[1..], values[1..])
      case Number => ByteRange.Digits(values[0].n) + Print(slots[1..], values[1..])
      case Version => Spell(values[0].v) + Print(slots[1..], values[1..])
  }

  /** Reading a fixed piece of the canonical form. */
  function Literal(s: string, piece: string): Option<string> {
    if piece <= s then Some(s[|piece|..]) else None
  }

  function Take(s: string, n: nat): Option<(string, string)> {
    if |s| < n then None else Some((s[..n], s[n..]))
  }

  function DigitRun(s: string): (n: nat)
    ensures n <= |s| && (forall i :: 0 <= i < n ==> ByteRange.IsDigit(s[i])) && (n < |s| ==> !ByteRange.IsDigit(s[n]))
  {
    if s == [] || !ByteRange.IsDigit(s[0]) then 0 else
    var n := DigitRun(s[1..]);
    assert forall i :: 0 < i < n + 1 ==> s[i] == s[1..][i - 1];
    n + 1
  }

  /** A number as canonical JSON prints it: digits without a needless leading zero. */
  function ReadNat(s: string): Option<(nat, string)> {
    var n := DigitRun(s);
    if n == 0 || ByteRange.Digits(ByteRange.Decimal(s[..n])) != s[..n] then None
    else Some((ByteRange.Decimal(s[..n]), s[n..]))
  }

  function ReadVersion(s: string): Option<(Spelling, string)> {
    if "1.0" <= s then Some((OneFloat, s[3..]))
    else if "1" <= s then Some((One, s[1..]))
    else if "true" <= s then Some((TrueWord, s[4..]))
    else None
  }

  lemma ReadsText(piece: string, rest: string)
    ensures Literal(piece + rest, piece) == Some(rest)
  {
    assert (piece + rest)[|piece|..] == rest;
  }

  lemma ReadsChars(value: string, rest: string)
    ensures Take(value + rest, |value|) == Some((value, rest))
  {
    assert (value + rest)[..|value|] == value && (value + rest)[|value|..] == rest;
  }

  lemma ReadsNat(n: nat, rest: string)
    requires rest != [] && !ByteRange.IsDigit(rest[0])
    ensures ReadNat(ByteRange.Digits(n) + rest) == Some((n, rest))
  {
    var digits := ByteRange.Digits(n);
    var s := digits + rest;
    assert s[|digits|] == rest[0];
    assert forall i :: 0 <= i < |digits| ==> s[i] == digits[i];
    assert DigitRun(s) == |digits|;
    assert s[..|digits|] == digits && s[|digits|..] == rest;
    ByteRange.DigitsReadBack(n);
  }

  lemma ReadsVersion(v: Spelling, rest: string)
    requires rest != [] && rest[0] == ','
    ensures ReadVersion(Spell(v) + rest) == Some((v, rest))
  {
    var s := Spell(v) + rest;
    match v
    case One => assert s[0] == '1' && s[1] == ',' && s[1..] == rest;
    case OneFloat => assert s[..3] == "1.0" && s[3..] == rest;
    case TrueWord => assert s[0] == 't' && s[..4] == "true" && s[4..] == rest;
  }

  lemma WroteVersion(s: string)
    requires ReadVersion(s).Some?
    ensures s == Spell(ReadVersion(s).value.0) + ReadVersion(s).value.1
  {
  }

  lemma WroteText(s: string, piece: string)
    requires Literal(s, piece).Some?
    ensures s == piece + Literal(s, piece).value
  {
  }

  lemma WroteChars(s: string, n: nat)
    requires Take(s, n).Some?
    ensures s == Take(s, n).value.0 + Take(s, n).value.1
  {
  }

  lemma WroteNat(s: string)
    requires ReadNat(s).Some?
    ensures s == ByteRange.Digits(ReadNat(s).value.0) + ReadNat(s).value.1
  {
  }

  /** Reading the slots one by one; canonical JSON leaves no other way to write them. */
  function Scan(slots: seq<Slot>, s: string): Option<seq<Value>>
    decreases |slots|
  {
    if slots == [] then (if s == [] then Some([]) else None)
    else match slots[0]
      case Text(piece) =>
        (match Literal(s, piece)
         case None => None
         case Some(rest) => Scan(slots[1..], rest))
      case Chars(n) =>
        (match Take(s, n)
         case None => None
         case Some((value, rest)) => Prepend(Str(value), Scan(slots[1..], rest)))
      case Number =>
        (match ReadNat(s)
         case None => None
         case Some((n, rest)) => Prepend(Nat(n), Scan(slots[1..], rest)))
      case Version =>
        (match ReadVersion(s)
         case None => None
         case Some((v, rest)) => Prepend(Ver(v), Scan(slots[1..], rest)))
  }

  function Prepend(v: Value, vs: Option<seq<Value>>): Option<seq<Value>> {
    if vs == None then None else Some([v] + vs.value)
  }

  lemma {:induction false} ScanPrinted(slots: seq<Slot>, values: seq<Value>)
    requires Fits(slots, values)
    ensures Scan(slots, Print(slots, values)) == Some(values)
    decreases |slots|
  {
    if slots != [] {
      match slots[0]
      case Text(piece) =>
        ScanPrinted(slots[1..], values);
        ReadsText(piece, Print(slots[1..], values));
      case Chars(n) =>
        ScanPrinted(slots[1..], values[1..]);
        ReadsChars(values[0].s, Print(slots[1..], values[1..]));
        assert values == [values[0]] + values[1..];
      case Number =>
        ScanPrinted(slots[1..], values[1..]);
        var rest := Print(slots[1..], values[1..]);
        assert rest[0] == slots[1].piece[0];
        ReadsNat(values[0].n, rest);
        assert values == [values[0]] + values[1..];
      case Version =>
        ScanPrinted(slots[1..], values[1..]);
        var rest := Print(slots[1..], values[1..]);
        assert rest[0] == slots[1].piece[0];
        ReadsVersion(values[0].v, rest);
        assert values == [values[0]] + values[1..];
    }
  }

  predicate IsOpen(slot: Slot) { slot.Number? || slot.Version? }

  /** The shape alone: every open value is followed by a comma. */
  predicate Separated(slots: seq<Slot>) {
    forall i :: 0 <= i < |slots| && IsOpen(slots[i]) ==> CommaAt(slots, i + 1)
  }

  lemma {:induction false} PrintScanned(slots: seq<Slot>, s: string)
    requires Separated(slots) && Scan(slots, s).Some?
    ensures Fits(slots, Scan(slots, s).value) && Print(slots, Scan(slots, s).value) == s
    decreases |slots|
  {
    if slots != [] {
      assert Separated(slots[1..]) by {
        forall i | 0 <= i < |slots[1..]| && IsOpen(slots[1..][i]) ensures CommaAt(slots[1..], i + 1) {
          assert slots[1..][i] == slots[i + 1] && CommaAt(slots, i + 2);
        }
      }
      var values := Scan(slots, s).value;
      match slots[0]
      case Text(piece) =>
        WroteText(s, piece);
        PrintScanned(slots[1..], Literal(s, piece).value);
      case Chars(n) =>
        WroteChars(s, n);
        PrintScanned(slots[1..], Take(s, n).value.1);
        assert values[1..] == Scan(slots[1..], Take(s, n).value.1).value;
      case Number =>
        WroteNat(s);
        PrintScanned(slots[1..], ReadNat(s).value.1);
        assert values[1..] == Scan(slots[1..], ReadNat(s).value.1).value;
      case Version =>
        WroteVersion(s);
        PrintScanned(slots[1..], ReadVersion(s).value.1);
        assert values[1..] == Scan(slots[1..], ReadVersion(s).value.1).value;
    }
  }

  // ----- The codec -----

  predicate IsAscii(s: string) { forall i :: 0 <= i < |s| ==> s[i] as int < 128 }

  function Bytes(s: string): (raw: seq<Base64Url.Byte>)
    requires IsAscii(s)
    ensures |raw| == |s| && forall i :: 0 <= i < |s| ==> raw[i] == s[i] as int
  {
    if s == [] then [] else [s[0] as int] + Bytes(s[1..])
  }

  function AsciiOf(raw: seq<Base64Url.Byte>): (s: Option<string>)
    ensures s.Some? ==> IsAscii(s.value) && |s.value| == |raw| && forall i :: 0 <= i < |raw| ==> s.value[i] as int == raw[i]
  {
    if raw == [] then Some([])
    else if raw[0] >= 128 then None
    else match AsciiOf(raw[1..])
      case None => None
      case Some(rest) => Some([raw[0] as char] + rest)
  }

  lemma {:induction false} AsciiReadsBack(s: string)
    requires IsAscii(s)
    ensures AsciiOf(Bytes(s)) == Some(s)
  {
    if s != [] {
      AsciiReadsBack(s[1..]);
      assert Bytes(s)[1..] == Bytes(s[1..]);
      assert s == [s[0]] + s[1..];
    }
  }

  lemma {:induction false} FitsConcat(a: seq<Slot>, va: seq<Value>, b: seq<Slot>, vb: seq<Value>)
    requires Fits(a, va) && Fits(b, vb)
    ensures Fits(a + b, va + vb)
    decreases |a|
  {
    if a == [] {
      assert a + b == b && va + vb == vb;
    } else {
      assert (a + b)[0] == a[0] && (a + b)[1..] == a[1..] + b;
      if a[0].Text? {
        FitsConcat(a[1..], va, b, vb);
      } else {
        assert (va + vb)[1..] == va[1..] + vb;
        FitsConcat(a[1..], va[1..], b, vb);
        if IsOpen(a[0]) { assert (a + b)[1] == a[1]; }
      }
    }
  }

  lemma FieldFits(piece: string, value: string)
    ensures Fits([Text(piece), Chars(|value|)], [Str(value)])
  {
    assert [Text(piece), Chars(|value|)][1..] == [Chars(|value|)] && [Chars(|value|)][1..] == [];
  }

  lemma OpenFits(piece: string, slot: Slot, v: Value, after: string, value: string)
    requires (slot.Number? && v.Nat?) || (slot.Version? && v.Ver?)
    requires after != [] && after[0] == ','
    ensures Fits([Text(piece), slot, Text(after), Chars(|value|)], [v, Str(value)])
  {
    var slots := [Text(piece), slot, Text(after), Chars(|value|)];
    assert slots[1..] == [slot, Text(after), Chars(|value|)] && slots[1..][1..] == [Text(after), Chars(|value|)];
    assert [v, Str(value)][1..] == [Str(value)];
    FieldFits(after, value);
  }

  lemma TextFits(piece: string)
    ensures Fits([Text(piece)], [])
  {
    assert [Text(piece)][1..] == [];
  }

  lemma LaterFits(c: Cursor, v: Spelling)
    requires Valid(c)
    ensures Fits(LATER, [Nat(c.nextIndex), Str(c.scope), Ver(v), Str(c.source), Str(c.tree)])
  {
    var close, source := [Text("\"}")], [Ver(v), Str(c.source)];
    FieldFits(TREE[0].piece, c.tree);
    TextFits("\"}");
    FitsConcat(TREE, [Str(c.tree)], close, []);
    assert [Str(c.tree)] + [] == [Str(c.tree)];
    OpenFits(SOURCE[0].piece, Version, Ver(v), SOURCE[2].piece, c.source);
    FitsConcat(SOURCE, source, TREE + close, [Str(c.tree)]);
    OpenFits(NEXT[0].piece, Number, Nat(c.nextIndex), NEXT[2].piece, c.scope);
    FitsConcat(NEXT, [Nat(c.nextIndex), Str(c.scope)], SOURCE + (TREE + close), source + [Str(c.tree)]);
    assert [Nat(c.nextIndex), Str(c.scope)] + (source + [Str(c.tree)])
        == [Nat(c.nextIndex), Str(c.scope), Ver(v), Str(c.source), Str(c.tree)];
  }

  lemma PayloadFits(c: Cursor, v: Spelling)
    requires Valid(c)
    ensures Fits(PAYLOAD, Values(c, v))
  {
    var later := [Nat(c.nextIndex), Str(c.scope), Ver(v), Str(c.source), Str(c.tree)];
    LaterFits(c, v);
    hide LATER;
    var k := [Nat(c.fileCount), Str(c.manifest)];
    OpenFits(COUNT[0].piece, Number, Nat(c.fileCount), COUNT[2].piece, c.manifest);
    FitsConcat(COUNT, k, LATER, later);
    FieldFits(JOB[0].piece, c.job);
    FitsConcat(JOB, [Str(c.job)], COUNT + LATER, k + later);
    FieldFits(AUTHOR[0].piece, c.author);
    FitsConcat(AUTHOR, [Str(c.author)], JOB + (COUNT + LATER), [Str(c.job)] + (k + later));
    assert Values(c, v) == [Str(c.author)] + ([Str(c.job)] + (k + later));
  }

  /** A valid cursor and a digest fill the payload and the envelope. */
  lemma ValuesFit(c: Cursor, v: Spelling, signature: string)
    requires Valid(c) && IsDigest(signature)
    ensures Fits(PAYLOAD, Values(c, v)) && Fits(ENVELOPE, Values(c, v) + [Str(signature)])
  {
    PayloadFits(c, v);
    EnvelopeFits(Values(c, v), signature);
  }

  lemma EnvelopeFits(values: seq<Value>, signature: string)
    requires Fits(PAYLOAD, values) && |signature| == 64
    ensures Fits(ENVELOPE, values + [Str(signature)])
  {
    var sig := [Str(signature)];
    FieldFits(SIGNATURE[0].piece, signature);
    TextFits("\"}");
    FitsConcat(SIGNATURE, sig, [Text("\"}")], []);
    assert sig + [] == sig;
    FitsConcat(PAYLOAD, values, SIGNATURE + [Text("\"}")], sig);
    TextFits("{\"payload\":");
    FitsConcat([Text("{\"payload\":")], [], PAYLOAD + (SIGNATURE + [Text("\"}")]), values + sig);
    assert [] + (values + sig) == values + sig;
  }

  lemma SeparatedConcat(a: seq<Slot>, b: seq<Slot>)
    requires Separated(a) && Separated(b)
    ensures Separated(a + b)
  {
    var ab := a + b;
    forall i | 0 <= i < |ab| && IsOpen(ab[i]) ensures CommaAt(ab, i + 1) {
      if i < |a| { assert CommaAt(a, i + 1) && ab[i + 1] == a[i + 1]; } else { assert CommaAt(b, i - |a| + 1); }
    }
  }

  lemma LaterIsSeparated()
    ensures Separated(LATER)
  {
    var tail := [Text("\"}")];
    SeparatedConcat(TREE, tail);
    SeparatedConcat(SOURCE, TREE + tail);
    SeparatedConcat(NEXT, SOURCE + (TREE + tail));
  }

  lemma PayloadIsSeparated()
    ensures Separated(PAYLOAD)
  {
    LaterIsSeparated();
    hide LATER;
    SeparatedConcat(COUNT, LATER);
    SeparatedConcat(JOB, COUNT + LATER);
    SeparatedConcat(AUTHOR, JOB + (COUNT + LATER));
  }

  lemma EnvelopeIsSeparated()
    ensures Separated(ENVELOPE)
  {
    PayloadIsSeparated();
    hide PAYLOAD;
    SeparatedConcat(SIGNATURE, [Text("\"}")]);
    SeparatedConcat(PAYLOAD, SIGNATURE + [Text("\"}")]);
    SeparatedConcat([Text("{\"payload\":")], PAYLOAD + (SIGNATURE + [Text("\"}")]));
  }

  /** Every fixed piece is ASCII. */
  predicate TextIsAscii(slots: seq<Slot>)
    decreases |slots|
  {
    slots == [] || ((slots[0].Text? ==> IsAscii(slots[0].piece)) && TextIsAscii(slots[1..]))
  }

  predicate ValuesAreAscii(values: seq<Value>) {
    forall i :: 0 <= i < |values| && values[i].Str? ==> IsAscii(values[i].s)
  }

  lemma SpellingIsAscii(v: Spelling)
    ensures IsAscii(Spell(v)) && |Spell(v)| <= 4
  {
  }

  lemma {:induction false} PrintIsAscii(slots: seq<Slot>, values: seq<Value>)
    requires Fits(slots, values) && TextIsAscii(slots) && ValuesAreAscii(values)
    ensures IsAscii(Print(slots, values))
    decreases |slots|
  {
    if slots != [] {
      if slots[0].Text? {
        PrintIsAscii(slots[1..], values);
      } else {
        PrintIsAscii(slots[1..], values[1..]);
        if slots[0].Number? { assert ByteRange.IsDecimal(ByteRange.Digits(values[0].n)); }
        if slots[0].Version? { SpellingIsAscii(values[0].v); }
      }
    }
  }

  lemma {:induction false} TextConcat(a: seq<Slot>, b: seq<Slot>)
    requires TextIsAscii(a) && TextIsAscii(b)
    ensures TextIsAscii(a + b)
    decreases |a|
  {
    if a == [] {
      assert a + b == b;
    } else {
      assert (a + b)[0] == a[0] && (a + b)[1..] == a[1..] + b;
      TextConcat(a[1..], b);
    }
  }

  lemma TwoSlots(a: Slot, b: Slot)
    requires (a.Text? ==> IsAscii(a.piece)) && (b.Text? ==> IsAscii(b.piece))
    ensures TextIsAscii([a, b]) && TextIsAscii([a])
  {
    assert [a, b][1..] == [b] && [b][1..] == [] && [a][1..] == [];
  }

  lemma KeyTexts()
    ensures TextIsAscii(AUTHOR) && TextIsAscii(JOB)
  {
    TwoSlots(Text("{\"author_id\":\""), Chars(36));
    TwoSlots(Text("\",\"job_id\":\""), Chars(36));
  }

  lemma VersionTexts()
    ensures TextIsAscii([SOURCE[0], Version])
  {
    TwoSlots(SOURCE[0], Version);
  }

  lemma SourceTexts()
    ensures TextIsAscii([SOURCE[2], Chars(64)])
  {
    TwoSlots(SOURCE[2], Chars(64));
  }

  lemma TreeTexts()
    ensures TextIsAscii(TREE) && TextIsAscii([Text("\"}")])
  {
    TwoSlots(Text("\",\"tree_sha256\":\""), Chars(64));
    TwoSlots(Text("\"}"), Chars(0));
  }

  lemma EnvelopeTexts()
    ensures TextIsAscii(SIGNATURE) && TextIsAscii([Text("{\"payload\":")])
  {
    TwoSlots(Text(",\"signature\":\""), Chars(64));
    TwoSlots(Text("{\"payload\":"), Chars(0));
  }

  lemma CountTexts()
    ensures TextIsAscii([COUNT[0], Number])
  {
    TwoSlots(COUNT[0], Number);
  }

  lemma ManifestTexts()
    ensures TextIsAscii([COUNT[2], Chars(64)])
  {
    TwoSlots(COUNT[2], Chars(64));
  }

  lemma NextTexts()
    ensures TextIsAscii([NEXT[0], Number])
  {
    TwoSlots(NEXT[0], Number);
  }

  lemma ScopeTexts()
    ensures TextIsAscii([NEXT[2], Chars(64)])
  {
    TwoSlots(NEXT[2], Chars(64));
  }

  lemma NumberedTexts()
    ensures TextIsAscii(COUNT) && TextIsAscii(NEXT) && TextIsAscii(SOURCE)
  {
    hide TextIsAscii;
    VersionTexts();
    SourceTexts();
    TextConcat([SOURCE[0], Version], [SOURCE[2], Chars(64)]);
    assert SOURCE == [SOURCE[0], Version] + [SOURCE[2], Chars(64)];
    CountTexts();
    ManifestTexts();
    TextConcat([COUNT[0], Number], [COUNT[2], Chars(64)]);
    assert COUNT == [COUNT[0], Number] + [COUNT[2], Chars(64)];
    NextTexts();
    ScopeTexts();
    TextConcat([NEXT[0], Number], [NEXT[2], Chars(64)]);
    assert NEXT == [NEXT[0], Number] + [NEXT[2], Chars(64)];
  }

  lemma EnvelopeTextIsAscii()
    ensures TextIsAscii(ENVELOPE)
  {
    KeyTexts();
    TreeTexts();
    EnvelopeTexts();
    NumberedTexts();
    hide AUTHOR, JOB, COUNT, NEXT, SOURCE, TREE, SIGNATURE;
    var tail := [Text("\"}")];
    TextConcat(TREE, tail);
    TextConcat(SOURCE, TREE + tail);
    TextConcat(NEXT, SOURCE + (TREE + tail));
    TextConcat(COUNT, LATER);
    TextConcat(JOB, COUNT + LATER);
    TextConcat(AUTHOR, JOB + (COUNT + LATER));
    TextConcat(SIGNATURE, tail);
    TextConcat(PAYLOAD, SIGNATURE + tail);
    TextConcat([Text("{\"payload\":")], PAYLOAD + (SIGNATURE + tail));
  }

  /** The text the signature covers. */
  function PayloadAs(c: Cursor, v: Spelling): string
    requires Valid(c)
  {
    ValuesFit(c, v, c.tree);
    Print(PAYLOAD, Values(c, v))
  }

  function EnvelopeAs(c: Cursor, v: Spelling, sign: Signer): string
    requires Valid(c) && IsSigner(sign)
  {
    ValuesFit(c, v, sign(PayloadAs(c, v)));
    Print(ENVELOPE, Values(c, v) + [Str(sign(PayloadAs(c, v)))])
  }

  lemma EnvelopeIsAscii(c: Cursor, v: Spelling, sign: Signer)
    requires Valid(c) && IsSigner(sign)
    ensures IsAscii(EnvelopeAs(c, v, sign))
  {
    var signature := sign(PayloadAs(c, v));
    assert IsDigest(signature);
    ValuesFit(c, v, signature);
    EnvelopeTextIsAscii();
    hide ENVELOPE, PAYLOAD;
    PrintIsAscii(ENVELOPE, Values(c, v) + [Str(signature)]);
  }

  /** The text of a cursor whose version is spelled `v`. */
  function EncodeAs(c: Cursor, v: Spelling, sign: Signer): string
    requires Valid(c) && IsSigner(sign)
  {
    EnvelopeIsAscii(c, v, sign);
    Base64Url.Encode(Bytes(EnvelopeAs(c, v, sign)))
  }

  /** `_encode_cursor`; it writes the version as the integer. */
  function EncodeCursor(c: Cursor, sign: Signer): string
    requires Valid(c) && IsSigner(sign)
  {
    EncodeAs(c, One, sign)
  }

  /** What a decoded envelope says. */
  datatype Signed = Signed(cursor: Cursor, version: Spelling, signature: string)

  function SignedOf(values: seq<Value>): (r: Option<Signed>)
    ensures r.Some? ==> values == Values(r.value.cursor, r.value.version) + [Str(r.value.signature)]
  {
    if |values| == 10 && values[0].Str? && values[1].Str? && values[2].Nat? && values[3].Str? && values[4].Nat? &&
       values[5].Str? && values[6].Ver? && values[7].Str? && values[8].Str? && values[9].Str?
    then Some(Signed(Cursor(values[0].s, values[5].s, values[1].s, values[7].s, values[8].s, values[3].s, values[2].n, values[4].n),
                     values[6].v, values[9].s))
    else None
  }

  /** `_decode_cursor`: alphabet and size, base64, ASCII, canonical JSON of the one shape,
      field values, signature.  The version is only compared to 1, so each of its three
      spellings passes if the signature covers it. */
  function Open(text: string, sign: Signer): Option<Signed> {
    if text == [] || |text| > MAX_CURSOR_BYTES then None else
    match Base64Url.Decode(text)
    case None => None
    case Some(raw) =>
      if |raw| > MAX_CURSOR_BYTES then None else
      match AsciiOf(raw)
      case None => None
      case Some(s) =>
        match Scan(ENVELOPE, s)
        case None => None
        case Some(values) =>
          match SignedOf(values)
          case None => None
          case Some(r) =>
            if Valid(r.cursor) && IsDigest(r.signature) && r.signature == sign(PayloadAs(r.cursor, r.version)) then Some(r) else None
  }

  function DecodeCursor(text: string, sign: Signer): Option<Cursor> {
    match Open(text, sign)
    case None => None
    case Some(r) => Some(r.cursor)
  }

  /** Every spelling that is signed opens, exactly as long as its text keeps to the size limit. */
  lemma SpelledRoundTrip(c: Cursor, v: Spelling, sign: Signer)
    requires Valid(c) && IsSigner(sign)
    ensures Open(EncodeAs(c, v, sign), sign) ==
            if |EncodeAs(c, v, sign)| <= MAX_CURSOR_BYTES then Some(Signed(c, v, sign(PayloadAs(c, v)))) else None
  {
    var s, signature := EnvelopeAs(c, v, sign), sign(PayloadAs(c, v));
    EnvelopeIsAscii(c, v, sign);
    assert IsDigest(signature);
    ValuesFit(c, v, signature);
    Base64Url.RoundTrip(Bytes(s));
    Base64Url.EncodedLength(Bytes(s));
    AsciiReadsBack(s);
    ScanPrinted(ENVELOPE, Values(c, v) + [Str(signature)]);
    EnvelopeIsNotEmpty(c, v, sign);
  }

  /** A cursor comes back as it was, exactly as long as its text keeps to the size limit;
      the encoder does not check the limit, and the decoder refuses what exceeds it. */
  lemma CursorRoundTrip(c: Cursor, sign: Signer)
    requires Valid(c) && IsSigner(sign)
    ensures DecodeCursor(EncodeCursor(c, sign), sign) == if |EncodeCursor(c, sign)| <= MAX_CURSOR_BYTES then Some(c) else None
  {
    SpelledRoundTrip(c, One, sign);
  }

  // ----- Cursors keep to the size limit -----

  /** The length of the canonical form when no number has more than `digits` digits. */
  function Width(slots: seq<Slot>, digits: nat): nat
    decreases |slots|
  {
    if slots == [] then 0
    else (match slots[0] case Text(piece) => |piece| case Chars(n) => n case Number => digits case Version => 4) + Width(slots[1..], digits)
  }

  lemma {:induction false} PrintedWidth(slots: seq<Slot>, values: seq<Value>, digits: nat)
    requires Fits(slots, values)
    requires forall i :: 0 <= i < |values| && values[i].Nat? ==> |ByteRange.Digits(values[i].n)| <= digits
    ensures |Print(slots, values)| <= Width(slots, digits)
    decreases |slots|
  {
    if slots != [] {
      PrintedWidth(slots[1..], if slots[0].Text? then values else values[1..], digits);
      if slots[0].Version? { SpellingIsAscii(values[0].v); }
    }
  }

  lemma {:induction false} WidthConcat(a: seq<Slot>, b: seq<Slot>, digits: nat)
    ensures Width(a + b, digits) == Width(a, digits) + Width(b, digits)
    decreases |a|
  {
    if a == [] {
      assert a + b == b;
    } else {
      assert (a + b)[0] == a[0] && (a + b)[1..] == a[1..] + b;
      WidthConcat(a[1..], b, digits);
    }
  }

  lemma FieldWidth(piece: string, n: nat, digits: nat)
    ensures Width([Text(piece), Chars(n)], digits) == |piece| + n && Width([Text(piece)], digits) == |piece|
  {
    assert [Text(piece), Chars(n)][1..] == [Chars(n)] && [Chars(n)][1..] == [] && [Text(piece)][1..] == [];
    assert Width([Chars(n)], digits) == n;
  }

  lemma OpenWidth(piece: string, slot: Slot, after: string, n: nat, digits: nat)
    requires IsOpen(slot)
    ensures Width([Text(piece), slot, Text(after), Chars(n)], digits)
         == |piece| + (if slot.Number? then digits else 4) + |after| + n
  {
    var slots := [Text(piece), slot, Text(after), Chars(n)];
    assert slots[1..] == [slot, Text(after), Chars(n)] && slots[1..][1..] == [Text(after), Chars(n)];
    FieldWidth(after, n, digits);
  }

  lemma LaterWidth(digits: nat)
    ensures Width(LATER, digits) <= 360 + digits
  {
    OpenWidth(NEXT[0].piece, Number, NEXT[2].piece, 64, digits);
    OpenWidth(SOURCE[0].piece, Version, SOURCE[2].piece, 64, digits);
    FieldWidth(TREE[0].piece, 64, digits);
    FieldWidth("\"}", 0, digits);
    WidthConcat(TREE, [Text("\"}")], digits);
    WidthConcat(SOURCE, TREE + [Text("\"}")], digits);
    WidthConcat(NEXT, SOURCE + (TREE + [Text("\"}")]), digits);
  }

  lemma PayloadWidth(digits: nat)
    ensures Width(PAYLOAD, digits) <= 570 + 2 * digits
  {
    LaterWidth(digits);
    hide LATER;
    FieldWidth(AUTHOR[0].piece, 36, digits);
    FieldWidth(JOB[0].piece, 36, digits);
    OpenWidth(COUNT[0].piece, Number, COUNT[2].piece, 64, digits);
    WidthConcat(COUNT, LATER, digits);
    WidthConcat(JOB, COUNT + LATER, digits);
    WidthConcat(AUTHOR, JOB + (COUNT + LATER), digits);
  }

  lemma EnvelopeWidth(digits: nat)
    ensures Width(ENVELOPE, digits) <= 670 + 2 * digits
  {
    PayloadWidth(digits);
    hide PAYLOAD;
    FieldWidth(SIGNATURE[0].piece, 64, digits);
    FieldWidth("\"}", 0, digits);
    FieldWidth("{\"payload\":", 0, digits);
    WidthConcat(SIGNATURE, [Text("\"}")], digits);
    WidthConcat(PAYLOAD, SIGNATURE + [Text("\"}")], digits);
    WidthConcat([Text("{\"payload\":")], PAYLOAD + (SIGNATURE + [Text("\"}")]), digits);
  }

  lemma {:induction false} DigitsGrow(a: nat, b: nat)
    requires a <= b
    ensures |ByteRange.Digits(a)| <= |ByteRange.Digits(b)|
  {
    if b >= 10 && a >= 10 { DigitsGrow(a / 10, b / 10); }
  }

  /** File counts of up to a thousand digits never reach the limit. */
  lemma CursorIsShort(c: Cursor, sign: Signer)
    requires Valid(c) && IsSigner(sign) && |ByteRange.Digits(c.fileCount)| <= 1_000
    ensures |EncodeCursor(c, sign)| <= MAX_CURSOR_BYTES
    ensures DecodeCursor(EncodeCursor(c, sign), sign) == Some(c)
  {
    var signature := sign(PayloadAs(c, One));
    assert IsDigest(signature);
    ValuesFit(c, One, signature);
    EnvelopeIsAscii(c, One, sign);
    DigitsGrow(c.nextIndex, c.fileCount);
    EnvelopeWidth(1_000);
    CursorRoundTrip(c, sign);
    hide ENVELOPE, PAYLOAD, DecodeCursor;
    PrintedWidth(ENVELOPE, Values(c, One) + [Str(signature)], 1_000);
    Base64Url.EncodedIsShort(Bytes(EnvelopeAs(c, One, sign)));
  }

  lemma EnvelopeIsNotEmpty(c: Cursor, v: Spelling, sign: Signer)
    requires Valid(c) && IsSigner(sign)
    ensures EnvelopeAs(c, v, sign) != []
  {
    ValuesFit(c, v, sign(PayloadAs(c, v)));
    assert ENVELOPE[0] == Text("{\"payload\":");
  }

  // ----- What an accepted text can be -----

  lemma OpenedBytes(text: string, sign: Signer)
    requires IsSigner(sign) && Open(text, sign).Some?
    ensures var r := Open(text, sign).value;
            && Valid(r.cursor) && r.signature == sign(PayloadAs(r.cursor, r.version))
            && IsAscii(EnvelopeAs(r.cursor, r.version, sign))
            && Base64Url.Decode(text) == Some(Bytes(EnvelopeAs(r.cursor, r.version, sign)))
  {
    var r := Open(text, sign).value;
    var raw := Base64Url.Decode(text).value;
    var s := AsciiOf(raw).value;
    EnvelopeIsSeparated();
    PrintScanned(ENVELOPE, s);
    EnvelopeIsAscii(r.cursor, r.version, sign);
    SameBytes(raw, s);
  }

  lemma EnvelopeTells(c: Cursor, v: Spelling, d: Cursor, w: Spelling, sign: Signer)
    requires Valid(c) && Valid(d) && IsSigner(sign) && EnvelopeAs(c, v, sign) == EnvelopeAs(d, w, sign)
    ensures v == w
  {
    var a, b := sign(PayloadAs(c, v)), sign(PayloadAs(d, w));
    assert IsDigest(a) && IsDigest(b);
    ValuesFit(c, v, a);
    ValuesFit(d, w, b);
    ScanPrinted(ENVELOPE, Values(c, v) + [Str(a)]);
    ScanPrinted(ENVELOPE, Values(d, w) + [Str(b)]);
    assert (Values(c, v) + [Str(a)])[6] == Ver(v) && (Values(d, w) + [Str(b)])[6] == Ver(w);
  }

  /** An accepted cursor carries exactly the bytes the encoder would have produced for it,
      if and only if its version is spelled as the encoder spells it. */
  lemma AcceptedIsEncoded(text: string, sign: Signer)
    requires IsSigner(sign) && Open(text, sign).Some?
    ensures var r := Open(text, sign).value;
            && Valid(r.cursor)
            && (Base64Url.Decode(text) == Base64Url.Decode(EncodeCursor(r.cursor, sign)) <==> r.version == One)
  {
    var r := Open(text, sign).value;
    OpenedBytes(text, sign);
    EnvelopeIsAscii(r.cursor, One, sign);
    var own, theirs := EnvelopeAs(r.cursor, One, sign), EnvelopeAs(r.cursor, r.version, sign);
    Base64Url.RoundTrip(Bytes(own));
    AsciiReadsBack(own);
    AsciiReadsBack(theirs);
    if own == theirs { EnvelopeTells(r.cursor, One, r.cursor, r.version, sign); }
  }

  /** The accepted text itself is the encoder's exactly when, besides, the bits that base64
      leaves unused are zero. */
  lemma AcceptedTextIsEncoded(text: string, sign: Signer)
    requires IsSigner(sign) && Open(text, sign).Some?
    ensures var r := Open(text, sign).value;
            && Valid(r.cursor) && Base64Url.SextetsOf(text).Some?
            && (text == EncodeCursor(r.cursor, sign) <==>
                r.version == One && Base64Url.TailIsZero(Base64Url.SextetsOf(text).value))
  {
    hide EncodeCursor;
    var c := Open(text, sign).value.cursor;
    AcceptedIsEncoded(text, sign);
    EncodedBytes(c, sign);
    OpenIsDecodable(text, sign);
    Base64Url.ReencodeIsCanonical(text);
  }

  lemma OpenIsDecodable(text: string, sign: Signer)
    requires Open(text, sign).Some?
    ensures Base64Url.Decode(text).Some?
  {
  }

  /** The encoder's text is the encoding of what it decodes to. */
  lemma EncodedBytes(c: Cursor, sign: Signer)
    requires Valid(c) && IsSigner(sign)
    ensures var raw := Base64Url.Decode(EncodeCursor(c, sign));
            raw.Some? && EncodeCursor(c, sign) == Base64Url.Encode(raw.value)
  {
    EnvelopeIsAscii(c, One, sign);
    Base64Url.RoundTrip(Bytes(EnvelopeAs(c, One, sign)));
  }

  /** No other text has the signature that the service issues for `c`. */
  ghost predicate Unforged(sign: Signer, c: Cursor)
    requires Valid(c)
  {
    forall payload :: sign(payload) == sign(PayloadAs(c, One)) ==> payload == PayloadAs(c, One)
  }

  /** For every cursor there are signers like that, with digests of the fixed length. */
  lemma UnforgedExists(c: Cursor) returns (sign: Signer)
    requires Valid(c)
    ensures IsSigner(sign) && Unforged(sign, c)
  {
    var own, other := seq(64, i => '0'), seq(64, i => '1');
    var payload := PayloadAs(c, One);
    sign := s => if s == payload then own else other;
    assert own[0] != other[0];
  }

  lemma OpenedPayload(text: string, sign: Signer, c: Cursor)
    requires IsSigner(sign) && Valid(c) && OpensAs(text, c, sign)
    ensures var r := Open(text, sign).value;
            Valid(r.cursor) && sign(PayloadAs(r.cursor, r.version)) == sign(PayloadAs(c, One)) &&
            (PayloadAs(r.cursor, r.version) == PayloadAs(c, One) <==> r.cursor == c && r.version == One)
  {
    var r := Open(text, sign).value;
    OpenedBytes(text, sign);
    PayloadFits(c, One);
    PayloadFits(r.cursor, r.version);
    ScanPrinted(PAYLOAD, Values(c, One));
    ScanPrinted(PAYLOAD, Values(r.cursor, r.version));
    SameValues(c, One, r.cursor, r.version);
  }

  /** A text that bears an issued signature is that very cursor, unless it exhibits another
      payload with the same signature. */
  lemma AnotherCursorIsACollision(text: string, sign: Signer, c: Cursor)
    requires IsSigner(sign) && Valid(c) && OpensAs(text, c, sign)
    ensures DecodeCursor(text, sign) == Some(c) ||
            exists payload :: payload != PayloadAs(c, One) && sign(payload) == sign(PayloadAs(c, One))
  {
    OpenedPayload(text, sign, c);
    var r := Open(text, sign).value;
    if r.cursor != c {
      var payload := PayloadAs(r.cursor, r.version);
      assert payload != PayloadAs(c, One) && sign(payload) == sign(PayloadAs(c, One));
    }
  }

  /** A text that bears an issued and unforged signature is that very cursor. */
  lemma IssuedSignaturesOpenTheirCursor(text: string, sign: Signer, c: Cursor)
    requires IsSigner(sign) && Valid(c) && Unforged(sign, c)
    requires Open(text, sign).Some? && Open(text, sign).value.signature == sign(PayloadAs(c, One))
    ensures DecodeCursor(text, sign) == Some(c) && Base64Url.Decode(text) == Base64Url.Decode(EncodeCursor(c, sign))
  {
    OpenedPayload(text, sign, c);
    AcceptedIsEncoded(text, sign);
  }

  /** A payload in one of the other two spellings does not have the unforged signature that
      the service issues for any cursor. */
  lemma OtherSpellingsAreUnissued(c: Cursor, v: Spelling, sign: Signer, d: Cursor)
    requires IsSigner(sign) && Valid(c) && Valid(d) && Unforged(sign, d) && v != One
    ensures sign(PayloadAs(c, v)) != sign(PayloadAs(d, One))
  {
    PayloadFits(c, v);
    PayloadFits(d, One);
    ScanPrinted(PAYLOAD, Values(c, v));
    ScanPrinted(PAYLOAD, Values(d, One));
    SameValues(c, v, d, One);
  }

  /** `text` opens under the signature issued for `c`. */
  predicate OpensAs(text: string, c: Cursor, sign: Signer)
    requires Valid(c)
  {
    Open(text, sign).Some? && Open(text, sign).value.signature == sign(PayloadAs(c, One))
  }

  /** Texts of the same bytes and of a length within the limit open alike. */
  lemma SameBytesOpenAlike(a: string, b: string, sign: Signer)
    requires Base64Url.Decode(a) == Base64Url.Decode(b) && a != [] && b != []
    requires |a| <= MAX_CURSOR_BYTES && |b| <= MAX_CURSOR_BYTES
    ensures Open(a, sign) == Open(b, sign)
  {
  }

  /** Whatever the signature function, a cursor whose text does not fill its last group has
      a second text that decodes to it. */
  lemma SecondCursorText(c: Cursor, sign: Signer) returns (text: string)
    requires Valid(c) && IsSigner(sign) && |EncodeCursor(c, sign)| <= MAX_CURSOR_BYTES && |EncodeCursor(c, sign)| % 4 != 0
    ensures text != EncodeCursor(c, sign) && OpensAs(text, c, sign) && DecodeCursor(text, sign) == Some(c)
  {
    EnvelopeIsAscii(c, One, sign);
    SpelledRoundTrip(c, One, sign);
    var raw := Bytes(EnvelopeAs(c, One, sign));
    Base64Url.RoundTrip(raw);
    Base64Url.SecondTextIff(raw);
    hide Open, EnvelopeAs, PayloadAs;
    text :| text != Base64Url.Encode(raw) && Base64Url.Decode(text) == Some(raw);
    Base64Url.SameLength(text, raw);
    SameBytesOpenAlike(text, EncodeCursor(c, sign), sign);
  }

  /** A cursor has a second text that opens under its unforged signature, if and only if the
      length of its own text is not a multiple of four. */
  lemma SecondCursorTextIff(c: Cursor, sign: Signer)
    requires Valid(c) && IsSigner(sign) && Unforged(sign, c) && |EncodeCursor(c, sign)| <= MAX_CURSOR_BYTES
    ensures (exists text :: text != EncodeCursor(c, sign) && OpensAs(text, c, sign)) <==> |EncodeCursor(c, sign)| % 4 != 0
  {
    if |EncodeCursor(c, sign)| % 4 != 0 {
      var text := SecondCursorText(c, sign);
    } else {
      EnvelopeIsAscii(c, One, sign);
      var raw := Bytes(EnvelopeAs(c, One, sign));
      Base64Url.RoundTrip(raw);
      Base64Url.SecondTextIff(raw);
      hide Open, EnvelopeAs, PayloadAs;
      forall text | OpensAs(text, c, sign) ensures text == EncodeCursor(c, sign) {
        IssuedSignaturesOpenTheirCursor(text, sign, c);
      }
    }
  }

  lemma SameValues(c: Cursor, v: Spelling, d: Cursor, w: Spelling)
    ensures Values(c, v) == Values(d, w) ==> c == d && v == w
  {
    var a, b := Values(c, v), Values(d, w);
    if a == b {
      assert a[0] == b[0] && a[1] == b[1] && a[2] == b[2] && a[3] == b[3] && a[4] == b[4];
      assert a[5] == b[5] && a[6] == b[6] && a[7] == b[7] && a[8] == b[8];
    }
  }

  lemma {:induction false} SameBytes(raw: seq<Base64Url.Byte>, s: string)
    requires AsciiOf(raw) == Some(s)
    ensures Bytes(s) == raw
  {
    assert forall i :: 0 <= i < |raw| ==> Bytes(s)[i] == raw[i];
  }

  // ----- Resuming -----

  /** The identity of a publication head under its scope. */
  datatype Head = Head(job: string, source: string, tree: string, manifest: string, fileCount: nat)

  function CursorAt(author: string, scope: string, head: Head, nextIndex: nat): Cursor {
    Cursor(author, scope, head.job, head.source, head.tree, head.manifest, head.fileCount, nextIndex)
  }

  /** `_check_cursor`. */
  predicate Resumes(c: Cursor, author: string, head: Option<Head>, scope: string) {
    && head.Some? && c.author == author && c.scope == scope
    && c.job == head.value.job && c.source == head.value.source && c.tree == head.value.tree
    && c.manifest == head.value.manifest && c.fileCount == head.value.fileCount
  }

  /** A cursor made for one publication resumes there, at its page, and nowhere else. */
  lemma ResumesOnlyItsPublication(author: string, scope: string, head: Head, nextIndex: nat, sign: Signer,
                                  author': string, scope': string, head': Option<Head>)
    requires var c := CursorAt(author, scope, head, nextIndex);
             Valid(c) && IsSigner(sign) && |EncodeCursor(c, sign)| <= MAX_CURSOR_BYTES
    ensures var c := DecodeCursor(EncodeCursor(CursorAt(author, scope, head, nextIndex), sign), sign);
            && c.Some? && c.value.nextIndex == nextIndex
            && (Resumes(c.value, author', head', scope') <==> author' == author && scope' == scope && head' == Some(head))
  {
    CursorRoundTrip(CursorAt(author, scope, head, nextIndex), sign);
  }
}
