/**
 Printing a response, and reading its header section back with the request parser's field routine.
 */
module Response {
  import opened Wrappers
  import opened Request
  import opened RequestParser

  datatype ResponseHead = ResponseHead(version: Version, statusCode: int, reason: string)

  // ---------- printing ----------

  /** What "%s" prints: the bytes up to the first NUL. */
  function CString(s: string): (r: string)
    ensures '\0' !in r
    ensures '\0' !in s ==> r == s
  {
    if s == "" || s[0] == '\0' then "" else [s[0]] + CString(s[1..])
  }

  function Digit(d: nat): char
    requires d < 10
  {
    '0' + d as char
  }

  function Decimal(n: nat): (s: string)
    ensures s != "" && forall i :: 0 <= i < |s| ==> '0' <= s[i] <= '9'
  {
    if n < 10 then [Digit(n)] else Decimal(n / 10) + [Digit(n % 10)]
  }

  function DecimalInt(i: int): string {
    if i < 0 then "-" + Decimal(-i) else Decimal(i)
  }

  /** The number a string of decimal digits stands for. */
  function DecimalValue(s: string): nat
    requires forall i :: 0 <= i < |s| ==> '0' <= s[i] <= '9'
  {
    if s == "" then 0 else 10 * DecimalValue(s[..|s| - 1]) + (s[|s| - 1] - '0') as nat
  }

  lemma {:induction false} DecimalRoundTrip(n: nat)
    ensures DecimalValue(Decimal(n)) == n
  {
    if n >= 10 {
      DecimalRoundTrip(n / 10);
      assert Decimal(n)[..|Decimal(n)| - 1] == Decimal(n / 10);
    } else {
      assert Decimal(n)[..0] == "";
    }
  }

  function FieldLine(f: Field): string {
    CString(f.name) + ": " + CString(f.value) + CRLF
  }

  function HeaderSection(fs: seq<Field>): string {
    if fs == [] then "" else HeaderSection(fs[..|fs| - 1]) + FieldLine(fs[|fs| - 1])
  }

  function StatusText(h: ResponseHead): string {
    VERSION + " " + DecimalInt(h.statusCode) + " " + CString(h.reason) + CRLF
  }

  function Serialize(h: ResponseHead, fs: seq<Field>, body: Option<string>): string {
    if h.version != Http11 then ""
    else StatusText(h) + HeaderSection(fs) + CRLF + (if body.Some? then body.value else "")
  }

  /** The headers as they are printed, line by line. */
  ghost function PrintedLines(fs: seq<Field>): string {
    if fs == [] then "" else CString(fs[0].name) + ": " + CString(fs[0].value) + "\r\n" + PrintedLines(fs[1..])
  }

  lemma {:induction false} PrintedSnoc(fs: seq<Field>, f: Field)
    ensures PrintedLines(fs + [f]) == PrintedLines(fs) + (CString(f.name) + ": " + CString(f.value) + "\r\n")
  {
    hide CString;
    var line := CString(f.name) + ": " + CString(f.value) + "\r\n";
    if fs == [] {
      assert fs + [f] == [f] && [f][1..] == [];
      assert line + "" == line;
    } else {
      PrintedSnoc(fs[1..], f);
      assert (fs + [f])[1..] == fs[1..] + [f];
      PrintedCons(fs);
      PrintedCons(fs + [f]);
    }
  }

  lemma PrintedCons(fs: seq<Field>)
    requires fs != []
    ensures PrintedLines(fs)
            == (CString(fs[0].name) + ": " + CString(fs[0].value) + "\r\n") + PrintedLines(fs[1..])
  {
    hide CString;
  }

  lemma {:induction false} SectionInFull(fs: seq<Field>)
    ensures HeaderSection(fs) == PrintedLines(fs)
  {
    hide PrintedLines, CString;
    if fs == [] {
      NothingPrinted();
    } else {
      var init, last := fs[..|fs| - 1], fs[|fs| - 1];
      SectionInFull(init);
      PrintedSnoc(init, last);
      assert init + [last] == fs;
    }
  }

  lemma NothingPrinted()
    ensures PrintedLines([]) == ""
  {
  }

  /** The whole response in bytes, its body included. */
  lemma SerializeInFull(h: ResponseHead, fs: seq<Field>, body: Option<string>)
    ensures h.version != Http11 ==> Serialize(h, fs, body) == ""
    ensures h.version == Http11 ==>
              Serialize(h, fs, body)
              == "HTTP/1.1 " + (if h.statusCode < 0 then "-" + Decimal(-h.statusCode) else Decimal(h.statusCode)) + " "
                 + CString(h.reason) + "\r\n" + PrintedLines(fs) + "\r\n" + match body case Some(b) => b case None => ""
  {
    hide HeaderSection, PrintedLines, Decimal, CString;
    SectionInFull(fs);
    assert VERSION + " " == "HTTP/1.1 ";
  }

  /** A decimal has its digits in order, the last one standing for the units. */
  lemma DecimalDigits(n: nat)
    ensures n < 10 ==> Decimal(n) == ["0123456789"[n]]
    ensures n >= 10 ==> Decimal(n) == Decimal(n / 10) + ["0123456789"[n % 10]]
  {
    var d := n % 10;
    assert "0123456789"[d] == Digit(d);
  }

  /** "%s" prints the bytes in front of the first NUL. */
  lemma CStringExactly(s: string, r: string)
    ensures CString(s) == r <==> '\0' !in r && (r == s || exists rest :: s == r + "\0" + rest)
  {
    CStringCuts(s);
    if '\0' !in r && exists rest :: s == r + "\0" + rest {
      var rest :| s == r + "\0" + rest;
      CStringStops(r, rest);
    }
  }

  lemma {:induction false} CStringCuts(s: string)
    ensures CString(s) == s || exists rest :: s == CString(s) + "\0" + rest
  {
    if s != "" && s[0] != '\0' {
      CStringCuts(s[1..]);
      if CString(s[1..]) != s[1..] {
        var rest :| s[1..] == CString(s[1..]) + "\0" + rest;
        assert s == CString(s) + "\0" + rest;
      } else {
        assert CString(s) == s;
      }
    } else if s != "" {
      assert s == CString(s) + "\0" + s[1..];
    }
  }

  lemma {:induction false} CStringStops(r: string, rest: string)
    requires '\0' !in r
    ensures CString(r + "\0" + rest) == r
  {
    if r != "" {
      CStringStops(r[1..], rest);
      assert (r + "\0" + rest)[1..] == r[1..] + "\0" + rest;
    }
  }

  lemma SectionEmpty()
    ensures HeaderSection([]) == ""
  {
  }

  lemma SectionStep(fs: seq<Field>, i: nat)
    requires i < |fs|
    ensures HeaderSection(fs[..i + 1]) == HeaderSection(fs[..i]) + FieldLine(fs[i])
  {
    assert fs[..i + 1][..i] == fs[..i];
  }

  class ResponseObject {
    var head: ResponseHead
    var headers: seq<Field>
    var body: Option<string>

    constructor ()
      ensures headers == [] && body == None
    {
      head, headers, body := ResponseHead(UnknownVersion, 0, ""), [], None;
    }

    method AddHeader(h: Field)
      modifies `headers
      ensures headers == old(headers) + [h]
    {
      headers := headers + [h];
    }

    method Print() returns (raw: string)
      ensures raw == Serialize(head, headers, body)
    {
      hide HeaderSection, CString;
      SectionEmpty();
      raw := "";
      if head.version != Http11 {
        return;
      }
      raw := VERSION + " " + DecimalInt(head.statusCode) + " " + CString(head.reason) + CRLF;
      assert raw == StatusText(head) + "";
      var i := 0;
      while i < |headers|
        invariant i <= |headers|
        invariant raw == StatusText(head) + HeaderSection(headers[..i])
      {
        ghost var before := HeaderSection(headers[..i]);
        SectionStep(headers, i);
        raw := raw + (CString(headers[i].name) + ": " + CString(headers[i].value) + CRLF);
        assert raw == StatusText(head) + (before + FieldLine(headers[i]));
        i := i + 1;
      }
      assert headers[..i] == headers;
      raw := raw + CRLF;
      if body.Some? {
        raw := raw + body.value;
      }
    }
  }

  // ---------- the round trip ----------

  /** parse_headers on a header section. */
  function ParseFields(raw: string): Option<seq<Field>> {
    Parsed(RawFields(raw))
  }

  /** A field that survives printing and parsing. */
  predicate WireSafe(f: Field) {
    && f.name != "" && ':' !in f.name && NoCrlf(f.name) && '\0' !in f.name
    && NoCrlf(f.value) && '\0' !in f.value
    && (f.value != "" ==> !Blank(f.value[0]) && !Blank(f.value[|f.value| - 1]))
  }

  function AsRaw(f: Field): RawField {
    RawField(f.name, " " + f.value)
  }

  function AsRawAll(fs: seq<Field>): (r: seq<RawField>)
    ensures |r| == |fs| && forall i :: 0 <= i < |fs| ==> r[i] == AsRaw(fs[i])
  {
    seq(|fs|, i requires 0 <= i < |fs| => AsRaw(fs[i]))
  }

  lemma LinesSnoc(fs: seq<RawField>, f: RawField)
    ensures Lines(fs + [f]) == Lines(fs) + Line(f) + CRLF
  {
    hide Line;
    if fs == [] {
      assert fs + [f] == [f];
      assert Lines([f]) == Line(f) + CRLF + Lines([f][1..]);
    } else {
      LinesSnoc(fs[1..], f);
      assert (fs + [f])[1..] == fs[1..] + [f];
    }
  }

  lemma {:induction false} SectionIsLines(fs: seq<Field>)
    requires forall i :: 0 <= i < |fs| ==> '\0' !in fs[i].name && '\0' !in fs[i].value
    ensures HeaderSection(fs) == Lines(AsRawAll(fs))
  {
    if fs != [] {
      var init, last := fs[..|fs| - 1], fs[|fs| - 1];
      SectionIsLines(init);
      LinesSnoc(AsRawAll(init), AsRaw(last));
      assert AsRawAll(fs) == AsRawAll(init) + [AsRaw(last)];
      assert FieldLine(last) == Line(AsRaw(last)) + CRLF;
    }
  }

  lemma TrimOfPadded(v: string)
    requires v != "" ==> !Blank(v[0]) && !Blank(v[|v| - 1])
    ensures Trim(" " + v) == v
  {
    assert (" " + v)[1..] == v;
    assert TrimLeft(v) == v && TrimRight(v) == v;
    assert TrimLeft(" " + v) == TrimLeft(v);
  }

  lemma SafeIsValid(f: Field)
    requires WireSafe(f)
    ensures ValidField(AsRaw(f)) && Trimmed(AsRaw(f)) == f
  {
    TrimOfPadded(f.value);
    forall j | 0 <= j < |f.value| + 1 ensures !IsCrlf(" " + f.value, j) {
      assert j > 0 ==> !IsCrlf(f.value, j - 1);
    }
  }

  /** What the parser reports is always safe to print, unless the bytes contained a NUL. */
  lemma ParsedIsSafe(f: RawField)
    requires ValidField(f) && '\0' !in f.name && '\0' !in f.text
    ensures WireSafe(Trimmed(f))
  {
    TrimIsSlice(f.text);
  }

  lemma {:induction false} TrimLeftIsSlice(v: string)
    ensures exists k :: 0 <= k <= |v| && TrimLeft(v) == v[k..]
  {
    if v != "" && Blank(v[0]) {
      TrimLeftIsSlice(v[1..]);
      var k :| 0 <= k <= |v[1..]| && TrimLeft(v[1..]) == v[1..][k..];
      assert v[1..][k..] == v[k + 1..];
    } else {
      assert v == v[0..];
    }
  }

  lemma TrimBytes(v: string)
    ensures exists lo, hi :: 0 <= lo <= hi <= |v| && Trim(v) == v[lo..hi]
  {
    hide TrimLeft, TrimRight;
    TrimLeftIsSlice(v);
    var k :| 0 <= k <= |v| && TrimLeft(v) == v[k..];
    var r := TrimRight(v[k..]);
    assert r == v[k..][..|r|] == v[k..k + |r|];
  }

  lemma TrimIsSlice(v: string)
    ensures NoCrlf(v) ==> NoCrlf(Trim(v))
    ensures '\0' !in v ==> '\0' !in Trim(v)
    ensures Trim(v) != "" ==> !Blank(Trim(v)[0]) && !Blank(Trim(v)[|Trim(v)| - 1])
  {
    hide NoCrlf;
    TrimBytes(v);
    var lo, hi :| 0 <= lo <= hi <= |v| && Trim(v) == v[lo..hi];
    SliceBytes(v, lo, hi);
    TrimEnds(v);
  }

  lemma SliceBytes(v: string, lo: nat, hi: nat)
    requires lo <= hi <= |v|
    ensures NoCrlf(v) ==> NoCrlf(v[lo..hi])
    ensures '\0' !in v ==> '\0' !in v[lo..hi]
  {
    if NoCrlf(v) {
      forall j | 0 <= j < hi - lo ensures !IsCrlf(v[lo..hi], j) {
        assert !IsCrlf(v, lo + j);
      }
    }
  }

  lemma TrimEnds(v: string)
    ensures Trim(v) != "" ==> !Blank(Trim(v)[0]) && !Blank(Trim(v)[|Trim(v)| - 1])
  {
    var t := TrimLeft(v);
    assert TrimRight(t) != "" ==> TrimRight(t)[0] == t[0];
  }

  lemma {:induction false} SectionBytes(fs: seq<Field>)
    ensures Terminated(HeaderSection(fs)) && '\0' !in HeaderSection(fs)
  {
    if fs != [] {
      SectionBytes(fs[..|fs| - 1]);
      var s := HeaderSection(fs);
      assert s[|s| - 2] == '\r' && s[|s| - 1] == '\n';
    }
  }

  lemma {:induction false} LinesBytes(fs: seq<RawField>, i: nat)
    requires i < |fs| && '\0' !in Lines(fs)
    ensures '\0' !in fs[i].name && '\0' !in fs[i].text
  {
    var first, rest := Line(fs[0]), Lines(fs[1..]);
    assert Lines(fs) == first + CRLF + rest;
    if i == 0 {
      assert forall c :: c in fs[0].name || c in fs[0].text ==> c in first;
      assert forall c :: c in first ==> c in Lines(fs);
    } else {
      assert forall c :: c in rest ==> c in Lines(fs);
      LinesBytes(fs[1..], i - 1);
    }
  }

  /** The header round trip: parsing the printed header section gives back the very same list of
      fields if and only if every field is wire-safe. */
  lemma HeaderRoundTrip(fs: seq<Field>)
    ensures ParseFields(HeaderSection(fs)) == Some(fs)
            <==> forall i :: 0 <= i < |fs| ==> WireSafe(fs[i])
  {
    if forall i :: 0 <= i < |fs| ==> WireSafe(fs[i]) {
      SafeRoundTrip(fs);
    }
    if ParseFields(HeaderSection(fs)) == Some(fs) {
      RoundTripSafe(fs);
    }
  }

  lemma SafeRoundTrip(fs: seq<Field>)
    requires forall i :: 0 <= i < |fs| ==> WireSafe(fs[i])
    ensures ParseFields(HeaderSection(fs)) == Some(fs)
  {
    hide NoCrlf, RawFields, Lines, HeaderSection, ValidField, Trimmed;
    SectionIsLines(fs);
    var raws := AsRawAll(fs);
    forall i | 0 <= i < |fs| ensures ValidField(raws[i]) && Trimmed(raws[i]) == fs[i] {
      SafeIsValid(fs[i]);
    }
    RawFieldsComplete(raws);
    assert TrimmedAll(raws) == fs;
  }

  lemma RoundTripSafe(fs: seq<Field>)
    requires ParseFields(HeaderSection(fs)) == Some(fs)
    ensures forall i :: 0 <= i < |fs| ==> WireSafe(fs[i])
  {
    hide NoCrlf, RawFields, Lines, HeaderSection, ValidField, Trimmed, WireSafe, Terminated;
    SectionBytes(fs);
    RawFieldsSound(HeaderSection(fs));
    var raws := RawFields(HeaderSection(fs)).value;
    forall i | 0 <= i < |fs| ensures WireSafe(fs[i]) {
      LinesBytes(raws, i);
      ParsedIsSafe(raws[i]);
      assert fs[i] == Trimmed(raws[i]);
    }
  }
}
