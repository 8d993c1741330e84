/**
 The parsing routines in the source's own shape: they walk over the bytes and fill in the fields of
 a request object. Each is proved equal to the corresponding function of module Request.
 */
module RequestParser {
  import opened Wrappers
  import opened Request
  import opened HeadInFull

  datatype Version = Http11 | UnknownVersion

  function ParseVersion(v: string): Version {
    if v == VERSION then Http11 else UnknownVersion
  }

  /** What the caller is told: -1, 0, or the number of bytes consumed. */
  function Code(v: Verdict): int {
    match v
    case Bad => -1
    case Incomplete => 0
    case Complete(n, _) => n
  }

  function AsciiLower(c: char): char {
    if 'A' <= c <= 'Z' then c - 'A' + 'a' else c
  }

  /** The same character, or the upper and lower case of one letter. */
  ghost predicate SameLetter(a: char, b: char) {
    || a == b
    || ('A' <= a <= 'Z' && b as int == a as int + 32)
    || ('A' <= b <= 'Z' && a as int == b as int + 32)
  }

  predicate EqualIgnoringCase(a: string, b: string): (r: bool)
    ensures r <==> |a| == |b| && forall i :: 0 <= i < |a| ==> SameLetter(a[i], b[i])
  {
    |a| == |b| && forall i :: 0 <= i < |a| ==> AsciiLower(a[i]) == AsciiLower(b[i])
  }

  /** What of `raw` is left when the walk stands at p, which may be past the end. */
  function From(raw: string, p: nat): string {
    if p < |raw| then raw[p..] else ""
  }

  lemma TrimmedAllCons(f: RawField, fs: seq<RawField>)
    ensures TrimmedAll([f] + fs) == [Trimmed(f)] + TrimmedAll(fs)
  {
  }

  class ParsedRequest {
    const raw: string
    var verb: Option<Method>
    var uri: string
    var version: Version
    var headers: seq<Field>
    var bodyStart: nat
    var bodyLength: nat

    constructor (raw: string)
      ensures this.raw == raw
    {
      this.raw := raw;
      verb, uri, version, headers := None, "", UnknownVersion, [];
      bodyStart, bodyLength := 0, 0;
    }

    /** The fields are only meaningful to the caller when the result is true. */
    method ParseStatusLine(line: string) returns (ok: bool)
      modifies `verb, `uri, `version
      ensures ok <==> Request.ParseStatusLine(line).Some?
      ensures ok ==> Request.ParseStatusLine(line) == (if verb.Some? then Some((verb.value, uri)) else None)
                     && version == Http11
    {
      var sp1 := FindChar(line, ' ', 0);
      if sp1 == |line| {
        return false;
      }
      var rest := line[sp1 + 1..];
      var sp2 := FindChar(rest, ' ', 0);
      if sp2 == |rest| {
        return false;
      }
      var v := rest[sp2 + 1..];
      if sp1 == 0 || sp2 == 0 {
        return false;
      }
      if FindChar(v, ' ', 0) < |v| {
        return false;
      }
      verb := ParseMethod(line[..sp1]);
      uri := rest[..sp2];
      version := ParseVersion(v);
      return verb.Some? && version != UnknownVersion;
    }

    /** The two trimming loops of parse_headers. */
    method TrimBounds(s: string, from: nat, to: nat) returns (v: nat, ve: nat)
      requires from <= to <= |s|
      ensures from <= v <= ve <= to && s[v..ve] == Trim(s[from..to])
    {
      hide TrimLeft, TrimRight;
      v, ve := from, to;
      while v < ve && Blank(s[v])
        invariant from <= v <= ve
        invariant TrimLeft(s[v..ve]) == TrimLeft(s[from..to])
      {
        TrimLeftStep(s, v, ve);
        v := v + 1;
      }
      TrimLeftStep(s, v, ve);
      while ve > v && Blank(s[ve - 1])
        invariant v <= ve <= to
        invariant TrimRight(s[v..ve]) == TrimRight(s[v..to])
      {
        TrimRightStep(s, v, ve);
        ve := ve - 1;
      }
      TrimRightStep(s, v, ve);
    }

    method ParseHeaders(rawHdrs: string) returns (ok: bool)
      modifies `headers
      ensures ok <==> RawFields(rawHdrs).Some?
      ensures ok ==> headers == TrimmedAll(RawFields(rawHdrs).value)
      ensures ok && Ended(rawHdrs) ==> FieldLines(rawHdrs, headers)
      ensures (exists fs :: FieldLines(rawHdrs, fs)) ==> ok
    {
      hide RawFields, TrimmedAll, ParseField, Trim, FieldLines, Ended;
      SectionExactly(rawHdrs);
      EmptyRawFields();
      headers := [];
      var p := 0;
      assert From(rawHdrs, 0) == rawHdrs;
      PrependNothing(Parsed(RawFields(rawHdrs)));
      while p < |rawHdrs|
        invariant Parsed(RawFields(rawHdrs)) == Prepend(headers, Parsed(RawFields(From(rawHdrs, p))))
      {
        var eol := FindCrlf(rawHdrs, p); // the end of the input when there is no line end
        var colon := FindChar(rawHdrs[..eol], ':', p);
        UnfoldAt(rawHdrs, p);
        FieldAt(rawHdrs, p, eol);
        if colon == eol || colon == p {
          return false;
        }
        var v, ve := TrimBounds(rawHdrs, colon + 1, eol);
        PrependOne(headers, ParseField(rawHdrs[p..eol]).value, RawFields(From(rawHdrs, eol + 2)));
        headers := headers + [Field(rawHdrs[p..colon], rawHdrs[v..ve])];
        p := eol + 2;
      }
      return true;
    }

    method Parse() returns (code: int)
      modifies `verb, `uri, `version, `headers, `bodyStart, `bodyLength
      ensures code == Code(Decompose(raw))
      ensures code > 0 ==>
                var h := Decompose(raw).head;
                verb == Some(h.verb) && uri == h.uri && version == Http11 && headers == TrimmedAll(h.fields)
                && bodyStart == code <= |raw| && bodyLength == 0
      ensures code > 0 ==> verb.Some? && code <= |raw| && HeadBytes(raw[..code], verb.value, uri, headers)
      ensures code == 0 <==> |raw| < 4096 && forall j :: !BlankLineAt(raw, j)
      ensures code < 0 ==> code == -1 && forall n, v, u, fs :: 0 <= n <= |raw| ==> !HeadBytes(raw[..n], v, u, fs)
    {
      hide RawFields, Request.ParseStatusLine, TrimmedAll, HeadBytes, FieldLines, BlankLineAt, Render, ValidHead;
      IncompleteExactly(raw);
      CompleteExactly(raw);
      var hdrEnd := FindEnd(raw, 0);
      if hdrEnd == |raw| {
        return if |raw| >= MAX_HEADER_BYTES then -1 else 0;
      }
      var region := raw[..hdrEnd + 2];
      var lineEnd := FindCrlf(region, 0);
      if lineEnd == |region| {
        return -1;
      }
      var ok := ParseStatusLine(region[..lineEnd]);
      if !ok {
        return -1;
      }
      ok := ParseHeaders(region[lineEnd + 2..]);
      if !ok {
        return -1;
      }
      bodyStart, bodyLength := hdrEnd + 4, 0;
      return hdrEnd + 4;
    }

    /** The value of the first header with this name, compared without regard to case. */
    method GetHeaderValue(name: string) returns (r: Option<string>)
      requires '\0' !in name
      ensures r.Some? ==> exists i :: 0 <= i < |headers| && EqualIgnoringCase(headers[i].name, name)
                                      && r.value == headers[i].value
                                      && forall j :: 0 <= j < i ==> !EqualIgnoringCase(headers[j].name, name)
      ensures r.None? <==> forall i :: 0 <= i < |headers| ==> !EqualIgnoringCase(headers[i].name, name)
    {
      for i := 0 to |headers|
        invariant forall j :: 0 <= j < i ==> !EqualIgnoringCase(headers[j].name, name)
      {
        if EqualIgnoringCase(headers[i].name, name) {
          return Some(headers[i].value);
        }
      }
      return None;
    }
  }

  /** Nothing, or something that ends with a line end. */
  ghost predicate Ended(section: string) {
    section == "" || (|section| >= 2 && section[|section| - 2..] == "\r\n")
  }

  lemma SectionExactly(section: string)
    ensures RawFields(section).Some? && Ended(section) ==> FieldLines(section, TrimmedAll(RawFields(section).value))
    ensures (exists fs :: FieldLines(section, fs)) ==> RawFields(section).Some?
  {
    hide RawFields, FieldLines, Lines, TrimmedAll, ValidField;
    if RawFields(section).Some? && Ended(section) {
      assert |section| >= 2 ==> section[|section| - 2..][0] == section[|section| - 2]
                                && section[|section| - 2..][1] == section[|section| - 1];
      RawFieldsSound(section);
      LinesAreRaw(RawFields(section).value);
    }
    if fs :| FieldLines(section, fs) {
      var raws := RawAreLines(section, fs);
      RawFieldsComplete(raws);
    }
  }

  /** What the three results mean in bytes. */
  lemma CompleteExactly(raw: string)
    ensures Decompose(raw).Complete? ==>
              var Complete(n, h) := Decompose(raw);
              0 < n <= |raw| && HeadBytes(raw[..n], h.verb, h.uri, TrimmedAll(h.fields))
    ensures !Decompose(raw).Complete? ==> forall n, v, u, fs :: 0 <= n <= |raw| ==> !HeadBytes(raw[..n], v, u, fs)
  {
    hide Decompose, HeadBytes, TrimmedAll, Render, ValidHead;
    if Decompose(raw).Complete? {
      var Complete(n, h) := Decompose(raw);
      assert h == RawHead(h.verb, h.uri, h.fields);
      ParsesExactlyTheGrammar(raw, n, h);
      RenderedSome(h);
      AcceptedExactly(raw, n, h.verb, h.uri, TrimmedAll(h.fields));
    } else {
      forall n, v, u, fs | 0 <= n <= |raw| ensures !HeadBytes(raw[..n], v, u, fs) {
        AcceptedExactly(raw, n, v, u, fs);
      }
    }
  }

  lemma RenderedSome(h: RawHead)
    ensures |Render(h)| > 0
  {
    hide Lines;
  }

  lemma FindCrlfFrom(raw: string, p: nat)
    requires p <= |raw|
    ensures FindCrlf(raw, p) == p + FindCrlf(raw[p..], 0)
  {
    var a, b := FindCrlf(raw, p), FindCrlf(raw[p..], 0);
    assert forall j :: p <= j < |raw| ==> (IsCrlf(raw, j) <==> IsCrlf(raw[p..], j - p));
    assert a < |raw| ==> IsCrlf(raw[p..], a - p);
    assert p + b < |raw| ==> IsCrlf(raw, p + b);
  }

  lemma FindCharFrom(raw: string, c: char, p: nat, eol: nat)
    requires p <= eol <= |raw|
    ensures FindChar(raw[..eol], c, p) == p + FindChar(raw[p..eol], c, 0)
  {
    var a, b := FindChar(raw[..eol], c, p), FindChar(raw[p..eol], c, 0);
    assert a < eol ==> raw[p..eol][a - p] == c;
    assert p + b < eol ==> raw[..eol][p + b] == c;
  }

  function Cons(f: Option<RawField>, rest: Option<seq<RawField>>): Option<seq<RawField>> {
    if f.None? || rest.None? then None else Some([f.value] + rest.value)
  }

  /** The parsed fields, and what a walk that has `done` behind it makes of them. */
  function Parsed(fs: Option<seq<RawField>>): Option<seq<Field>> {
    if fs.None? then None else Some(TrimmedAll(fs.value))
  }

  function Prepend(done: seq<Field>, rest: Option<seq<Field>>): Option<seq<Field>> {
    if rest.None? then None else Some(done + rest.value)
  }

  lemma EmptyRawFields()
    ensures RawFields("") == Some([]) && TrimmedAll([]) == []
  {
  }

  lemma PrependOne(done: seq<Field>, f: RawField, rest: Option<seq<RawField>>)
    ensures Prepend(done, Parsed(Cons(Some(f), rest))) == Prepend(done + [Trimmed(f)], Parsed(rest))
  {
    if rest.Some? {
      TrimmedAllCons(f, rest.value);
      assert done + ([Trimmed(f)] + TrimmedAll(rest.value)) == (done + [Trimmed(f)]) + TrimmedAll(rest.value);
    }
  }

  lemma PrependNothing(rest: Option<seq<Field>>)
    ensures Prepend([], rest) == rest
  {
    assert rest.Some? ==> [] + rest.value == rest.value;
  }

  lemma Unfold(raw: string)
    requires raw != ""
    ensures var eol := FindCrlf(raw, 0);
            RawFields(raw) == Cons(ParseField(raw[..eol]), RawFields(if eol + 2 <= |raw| then raw[eol + 2..] else ""))
  {
    hide ParseField;
  }

  /** One round of the walk is one unfolding of RawFields. */
  lemma UnfoldAt(raw: string, p: nat)
    requires p < |raw|
    ensures var eol := FindCrlf(raw, p);
            RawFields(raw[p..]) == Cons(ParseField(raw[p..eol]), RawFields(From(raw, eol + 2)))
  {
    hide *;
    FindCrlfFrom(raw, p);
    var here := raw[p..];
    Unfold(here);
    var q := FindCrlf(here, 0);
    Slices(raw, p, q);
  }

  lemma Slices(raw: string, p: nat, q: nat)
    requires p <= |raw| && q <= |raw[p..]|
    ensures raw[p..][..q] == raw[p..p + q]
    ensures (if q + 2 <= |raw[p..]| then raw[p..][q + 2..] else "") == From(raw, p + q + 2)
  {
  }

  lemma FieldAt(raw: string, p: nat, eol: nat)
    requires p <= eol <= |raw|
    ensures var colon := FindChar(raw[..eol], ':', p);
            ParseField(raw[p..eol])
            == if colon == eol || colon == p then None else Some(RawField(raw[p..colon], raw[colon + 1..eol]))
  {
    FindCharFrom(raw, ':', p, eol);
    var colon := FindChar(raw[..eol], ':', p);
    assert raw[p..eol][..colon - p] == raw[p..colon];
    assert colon < eol ==> raw[p..eol][colon - p + 1..] == raw[colon + 1..eol];
  }

  lemma TrimLeftStep(s: string, v: nat, ve: nat)
    requires v <= ve <= |s|
    ensures TrimLeft(s[v..ve]) == if v < ve && Blank(s[v]) then TrimLeft(s[v + 1..ve]) else s[v..ve]
  {
    assert v < ve ==> s[v..ve][1..] == s[v + 1..ve];
  }

  lemma TrimRightStep(s: string, v: nat, ve: nat)
    requires v <= ve <= |s|
    ensures TrimRight(s[v..ve]) == if v < ve && Blank(s[ve - 1]) then TrimRight(s[v..ve - 1]) else s[v..ve]
  {
    assert v < ve ==> s[v..ve][..ve - v - 1] == s[v..ve - 1];
  }
}
