/**
 The request head written out in bytes, with the trimmed fields that the caller gets to see: method names,
 spaces, version, line ends and the blanks around the values.
 */
module HeadInFull {
  import opened Wrappers
  import opened Request

  const METHOD_NAMES: map<Method, string> :=
    map[Get := "GET", Head := "HEAD", Options := "OPTIONS", Trace := "TRACE", Put := "PUT", Delete := "DELETE",
        Post := "POST", Patch := "PATCH", Connect := "CONNECT"]

  ghost predicate Unbroken(s: string) {
    forall j :: 0 <= j < |s| - 1 ==> !(s[j] == '\r' && s[j + 1] == '\n')
  }

  /** One line: a name, a colon, and a value with any blanks around it. */
  ghost predicate FieldLine(line: string, f: Field) {
    && f.name != "" && ':' !in f.name && Solid(f.value) && Unbroken(line)
    && exists before, after :: Blanks(before) && Blanks(after) && line == f.name + ":" + before + f.value + after
  }

  /** The section is one line for each field. */
  ghost predicate FieldLines(section: string, fs: seq<Field>)
    decreases |fs|
  {
    if fs == [] then section == ""
    else exists line, rest :: section == line + "\r\n" + rest && FieldLine(line, fs[0]) && FieldLines(rest, fs[1..])
  }

  /** The n bytes of a head. */
  ghost predicate HeadBytes(bytes: string, verb: Method, uri: string, fs: seq<Field>) {
    && uri != "" && ' ' !in uri && Unbroken(uri) && verb in METHOD_NAMES
    && exists section :: FieldLines(section, fs)
                         && bytes == METHOD_NAMES[verb] + " " + uri + " HTTP/1.1\r\n" + section + "\r\n"
  }

  // ---------- the parser's grammar says the same ----------

  lemma UnbrokenIs(s: string)
    ensures Unbroken(s) <==> NoCrlf(s)
  {
    assert Unbroken(s) ==> forall j :: 0 <= j < |s| ==> !IsCrlf(s, j);
    if NoCrlf(s) {
      forall j | 0 <= j < |s| - 1 ensures !(s[j] == '\r' && s[j + 1] == '\n') {
        assert !IsCrlf(s, j);
      }
    }
  }

  lemma LineIsRaw(f: RawField)
    requires ValidField(f)
    ensures FieldLine(Line(f), Trimmed(f))
  {
    hide Trim, Blanks, Solid, NoCrlf, Unbroken;
    TrimExactly(f.text, Trim(f.text));
    var a, b :| Blanks(a) && Blanks(b) && f.text == a + Trim(f.text) + b;
    assert Line(f) == f.name + ":" + a + Trim(f.text) + b;
    LineNoCrlf(f);
    UnbrokenIs(Line(f));
  }

  lemma RawIsLine(line: string, f: Field) returns (raw: RawField)
    requires FieldLine(line, f)
    ensures ValidField(raw) && Line(raw) == line && Trimmed(raw) == f
  {
    hide Trim, Blanks, Solid, NoCrlf, Unbroken;
    var a, b :| Blanks(a) && Blanks(b) && line == f.name + ":" + a + f.value + b;
    raw := RawField(f.name, a + f.value + b);
    assert line == raw.name + ":" + raw.text;
    TrimExactly(raw.text, f.value);
    UnbrokenIs(line);
    TakeNoCrlf(line, |f.name|);
    DropNoCrlf(line, |f.name| + 1);
    assert line[..|f.name|] == raw.name && line[|f.name| + 1..] == raw.text;
  }

  lemma {:induction false} LinesAreRaw(raws: seq<RawField>)
    requires forall i :: 0 <= i < |raws| ==> ValidField(raws[i])
    ensures FieldLines(Lines(raws), TrimmedAll(raws))
  {
    hide FieldLine, Line, ValidField, Trimmed;
    if raws != [] {
      LineIsRaw(raws[0]);
      LinesAreRaw(raws[1..]);
      assert TrimmedAll(raws)[1..] == TrimmedAll(raws[1..]);
      assert Lines(raws) == Line(raws[0]) + "\r\n" + Lines(raws[1..]);
    }
  }

  lemma {:induction false} RawAreLines(section: string, fs: seq<Field>) returns (raws: seq<RawField>)
    requires FieldLines(section, fs)
    ensures (forall i :: 0 <= i < |raws| ==> ValidField(raws[i])) && Lines(raws) == section && TrimmedAll(raws) == fs
    decreases |fs|
  {
    hide FieldLine, Line, ValidField, Trimmed;
    if fs == [] {
      raws := [];
    } else {
      var line, rest :| section == line + "\r\n" + rest && FieldLine(line, fs[0]) && FieldLines(rest, fs[1..]);
      var first := RawIsLine(line, fs[0]);
      var others := RawAreLines(rest, fs[1..]);
      raws := [first] + others;
      assert raws[1..] == others;
      forall i | 0 <= i < |fs| ensures TrimmedAll(raws)[i] == fs[i] {
        assert i > 0 ==> TrimmedAll(raws)[i] == TrimmedAll(others)[i - 1];
      }
    }
  }

  lemma NamesAreTokens()
    ensures forall m: Method :: m in METHOD_NAMES && METHOD_NAMES[m] == Token(m)
  {
    forall m: Method ensures m in METHOD_NAMES && METHOD_NAMES[m] == Token(m) {
      match m
      case Get => case Head => case Options => case Trace => case Put => case Delete => case Post => case Patch =>
      case Connect =>
    }
  }

  lemma RenderInFull(h: RawHead)
    ensures h.verb in METHOD_NAMES
    ensures Render(h) == METHOD_NAMES[h.verb] + " " + h.uri + " HTTP/1.1\r\n" + Lines(h.fields) + "\r\n"
  {
    hide Token, Lines, METHOD_NAMES;
    NamesAreTokens();
    assert VERSION + CRLF == "HTTP/1.1\r\n";
    assert Render(h) == Token(h.verb) + " " + h.uri + " " + (VERSION + CRLF) + Lines(h.fields) + CRLF;
    assert " " + (VERSION + CRLF) == " HTTP/1.1\r\n";
  }

  /** The decomposition, as the caller sees it: a positive result n with this method, URI and fields exactly
      when the first n bytes of the buffer are such a head. */
  lemma AcceptedExactly(raw: string, n: nat, verb: Method, uri: string, fs: seq<Field>)
    ensures (exists raws :: Decompose(raw) == Complete(n, RawHead(verb, uri, raws)) && TrimmedAll(raws) == fs)
            <==> n <= |raw| && HeadBytes(raw[..n], verb, uri, fs)
  {
    hide Decompose, FieldLines, Render, Lines, TrimmedAll, ValidField, METHOD_NAMES, NoCrlf, Unbroken;
    UnbrokenIs(uri);
    if exists raws :: Decompose(raw) == Complete(n, RawHead(verb, uri, raws)) && TrimmedAll(raws) == fs {
      var raws :| Decompose(raw) == Complete(n, RawHead(verb, uri, raws)) && TrimmedAll(raws) == fs;
      ParsesExactlyTheGrammar(raw, n, RawHead(verb, uri, raws));
      LinesAreRaw(raws);
      RenderInFull(RawHead(verb, uri, raws));
    }
    if n <= |raw| && HeadBytes(raw[..n], verb, uri, fs) {
      var section :| FieldLines(section, fs)
                     && raw[..n] == METHOD_NAMES[verb] + " " + uri + " HTTP/1.1\r\n" + section + "\r\n";
      var raws := RawAreLines(section, fs);
      RenderInFull(RawHead(verb, uri, raws));
      ParsesExactlyTheGrammar(raw, n, RawHead(verb, uri, raws));
    }
  }
}
