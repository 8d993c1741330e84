/**
 The HTTP/1.1 request head: the grammar that request_parse accepts, and the parser as a function of the
 bytes; the pointer-advancing methods of module RequestParser are proved equal to it.
 Bytes are chars; memchr and memmem are the three find functions below.
 */
module Request {
  import opened Wrappers

  datatype Method = Get | Head | Options | Trace | Put | Delete | Post | Patch | Connect

  // A field line split at its first colon; `text` is everything after the colon.
  datatype RawField = RawField(name: string, text: string)
  // A field as the parser reports it, the value trimmed.
  datatype Field = Field(name: string, value: string)
  datatype RawHead = RawHead(verb: Method, uri: string, fields: seq<RawField>)

  const MAX_HEADER_BYTES := 4096
  const VERSION := "HTTP/1.1"
  const CRLF := "\r\n"

  // ---------- searching ----------

  predicate IsCrlf(s: string, j: int) {
    0 <= j && j + 2 <= |s| && s[j] == '\r' && s[j + 1] == '\n'
  }

  /** The blank line that ends a head: two consecutive line ends. */
  predicate IsEnd(s: string, j: int) {
    IsCrlf(s, j) && IsCrlf(s, j + 2)
  }

  function FindChar(s: string, c: char, i: nat): (r: nat)
    requires i <= |s|
    ensures i <= r <= |s|
    ensures r < |s| ==> s[r] == c
    ensures forall j :: i <= j < r ==> s[j] != c
    decreases |s| - i
  {
    if i == |s| || s[i] == c then i else FindChar(s, c, i + 1)
  }

  function FindCrlf(s: string, i: nat): (r: nat)
    requires i <= |s|
    ensures i <= r <= |s|
    ensures r < |s| ==> IsCrlf(s, r)
    ensures forall j :: i <= j < r ==> !IsCrlf(s, j)
    decreases |s| - i
  {
    if i == |s| || IsCrlf(s, i) then i else FindCrlf(s, i + 1)
  }

  function FindEnd(s: string, i: nat): (r: nat)
    requires i <= |s|
    ensures i <= r <= |s|
    ensures r < |s| ==> IsEnd(s, r)
    ensures forall j :: i <= j < r ==> !IsEnd(s, j)
    decreases |s| - i
  {
    if i == |s| || IsEnd(s, i) then i else FindEnd(s, i + 1)
  }

  predicate NoCrlf(s: string) {
    forall j :: 0 <= j < |s| ==> !IsCrlf(s, j)
  }

  ghost predicate FirstEnd(s: string, e: nat) {
    IsEnd(s, e) && forall j :: 0 <= j < e ==> !IsEnd(s, j)
  }

  // ---------- trimming ----------

  predicate Blank(c: char) {
    c == ' ' || c == '\t'
  }

  function TrimLeft(v: string): (r: string)
    ensures |r| <= |v|
    ensures r != "" ==> !Blank(r[0])
  {
    if v != "" && Blank(v[0]) then TrimLeft(v[1..]) else v
  }

  function TrimRight(v: string): (r: string)
    ensures |r| <= |v| && r == v[..|r|]
    ensures r != "" ==> !Blank(r[|r| - 1])
  {
    if v != "" && Blank(v[|v| - 1]) then TrimRight(v[..|v| - 1]) else v
  }

  function Trim(v: string): string {
    TrimRight(TrimLeft(v))
  }

  ghost predicate Blanks(s: string) {
    forall i :: 0 <= i < |s| ==> s[i] == ' ' || s[i] == '\t'
  }

  /** Nothing, or something that neither starts nor ends with a space or a tab. */
  ghost predicate Solid(t: string) {
    t == "" || (t[0] != ' ' && t[0] != '\t' && t[|t| - 1] != ' ' && t[|t| - 1] != '\t')
  }

  lemma {:induction false} TrimLeftCuts(v: string)
    ensures exists a :: Blanks(a) && v == a + TrimLeft(v)
  {
    if v != "" && Blank(v[0]) {
      TrimLeftCuts(v[1..]);
      var a :| Blanks(a) && v[1..] == a + TrimLeft(v[1..]);
      assert v == ([v[0]] + a) + TrimLeft(v) && Blanks([v[0]] + a);
    } else {
      assert Blanks("") && v == "" + TrimLeft(v);
    }
  }

  lemma {:induction false} TrimRightCuts(v: string)
    ensures exists b :: Blanks(b) && v == TrimRight(v) + b
  {
    if v != "" && Blank(v[|v| - 1]) {
      var w := v[..|v| - 1];
      TrimRightCuts(w);
      var b :| Blanks(b) && w == TrimRight(w) + b;
      assert v == TrimRight(v) + (b + [v[|v| - 1]]) && Blanks(b + [v[|v| - 1]]);
    } else {
      assert Blanks("") && v == TrimRight(v) + "";
    }
  }

  lemma FrontWithin(a: string, u: string, a': string, u': string)
    requires a + u == a' + u' && Blanks(a') && u != "" && u[0] != ' ' && u[0] != '\t'
    ensures |a'| <= |a|
  {
    assert (a + u)[|a|] == u[0];
    assert forall i :: 0 <= i < |a'| ==> (a' + u')[i] == a'[i];
  }

  lemma BackWithin(u: string, b: string, u': string, b': string)
    requires u + b == u' + b' && Blanks(b') && u != "" && u[|u| - 1] != ' ' && u[|u| - 1] != '\t'
    ensures |b'| <= |b|
  {
    assert (u + b)[|u| - 1] == u[|u| - 1];
    assert forall i :: 0 <= i < |b'| ==> (u' + b')[|u'| + i] == b'[i];
    assert |b| < |b'| ==> |u| - 1 == |u'| + (|u| - 1 - |u'|);
  }

  /** What is not empty and has no blanks around it is no shorter than anything cut out of the same string. */
  lemma SolidLonger(a: string, t: string, b: string, a': string, t': string, b': string)
    requires Solid(t) && t != "" && Blanks(a') && Blanks(b') && a + t + b == a' + t' + b'
    ensures |a'| <= |a| && |b'| <= |b|
  {
    assert a + t + b == a + (t + b) && a' + t' + b' == a' + (t' + b');
    FrontWithin(a, t + b, a', t' + b');
    assert (a + t)[|a + t| - 1] == t[|t| - 1];
    BackWithin(a + t, b, a' + t', b');
  }

  /** A string without blanks around it can be cut out of a padded one in one way only. */
  lemma OneSolidPart(a: string, t: string, b: string, a': string, t': string, b': string)
    requires Blanks(a) && Blanks(b) && Solid(t) && Blanks(a') && Blanks(b') && Solid(t')
    requires a + t + b == a' + t' + b'
    ensures t == t'
  {
    hide Blanks, Solid;
    if t != "" {
      SolidLonger(a, t, b, a', t', b');
    }
    if t' != "" {
      SolidLonger(a', t', b', a, t, b);
    }
    assert |a + t + b| == |a' + t' + b'|;
    assert (a + t + b)[|a|..|a| + |t|] == t && (a' + t' + b')[|a'|..|a'| + |t'|] == t';
  }

  /** Trimming takes away all the spaces and tabs around a value, and nothing else. */
  lemma TrimExactly(v: string, t: string)
    ensures Trim(v) == t <==> Solid(t) && exists a, b :: Blanks(a) && Blanks(b) && v == a + t + b
  {
    hide TrimLeft, TrimRight, Blanks, Solid;
    TrimLeftCuts(v);
    TrimRightCuts(TrimLeft(v));
    var a :| Blanks(a) && v == a + TrimLeft(v);
    var b :| Blanks(b) && TrimLeft(v) == Trim(v) + b;
    assert v == a + Trim(v) + b;
    TrimSolid(v);
    if Solid(t) && exists a', b' :: Blanks(a') && Blanks(b') && v == a' + t + b' {
      var a', b' :| Blanks(a') && Blanks(b') && v == a' + t + b';
      OneSolidPart(a, Trim(v), b, a', t, b');
    }
  }

  lemma TrimSolid(v: string)
    ensures Solid(Trim(v))
  {
    var w := TrimLeft(v);
    assert TrimRight(w) != "" ==> TrimRight(w)[0] == w[0];
  }

  // ---------- the parser as a function ----------

  function Token(m: Method): string {
    match m
    case Get => "GET" case Head => "HEAD" case Options => "OPTIONS" case Trace => "TRACE"
    case Put => "PUT" case Delete => "DELETE" case Post => "POST" case Patch => "PATCH"
    case Connect => "CONNECT"
  }

  function ParseMethod(m: string): Option<Method> {
    if m == "GET" then Some(Get)
    else if m == "HEAD" then Some(Head)
    else if m == "OPTIONS" then Some(Options)
    else if m == "TRACE" then Some(Trace)
    else if m == "PUT" then Some(Put)
    else if m == "DELETE" then Some(Delete)
    else if m == "POST" then Some(Post)
    else if m == "PATCH" then Some(Patch)
    else if m == "CONNECT" then Some(Connect)
    else None
  }

  /** parse_status_line: the method and the URI of an acceptable line. */
  function ParseStatusLine(line: string): Option<(Method, string)> {
    var sp1 := FindChar(line, ' ', 0);
    if sp1 == |line| then None
    else
      var rest := line[sp1 + 1..];
      var sp2 := FindChar(rest, ' ', 0);
      if sp2 == |rest| then None
      else
        var version := rest[sp2 + 1..];
        if sp1 == 0 || sp2 == 0 then None
        else if FindChar(version, ' ', 0) < |version| then None
        else
          var m := ParseMethod(line[..sp1]);
          if m.Some? && version == VERSION then Some((m.value, rest[..sp2])) else None
  }

  /** One field line, split at its first colon. */
  function ParseField(line: string): Option<RawField> {
    var colon := FindChar(line, ':', 0);
    if colon == |line| || colon == 0 then None else Some(RawField(line[..colon], line[colon + 1..]))
  }

  /** The field lines of parse_headers before trimming. */
  function RawFields(raw: string): Option<seq<RawField>>
    decreases |raw|
  {
    if raw == "" then Some([])
    else
      var eol := FindCrlf(raw, 0);
      var field := ParseField(raw[..eol]);
      if field.None? then None
      else
        var rest := RawFields(if eol + 2 <= |raw| then raw[eol + 2..] else "");
        if rest.None? then None else Some([field.value] + rest.value)
  }

  function Trimmed(f: RawField): Field {
    Field(f.name, Trim(f.text))
  }

  function TrimmedAll(fs: seq<RawField>): (r: seq<Field>)
    ensures |r| == |fs|
    ensures forall i :: 0 <= i < |fs| ==> r[i] == Trimmed(fs[i])
  {
    seq(|fs|, i requires 0 <= i < |fs| => Trimmed(fs[i]))
  }

  /** The result 0, a negative result, or a positive one: n bytes hold this head. */
  datatype Verdict = Incomplete | Bad | Complete(n: nat, head: RawHead)

  /** The status line and the field lines, each with its line end. */
  function ParseHead(region: string): Option<RawHead> {
    var eol := FindCrlf(region, 0);
    if eol == |region| then None
    else
      var line := ParseStatusLine(region[..eol]);
      var fields := RawFields(region[eol + 2..]);
      if line.None? || fields.None? then None
      else Some(RawHead(line.value.0, line.value.1, fields.value))
  }

  function Decompose(raw: string): Verdict {
    var e := FindEnd(raw, 0);
    if e == |raw| then (if |raw| >= MAX_HEADER_BYTES then Bad else Incomplete)
    else
      var head := ParseHead(raw[..e + 2]);
      if head.None? then Bad else Complete(e + 4, head.value)
  }

  ghost predicate BlankLineAt(raw: string, j: int) {
    0 <= j && j + 4 <= |raw| && raw[j..j + 4] == "\r\n\r\n"
  }

  lemma BlankLineIsEnd(raw: string, j: int)
    ensures BlankLineAt(raw, j) <==> IsEnd(raw, j)
  {
    if 0 <= j && j + 4 <= |raw| {
      var w := raw[j..j + 4];
      assert w[0] == raw[j] && w[1] == raw[j + 1] && w[2] == raw[j + 2] && w[3] == raw[j + 3];
    }
  }

  /** More is needed exactly as long as fewer than 4096 bytes are in and no blank line is. */
  lemma IncompleteExactly(raw: string)
    ensures Decompose(raw) == Incomplete <==> |raw| < 4096 && forall j :: !BlankLineAt(raw, j)
  {
    hide ParseHead, IsEnd, BlankLineAt;
    var e := FindEnd(raw, 0);
    BlankLineIsEnd(raw, e);
    forall j | e == |raw| ensures !BlankLineAt(raw, j) {
      BlankLineIsEnd(raw, j);
      EndInside(raw, j);
    }
  }

  lemma EndInside(raw: string, j: int)
    ensures IsEnd(raw, j) ==> 0 <= j < |raw|
  {
  }

  // ---------- the grammar ----------

  function Line(f: RawField): string {
    f.name + ":" + f.text
  }

  function Lines(fs: seq<RawField>): string {
    if fs == [] then "" else Line(fs[0]) + CRLF + Lines(fs[1..])
  }

  function StatusLine(h: RawHead): string {
    Token(h.verb) + " " + h.uri + " " + VERSION
  }

  function Render(h: RawHead): string {
    StatusLine(h) + CRLF + Lines(h.fields) + CRLF
  }

  predicate ValidField(f: RawField) {
    f.name != "" && ':' !in f.name && NoCrlf(f.name) && NoCrlf(f.text)
  }

  predicate ValidHead(h: RawHead) {
    && h.uri != "" && ' ' !in h.uri && NoCrlf(h.uri)
    && forall i :: 0 <= i < |h.fields| ==> ValidField(h.fields[i])
  }

  // ---------- status line ----------

  lemma ParseMethodToken(m: Method)
    ensures ParseMethod(Token(m)) == Some(m)
    ensures ' ' !in Token(m) && Token(m) != "" && NoCrlf(Token(m))
  {
  }

  lemma TokenOfParsed(s: string)
    ensures ParseMethod(s).Some? ==> Token(ParseMethod(s).value) == s
  {
  }

  lemma FindCharIs(s: string, c: char, i: nat, r: nat)
    requires i <= r < |s| && s[r] == c && forall j :: i <= j < r ==> s[j] != c
    ensures FindChar(s, c, i) == r
  {
  }

  lemma SplitAt(t: string, c: char, rest: string)
    requires c !in t
    ensures FindChar(t + [c] + rest, c, 0) == |t|
    ensures (t + [c] + rest)[..|t|] == t && (t + [c] + rest)[|t| + 1..] == rest
  {
    var s := t + [c] + rest;
    assert s[|t|] == c;
    assert forall j :: 0 <= j < |t| ==> s[j] == t[j];
    FindCharIs(s, c, 0, |t|);
  }

  lemma VersionHasNoSpace()
    ensures FindChar(VERSION, ' ', 0) == |VERSION|
  {
    assert ' ' !in VERSION;
  }

  lemma StatusLineComplete(h: RawHead)
    requires ValidHead(h)
    ensures ParseStatusLine(StatusLine(h)) == Some((h.verb, h.uri))
  {
    hide Token, ParseMethod, NoCrlf;
    ParseMethodToken(h.verb);
    VersionHasNoSpace();
    var rest := h.uri + [' '] + VERSION;
    SplitAt(h.uri, ' ', VERSION);
    SplitAt(Token(h.verb), ' ', rest);
    assert StatusLine(h) == Token(h.verb) + [' '] + rest;
  }

  lemma TakeNoCrlf(s: string, k: nat)
    requires k <= |s| && NoCrlf(s)
    ensures NoCrlf(s[..k])
  {
    forall j | 0 <= j < k ensures !IsCrlf(s[..k], j) {
      assert !IsCrlf(s, j);
    }
  }

  lemma DropNoCrlf(s: string, k: nat)
    requires k <= |s| && NoCrlf(s)
    ensures NoCrlf(s[k..])
  {
    forall j | 0 <= j < |s| - k ensures !IsCrlf(s[k..], j) {
      assert !IsCrlf(s, k + j);
    }
  }

  /** What FindChar finds is where a sequence falls apart. */
  lemma CutAt(s: string, c: char)
    ensures var i := FindChar(s, c, 0);
            i < |s| ==> c !in s[..i] && s == s[..i] + [c] + s[i + 1..]
  {
  }

  /** The three parts of an accepted status line. */
  lemma StatusLineParts(line: string)
    requires ParseStatusLine(line).Some?
    ensures var (m, uri) := ParseStatusLine(line).value;
            && uri != "" && ' ' !in uri
            && exists sp1 :: 0 <= sp1 < |line| && ParseMethod(line[..sp1]) == Some(m)
                             && line == line[..sp1] + [' '] + (uri + [' '] + VERSION)
  {
    hide Token, ParseMethod, FindChar;
    var sp1 := FindChar(line, ' ', 0);
    var rest := line[sp1 + 1..];
    CutAt(line, ' ');
    CutAt(rest, ' ');
    assert rest[FindChar(rest, ' ', 0) + 1..] == VERSION;
  }

  lemma MiddleNoCrlf(a: string, b: string, c: string)
    requires NoCrlf(a + [' '] + (b + [' '] + c))
    ensures NoCrlf(b)
  {
    var s := a + [' '] + (b + [' '] + c);
    assert s[|a| + 1..][..|b|] == b;
    DropNoCrlf(s, |a| + 1);
    TakeNoCrlf(s[|a| + 1..], |b|);
  }

  lemma StatusLineSound(line: string, fields: seq<RawField>)
    requires ParseStatusLine(line).Some? && NoCrlf(line)
    ensures var (m, uri) := ParseStatusLine(line).value;
            && line == StatusLine(RawHead(m, uri, fields))
            && uri != "" && ' ' !in uri && NoCrlf(uri)
  {
    hide Token, ParseMethod, NoCrlf, ParseStatusLine;
    StatusLineParts(line);
    var (m, uri) := ParseStatusLine(line).value;
    var sp1 :| 0 <= sp1 < |line| && ParseMethod(line[..sp1]) == Some(m)
               && line == line[..sp1] + [' '] + (uri + [' '] + VERSION);
    TokenOfParsed(line[..sp1]);
    MiddleNoCrlf(line[..sp1], uri, VERSION);
    assert line == Token(m) + " " + uri + " " + VERSION;
  }

  // ---------- field lines ----------

  lemma FindCrlfAfter(line: string, rest: string)
    requires NoCrlf(line)
    ensures FindCrlf(line + CRLF + rest, 0) == |line|
  {
    var s := line + CRLF + rest;
    assert IsCrlf(s, |line|);
    forall j | 0 <= j < |line| ensures !IsCrlf(s, j) {
      assert !IsCrlf(line, j);
    }
  }

  lemma LineNoCrlf(f: RawField)
    requires ValidField(f)
    ensures NoCrlf(Line(f)) && ParseField(Line(f)) == Some(f)
  {
    var line := Line(f);
    SplitAt(f.name, ':', f.text);
    assert line == f.name + [':'] + f.text;
    forall j | 0 <= j < |line| ensures !IsCrlf(line, j) {
      assert j < |f.name| ==> !IsCrlf(f.name, j);
      assert j > |f.name| ==> !IsCrlf(f.text, j - |f.name| - 1);
    }
  }

  lemma FieldSound(line: string)
    requires NoCrlf(line) && ParseField(line).Some?
    ensures ValidField(ParseField(line).value) && Line(ParseField(line).value) == line
  {
    hide NoCrlf;
    var colon := FindChar(line, ':', 0);
    TakeNoCrlf(line, colon);
    DropNoCrlf(line, colon + 1);
    assert ':' !in line[..colon];
    assert line == line[..colon] + ":" + line[colon + 1..];
  }

  lemma {:induction false} RawFieldsComplete(fs: seq<RawField>)
    requires forall i :: 0 <= i < |fs| ==> ValidField(fs[i])
    ensures RawFields(Lines(fs)) == Some(fs)
  {
    hide NoCrlf, ValidField, ParseField, Line;
    if fs != [] {
      var line, rest := Line(fs[0]), Lines(fs[1..]);
      var raw := line + CRLF + rest;
      LineNoCrlf(fs[0]);
      FindCrlfAfter(line, rest);
      assert raw[..|line|] == line && raw[|line| + 2..] == rest;
      RawFieldsComplete(fs[1..]);
      assert fs == [fs[0]] + fs[1..];
    }
  }

  /** Nothing, or something that ends with a line end: what the parser hands to parse_headers. */
  predicate Terminated(raw: string) {
    raw == "" || IsCrlf(raw, |raw| - 2)
  }

  /** On such input the search for a line end never comes back empty-handed. */
  lemma LineEndFound(raw: string)
    requires Terminated(raw) && raw != ""
    ensures FindCrlf(raw, 0) + 2 <= |raw|
    ensures Terminated(raw[FindCrlf(raw, 0) + 2..])
  {
    var eol := FindCrlf(raw, 0);
    assert eol <= |raw| - 2;
    var rest := raw[eol + 2..];
    if rest != "" {
      assert eol < |raw| - 2;
      assert raw[eol + 1] == '\n' && raw[|raw| - 2] == '\r';
      assert rest[|rest| - 2] == raw[|raw| - 2] && rest[|rest| - 1] == raw[|raw| - 1];
    }
  }

  lemma BeforeCrlf(raw: string)
    ensures NoCrlf(raw[..FindCrlf(raw, 0)])
  {
    var eol := FindCrlf(raw, 0);
    forall j | 0 <= j < eol ensures !IsCrlf(raw[..eol], j) {
      assert !IsCrlf(raw, j);
    }
  }

  lemma RawFieldsStep(raw: string)
    requires Terminated(raw) && raw != "" && RawFields(raw).Some?
    ensures var eol := FindCrlf(raw, 0);
            && eol + 2 <= |raw| && Terminated(raw[eol + 2..])
            && RawFields(raw[eol + 2..]).Some? && ParseField(raw[..eol]).Some?
            && RawFields(raw) == Some([ParseField(raw[..eol]).value] + RawFields(raw[eol + 2..]).value)
  {
    hide Terminated, ParseField;
    LineEndFound(raw);
  }

  lemma LinesCons(f: RawField, fs: seq<RawField>)
    ensures Lines([f] + fs) == Line(f) + CRLF + Lines(fs)
  {
    assert ([f] + fs)[1..] == fs;
  }

  lemma {:induction false} RawFieldsSound(raw: string)
    requires Terminated(raw) && RawFields(raw).Some?
    ensures Lines(RawFields(raw).value) == raw
    ensures forall i :: 0 <= i < |RawFields(raw).value| ==> ValidField(RawFields(raw).value[i])
    decreases |raw|
  {
    if raw == "" {
    } else {
      RawFieldsSoundStep(raw);
    }
  }

  lemma {:induction false} RawFieldsSoundStep(raw: string)
    requires Terminated(raw) && RawFields(raw).Some? && raw != ""
    ensures Lines(RawFields(raw).value) == raw
    ensures forall i :: 0 <= i < |RawFields(raw).value| ==> ValidField(RawFields(raw).value[i])
    decreases |raw|, 0
  {
    hide NoCrlf, ValidField, Terminated, RawFields, Lines, Line, ParseField;
    RawFieldsStep(raw);
    BeforeCrlf(raw);
    var eol := FindCrlf(raw, 0);
    var line, rest := raw[..eol], raw[eol + 2..];
    FieldSound(line);
    RawFieldsSound(rest);
    LinesCons(ParseField(line).value, RawFields(rest).value);
    assert raw == line + CRLF + rest;
  }

  // ---------- the end of the head ----------

  lemma EndAfterLine(line: string, s: string, e: nat)
    requires NoCrlf(line) && FirstEnd(s, e) && !IsCrlf(s, 0)
    ensures FirstEnd(line + CRLF + s, |line| + 2 + e)
  {
    var t := line + CRLF + s;
    assert forall j :: 0 <= j < |s| ==> t[|line| + 2 + j] == s[j];
    forall j | 0 <= j < |line| + 2 + e ensures !IsEnd(t, j) {
      if j < |line| {
        assert !IsCrlf(line, j);
      } else if j >= |line| + 2 {
        assert !IsEnd(s, j - |line| - 2);
        assert IsEnd(t, j) ==> IsEnd(s, j - |line| - 2);
      } else if j == |line| {
        assert IsCrlf(t, j + 2) ==> IsCrlf(s, 0);
      }
    }
  }

  lemma EndAtBlankLine(line: string, rest: string)
    requires NoCrlf(line)
    ensures FirstEnd(line + CRLF + (CRLF + rest), |line|)
  {
    var t := line + CRLF + (CRLF + rest);
    forall j | 0 <= j < |line| ensures !IsEnd(t, j) {
      assert !IsCrlf(line, j);
    }
  }

  lemma {:induction false} EndOfLines(first: string, fs: seq<RawField>, rest: string)
    requires NoCrlf(first) && forall i :: 0 <= i < |fs| ==> ValidField(fs[i])
    ensures FirstEnd(first + CRLF + Lines(fs) + CRLF + rest, |first| + |Lines(fs)|)
    decreases |fs|
  {
    if fs == [] {
      EndAtBlankLine(first, rest);
      assert first + CRLF + Lines(fs) + CRLF + rest == first + CRLF + (CRLF + rest);
    } else {
      var f := fs[0];
      LineNoCrlf(f);
      EndOfLines(Line(f), fs[1..], rest);
      var s := Line(f) + CRLF + Lines(fs[1..]) + CRLF + rest;
      assert !IsCrlf(s, 0) by {
        assert !IsCrlf(Line(f), 0);
      }
      EndAfterLine(first, s, |Line(f)| + |Lines(fs[1..])|);
      assert first + CRLF + Lines(fs) + CRLF + rest == first + CRLF + s;
    }
  }

  // ---------- main results ----------

  lemma StatusLineNoCrlf(h: RawHead)
    requires ValidHead(h)
    ensures NoCrlf(StatusLine(h))
  {
    var t := Token(h.verb);
    var line := StatusLine(h);
    ParseMethodToken(h.verb);
    assert line == t + " " + h.uri + " " + VERSION;
    forall j | 0 <= j < |line| ensures !IsCrlf(line, j) {
      assert j < |t| ==> line[j] == t[j] && !IsCrlf(t, j);
      assert |t| < j <= |t| + |h.uri| ==> line[j] == h.uri[j - |t| - 1] && !IsCrlf(h.uri, j - |t| - 1);
    }
  }

  lemma FirstEndIs(s: string, e: nat)
    requires FirstEnd(s, e)
    ensures FindEnd(s, 0) == e
  {
  }

  lemma ParseHeadComplete(h: RawHead)
    requires ValidHead(h)
    ensures ParseHead(StatusLine(h) + CRLF + Lines(h.fields)) == Some(h)
  {
    var line := StatusLine(h);
    var region := line + CRLF + Lines(h.fields);
    StatusLineNoCrlf(h);
    FindCrlfAfter(line, Lines(h.fields));
    StatusLineComplete(h);
    RawFieldsComplete(h.fields);
    assert region[..|line|] == line && region[|line| + 2..] == Lines(h.fields);
  }

  lemma ParseHeadSound(region: string)
    requires Terminated(region) && ParseHead(region).Some?
    ensures var h := ParseHead(region).value;
            ValidHead(h) && region == StatusLine(h) + CRLF + Lines(h.fields)
  {
    hide NoCrlf, ValidField, Terminated, StatusLine, ParseStatusLine, RawFields, Lines;
    LineEndFound(region);
    BeforeCrlf(region);
    var eol := FindCrlf(region, 0);
    RawFieldsSound(region[eol + 2..]);
    StatusLineSound(region[..eol], RawFields(region[eol + 2..]).value);
    assert region == region[..eol] + CRLF + region[eol + 2..];
  }

  /** Every grammatical head is accepted as itself, whatever follows it. */
  lemma DecomposeComplete(h: RawHead, rest: string)
    requires ValidHead(h)
    ensures Decompose(Render(h) + rest) == Complete(|Render(h)|, h)
  {
    hide ValidHead, ParseHead, NoCrlf;
    var line, lines := StatusLine(h), Lines(h.fields);
    var raw := Render(h) + rest;
    StatusLineNoCrlf(h);
    FieldsOfValid(h);
    EndOfLines(line, h.fields, rest);
    var e := |line| + |lines|;
    assert raw == line + CRLF + lines + CRLF + rest;
    FirstEndIs(raw, e);
    ParseHeadComplete(h);
    assert raw[..e + 2] == line + CRLF + lines;
  }

  lemma FieldsOfValid(h: RawHead)
    requires ValidHead(h)
    ensures forall i :: 0 <= i < |h.fields| ==> ValidField(h.fields[i])
  {
  }

  /** Whatever is accepted is a grammatical head at the start of the buffer. */
  lemma DecomposeSound(raw: string)
    requires Decompose(raw).Complete?
    ensures var Complete(n, h) := Decompose(raw);
            ValidHead(h) && n == |Render(h)| <= |raw| && raw[..n] == Render(h)
  {
    hide ParseHead, ValidHead, StatusLine, FindEnd, FirstEnd, Lines;
    var e := FindEnd(raw, 0);
    FallbacksUnreachable(raw);
    ParseHeadSound(raw[..e + 2]);
    assert raw[..e + 4] == raw[..e + 2] + CRLF;
  }

  /** The two fallbacks for a missing line end are never taken: once the blank line is found, there
      is a line end for the status line, and what is left for the field lines is terminated, which
      LineEndFound keeps so line after line. */
  lemma FallbacksUnreachable(raw: string)
    requires FindEnd(raw, 0) < |raw|
    ensures var region := raw[..FindEnd(raw, 0) + 2];
            && Terminated(region)
            && FindCrlf(region, 0) < |region|
            && Terminated(region[FindCrlf(region, 0) + 2..])
  {
    var e := FindEnd(raw, 0);
    assert IsCrlf(raw[..e + 2], e);
    LineEndFound(raw[..e + 2]);
  }

  /** request_parse returns n > 0 with this decomposition exactly when the buffer starts with the
      n bytes of this grammatical head. */
  lemma ParsesExactlyTheGrammar(raw: string, n: nat, h: RawHead)
    ensures Decompose(raw) == Complete(n, h)
            <==> ValidHead(h) && n == |Render(h)| <= |raw| && raw[..n] == Render(h)
  {
    hide Decompose, ValidHead, Render;
    if Decompose(raw) == Complete(n, h) {
      DecomposeSound(raw);
    }
    if ValidHead(h) && n == |Render(h)| <= |raw| && raw[..n] == Render(h) {
      DecomposeComplete(h, raw[n..]);
      assert raw == Render(h) + raw[n..];
    }
  }

  /** The decomposition is unique: no buffer starts with two grammatical heads. */
  lemma HeadUnique(h1: RawHead, rest1: string, h2: RawHead, rest2: string)
    requires ValidHead(h1) && ValidHead(h2)
    requires Render(h1) + rest1 == Render(h2) + rest2
    ensures h1 == h2 && rest1 == rest2
  {
    hide Decompose, ValidHead, Render;
    DecomposeComplete(h1, rest1);
    DecomposeComplete(h2, rest2);
    var n := |Render(h1)|;
    assert rest1 == (Render(h1) + rest1)[n..] == (Render(h2) + rest2)[n..] == rest2;
  }
}
