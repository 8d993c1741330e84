/**
 Routes: a path cut into segments at every slash, each flagged as dynamic when it starts with a colon.
 */
module Route {
  import opened Wrappers
  import Request

  type Path = seq<string>

  datatype Segment = Segment(text: string, dynamic: bool)
  datatype Route<+C> = Route(segments: seq<Segment>, verb: Request.Method, callback: Option<C>)

  predicate Dynamic(segment: string) {
    segment != "" && segment[0] == ':'
  }

  lemma DynamicExactly(segment: string)
    ensures Dynamic(segment) <==> exists t :: segment == ":" + t
  {
    if Dynamic(segment) {
      assert segment == ":" + segment[1..];
    }
  }

  // ---------- cutting a URI ----------

  /** sdssplitlen with a one-byte separator, on a string that is not empty. */
  function Pieces(s: string): (ps: Path)
    ensures ps != []
  {
    if s == "" then [""]
    else
      var rest := Pieces(s[1..]);
      if s[0] == '/' then [""] + rest else [[s[0]] + rest[0]] + rest[1..]
  }

  /** sdssplitlen: the empty string has no pieces at all. */
  function Split(s: string): Path {
    if s == "" then [] else Pieces(s)
  }

  function Join(ps: Path): string {
    if ps == [] then "" else if |ps| == 1 then ps[0] else ps[0] + "/" + Join(ps[1..])
  }

  predicate SlashFree(ps: Path) {
    forall i :: 0 <= i < |ps| ==> '/' !in ps[i]
  }

  lemma {:induction false} PiecesJoin(s: string)
    ensures Join(Pieces(s)) == s && SlashFree(Pieces(s))
  {
    if s != "" {
      PiecesJoin(s[1..]);
      var rest := Pieces(s[1..]);
      if s[0] == '/' {
        assert ([""] + rest)[1..] == rest;
      } else {
        assert ([[s[0]] + rest[0]] + rest[1..])[1..] == rest[1..];
      }
    }
  }

  lemma {:induction false} PiecesOfPiece(p: string)
    requires '/' !in p
    ensures Pieces(p) == [p]
  {
    if p != "" {
      PiecesOfPiece(p[1..]);
      assert [p[0]] + p[1..] == p;
    }
  }

  lemma {:induction false} PiecesCut(p: string, s: string)
    requires '/' !in p
    ensures Pieces(p + "/" + s) == [p] + Pieces(s)
  {
    if p == "" {
      assert p + "/" + s == "/" + s && ("/" + s)[1..] == s;
    } else {
      PiecesCut(p[1..], s);
      assert (p + "/" + s)[1..] == p[1..] + "/" + s;
      assert [p[0]] + p[1..] == p;
    }
  }

  lemma {:induction false} JoinPieces(ps: Path)
    requires ps != [] && SlashFree(ps)
    ensures Pieces(Join(ps)) == ps
  {
    if |ps| == 1 {
      PiecesOfPiece(ps[0]);
    } else {
      JoinPieces(ps[1..]);
      PiecesCut(ps[0], Join(ps[1..]));
    }
  }

  /** A list of segments is what some URI is cut into exactly when it has no slash inside a segment and
      is not the single empty segment; the URI is then unique. */
  lemma SplitExactly(ps: Path, uri: string)
    ensures Split(uri) == ps <==> SlashFree(ps) && ps != [""] && uri == Join(ps)
  {
    PiecesJoin(uri);
    if ps != [] && SlashFree(ps) {
      JoinPieces(ps);
      assert Pieces("") == [""];
    }
  }

  // ---------- route_create ----------

  function PathOf<C>(rt: Route<C>): (p: Path)
    ensures |p| == |rt.segments| && forall i :: 0 <= i < |p| ==> p[i] == rt.segments[i].text
  {
    seq(|rt.segments|, i requires 0 <= i < |rt.segments| => rt.segments[i].text)
  }

  /** What the trie relies on: every flag says whether its segment starts with a colon. */
  predicate Flagged<C>(rt: Route<C>) {
    forall i :: 0 <= i < |rt.segments| ==> rt.segments[i].dynamic == Dynamic(rt.segments[i].text)
  }

  method Create<C>(verb: Request.Method, uri: string, callback: Option<C>) returns (rt: Route<C>)
    ensures rt.verb == verb && rt.callback == callback && Flagged(rt)
    ensures forall i :: 0 <= i < |rt.segments| ==>
                      (rt.segments[i].dynamic <==> exists t :: rt.segments[i].text == ":" + t)
    ensures SlashFree(PathOf(rt)) && Join(PathOf(rt)) == uri && PathOf(rt) != [""]
  {
    var strs := Split(uri);
    var segments := [];
    var i := 0;
    while i < |strs|
      invariant 0 <= i == |segments| <= |strs|
      invariant forall k :: 0 <= k < i ==> segments[k] == Segment(strs[k], Dynamic(strs[k]))
    {
      segments := segments + [Segment(strs[i], strs[i] != "" && strs[i][0] == ':')];
      i := i + 1;
    }
    rt := Route(segments, verb, callback);
    assert PathOf(rt) == Split(uri);
    SplitExactly(PathOf(rt), uri);
    forall k | 0 <= k < |strs|
      ensures rt.segments[k].dynamic <==> exists t :: rt.segments[k].text == ":" + t
    {
      DynamicExactly(strs[k]);
    }
  }
}
