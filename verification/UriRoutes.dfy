/**
 Static routing in terms of URIs alone: what is registered for which URI, and what a request's URI gets.
 */
module UriRoutes {
  import opened Wrappers
  import opened Route
  import opened RouteTable
  import opened RouteTrie
  import Request

  // What the caller registers: a method, a URI and a callback.
  datatype Registration<+C> = Registration(verb: Request.Method, uri: string, callback: Option<C>)

  /** No segment of the URI starts with a colon. */
  ghost predicate NoColons(uri: string) {
    && (uri != "" ==> uri[0] != ':')
    && forall i :: 0 <= i < |uri| - 1 ==> !(uri[i] == '/' && uri[i + 1] == ':')
  }

  /** `more` goes on where `uri` ends, behind a slash; every URI goes on from the empty one. */
  ghost predicate GoesOn(uri: string, more: string) {
    if uri == "" then more != "" else uri + "/" <= more
  }

  function Tabled<C>(regs: seq<Registration<C>>): (rs: Table<C>)
    ensures |rs| == |regs|
    ensures forall i :: 0 <= i < |regs| ==> rs[i] == Entry(regs[i].verb, Split(regs[i].uri), regs[i].callback)
  {
    seq(|regs|, i requires 0 <= i < |regs| => Entry(regs[i].verb, Split(regs[i].uri), regs[i].callback))
  }

  // ---------- URIs and their segments ----------

  lemma {:induction false} PiecesStatic(s: string)
    requires forall i :: 0 <= i < |s| - 1 ==> !(s[i] == '/' && s[i + 1] == ':')
    ensures forall j :: 1 <= j < |Pieces(s)| ==> !Dynamic(Pieces(s)[j])
    ensures Dynamic(Pieces(s)[0]) ==> s != "" && s[0] == ':'
  {
    if s != "" {
      PiecesStatic(s[1..]);
      var rest := Pieces(s[1..]);
      assert s[0] == '/' ==> Pieces(s) == [""] + rest;
      assert s[0] != '/' ==> Pieces(s)[0] == [s[0]] + rest[0] && Pieces(s)[1..] == rest[1..];
      assert s[0] == '/' && |s| > 1 ==> s[1..][0] != ':';
    }
  }

  lemma StaticUri(uri: string)
    requires NoColons(uri)
    ensures forall j :: 0 <= j < |Split(uri)| ==> !Dynamic(Split(uri)[j])
  {
    PiecesStatic(uri);
  }

  lemma {:induction false} JoinConcat(ps: Path, rs: Path)
    requires ps != [] && rs != []
    ensures Join(ps + rs) == Join(ps) + "/" + Join(rs)
  {
    if |ps| == 1 {
      assert (ps + rs)[1..] == rs;
    } else {
      JoinConcat(ps[1..], rs);
      assert (ps + rs)[1..] == ps[1..] + rs;
    }
  }

  lemma PiecesConcat(q: string, rest: string)
    ensures Pieces(q + "/" + rest) == Pieces(q) + Pieces(rest)
  {
    hide Pieces, Join;
    PiecesJoin(q);
    PiecesJoin(rest);
    JoinConcat(Pieces(q), Pieces(rest));
    JoinPieces(Pieces(q) + Pieces(rest));
  }

  /** One URI's segments continue another's exactly when the URI does. */
  lemma SegmentsGoOn(q: string, u: string)
    ensures Split(q) < Split(u) <==> GoesOn(q, u)
  {
    hide Pieces, Join;
    PiecesJoin(q);
    PiecesJoin(u);
    if q != "" && q + "/" <= u {
      var rest := u[|q| + 1..];
      assert u == q + "/" + rest;
      PiecesConcat(q, rest);
    }
    if q != "" && Split(q) < Split(u) {
      var rest := Pieces(u)[|Pieces(q)|..];
      assert Pieces(u) == Pieces(q) + rest;
      JoinConcat(Pieces(q), rest);
    }
  }

  lemma SameSegments(q: string, u: string)
    ensures Split(q) == Split(u) <==> q == u
  {
    SplitExactly(Split(q), q);
    SplitExactly(Split(q), u);
  }

  // ---------- the law ----------

  /** The last registration for this method and URI. */
  ghost predicate LastFor<C>(regs: seq<Registration<C>>, v: Request.Method, uri: string, i: nat) {
    && i < |regs| && regs[i].verb == v && regs[i].uri == uri
    && forall j :: i < j < |regs| ==> !(regs[j].verb == v && regs[j].uri == uri)
  }

  ghost predicate IsRegistered<C>(regs: seq<Registration<C>>, v: Request.Method, uri: string) {
    exists i :: 0 <= i < |regs| && regs[i].verb == v && regs[i].uri == uri
  }

  /** A registered URI that the request's goes on from, while no registered one does. */
  ghost predicate Takes<C>(regs: seq<Registration<C>>, v: Request.Method, q: string, uri: string) {
    && IsRegistered(regs, v, q) && GoesOn(q, uri)
    && forall j :: 0 <= j < |regs| && regs[j].verb == v ==> !GoesOn(q, regs[j].uri)
  }

  /** What a request gets. */
  ghost predicate Answer<C>(regs: seq<Registration<C>>, v: Request.Method, uri: string, callback: Option<C>) {
    && (forall i: nat :: LastFor(regs, v, uri, i) ==> callback == regs[i].callback)
    && (forall q, i: nat :: Takes(regs, v, q, uri) && LastFor(regs, v, q, i) ==> callback == regs[i].callback)
    && (!IsRegistered(regs, v, uri) && (forall q :: !Takes(regs, v, q, uri)) ==> callback == None)
  }

  lemma RegisteredLast<C>(regs: seq<Registration<C>>, v: Request.Method, uri: string, i: nat)
    requires LastFor(regs, v, uri, i)
    ensures Registered(Tabled(regs), v, Split(uri)) == regs[i].callback && Reaches(Tabled(regs), v, Split(uri))
  {
    var rs := Tabled(regs);
    forall j | i < j < |rs| ensures rs[j].verb != v || rs[j].path != Split(uri) {
      SameSegments(regs[j].uri, uri);
    }
    RegisteredIsLast(rs, v, Split(uri), i);
    assert rs[i].verb == v && Split(uri) <= rs[i].path;
  }

  lemma NotRegistered<C>(regs: seq<Registration<C>>, v: Request.Method, uri: string)
    requires !IsRegistered(regs, v, uri)
    ensures Registered(Tabled(regs), v, Split(uri)) == None
  {
    var rs := Tabled(regs);
    forall j | 0 <= j < |rs| ensures rs[j].verb != v || rs[j].path != Split(uri) {
      SameSegments(regs[j].uri, uri);
    }
    RegisteredNowhere(rs, v, Split(uri));
  }

  lemma TakesAbsorbs<C>(regs: seq<Registration<C>>, v: Request.Method, q: string, uri: string)
    ensures Takes(regs, v, q, uri) <==> Absorbs(Tabled(regs), v, Split(q), Split(uri))
  {
    var rs := Tabled(regs);
    SegmentsGoOn(q, uri);
    forall j | 0 <= j < |regs|
      ensures (GoesOn(q, regs[j].uri) <==> Split(q) < rs[j].path) && (regs[j].uri == q <==> rs[j].path == Split(q))
    {
      SegmentsGoOn(q, regs[j].uri);
      SameSegments(regs[j].uri, q);
    }
    if i :| 0 <= i < |regs| && regs[i].verb == v && regs[i].uri == q {
      assert rs[i].verb == v && rs[i].path == Split(q);
    }
    if i :| 0 <= i < |rs| && rs[i].verb == v && rs[i].path == Split(q) {
      assert regs[i].verb == v && regs[i].uri == q;
    }
  }

  /** Whatever absorbs is some registered URI. */
  lemma AbsorberHasUri<C>(regs: seq<Registration<C>>, v: Request.Method, p: Path, uri: string)
    requires Absorbs(Tabled(regs), v, p, Split(uri))
    ensures exists q :: Split(q) == p && Takes(regs, v, q, uri)
  {
    var rs := Tabled(regs);
    var i :| 0 <= i < |rs| && rs[i].verb == v && rs[i].path == p;
    TakesAbsorbs(regs, v, regs[i].uri, uri);
    assert Split(regs[i].uri) == p;
  }

  /** For URIs without dynamic segments a lookup gives the callback registered last for the very URI; else
      that of the registered URI which the request's goes on from and no registered one does; else nothing. */
  lemma UriLookup<C>(regs: seq<Registration<C>>, v: Request.Method, uri: string)
    requires forall i :: 0 <= i < |regs| && regs[i].verb == v ==> NoColons(regs[i].uri)
    ensures Answer(regs, v, uri, Lookup(Tabled(regs), v, Split(uri)))
  {
    hide Lookup, Registered, Reaches, Absorbs, Takes, Split, IsRegistered, NoColons, Dynamic;
    var rs := Tabled(regs);
    TabledStatic(regs, v);
    StaticLookup(rs, v, Split(uri));
    forall i: nat | LastFor(regs, v, uri, i) ensures Lookup(rs, v, Split(uri)) == regs[i].callback {
      RegisteredLast(regs, v, uri, i);
    }
    forall q, i: nat | Takes(regs, v, q, uri) && LastFor(regs, v, q, i)
      ensures Lookup(rs, v, Split(uri)) == regs[i].callback
    {
      TakesAbsorbs(regs, v, q, uri);
      RegisteredLast(regs, v, q, i);
    }
    if !IsRegistered(regs, v, uri) && forall q :: !Takes(regs, v, q, uri) {
      NotRegistered(regs, v, uri);
      forall p ensures !Absorbs(rs, v, p, Split(uri)) {
        if Absorbs(rs, v, p, Split(uri)) {
          AbsorberHasUri(regs, v, p, uri);
        }
      }
    }
  }

  lemma TabledStatic<C>(regs: seq<Registration<C>>, v: Request.Method)
    requires forall i :: 0 <= i < |regs| && regs[i].verb == v ==> NoColons(regs[i].uri)
    ensures Static(Tabled(regs), v)
  {
    hide NoColons, Dynamic;
    var rs := Tabled(regs);
    forall i, j | 0 <= i < |rs| && rs[i].verb == v && 0 <= j < |rs[i].path| ensures !Dynamic(rs[i].path[j]) {
      StaticUri(regs[i].uri);
    }
  }

  /** Routes created from these registrations and added in this order, then a request for a URI. */
  method FindAmong<C>(regs: seq<Registration<C>>, v: Request.Method, uri: string) returns (callback: Option<C>)
    ensures callback == Lookup(Tabled(regs), v, Split(uri))
    ensures (forall i :: 0 <= i < |regs| && regs[i].verb == v ==> NoColons(regs[i].uri)) ==> Answer(regs, v, uri, callback)
  {
    hide Lookup, Split, NoColons, Answer, Trie.Valid;
    var trie := new Trie<C>();
    var i := 0;
    while i < |regs|
      invariant 0 <= i <= |regs|
      invariant trie.Valid() && fresh(trie) && fresh(trie.nodes.Values) && trie.routes == Tabled(regs)[..i]
    {
      var rt := Create(regs[i].verb, regs[i].uri, regs[i].callback);
      SplitExactly(PathOf(rt), regs[i].uri);
      trie.AddRoute(rt);
      assert Tabled(regs)[..i + 1] == Tabled(regs)[..i] + [Tabled(regs)[i]];
      i := i + 1;
    }
    callback := trie.Find(v, Split(uri));
    assert Tabled(regs)[..i] == Tabled(regs);
    if forall k :: 0 <= k < |regs| && regs[k].verb == v ==> NoColons(regs[k].uri) {
      UriLookup(regs, v, uri);
    }
  }
}
