/**
 What the route trie stands for: the flat list of routes in the order they were added. A node of the
 trie is the path that leads to it; everything below is a function of the list.
 */
module RouteTable {
  import opened Wrappers
  import opened Route
  import Request

  // A route with its segments reduced to their texts.
  datatype Entry<+C> = Entry(verb: Request.Method, path: Path, callback: Option<C>)

  type Table<C> = seq<Entry<C>>

  // ---------- nodes ----------

  /** Some route passes through the node or ends there. */
  ghost predicate Reaches<C>(rs: Table<C>, v: Request.Method, at: Path) {
    exists i :: 0 <= i < |rs| && rs[i].verb == v && at <= rs[i].path
  }

  /** The segments below a node, in the order in which routes first used them. */
  function Kids<C>(rs: Table<C>, v: Request.Method, at: Path): (ks: seq<string>)
    ensures forall i, j :: 0 <= i < j < |ks| ==> ks[i] != ks[j]
  {
    if rs == [] then []
    else
      var ks, r := Kids(rs[..|rs| - 1], v, at), rs[|rs| - 1];
      if r.verb == v && at < r.path && r.path[|at|] !in ks then ks + [r.path[|at|]] else ks
  }

  /** The callback at a node: that of the route added last for exactly this path. */
  function Registered<C>(rs: Table<C>, v: Request.Method, at: Path): Option<C> {
    if rs == [] then None
    else if rs[|rs| - 1].verb == v && rs[|rs| - 1].path == at then rs[|rs| - 1].callback
    else Registered(rs[..|rs| - 1], v, at)
  }

  lemma {:induction false} RegisteredIsLast<C>(rs: Table<C>, v: Request.Method, at: Path, i: nat)
    requires i < |rs| && rs[i].verb == v && rs[i].path == at
    requires forall j :: i < j < |rs| ==> rs[j].verb != v || rs[j].path != at
    ensures Registered(rs, v, at) == rs[i].callback
  {
    if i < |rs| - 1 {
      RegisteredIsLast(rs[..|rs| - 1], v, at, i);
    }
  }

  lemma {:induction false} RegisteredNowhere<C>(rs: Table<C>, v: Request.Method, at: Path)
    requires forall j :: 0 <= j < |rs| ==> rs[j].verb != v || rs[j].path != at
    ensures Registered(rs, v, at) == None
  {
    if rs != [] {
      RegisteredNowhere(rs[..|rs| - 1], v, at);
    }
  }

  lemma Longer(at: Path, k: string, p: Path)
    ensures at + [k] <= p <==> at < p && p[|at|] == k
  {
    if at + [k] <= p {
      assert p[..|at|] == at;
    }
    if at < p && p[|at|] == k {
      assert p[..|at| + 1] == p[..|at|] + [p[|at|]];
    }
  }

  lemma ReachesSnoc<C>(rs: Table<C>, v: Request.Method, at: Path)
    requires rs != []
    ensures Reaches(rs, v, at)
            <==> Reaches(rs[..|rs| - 1], v, at) || (rs[|rs| - 1].verb == v && at <= rs[|rs| - 1].path)
  {
    var before := rs[..|rs| - 1];
    assert forall i :: 0 <= i < |before| ==> before[i] == rs[i];
  }

  lemma {:induction false} KidsExactly<C>(rs: Table<C>, v: Request.Method, at: Path, k: string)
    ensures k in Kids(rs, v, at) <==> Reaches(rs, v, at + [k])
  {
    if rs != [] {
      var before, r := rs[..|rs| - 1], rs[|rs| - 1];
      KidsExactly(before, v, at, k);
      Longer(at, k, r.path);
      ReachesSnoc(rs, v, at + [k]);
    }
  }

  lemma LeafExactly<C>(rs: Table<C>, v: Request.Method, at: Path)
    ensures Kids(rs, v, at) == [] <==> forall i :: 0 <= i < |rs| && rs[i].verb == v ==> !(at < rs[i].path)
  {
    if Kids(rs, v, at) != [] {
      var k := Kids(rs, v, at)[0];
      KidsExactly(rs, v, at, k);
      var i :| 0 <= i < |rs| && rs[i].verb == v && at + [k] <= rs[i].path;
      Longer(at, k, rs[i].path);
    }
    forall i | 0 <= i < |rs| && rs[i].verb == v && at < rs[i].path ensures Kids(rs, v, at) != [] {
      var k := rs[i].path[|at|];
      Longer(at, k, rs[i].path);
      KidsExactly(rs, v, at, k);
    }
  }

  lemma ReachesUp<C>(rs: Table<C>, v: Request.Method, p: Path, q: Path)
    requires p <= q
    ensures Reaches(rs, v, q) ==> Reaches(rs, v, p)
  {
    assert forall i :: 0 <= i < |rs| && q <= rs[i].path ==> p <= rs[i].path;
  }

  // ---------- the search ----------

  /** The first child that is equal or dynamic; |ks| if there is none. */
  function Choice(ks: seq<string>, segment: string): (i: nat)
    ensures i <= |ks|
    ensures i < |ks| ==> ks[i] == segment || Dynamic(ks[i])
    ensures forall j :: 0 <= j < i ==> ks[j] != segment && !Dynamic(ks[j])
  {
    if ks == [] || ks[0] == segment || Dynamic(ks[0]) then 0 else 1 + Choice(ks[1..], segment)
  }

  /** Where the search for the segments u ends when it stands at a node. A node without children
      absorbs whatever is left of u. */
  function Landing<C>(rs: Table<C>, v: Request.Method, at: Path, u: Path): Option<Path>
    decreases |u|
  {
    var ks := Kids(rs, v, at);
    if u == [] || ks == [] then Some(at)
    else
      var i := Choice(ks, u[0]);
      if i < |ks| then Landing(rs, v, at + [ks[i]], u[1..]) else None
  }

  function Lookup<C>(rs: Table<C>, v: Request.Method, u: Path): Option<C> {
    var landing := Landing(rs, v, [], u);
    if landing.Some? then Registered(rs, v, landing.value) else None
  }

  /** The first route to use the segment k below a node. */
  ghost predicate FirstUse<C>(rs: Table<C>, v: Request.Method, at: Path, k: string, i: nat) {
    && i < |rs| && rs[i].verb == v && at + [k] <= rs[i].path
    && forall j :: 0 <= j < i && rs[j].verb == v ==> !(at + [k] <= rs[j].path)
  }

  lemma {:induction false} KidsInOrder<C>(rs: Table<C>, v: Request.Method, at: Path, a: nat, b: nat, i: nat, j: nat)
    requires a < |Kids(rs, v, at)| && b < |Kids(rs, v, at)|
    requires FirstUse(rs, v, at, Kids(rs, v, at)[a], i) && FirstUse(rs, v, at, Kids(rs, v, at)[b], j)
    ensures a < b <==> i < j
  {
    var before, r := rs[..|rs| - 1], rs[|rs| - 1];
    var ks := Kids(before, v, at);
    var all := Kids(rs, v, at);
    forall c, m | 0 <= c < |all| && FirstUse(rs, v, at, all[c], m)
      ensures if c < |ks| then FirstUse(before, v, at, all[c], m) else m == |before| && c == |ks|
    {
      KidsExactly(before, v, at, all[c]);
      Longer(at, all[c], r.path);
      if c < |ks| {
        var n :| 0 <= n < |before| && before[n].verb == v && at + [all[c]] <= before[n].path;
        assert rs[n] == before[n];
      }
    }
    if a < |ks| && b < |ks| {
      KidsInOrder(before, v, at, a, b, i, j);
    }
  }

  /** The greedy walk takes, of the children that are equal or dynamic, the one used first. */
  lemma ChoiceIsEarliest<C>(rs: Table<C>, v: Request.Method, at: Path, segment: string, k: string, i: nat, j: nat)
    requires Choice(Kids(rs, v, at), segment) < |Kids(rs, v, at)|
    requires FirstUse(rs, v, at, Kids(rs, v, at)[Choice(Kids(rs, v, at), segment)], i)
    requires (k == segment || Dynamic(k)) && FirstUse(rs, v, at, k, j)
    ensures i <= j
  {
    var ks := Kids(rs, v, at);
    KidsExactly(rs, v, at, k);
    var b :| 0 <= b < |ks| && ks[b] == k;
    KidsInOrder(rs, v, at, Choice(ks, segment), b, i, j);
  }

  /** The search gives up exactly when no child is equal or dynamic. */
  lemma ChoiceFails<C>(rs: Table<C>, v: Request.Method, at: Path, segment: string)
    ensures Choice(Kids(rs, v, at), segment) == |Kids(rs, v, at)|
            <==> forall i :: 0 <= i < |rs| && rs[i].verb == v && at < rs[i].path ==>
                               rs[i].path[|at|] != segment && !Dynamic(rs[i].path[|at|])
  {
    var ks := Kids(rs, v, at);
    var c := Choice(ks, segment);
    if c < |ks| {
      KidsExactly(rs, v, at, ks[c]);
      var i :| 0 <= i < |rs| && rs[i].verb == v && at + [ks[c]] <= rs[i].path;
      Longer(at, ks[c], rs[i].path);
    }
    forall i | 0 <= i < |rs| && rs[i].verb == v && at < rs[i].path
      ensures rs[i].path[|at|] in ks
    {
      Longer(at, rs[i].path[|at|], rs[i].path);
      KidsExactly(rs, v, at, rs[i].path[|at|]);
    }
  }

  /** Where a search ends is a node, and the way there matches the segments one by one; segments are
      left over only at a node that no route goes beyond. */
  lemma {:induction false} LandingMatches<C>(rs: Table<C>, v: Request.Method, at: Path, u: Path)
    requires Landing(rs, v, at, u).Some?
    ensures var p := Landing(rs, v, at, u).value;
            && at <= p && |p| <= |at| + |u|
            && (forall j :: |at| <= j < |p| ==> p[j] == u[j - |at|] || Dynamic(p[j]))
            && (|p| < |at| + |u| ==> Kids(rs, v, p) == [])
            && (p == at || Reaches(rs, v, p))
    decreases |u|
  {
    var ks := Kids(rs, v, at);
    if u != [] && ks != [] {
      var k := ks[Choice(ks, u[0])];
      KidsExactly(rs, v, at, k);
      LandingMatches(rs, v, at + [k], u[1..]);
      var p := Landing(rs, v, at, u).value;
      assert p[..|at| + 1] == at + [k];
      assert p[..|at|] == at;
      forall j | |at| <= j < |p| ensures p[j] == u[j - |at|] || Dynamic(p[j]) {
        if j > |at| {
          assert u[1..][j - |at| - 1] == u[j - |at|];
        }
      }
    }
  }

  // ---------- static routes ----------

  ghost predicate Static<C>(rs: Table<C>, v: Request.Method) {
    forall i, j :: 0 <= i < |rs| && rs[i].verb == v && 0 <= j < |rs[i].path| ==> !Dynamic(rs[i].path[j])
  }

  /** p is a registered proper prefix of u which no registered route extends. */
  ghost predicate Absorbs<C>(rs: Table<C>, v: Request.Method, p: Path, u: Path) {
    && p < u
    && (exists i :: 0 <= i < |rs| && rs[i].verb == v && rs[i].path == p)
    && (forall i :: 0 <= i < |rs| && rs[i].verb == v ==> !(p < rs[i].path))
  }

  lemma Comparable(p: Path, q: Path, u: Path)
    requires p <= u && q <= u
    ensures p < q || p == q || q < p
  {
    assert u[..|p|] == p && u[..|q|] == q;
    assert |p| < |q| ==> q[..|p|] == p;
    assert |q| < |p| ==> p[..|q|] == q;
  }

  lemma AbsorberUnique<C>(rs: Table<C>, v: Request.Method, p: Path, q: Path, u: Path)
    requires Absorbs(rs, v, p, u) && Absorbs(rs, v, q, u)
    ensures p == q
  {
    Comparable(p, q, u);
  }

  lemma StaticKids<C>(rs: Table<C>, v: Request.Method, at: Path)
    requires Static(rs, v)
    ensures forall k :: k in Kids(rs, v, at) ==> !Dynamic(k)
  {
    forall k | k in Kids(rs, v, at) ensures !Dynamic(k) {
      KidsExactly(rs, v, at, k);
      var i :| 0 <= i < |rs| && rs[i].verb == v && at + [k] <= rs[i].path;
      assert rs[i].path[|at|] == k;
    }
  }

  lemma Glue(at: Path, u: Path)
    requires u != []
    ensures at + u == at + [u[0]] + u[1..]
  {
  }

  /** On static routes the search follows u itself as far as routes go. */
  lemma {:induction false} LandingStatic<C>(rs: Table<C>, v: Request.Method, at: Path, u: Path)
    requires Static(rs, v) && (at == [] || Reaches(rs, v, at))
    ensures match Landing(rs, v, at, u)
            case Some(p) => at <= p <= at + u && (p == at + u || Kids(rs, v, p) == []) && (p == [] || Reaches(rs, v, p))
            case None => !Reaches(rs, v, at + u)
                         && forall p :: at <= p < at + u && (p == [] || Reaches(rs, v, p)) ==> Kids(rs, v, p) != []
    decreases |u|
  {
    hide Kids, Reaches, Static;
    var ks := Kids(rs, v, at);
    if u == [] {
      assert at + u == at;
    } else if ks != [] {
      Glue(at, u);
      StaticKids(rs, v, at);
      KidsExactly(rs, v, at, u[0]);
      var i := Choice(ks, u[0]);
      if i < |ks| {
        LandingStatic(rs, v, at + [u[0]], u[1..]);
        LandingBelow(rs, v, at, u);
      } else {
        NoneBelow(rs, v, at, u);
      }
    } else {
      assert at <= at + u;
    }
  }

  lemma Below(at: Path, u: Path, p: Path)
    requires u != []
    ensures at + [u[0]] <= p ==> at <= p
    ensures at <= p < at + u && p != at ==> at + [u[0]] <= p
  {
    if at + [u[0]] <= p {
      assert p[..|at|] == at;
    }
    if at <= p < at + u && p != at {
      assert p[|at|] == (at + u)[|at|];
      Longer(at, u[0], p);
    }
  }

  lemma LandingBelow<C>(rs: Table<C>, v: Request.Method, at: Path, u: Path)
    requires u != []
    ensures match Landing(rs, v, at + [u[0]], u[1..])
            case Some(p) => at + [u[0]] <= p ==> at <= p
            case None => forall p :: at <= p < at + u && Kids(rs, v, p) == [] ==> p == at || at + [u[0]] <= p
  {
    hide Kids, Landing;
    if Landing(rs, v, at + [u[0]], u[1..]).Some? {
      Below(at, u, Landing(rs, v, at + [u[0]], u[1..]).value);
    }
    forall p | at <= p < at + u && Kids(rs, v, p) == [] ensures p == at || at + [u[0]] <= p {
      Below(at, u, p);
    }
  }

  lemma NoneBelow<C>(rs: Table<C>, v: Request.Method, at: Path, u: Path)
    requires u != [] && Kids(rs, v, at) != [] && !Reaches(rs, v, at + [u[0]])
    ensures !Reaches(rs, v, at + u)
    ensures forall p :: at <= p < at + u && Reaches(rs, v, p) ==> p == at
  {
    assert at + [u[0]] <= at + u;
    ReachesUp(rs, v, at + [u[0]], at + u);
    forall p | at <= p < at + u && Reaches(rs, v, p) ensures p == at {
      Below(at, u, p);
      if p != at {
        ReachesUp(rs, v, at + [u[0]], p);
      }
    }
  }

  /** A node that is not the root of an empty trie and has no children is where some route ends. */
  lemma LeafIsRegistered<C>(rs: Table<C>, v: Request.Method, p: Path)
    requires Kids(rs, v, p) == [] && Reaches(rs, v, p)
    ensures exists i :: 0 <= i < |rs| && rs[i].verb == v && rs[i].path == p
  {
    LeafExactly(rs, v, p);
    var i :| 0 <= i < |rs| && rs[i].verb == v && p <= rs[i].path;
    assert rs[i].path == p;
  }

  lemma Beyond<C>(rs: Table<C>, v: Request.Method, p: Path, q: Path)
    requires Kids(rs, v, p) == []
    ensures Reaches(rs, v, q) ==> !(p < q)
  {
    LeafExactly(rs, v, p);
    assert forall i :: 0 <= i < |rs| && p < q <= rs[i].path ==> p < rs[i].path;
  }

  lemma AbsorberIsLanding<C>(rs: Table<C>, v: Request.Method, p: Path, q: Path, u: Path)
    requires Absorbs(rs, v, p, u) && q <= u && (q == u || Kids(rs, v, q) == []) && (q == [] || Reaches(rs, v, q))
    ensures p == q
  {
    LeafExactly(rs, v, p);
    LeafExactly(rs, v, q);
    Comparable(p, q, u);
    Beyond(rs, v, p, q);
  }

  lemma StaticFound<C>(rs: Table<C>, v: Request.Method, u: Path, q: Path)
    requires q <= u && (q == u || Kids(rs, v, q) == []) && (q == [] || Reaches(rs, v, q))
    ensures Reaches(rs, v, u) ==> q == u
    ensures forall p :: Absorbs(rs, v, p, u) ==> p == q
    ensures q == u || Registered(rs, v, q) == None || Absorbs(rs, v, q, u)
    ensures !Reaches(rs, v, u) && q == u ==> Registered(rs, v, q) == None
  {
    hide Registered, Reaches, Absorbs;
    forall p | Absorbs(rs, v, p, u) ensures p == q {
      AbsorberIsLanding(rs, v, p, q, u);
    }
    if q != u {
      Beyond(rs, v, q, u);
      LeafAbsorbs(rs, v, q, u);
    }
    RegisteredOnlyReached(rs, v, q);
  }

  lemma LeafAbsorbs<C>(rs: Table<C>, v: Request.Method, q: Path, u: Path)
    requires q < u && Kids(rs, v, q) == []
    ensures Registered(rs, v, q) == None || Absorbs(rs, v, q, u)
  {
    hide Registered;
    LeafExactly(rs, v, q);
    RegisteredOnlyReached(rs, v, q);
    if Reaches(rs, v, q) {
      LeafIsRegistered(rs, v, q);
    }
  }

  lemma RegisteredOnlyReached<C>(rs: Table<C>, v: Request.Method, q: Path)
    ensures !Reaches(rs, v, q) ==> Registered(rs, v, q) == None
  {
    if !Reaches(rs, v, q) {
      RegisteredNowhere(rs, v, q);
    }
  }

  /** For static routes a lookup returns the callback registered last for exactly these segments, else
      that of the registered proper prefix which no registered route extends, else nothing. */
  lemma StaticLookup<C>(rs: Table<C>, v: Request.Method, u: Path)
    requires Static(rs, v)
    ensures Reaches(rs, v, u) ==> Lookup(rs, v, u) == Registered(rs, v, u)
    ensures forall p :: Absorbs(rs, v, p, u) ==> Lookup(rs, v, u) == Registered(rs, v, p)
    ensures !Reaches(rs, v, u) && (forall p :: !Absorbs(rs, v, p, u)) ==> Lookup(rs, v, u) == None
  {
    hide Static, Kids, Registered, Reaches, Absorbs;
    LandingStatic(rs, v, [], u);
    assert [] + u == u;
    match Landing(rs, v, [], u)
    case Some(q) => StaticFound(rs, v, u, q);
    case None => NoAbsorber(rs, v, u);
  }

  lemma NoAbsorber<C>(rs: Table<C>, v: Request.Method, u: Path)
    requires forall p :: [] <= p < u && (p == [] || Reaches(rs, v, p)) ==> Kids(rs, v, p) != []
    ensures forall p :: !Absorbs(rs, v, p, u)
  {
    forall p ensures !Absorbs(rs, v, p, u) {
      LeafExactly(rs, v, p);
    }
  }

  // ---------- adding a route ----------

  lemma KidsGrow<C>(rs: Table<C>, r: Entry<C>, v: Request.Method, at: Path)
    ensures Kids(rs, v, at) <= Kids(rs + [r], v, at)
    ensures !(r.verb == v && at < r.path) ==> Kids(rs + [r], v, at) == Kids(rs, v, at)
    ensures r.verb == v && at < r.path && r.path[|at|] !in Kids(rs, v, at) ==>
              Kids(rs + [r], v, at) == Kids(rs, v, at) + [r.path[|at|]]
    ensures r.verb == v && at < r.path && r.path[|at|] in Kids(rs, v, at) ==> Kids(rs + [r], v, at) == Kids(rs, v, at)
  {
    assert (rs + [r])[..|rs|] == rs;
  }

  lemma RegisteredSnoc<C>(rs: Table<C>, r: Entry<C>, v: Request.Method, at: Path)
    ensures Registered(rs + [r], v, at) == if r.verb == v && r.path == at then r.callback else Registered(rs, v, at)
  {
    assert (rs + [r])[..|rs|] == rs;
  }

  lemma ChoiceGrows(ks: seq<string>, more: seq<string>, segment: string)
    requires ks <= more && Choice(ks, segment) < |ks|
    ensures Choice(more, segment) == Choice(ks, segment)
  {
    assert forall j :: 0 <= j < |ks| ==> more[j] == ks[j];
  }

  lemma {:induction false} LandingStays<C>(rs: Table<C>, r: Entry<C>, v: Request.Method, at: Path, u: Path)
    requires Landing(rs, v, at, u).Some?
    requires var p := Landing(rs, v, at, u).value; |p| == |at| + |u| || r.verb != v || !(p < r.path)
    ensures Landing(rs + [r], v, at, u) == Landing(rs, v, at, u)
    decreases |u|
  {
    hide Kids, Choice;
    KidsGrow(rs, r, v, at);
    var ks, more := Kids(rs, v, at), Kids(rs + [r], v, at);
    if u != [] && ks != [] {
      ChoiceGrows(ks, more, u[0]);
      LandingStays(rs, r, v, at + [ks[Choice(ks, u[0])]], u[1..]);
    }
  }

  /** Adding a route moves the end of a search that ended at a node exactly when segments were left over
      there and the new route extends the node. */
  lemma LandingStaysExactly<C>(rs: Table<C>, r: Entry<C>, v: Request.Method, u: Path)
    requires Landing(rs, v, [], u).Some?
    ensures var p := Landing(rs, v, [], u).value;
            Landing(rs + [r], v, [], u) == Some(p) <==> |p| == |u| || r.verb != v || !(p < r.path)
  {
    hide Kids;
    var p := Landing(rs, v, [], u).value;
    if |p| == |u| || r.verb != v || !(p < r.path) {
      LandingStays(rs, r, v, [], u);
    } else {
      LandingMatches(rs, v, [], u);
      LeafExactly(rs + [r], v, p);
      assert (rs + [r])[|rs|] == r;
      if Landing(rs + [r], v, [], u) == Some(p) {
        LandingMatches(rs + [r], v, [], u);
      }
    }
  }

  lemma {:induction false} LandingElsewhere<C>(rs: Table<C>, r: Entry<C>, v: Request.Method, at: Path, u: Path)
    requires r.verb != v
    ensures Landing(rs + [r], v, at, u) == Landing(rs, v, at, u)
    decreases |u|
  {
    hide Kids, Choice;
    KidsGrow(rs, r, v, at);
    var ks := Kids(rs, v, at);
    if u != [] && ks != [] && Choice(ks, u[0]) < |ks| {
      LandingElsewhere(rs, r, v, at + [ks[Choice(ks, u[0])]], u[1..]);
    }
  }

  /** Adding a route leaves every lookup for another method alone. */
  lemma OtherMethods<C>(rs: Table<C>, r: Entry<C>, v: Request.Method, u: Path)
    requires r.verb != v
    ensures Lookup(rs + [r], v, u) == Lookup(rs, v, u)
  {
    hide Kids, Registered, Landing;
    LandingElsewhere(rs, r, v, [], u);
    if Landing(rs, v, [], u).Some? {
      RegisteredSnoc(rs, r, v, Landing(rs, v, [], u).value);
    }
  }

  /** What adding a route does to a search that ends at p: nothing, unless the route is for p itself,
      whose callback it replaces, or extends a leaf p at which segments were left over. */
  lemma AddKeepsLookups<C>(rs: Table<C>, r: Entry<C>, v: Request.Method, u: Path)
    requires Landing(rs, v, [], u).Some?
    requires var p := Landing(rs, v, [], u).value; |p| == |u| || r.verb != v || !(p < r.path)
    ensures Lookup(rs + [r], v, u)
            == if r.verb == v && Landing(rs, v, [], u).value == r.path then r.callback else Lookup(rs, v, u)
  {
    hide Kids, Registered;
    LandingStays(rs, r, v, [], u);
    RegisteredSnoc(rs, r, v, Landing(rs, v, [], u).value);
  }

  /** Among static routes, adding one leaves every other registered path's lookup unchanged. */
  lemma AddKeepsStatic<C>(rs: Table<C>, r: Entry<C>, v: Request.Method, u: Path)
    requires Static(rs + [r], v) && Reaches(rs, v, u) && (r.verb != v || r.path != u)
    ensures Lookup(rs + [r], v, u) == Lookup(rs, v, u) == Registered(rs, v, u)
  {
    hide Kids, Registered, Landing;
    StaticPart(rs, r, v);
    StaticLookup(rs, v, u);
    StaticLookup(rs + [r], v, u);
    RegisteredSnoc(rs, r, v, u);
    assert (rs + [r])[..|rs|] == rs;
    ReachesSnoc(rs + [r], v, u);
  }

  lemma StaticPart<C>(rs: Table<C>, r: Entry<C>, v: Request.Method)
    requires Static(rs + [r], v)
    ensures Static(rs, v)
  {
    assert forall i :: 0 <= i < |rs| ==> (rs + [r])[i] == rs[i];
  }

  // ---------- the order of registration ----------

  ghost predicate DistinctPaths<C>(rs: Table<C>, v: Request.Method) {
    forall i, j :: 0 <= i < j < |rs| && rs[i].verb == rs[j].verb == v ==> rs[i].path != rs[j].path
  }

  ghost predicate SameRoutes<C>(rs: Table<C>, rs': Table<C>) {
    && (forall i :: 0 <= i < |rs| ==> rs[i] in rs')
    && (forall i :: 0 <= i < |rs'| ==> rs'[i] in rs)
  }

  lemma RegisteredByMembership<C>(rs: Table<C>, rs': Table<C>, v: Request.Method, at: Path)
    requires DistinctPaths(rs, v) && DistinctPaths(rs', v) && SameRoutes(rs, rs')
    ensures Registered(rs, v, at) == Registered(rs', v, at)
  {
    if i :| 0 <= i < |rs| && rs[i].verb == v && rs[i].path == at {
      var j :| 0 <= j < |rs'| && rs'[j] == rs[i];
      RegisteredIsLast(rs, v, at, i);
      RegisteredIsLast(rs', v, at, j);
    } else {
      RegisteredNowhere(rs, v, at);
      RegisteredNowhere(rs', v, at);
    }
  }

  lemma ReachesByMembership<C>(rs: Table<C>, rs': Table<C>, v: Request.Method, at: Path)
    requires forall i :: 0 <= i < |rs| ==> rs[i] in rs'
    ensures Reaches(rs, v, at) ==> Reaches(rs', v, at)
  {
    if Reaches(rs, v, at) {
      var i :| 0 <= i < |rs| && rs[i].verb == v && at <= rs[i].path;
      var j :| 0 <= j < |rs'| && rs'[j] == rs[i];
    }
  }

  lemma AbsorbsByMembership<C>(rs: Table<C>, rs': Table<C>, v: Request.Method, p: Path, u: Path)
    requires SameRoutes(rs, rs') && Absorbs(rs, v, p, u)
    ensures Absorbs(rs', v, p, u)
  {
    var i :| 0 <= i < |rs| && rs[i].verb == v && rs[i].path == p;
    var j :| 0 <= j < |rs'| && rs'[j] == rs[i];
  }

  /** For static routes with distinct paths the order of registration does not affect any lookup. */
  lemma OrderIrrelevant<C>(rs: Table<C>, rs': Table<C>, v: Request.Method, u: Path)
    requires SameRoutes(rs, rs') && Static(rs, v) && Static(rs', v) && DistinctPaths(rs, v) && DistinctPaths(rs', v)
    ensures Lookup(rs, v, u) == Lookup(rs', v, u)
  {
    hide Kids, Registered, Landing, Lookup, Reaches, Absorbs, Static, DistinctPaths;
    StaticLookup(rs, v, u);
    StaticLookup(rs', v, u);
    ReachesByMembership(rs, rs', v, u);
    ReachesByMembership(rs', rs, v, u);
    RegisteredByMembership(rs, rs', v, u);
    if p :| Absorbs(rs, v, p, u) {
      AbsorbsByMembership(rs, rs', v, p, u);
      RegisteredByMembership(rs, rs', v, p);
    } else {
      forall p | Absorbs(rs', v, p, u) ensures Absorbs(rs, v, p, u) {
        AbsorbsByMembership(rs', rs, v, p, u);
      }
    }
  }

  lemma FirstWins<C>(s: Entry<C>, t: Entry<C>, v: Request.Method, segment: string)
    requires s.verb == t.verb == v && |s.path| == |t.path| == 1 && s.path != t.path
    requires s.path[0] == segment || Dynamic(s.path[0])
    ensures Lookup([s, t], v, [segment]) == s.callback
  {
    assert [s, t][..1] == [s] && [s][..0] == [];
    assert Kids([s], v, []) == [s.path[0]];
    assert Kids([s, t], v, []) == [s.path[0], t.path[0]];
    assert Landing([s, t], v, [], [segment]) == Landing([s, t], v, [] + [s.path[0]], [segment][1..]);
    assert [] + [s.path[0]] == s.path;
    RegisteredIsLast([s, t], v, s.path, 0);
  }

  /** With dynamic routes the order does matter. */
  lemma OrderMatters<C>(a: C, b: C)
    requires a != b
    ensures var r, q := Entry(Request.Get, [":id"], Some(a)), Entry(Request.Get, ["x"], Some(b));
            Lookup([r, q], Request.Get, ["x"]) == Some(a) && Lookup([q, r], Request.Get, ["x"]) == Some(b)
  {
    hide Lookup;
    var r, q := Entry(Request.Get, [":id"], Some(a)), Entry(Request.Get, ["x"], Some(b));
    assert [":id"][0] != ["x"][0];
    FirstWins(r, q, Request.Get, "x");
    FirstWins(q, r, Request.Get, "x");
  }
}
