/**
 Why client 0 is left out of the delivery results: a run in which two live chains share it. Standard
 input holds descriptor 0 at first. A file that has gone missing leaves a record with descriptor 0 in the
 cache; sixteen more files push the record out, and 0 is closed. The next connection is accepted under
 descriptor 0 and is being sent its file when the same happens again: 0 is closed under the chain that
 sends to it, the next connection is given it, and two chains share one client.
 */
module ZeroDescriptor {
  import opened Wrappers
  import opened EventLoop
  import opened EventLoopSafety
  import opened Delivery
  import opened DeliverySteps
  import opened Frames
  import opened CacheTrace
  import opened OpenRecords
  import opened DeliveryRuns
  import RecencyList
  import Receiving
  import Request

  // ---------- the files and the requests for them ----------

  const FILES := 36
  const ACCEPTS := 8

  function Uri(k: nat): (u: string)
    ensures |u| == k + 4 && u[0] == '/' && u[1] != '.' && u[k + 2] == '.' && ' ' !in u
    ensures forall i :: 0 <= i < |u| ==> u[i] != '\r'
  {
    "/x" + seq(k, _ => 'x') + ".h"
  }

  function Path(k: nat): (p: string)
    ensures |p| == k + 17
  {
    "assets/public" + Uri(k)
  }

  const PUBLIC: set<string> := set k | 0 <= k < FILES :: Uri(k)

  function Get(k: nat): Request.RawHead {
    Request.RawHead(Request.Get, Uri(k), [])
  }

  // ---------- reachable states ----------

  /** A close of descriptor 0 has completed. */
  ghost predicate ZeroClosed(es: seq<Event>)
    requires IsRun(ACCEPTS, PUBLIC, es)
  {
    es != []
    && (ZeroClosed(es[..|es| - 1])
        || (var op := After(ACCEPTS, PUBLIC, es[..|es| - 1]).ops[es[|es| - 1].id];
            op.Close? && op.fd == 0))
  }

  /** Standard input holds descriptor 0: no accept and no open returns it before it has been closed. */
  ghost predicate ZeroHeld(es: seq<Event>)
    requires IsRun(ACCEPTS, PUBLIC, es)
  {
    es == []
    || (var before, e := es[..|es| - 1], es[|es| - 1];
        && ZeroHeld(before)
        && var op := After(ACCEPTS, PUBLIC, before).ops[e.id];
           (op.Accept? || op.Openat?) && e.res == 0 ==> ZeroClosed(before))
  }

  ghost predicate LeadsTo(es: seq<Event>, s: State, closed: bool) {
    && IsRun(ACCEPTS, PUBLIC, es) && After(ACCEPTS, PUBLIC, es) == s
    && ZeroHeld(es) && (closed ==> ZeroClosed(es))
  }

  ghost predicate Reached(s: State, closed: bool) {
    exists es :: LeadsTo(es, s, closed)
  }

  lemma Reach(s: State, closed: bool, e: Event)
    requires Reached(s, closed) && Allowed(s, e)
    requires (s.ops[e.id].Accept? || s.ops[e.id].Openat?) && e.res == 0 ==> closed
    ensures Reached(Step(s, e, PUBLIC), closed || (s.ops[e.id].Close? && s.ops[e.id].fd == 0))
    ensures StepFrame(s, Step(s, e, PUBLIC), e.id)
  {
    hide Step, Inv, FdRight, StepFrame;
    ReachedSafe(s, closed);
    StepDelivers(s, e, PUBLIC);
    var es :| LeadsTo(es, s, closed);
    var more := es + [e];
    assert more[..|more| - 1] == es;
    assert LeadsTo(more, Step(s, e, PUBLIC), closed || (s.ops[e.id].Close? && s.ops[e.id].fd == 0));
  }

  lemma ReachedSafe(s: State, closed: bool)
    requires Reached(s, closed)
    ensures Inv(s, {}) && FdRight(s, {}) && AllUntouched(s)
  {
    hide Inv, FdRight, AllUntouched;
    var es :| LeadsTo(es, s, closed);
    RunSafe(ACCEPTS, PUBLIC, es);
    RunUntouched(ACCEPTS, PUBLIC, es);
    RunAccountsForFds(ACCEPTS, PUBLIC, es);
    UntouchedOf(s, None);
  }

  // ---------- the steps of one connection ----------

  lemma AcceptStep(s: State, acc: nat, client: int)
    requires Inv(s, {}) && acc in s.ops && s.ops[acc].Accept? && 0 <= client && client !in s.open
    ensures var e := Event(acc, client, "", 0);
            && Allowed(s, e)
            && var s' := Step(s, e, PUBLIC);
               && s'.cache == s.cache && s'.next == s.next + 2 && s'.open.Keys == s.open.Keys + {client}
               && s'.open[client].ClientDesc?
               && s.next in s'.ops && s'.ops[s.next] == Recv(client, "")
               && s.next + 1 in s'.ops && s'.ops[s.next + 1] == Accept
  {
    hide Inv;
  }

  ghost predicate Opened(s: State, s': State, r: nat, client: int, path: string) {
    && s'.open.Keys == s.open.Keys && s'.next == r + 3
    && IsRoot(s', r) && s'.pts[r].task.client == client
    && r + 1 in s'.pts && s'.pts[r + 1].caller == Some(r)
    && r + 2 in s'.ops && s'.ops[r + 2] == Openat(r + 1, path)
  }

  /** A chain is started for a file that is not in the cache. */
  lemma BeginStep(s: State, client: int, path: string)
    requires Inv(s, {}) && RecencyList.Find(s.cache, path) == |s.cache|
    ensures var s' := StartChain(s, client, path);
            s'.cache == s.cache && Opened(s, s', s.next, client, path)
  {
    hide Inv, OpenEntry, StartChain, Begun;
    var r := s.next;
    BoundedOf(s, {});
    BegunShape(s, client, path);
    BegunFacts(s, client, path);
    BegunInv(s, client, path);
    BegunCache(s, client, path);
    HolderKeys(s, client, ByChain(r));
    FirstWait(Begun(s, client, path), r + 1);
  }

  lemma HolderKeys(s: State, fd: int, h: Holder)
    ensures SetHolder(s, fd, h).open.Keys == s.open.Keys
  {
  }

  lemma FirstWait(s: State, c: nat)
    requires Inv(s, {c}) && c in s.pts && s.pts[c].task.OpenFile? && s.pts[c].label_ == Fresh && s.pts[c].caller.Some?
    requires IsRoot(s, s.pts[c].caller.value) && RecencyList.Find(s.cache, s.pts[c].task.path) == |s.cache|
    ensures var s' := OpenEntry(s, c);
            var r := s.pts[c].caller.value;
            && s'.open == s.open && s'.cache == s.cache && s'.next == s.next + 1
            && s.next in s'.ops && s'.ops[s.next] == Openat(c, s.pts[c].task.path)
            && IsRoot(s', r) && s'.pts[r].task.client == s.pts[r].task.client
            && c in s'.pts && s'.pts[c].caller == Some(r)
  {
    hide Structured, Balanced, CacheRight;
    LeafFacts(s, c, {c});
    RunningFree(s, c);
  }

  ghost predicate Asks(data: string, k: nat) {
    && (exists n :: Receiving.OnChunk("", data) == Receiving.Dispatch(n, Get(k)))
    && PublicPath(PUBLIC, Get(k)) == Some(Path(k)) && 0 < |data| <= 100
  }

  lemma GetParses(k: nat)
    requires k < FILES
    ensures Asks(Request.Render(Get(k)), k)
  {
    var data := Request.Render(Get(k));
    assert Request.ValidHead(Get(k));
    Request.DecomposeComplete(Get(k), "");
    assert data + "" == data && "" + data == data;
    assert |data| <= 100;
    assert Uri(k)[k + 2] == '.';
    assert Uri(k) in PUBLIC;
  }

  function Received(id: nat, data: string): Event {
    Event(id, |data|, data, 0)
  }

  lemma RequestStep(s: State, id: nat, client: int, k: nat, data: string)
    requires Inv(s, {}) && id in s.ops && s.ops[id] == Recv(client, "") && Asks(data, k)
    requires RecencyList.Find(s.cache, Path(k)) == |s.cache|
    ensures Allowed(s, Received(id, data))
    ensures var s' := Step(s, Received(id, data), PUBLIC);
            s'.cache == s.cache && Opened(s, s', s.next, client, Path(k))
  {
    hide Inv, StartChain, PublicPath, Receiving.OnChunk, Opened, Path, Get, PUBLIC;
    assert Receiving.Room("") == 8192;
    var s1 := s.(ops := s.ops - {id});
    DeliverKeeps(s, id);
    BeginStep(s1, client, Path(k));
    assert Step(s, Received(id, data), PUBLIC) == StartChain(s1, client, Path(k));
    OpenedHere(s, s1, StartChain(s1, client, Path(k)), client, Path(k));
  }

  lemma OpenedHere(s: State, s1: State, s': State, client: int, path: string)
    requires s1.open == s.open && Opened(s1, s', s.next, client, path)
    ensures Opened(s, s', s.next, client, path)
  {
  }

  function Recorded(fd: int): int {
    if fd < 0 then 0 else fd
  }

  /** The open completes, with a new descriptor or with an error. */
  lemma OpenStep(s: State, id: nat, c: nat, r: nat, path: string, res: int)
    requires Inv(s, {}) && AllUntouched(s) && id in s.ops && s.ops[id] == Openat(c, path)
    requires c in s.pts && s.pts[c].caller == Some(r)
    requires RecencyList.Find(s.cache, path) == |s.cache| && (res >= 0 ==> res !in s.open)
    ensures var e := Event(id, res, "", 0);
            && Allowed(s, e)
            && var s' := Step(s, e, PUBLIC);
               && s'.cache == s.cache && s'.next == s.next + 1
               && s'.open.Keys == s.open.Keys + (if res < 0 then {} else {res})
               && (res >= 0 ==> s'.open[res].FileDesc? && s'.open[res].content == "")
               && s.next in s'.ops && s'.ops[s.next] == Statx(c, Recorded(res))
               && IsRoot(s', r) && s'.pts[r].task.file.fd == Recorded(res) && s'.pts[r].task.client == s.pts[r].task.client
               && c in s'.pts && s'.pts[c].caller == Some(r) && s'.pts[c].task == OpenFile(path)
  {
    hide Structured, Balanced, CacheRight, OpenEntry, Filled, OnOpenat;
    var e := Event(id, res, "", 0);
    OpenatPath(s, id);
    LeafFacts(s, c, {});
    assert Untouched(s, c);
    WaiterFacts(s, id);
    FilledStep(s, e, PUBLIC);
    FilledFacts(s, e);
    FilledKeeps(s, e);
    FilledIs(s, e);
    DeliverKeeps(Filled(s, e), id);
    SecondWait(Woken(Filled(s, e), id, c), c);
  }

  lemma FilledIs(s: State, e: Event)
    requires Inv(s, {}) && Allowed(s, e) && (s.ops[e.id].Openat? || s.ops[e.id].Statx?)
    requires s.ops[e.id].pt in s.pts && s.pts[s.ops[e.id].pt].caller.Some?
    requires IsRoot(s, s.pts[s.ops[e.id].pt].caller.value)
    ensures var r := s.pts[s.ops[e.id].pt].caller.value;
            var s' := Filled(s, e);
            && s'.next == s.next && IsRoot(s', r) && s'.pts[r].task.client == s.pts[r].task.client
            && s'.open.Keys == s.open.Keys + (if s.ops[e.id].Openat? && e.res >= 0 then {e.res} else {})
            && (s.ops[e.id].Openat? && e.res >= 0 ==> s'.open[e.res].FileDesc? && s'.open[e.res].content == e.data)
  {
    hide Inv;
  }

  lemma SecondWait(s: State, c: nat)
    requires Inv(s, {c}) && c in s.pts && s.pts[c].task.OpenFile? && s.pts[c].label_ == AtOpenat && s.pts[c].caller.Some?
    requires IsRoot(s, s.pts[c].caller.value) && RecencyList.Find(s.cache, s.pts[c].task.path) == |s.cache|
    ensures var s' := OpenEntry(s, c);
            var r := s.pts[c].caller.value;
            && s'.open == s.open && s'.cache == s.cache && s'.next == s.next + 1
            && s.next in s'.ops && s'.ops[s.next] == Statx(c, s.pts[r].task.file.fd)
            && IsRoot(s', r) && s'.pts[r] == s.pts[r]
            && c in s'.pts && s'.pts[c].caller == Some(r) && s'.pts[c].task == s.pts[c].task
  {
    hide Structured, Balanced, CacheRight;
    LeafFacts(s, c, {c});
    RunningFree(s, c);
  }

  function Kept(cache: seq<(string, File)>): seq<(string, File)> {
    if |cache| == CACHE_SIZE then cache[..CACHE_SIZE - 1] else cache
  }

  /** The file is in front; if the cache was full, a close of what drops out has been submitted. */
  ghost predicate CachedAs(s: State, s': State, path: string, fd: int) {
    && |s'.cache| == |Kept(s.cache)| + 1 && s'.cache[0].0 == path && s'.cache[0].1.fd == fd
    && s'.cache[1..] == Kept(s.cache)
    && (|s.cache| == CACHE_SIZE ==> exists id :: id in s'.ops && s'.ops[id] == Close(None, s.cache[CACHE_SIZE - 1].1.fd))
  }

  /** The statx completes, the file goes into the cache, and the chain starts to send. */
  lemma StatxStep(s: State, id: nat, c: nat, r: nat, path: string, fd: int)
    requires Inv(s, {}) && id in s.ops && s.ops[id] == Statx(c, fd) && c in s.pts && s.pts[c].task == OpenFile(path)
    requires s.pts[c].caller == Some(r) && IsRoot(s, r) && s.pts[r].task.file.fd == fd
    requires RecencyList.Find(s.cache, path) == |s.cache| <= CACHE_SIZE
    requires fd in s.open && s.open[fd].FileDesc? ==> s.open[fd].content == ""
    ensures var e := Event(id, 0, "", 0);
            && Allowed(s, e)
            && var s' := Step(s, e, PUBLIC);
               && s'.open.Keys == s.open.Keys && CachedAs(s, s', path, fd)
               && IsRoot(s', r) && s'.pts[r].task.client == s.pts[r].task.client
  {
    hide Structured, Balanced, CacheRight, OpenEntry, Filled, OnStatx, HeadFor, CachedAs;
    var e := Event(id, 0, "", 0);
    WaiterFacts(s, id);
    LeafFacts(s, c, {});
    FilledStep(s, e, PUBLIC);
    FilledFacts(s, e);
    FilledKeeps(s, e);
    FilledIs(s, e);
    DeliverKeeps(Filled(s, e), id);
    var s2 := Woken(Filled(s, e), id, c);
    CachesAndSends(s2, c);
    CachedHere(s, s2, OpenEntry(s2, c), path, fd);
  }

  lemma CachedHere(s: State, s2: State, s': State, path: string, fd: int)
    requires s2.cache == s.cache && CachedAs(s2, s', path, fd)
    ensures CachedAs(s, s', path, fd)
  {
  }

  lemma CachesAndSends(s: State, c: nat)
    requires Inv(s, {c}) && c in s.pts && s.pts[c].task.OpenFile? && s.pts[c].label_ == AtStatx && s.pts[c].caller.Some?
    requires IsRoot(s, s.pts[c].caller.value) && RecencyList.Find(s.cache, s.pts[c].task.path) == |s.cache| <= CACHE_SIZE
    ensures var s' := OpenEntry(s, c);
            var r := s.pts[c].caller.value;
            && CachedAs(s, s', s.pts[c].task.path, s.pts[r].task.file.fd) && s'.open.Keys == s.open.Keys
            && IsRoot(s', r) && s'.pts[r].task.client == s.pts[r].task.client
  {
    hide Structured, Balanced, CacheRight, CallBack, AddToCache, HeadFor;
    LeafFacts(s, c, {c});
    var r := s.pts[c].caller.value;
    var path, file := s.pts[c].task.path, s.pts[r].task.file;
    AddToCacheKeeps(s, path, file, {c});
    AddToCacheIs(s, path, file);
    var s1 := AddToCache(s, path, file);
    CallBackIs(s1, c);
    CallBackQuiet(s1, c);
    BoundedOf(s1, {c});
    assert |s.cache| == CACHE_SIZE ==> s.next in s1.ops && s.next in OpenEntry(s, c).ops;
  }

  // ---------- one connection from its accept to its first send ----------

  ghost predicate Sends(s: State, r: nat, client: int) {
    IsRoot(s, r) && s.pts[r].task.client == client
  }

  ghost predicate Accepts(s: State, acc: nat) {
    acc in s.ops && s.ops[acc] == Accept
  }

  /** Descriptor 0, if the server has it, is a client. */
  ghost predicate NoFileAtZero(s: State) {
    0 in s.open ==> s.open[0].ClientDesc?
  }

  /** The first n files have been asked for, and the latest of them are in the cache. */
  ghost predicate Served(s: State, closed: bool, n: nat, acc: nat, top: nat) {
    && Reached(s, closed) && Accepts(s, acc) && NoFileAtZero(s)
    && top >= 1 && (forall fd :: fd in s.open ==> fd < top)
    && |s.cache| <= CACHE_SIZE && |s.cache| <= n
    && (forall i :: 0 <= i < |s.cache| ==> s.cache[i].0 == Path(n - 1 - i))
  }

  /** Whoever sends goes on sending. */
  ghost predicate Goes(s: State, s': State) {
    forall q, c :: q in s.pts && Sends(s, q, c) ==> Sends(s', q, c)
  }

  /** What a step on operation id, which may involve the root r, carries over. */
  ghost predicate Carried(s: State, s': State, id: nat, r: nat) {
    && (forall q, c :: q in s.pts && q != r && Sends(s, q, c) ==> Sends(s', q, c))
    && (forall i :: i in s.ops && i != id ==> i in s'.ops && s'.ops[i] == s.ops[i])
    && (0 in s.open ==> 0 in s'.open && (s.open[0].ClientDesc? ==> s'.open[0].ClientDesc?))
  }

  lemma Carry(s: State, s': State, id: nat, r: nat)
    requires Bounded(s) && StepFrame(s, s', id) && ClosedFd(s.ops[id]) == None
    requires forall p :: p in Involved(s, id) && IsRoot(s, p) ==> p == r
    ensures Carried(s, s', id, r)
  {
    hide Involved;
  }

  lemma InvolvedHere(s: State, id: nat, c: nat, r: nat)
    requires id in s.ops && (s.ops[id].Openat? || s.ops[id].Statx?) && s.ops[id].pt == c
    requires c in s.pts && s.pts[c].task.OpenFile? && s.pts[c].caller == Some(r)
    ensures forall p :: p in Involved(s, id) && IsRoot(s, p) ==> p == r
  {
  }

  lemma NotCached(cache: seq<(string, File)>, n: nat)
    requires |cache| <= n && forall i :: 0 <= i < |cache| ==> cache[i].0 == Path(n - 1 - i)
    ensures RecencyList.Find(cache, Path(n)) == |cache|
  {
  }

  /** The connection under `client` has asked for file n. */
  lemma Ask(s: State, closed: bool, n: nat, acc: nat, top: nat, client: nat) returns (s': State, r: nat)
    requires Served(s, closed, n, acc, top) && n < FILES && client !in s.open && (client == 0 ==> closed)
    ensures Reached(s', closed) && Accepts(s', s.next + 1) && NoFileAtZero(s')
    ensures s'.cache == s.cache && Sends(s', r, client) && s'.open.Keys == s.open.Keys + {client}
    ensures r + 1 in s'.pts && s'.pts[r + 1].caller == Some(r)
    ensures r + 2 in s'.ops && s'.ops[r + 2] == Openat(r + 1, Path(n)) && s.next + 1 != r + 2
    ensures Goes(s, s') && r !in s.pts
  {
    hide Inv, Step, Allowed, RecencyList.Find, Path, Request.Render, FdRight, AllUntouched, Reached, Asks, Get, PublicPath,
         StepFrame, PUBLIC;
    ReachedSafe(s, closed);
    BoundedOf(s, {});
    NotCached(s.cache, n);
    AcceptStep(s, acc, client);
    var e := Event(acc, client, "", 0);
    var s1 := Step(s, e, PUBLIC);
    Reach(s, closed, e);
    Carry(s, s1, acc, s.next);
    ReachedSafe(s1, closed);
    BoundedOf(s1, {});
    var data := Request.Render(Get(n));
    GetParses(n);
    RequestStep(s1, s.next, client, n, data);
    Reach(s1, closed, Received(s.next, data));
    s' := Step(s1, Received(s.next, data), PUBLIC);
    r := s1.next;
    Carry(s1, s', s.next, r);
  }

  /** The file is opened and measured, or has gone missing; it is cached, and the response starts. */
  lemma Load(s: State, closed: bool, n: nat, r: nat, fd: int) returns (s': State)
    requires Reached(s, closed) && NoFileAtZero(s) && RecencyList.Find(s.cache, Path(n)) == |s.cache| <= CACHE_SIZE
    requires r + 1 in s.pts && s.pts[r + 1].caller == Some(r) && IsRoot(s, r)
    requires r + 2 in s.ops && s.ops[r + 2] == Openat(r + 1, Path(n)) && fd != 0 && (fd >= 0 ==> fd !in s.open)
    ensures Reached(s', closed) && NoFileAtZero(s')
    ensures s'.open.Keys == s.open.Keys + (if fd < 0 then {} else {fd})
    ensures CachedAs(s, s', Path(n), Recorded(fd))
    ensures IsRoot(s', r) && s'.pts[r].task.client == s.pts[r].task.client && Goes(s, s')
    ensures forall id :: id in s.ops && id != r + 2 ==> id in s'.ops && s'.ops[id] == s.ops[id]
  {
    hide Inv, Step, Allowed, RecencyList.Find, Path, FdRight, AllUntouched, Reached, CachedAs, StepFrame, PUBLIC, Involved;
    ReachedSafe(s, closed);
    BoundedOf(s, {});
    OpenatPath(s, r + 2);
    OpenStep(s, r + 2, r + 1, r, Path(n), fd);
    var e := Event(r + 2, fd, "", 0);
    var s1 := Step(s, e, PUBLIC);
    Reach(s, closed, e);
    InvolvedHere(s, r + 2, r + 1, r);
    Carry(s, s1, r + 2, r);
    ReachedSafe(s1, closed);
    BoundedOf(s1, {});
    StatxStep(s1, s.next, r + 1, r, Path(n), Recorded(fd));
    var e1 := Event(s.next, 0, "", 0);
    Reach(s1, closed, e1);
    s' := Step(s1, e1, PUBLIC);
    InvolvedHere(s1, s.next, r + 1, r);
    Carry(s1, s', s.next, r);
    CachedHere(s, s1, s', Path(n), Recorded(fd));
  }

  lemma Serve(s: State, closed: bool, n: nat, acc: nat, top: nat, client: nat, missing: bool)
    returns (s': State, r: nat, acc': nat)
    requires Served(s, closed, n, acc, top) && n < FILES
    requires client == top || (client == 0 && 0 !in s.open && closed)
    ensures Served(s', closed, n + 1, acc', top + 2) && Sends(s', r, client) && Goes(s, s')
    ensures CachedAs(s, s', Path(n), if missing then 0 else top + 1)
  {
    hide RecencyList.Find, Path, Reached;
    NotCached(s.cache, n);
    var s1;
    s1, r := Ask(s, closed, n, acc, top, client);
    s' := Load(s1, closed, n, r, if missing then -1 else top + 1);
    acc' := s.next + 1;
    assert forall i :: 1 <= i < |s'.cache| ==> s'.cache[i] == s'.cache[1..][i - 1];
    assert Goes(s, s');
  }

  // ---------- a missing file, and sixteen more that push it out ----------

  /** The k-th entry of the cache is a missing file's. */
  ghost predicate MissingAt(s: State, k: nat) {
    1 <= k <= |s.cache| && s.cache[k - 1].1.fd == 0
  }

  lemma {:induction false} PushBack(s: State, closed: bool, n: nat, k: nat, acc: nat, top: nat)
    returns (s': State, acc': nat, top': nat)
    requires Served(s, closed, n, acc, top) && MissingAt(s, k) && k <= CACHE_SIZE && n + CACHE_SIZE - k <= FILES
    ensures Served(s', closed, n + CACHE_SIZE - k, acc', top') && MissingAt(s', CACHE_SIZE) && Goes(s, s')
    decreases CACHE_SIZE - k
  {
    hide Served;
    if k == CACHE_SIZE {
      s', acc', top' := s, acc, top;
    } else {
      var s1, r, acc1 := Serve(s, closed, n, acc, top, top, false);
      assert s1.cache[k] == s1.cache[1..][k - 1];
      SizeOf(s, closed, n, acc, top);
      s', acc', top' := PushBack(s1, closed, n + 1, k + 1, acc1, top + 2);
      GoesOn(s, s1, s');
    }
  }

  lemma SizeOf(s: State, closed: bool, n: nat, acc: nat, top: nat)
    requires Served(s, closed, n, acc, top)
    ensures |s.cache| <= CACHE_SIZE
  {
  }

  lemma GoesOn(s: State, s1: State, s2: State)
    requires Goes(s, s1) && Goes(s1, s2)
    ensures Goes(s, s2)
  {
  }

  lemma CloseStep(s: State, id: nat, fd: int)
    requires id in s.ops && s.ops[id] == Close(None, fd)
    ensures var e := Event(id, 0, "", 0);
            Allowed(s, e) && Step(s, e, PUBLIC) == s.(open := s.open - {fd}, ops := s.ops - {id})
  {
  }

  /** Descriptor 0 is closed, whoever has it. */
  lemma CloseZero(s: State, closed: bool, n: nat, acc: nat, top: nat) returns (s': State)
    requires Served(s, closed, n, acc, top) && exists id :: id in s.ops && s.ops[id] == Close(None, 0)
    ensures Served(s', true, n, acc, top) && 0 !in s'.open && Goes(s, s')
  {
    hide Step, Allowed, Path, Reached, StepFrame;
    var id :| id in s.ops && s.ops[id] == Close(None, 0);
    CloseStep(s, id, 0);
    Reach(s, closed, Event(id, 0, "", 0));
    s' := Step(s, Event(id, 0, "", 0), PUBLIC);
  }

  lemma FreeZero(s: State, closed: bool, n: nat, acc: nat, top: nat) returns (s': State, acc': nat, top': nat)
    requires Served(s, closed, n, acc, top) && n + 17 <= FILES
    ensures Served(s', true, n + 17, acc', top') && 0 !in s'.open && Goes(s, s')
  {
    hide Served, Path;
    var s1, _, acc1 := Serve(s, closed, n, acc, top, top, true);
    var s2, acc2, top2 := PushBack(s1, closed, n + 1, 1, acc1, top + 2);
    SizeOf(s2, closed, n + 16, acc2, top2);
    var s3, _, acc3 := Serve(s2, closed, n + 16, acc2, top2, top2, false);
    s' := CloseZero(s3, closed, n + 17, acc3, top2 + 2);
    acc', top' := acc3, top2 + 2;
    GoesOn(s, s1, s2);
    GoesOn(s, s2, s3);
    GoesOn(s, s3, s');
  }

  // ---------- the descriptor is closed under the chain that sends to it ----------

  lemma {:induction false} BootAccepts(n: nat)
    ensures forall i :: 0 <= i < n ==> i in Boot(n).ops && Boot(n).ops[i] == Accept
    ensures Boot(n).next == n
  {
    if n > 0 {
      BootAccepts(n - 1);
    }
  }

  ghost predicate ClientShared(s: State, client: int) {
    exists q, r :: q != r && Sends(s, q, client) && Sends(s, r, client)
  }

  /** Eight accepts, standard input at descriptor 0, and two files that have gone missing: two live chains
      come to share client 0. The first is still sending its response when the second is started. */
  lemma TwoChainsShareZero()
    ensures exists es :: IsRun(8, PUBLIC, es) && ZeroHeld(es) && ClientShared(After(8, PUBLIC, es), 0)
  {
    hide Step, Allowed, Path, Served;
    var s0 := Boot(8);
    BootServed(s0);
    var s1, acc1, top1 := FreeZero(s0, false, 0, 7, 1);
    var s2, q, acc2 := Serve(s1, true, 17, acc1, top1, 0, false);
    var s3, acc3, top3 := FreeZero(s2, true, 18, acc2, top1 + 2);
    assert Sends(s3, q, 0);
    var s4, r := Ask(s3, true, 35, acc3, top3, 0);
    assert Sends(s4, q, 0) && Sends(s4, r, 0);
    var es :| LeadsTo(es, s4, true);
    assert ClientShared(After(8, PUBLIC, es), 0);
  }

  lemma BootServed(s: State)
    requires s == Boot(8)
    ensures Served(s, false, 0, 7, 1)
  {
    hide PUBLIC, Path;
    BootAccepts(8);
    NobodyBooted(8);
    assert LeadsTo([], s, false);
  }
}
