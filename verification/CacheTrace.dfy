/**
 The file cache as the event loop uses it. The lookups and adds that a run performs form a history of
 cache operations, the files found and the files closed in return their answers. The intended cache gives
 exactly these answers, and no add finds its label present; so the cache as shown, replayed on the
 history, gives them if and only if at each add to a full list its tail pointer is at the last entry and
 no lookup is of a label that found no slot in the index.
 */
module CacheTrace {
  import opened Wrappers
  import opened RecencyList
  import opened EventLoop
  import opened EventLoopSafety
  import opened Delivery
  import opened DeliverySteps
  import opened Frames
  import DoublyLinkedList
  import LruCaching
  import Receiving
  import SpliceAll

  // A cache operation and its answer: the file found, or the entry evicted.
  type Talk = seq<(RecencyList.Op<File>, RecencyList.Out<File>)>

  function Ops(t: Talk): (ops: seq<RecencyList.Op<File>>)
    ensures |ops| == |t| && forall i :: 0 <= i < |t| ==> ops[i] == t[i].0
  {
    seq(|t|, i requires 0 <= i < |t| => t[i].0)
  }

  function Answers(t: Talk): (outs: seq<RecencyList.Out<File>>)
    ensures |outs| == |t| && forall i :: 0 <= i < |t| ==> outs[i] == t[i].1
  {
    seq(|t|, i requires 0 <= i < |t| => t[i].1)
  }

  // ---------- what a step asks of the cache, and what it makes use of ----------

  /** async_io_open_file entered: a lookup; if it misses and the file has been opened and measured, an add.
      The answers are what the routine goes by: the file it copies, the entry whose file it closes. */
  function EntryTalk(s: State, c: nat): Talk {
    if c !in s.pts || !s.pts[c].task.OpenFile? || s.pts[c].caller.None? || !IsRoot(s, s.pts[c].caller.value) then []
    else
      var path, n := s.pts[c].task.path, |s.cache|;
      var i := Find(s.cache, path);
      if i < n then [(GetOp(path), Got(Some(s.cache[i].1)))]
      else if s.pts[c].label_ != AtStatx then [(GetOp(path), Got(None))]
      else
        [(GetOp(path), Got(None)),
         (AddOp(path, s.pts[s.pts[c].caller.value].task.file), Added(if n == CACHE_SIZE then Some(s.cache[n - 1]) else None))]
  }

  function DeliverTalk(s: State, id: nat): Talk
    requires id in s.ops
  {
    match Waiter(s.ops[id])
    case None => []
    case Some(p) => EntryTalk(Wake(s.(ops := s.ops - {id}), p), p)
  }

  function RecvTalk(s: State, e: Event, public: set<string>): Talk
    requires e.id in s.ops && s.ops[e.id].Recv?
  {
    var Recv(client, buffer) := s.ops[e.id];
    match Receiving.OnChunk(buffer, if e.res <= 0 then "" else e.data)
    case Drop => []
    case More(_) => []
    case Dispatch(_, head) =>
      var path := PublicPath(public, head);
      if path.None? then [] else EntryTalk(Begun(s.(ops := s.ops - {e.id}), client, path.value), s.next + 1)
  }

  /** The cache operations of one completion. Only receives, opens and statxs lead to the cache. */
  function StepTalk(s: State, e: Event, public: set<string>): Talk
    requires e.id in s.ops
  {
    match s.ops[e.id]
    case Recv(_, _) => RecvTalk(s, e, public)
    case Openat(_, _) => DeliverTalk(Filled(s, e), e.id)
    case Statx(_, _) => DeliverTalk(Filled(s, e), e.id)
    case _ => []
  }

  ghost function Trace(accepts: nat, public: set<string>, es: seq<Event>): Talk
    requires IsRun(accepts, public, es)
  {
    if es == [] then []
    else
      var before := es[..|es| - 1];
      Trace(accepts, public, before) + StepTalk(After(accepts, public, before), es[|es| - 1], public)
  }

  // ---------- explaining a cache ----------

  /** The intended cache, asked all this, gives these answers and ends up like this. */
  ghost predicate Explains(t: Talk, cache: seq<(string, File)>) {
    Run(CACHE_SIZE, Ops(t)) == (cache, Answers(t)) && AddsAbsent(CACHE_SIZE, Ops(t))
  }

  lemma Extend(t: Talk, op: RecencyList.Op<File>, cache: seq<(string, File)>)
    requires Explains(t, cache) && (op.AddOp? ==> Find(cache, op.key) == |cache|)
    ensures var (cache', out) := RecencyList.Step(cache, CACHE_SIZE, op);
            Explains(t + [(op, out)], cache')
  {
    hide RecencyList.Step, Find;
    var (cache', out) := RecencyList.Step(cache, CACHE_SIZE, op);
    var ops, more := Ops(t), Ops(t + [(op, out)]);
    assert more == ops + [op] && more[..|ops|] == ops;
    assert Answers(t + [(op, out)]) == Answers(t) + [out];
    forall i | 0 <= i < |more| && more[i].AddOp?
      ensures Find(Run(CACHE_SIZE, more[..i]).0, more[i].key) == |Run(CACHE_SIZE, more[..i]).0|
    {
      assert i < |ops| ==> more[..i] == ops[..i] && more[i] == ops[i];
    }
  }

  // ---------- entering async_io_open_file ----------

  lemma OpenEntryTrace(s: State, c: nat, t: Talk)
    requires Explains(t, s.cache) && |s.cache| <= CACHE_SIZE
    ensures Explains(t + EntryTalk(s, c), OpenEntry(s, c).cache)
  {
    hide OpenEntry, Explains, RecencyList.Step, Find;
    OpenEntryCache(s, c);
    EntryAnswers(s, c);
    var ask := EntryTalk(s, c);
    if ask == [] {
      assert t + ask == t;
    } else {
      Extend(t, ask[0].0, s.cache);
      if |ask| == 2 {
        Extend(t + [ask[0]], ask[1].0, s.cache);
        assert t + ask == t + [ask[0]] + [ask[1]];
      } else {
        assert ask == [ask[0]];
      }
    }
  }

  /** The answers are those of the intended cache; a lookup that misses changes nothing. */
  lemma EntryAnswers(s: State, c: nat)
    requires |s.cache| <= CACHE_SIZE
    ensures var ask := EntryTalk(s, c);
            && |ask| <= 2
            && (|ask| == 1 ==> ask[0].0.GetOp? && ask[0].1 == RecencyList.Step(s.cache, CACHE_SIZE, ask[0].0).1)
            && (|ask| == 2 ==>
                  && ask[0].0.GetOp? && RecencyList.Step(s.cache, CACHE_SIZE, ask[0].0) == (s.cache, ask[0].1)
                  && ask[1].0.AddOp? && ask[1].1 == RecencyList.Step(s.cache, CACHE_SIZE, ask[1].0).1
                  && Find(s.cache, ask[1].0.key) == |s.cache|)
  {
  }

  /** The cache changes by the last of the operations. */
  lemma OpenEntryCache(s: State, c: nat)
    ensures var ask := EntryTalk(s, c);
            OpenEntry(s, c).cache == if ask == [] then s.cache
                                     else RecencyList.Step(s.cache, CACHE_SIZE, ask[|ask| - 1].0).0
  {
    hide CallBack, RecencyList.Step, AddToCache;
    if EntryTalk(s, c) != [] {
      var r := s.pts[c].caller.value;
      var path := s.pts[c].task.path;
      var file := s.pts[r].task.file;
      var i := Find(s.cache, path);
      LookedUp(s.cache, path);
      if i < |s.cache| {
        CallBackQuiet(SetFile(s.(cache := DoublyLinkedList.Moved(s.cache, i)), r, s.cache[i].1), c);
      } else {
        AddToCacheIs(s, path, file);
        CallBackQuiet(AddToCache(s, path, file), c);
      }
    }
  }

  lemma LookedUp(cache: seq<(string, File)>, path: string)
    ensures var i := Find(cache, path);
            RecencyList.Step(cache, CACHE_SIZE, GetOp(path)).0
            == if i < |cache| then DoublyLinkedList.Moved(cache, i) else cache
  {
  }

  /** The answers are what the step makes use of: a file found is the one whose headers the chain goes on
      to send, and an entry evicted is the one whose descriptor is submitted for closing. */
  lemma AnswersAreUsed(s: State, c: nat)
    requires Inv(s, {c}) && c in s.pts && s.pts[c].task.OpenFile? && s.pts[c].caller.Some?
    requires IsRoot(s, s.pts[c].caller.value)
    ensures var ask := EntryTalk(s, c);
            var r := s.pts[c].caller.value;
            var s' := OpenEntry(s, c);
            && ask != [] && ask[0].1.Got?
            && (ask[0].1.result.Some? ==>
                  IsRoot(s', r) && s'.pts[r].task.file == ask[0].1.result.value
                  && s'.pts[r].task.raw == HeadFor(ask[0].1.result.value))
            && (|ask| == 2 && ask[1].1.Added? && ask[1].1.evicted.Some? ==>
                  s.next in s'.ops && s'.ops[s.next] == Close(None, ask[1].1.evicted.value.1.fd))
  {
    hide Structured, Balanced, CacheRight, CallBack, AddToCache, HeadFor;
    LeafFacts(s, c, {c});
    var r := s.pts[c].caller.value;
    var path, file := s.pts[c].task.path, s.pts[r].task.file;
    var i := Find(s.cache, path);
    if i < |s.cache| {
      var s1 := s.(cache := DoublyLinkedList.Moved(s.cache, i));
      CacheStepKeeps(s, s1.cache, GetOp(path), {c});
      LocalsKeep(s1, SetFile(s1, r, s.cache[i].1), r, {c});
      CallBackIs(SetFile(s1, r, s.cache[i].1), c);
    } else if s.pts[c].label_ == AtStatx {
      AddToCacheIs(s, path, file);
      CallBackQuiet(AddToCache(s, path, file), c);
      BoundedOf(s, {c});
      AddToCacheKeeps(s, path, file, {c});
      BoundedOf(AddToCache(s, path, file), {c});
    }
  }

  // ---------- steps and runs ----------

  lemma DeliverTrace(s: State, id: nat, t: Talk)
    requires id in s.ops && Explains(t, s.cache) && |s.cache| <= CACHE_SIZE
    requires Waiter(s.ops[id]).Some? && Waiter(s.ops[id]).value in s.pts
    requires s.pts[Waiter(s.ops[id]).value].task.OpenFile?
    ensures Explains(t + DeliverTalk(s, id), Deliver(s, id).cache)
  {
    hide CallBack, Continue, OpenEntry, EntryTalk, Explains;
    var p := Waiter(s.ops[id]).value;
    OpenEntryTrace(Wake(s.(ops := s.ops - {id}), p), p, t);
  }

  /** Accepts, sends, splices and closes do not touch the cache. */
  lemma OtherSteps(s: State, e: Event, public: set<string>)
    requires Inv(s, {}) && Allowed(s, e) && !s.ops[e.id].Recv? && !s.ops[e.id].Openat? && !s.ops[e.id].Statx?
    ensures EventLoop.Step(s, e, public).cache == s.cache
  {
    hide Inv, Deliver, OnRecv, OnOpenat, OnStatx, SpliceAll.Complete, SpliceAll.Request;
    if Waiter(s.ops[e.id]).Some? {
      WaiterFacts(s, e.id);
    }
    match s.ops[e.id]
    case Accept =>
    case SendOp(_, client, buffer) =>
      DeliverQuiet(s, e.id);
      DeliverQuiet(if e.res < 0 then s else s.(out := s.out[client := Sent(s, client) + buffer[..e.res]]), e.id);
    case SpliceOp(_, _, fdOut, ctx, pipe) =>
      DeliverQuiet(s, e.id);
      DeliverQuiet(if e.res < 0 || !ctx.isDraining then s
                       else s.(out := s.out[fdOut := Sent(s, fdOut) + pipe[..e.res]]), e.id);
    case Close(_, fd) =>
      DeliverQuiet(s.(open := s.open - {fd}), e.id);
  }

  lemma RecvTrace(s: State, e: Event, public: set<string>, t: Talk)
    requires Inv(s, {}) && Allowed(s, e) && s.ops[e.id].Recv? && Explains(t, s.cache) && |s.cache| <= CACHE_SIZE
    ensures Explains(t + RecvTalk(s, e, public), OnRecv(s, e, public).cache)
  {
    hide Inv, OpenEntry, StartChain, EntryTalk, Explains, PublicPath, Receiving.OnChunk, Begun, Bounded;
    assert t + [] == t;
    var s1 := s.(ops := s.ops - {e.id});
    match Receiving.OnChunk(s.ops[e.id].buffer, if e.res <= 0 then "" else e.data)
    case Drop =>
    case More(_) =>
    case Dispatch(_, head) =>
      var path := PublicPath(public, head);
      if path.Some? {
        RemovedBounded(s, e.id);
        BegunFacts(s1, s.ops[e.id].client, path.value);
        BegunCache(s1, s.ops[e.id].client, path.value);
        OpenEntryTrace(Begun(s1, s.ops[e.id].client, path.value), s.next + 1, t);
      }
  }

  lemma RemovedBounded(s: State, id: nat)
    requires Inv(s, {})
    ensures Bounded(s.(ops := s.ops - {id}))
  {
    hide Balanced, CacheRight;
  }

  lemma BegunCache(s: State, client: int, path: string)
    ensures Begun(s, client, path).cache == s.cache
  {
  }

  lemma StepTrace(s: State, e: Event, public: set<string>, t: Talk)
    requires Inv(s, {}) && Allowed(s, e) && Explains(t, s.cache)
    ensures Explains(t + StepTalk(s, e, public), EventLoop.Step(s, e, public).cache)
  {
    hide Inv, Deliver, DeliverTalk, RecvTalk, Explains, Filled, OnOpenat, OnStatx, OnRecv;
    CacheFits(s);
    if s.ops[e.id].Recv? {
      RecvTrace(s, e, public, t);
    } else if s.ops[e.id].Openat? || s.ops[e.id].Statx? {
      WaiterFacts(s, e.id);
      FilledFacts(s, e);
      FilledStep(s, e, public);
      DeliverTrace(Filled(s, e), e.id, t);
    } else {
      OtherSteps(s, e, public);
      assert t + [] == t;
    }
  }

  lemma CacheFits(s: State)
    requires Inv(s, {})
    ensures |s.cache| <= CACHE_SIZE
  {
    hide Structured, Balanced;
  }

  /** In every run, whatever the interleaving of opens, the intended cache gives all the answers the run
      has gone by and ends up as the cache of the event loop, and every add finds its label absent. */
  lemma {:induction false} CacheFollowsTrace(accepts: nat, public: set<string>, es: seq<Event>)
    requires IsRun(accepts, public, es)
    ensures var t := Trace(accepts, public, es);
            && RecencyList.Run(CACHE_SIZE, Ops(t)) == (After(accepts, public, es).cache, Answers(t))
            && AddsAbsent(CACHE_SIZE, Ops(t))
  {
    hide EventLoop.Step, StepTalk, Inv;
    if es == [] {
      BootCache(accepts);
    } else {
      var before := es[..|es| - 1];
      CacheFollowsTrace(accepts, public, before);
      RunSafe(accepts, public, before);
      StepTrace(After(accepts, public, before), es[|es| - 1], public, Trace(accepts, public, before));
    }
  }

  lemma {:induction false} BootCache(accepts: nat)
    ensures Boot(accepts).cache == []
  {
    if accepts > 0 {
      BootCache(accepts - 1);
    }
  }

  // ---------- the cache as shown ----------

  /** What it takes for the cache as shown, with an index of so many slots, to serve a run: at each add to a
      full list the designated entry is the last one, and each lookup of a listed label is of one whose
      latest add was among the first `slots` adds. */
  ghost predicate ShownServes(accepts: nat, public: set<string>, es: seq<Event>, slots: nat)
    requires IsRun(accepts, public, es)
  {
    Serves(CACHE_SIZE, slots, Ops(Trace(accepts, public, es)))
  }

  /** Asked what a run asks, the cache as shown gives the answers the run has gone by exactly when it serves
      the run; it then ends up with the very entries of the event loop's cache. */
  lemma ShownAnswers(accepts: nat, public: set<string>, es: seq<Event>, slots: nat)
    requires IsRun(accepts, public, es)
    ensures var t := Trace(accepts, public, es);
            var (st, outs) := ShownRun(CACHE_SIZE, slots, Ops(t));
            && (outs == Answers(t) <==> ShownServes(accepts, public, es, slots))
            && (ShownServes(accepts, public, es, slots) ==> st.Running? && st.list == After(accepts, public, es).cache)
  {
    hide RecencyList.Run, ShownRun, Serves, AddsAbsent, Trace, IsRun, After;
    CacheFollowsTrace(accepts, public, es);
    var ops := Ops(Trace(accepts, public, es));
    ShownExactly(CACHE_SIZE, slots, ops);
    if Serves(CACHE_SIZE, slots, ops) {
      ShownIsIntended(CACHE_SIZE, slots, ops);
    }
  }

  /** The cache as shown, replayed on a run of the event loop, for any hash function and any index. */
  method ReplayAsShown(ghost accepts: nat, ghost public: set<string>, ghost es: seq<Event>,
                       ops: seq<RecencyList.Op<File>>, slots: nat, hash: string -> nat)
    returns (outs: seq<RecencyList.Out<File>>)
    requires IsRun(accepts, public, es) && ops == Ops(Trace(accepts, public, es)) && slots >= 1
    ensures outs == Answers(Trace(accepts, public, es)) <==> ShownServes(accepts, public, es, slots)
  {
    hide IsRun, After, Trace, RecencyList.Run, ShownRun, Serves, AddsAbsent;
    CacheFollowsTrace(accepts, public, es);
    outs := LruCaching.RunAsShown(CACHE_SIZE, slots, hash, ops);
  }
}
