/**
 File records while the open routine works on them. In every reachable state, whatever has failed, the
 record of a file that is still to be opened is as it was created, with descriptor 0 and size 0; and as
 long as the opens of one path succeed, files of that path are measured under a descriptor of their own.
 */
module OpenRecords {
  import opened Wrappers
  import opened DoublyLinkedList
  import opened EventLoop
  import opened EventLoopSafety
  import opened Delivery
  import opened DeliverySteps
  import opened Frames
  import RecencyList
  import Receiving
  import SpliceAll

  /** `good`, if given, is a path of which no open has failed. */
  ghost predicate RecordRight(s: State, good: Option<string>, p: nat) {
    && Untouched(s, p)
    && (good.Some? ==> Opened(s, good.value, p))
  }

  /** A file of this path that is being measured has been opened. */
  ghost predicate Opened(s: State, path: string, p: nat) {
    p in s.pts && s.pts[p].task == OpenFile(path) && s.pts[p].label_ == AtStatx
    && s.pts[p].caller.Some? && IsRoot(s, s.pts[p].caller.value) ==>
      s.pts[s.pts[p].caller.value].task.file.fd != 0
  }

  ghost predicate RecordsRight(s: State, good: Option<string>) {
    forall p: nat :: RecordRight(s, good, p)
  }

  ghost predicate RightBut(s: State, good: Option<string>, c: nat) {
    forall p: nat :: p != c ==> RecordRight(s, good, p)
  }

  lemma QuietRight(s: State, s': State, good: Option<string>, p: nat)
    requires Quiet(s, s') && (p in s.pts ==> RecordRight(s, good, p))
    ensures RecordRight(s', good, p)
  {
    hide Grows;
  }

  // ---------- entering async_io_open_file ----------

  /** A routine that has returned is gone. */
  lemma CallBackGone(s: State, c: nat)
    requires Inv(s, {c}) && c in s.pts && !s.pts[c].task.SendFile?
    ensures c !in CallBack(s, c).pts
  {
    hide Structured, Balanced, CacheRight, Continue;
    LeafFacts(s, c, {c});
    var r := s.pts[c].caller.value;
    WakeKeeps(s, r, {c});
    assert {c} + {r} == {r, c};
    ContinueNew(Wake(s, r), r, c);
  }

  lemma CallBackRight(s: State, c: nat, good: Option<string>)
    requires Inv(s, {c}) && c in s.pts && s.pts[c].task.OpenFile? && RightBut(s, good, c)
    ensures RecordsRight(CallBack(s, c), good)
  {
    hide Inv, CallBack, RecordRight, Quiet;
    CallBackQuiet(s, c);
    CallBackGone(s, c);
    var s' := CallBack(s, c);
    forall p: nat ensures RecordRight(s', good, p) {
      if p != c {
        QuietRight(s, s', good, p);
      } else {
        GoneRight(s', good, p);
      }
    }
  }

  lemma GoneRight(s: State, good: Option<string>, p: nat)
    requires p !in s.pts
    ensures RecordRight(s, good, p)
  {
  }

  /** The one record that an open routine may write is its caller's, and that is no other's. */
  lemma OwnRecord(s: State, s': State, c: nat, r: nat, run: set<nat>, good: Option<string>)
    requires Inv(s, run) && c in s.pts && s.pts[c].task.OpenFile? && s.pts[c].caller == Some(r) && IsRoot(s, r)
    requires RightBut(s, good, c)
    requires s'.pts.Keys == s.pts.Keys && forall p :: p in s.pts && p != r && p != c ==> s'.pts[p] == s.pts[p]
    requires IsRoot(s', r) && s'.pts[c].task == s.pts[c].task
    ensures RightBut(s', good, c)
  {
    hide Structured, Balanced, CacheRight;
    LeafFacts(s, c, run);
    OnlyChild(s, r, c, run);
    forall p: nat | p != c ensures RecordRight(s', good, p) {
      assert RecordRight(s, good, p);
    }
  }

  /** What the open routine relies on when it is entered: a file not opened yet has its record as it was
      created, and one of the good path has been opened if that is where the routine is. */
  ghost predicate EntersRight(s: State, c: nat, good: Option<string>) {
    && c in s.pts && s.pts[c].task.OpenFile? && s.pts[c].caller.Some? && IsRoot(s, s.pts[c].caller.value)
    && var file := s.pts[s.pts[c].caller.value].task.file;
       match s.pts[c].label_
       case Fresh => file.fd == 0 && file.size == 0
       case AtOpenat => good.Some? && s.pts[c].task == OpenFile(good.value) ==> file.fd != 0
       case AtStatx => true
       case _ => false
  }

  lemma OpenEntryRight(s: State, c: nat, good: Option<string>)
    requires Inv(s, {c}) && RightBut(s, good, c) && EntersRight(s, c, good)
    ensures RecordsRight(OpenEntry(s, c), good)
  {
    hide Structured, Balanced, CacheRight, CallBack, AddToCache, RightBut, RecordsRight, RecordRight;
    LeafFacts(s, c, {c});
    var r := s.pts[c].caller.value;
    var path, file := s.pts[c].task.path, s.pts[r].task.file;
    var i := RecencyList.Find(s.cache, path);
    if i < |s.cache| {
      var s1 := s.(cache := Moved(s.cache, i));
      CacheStepKeeps(s, s1.cache, RecencyList.GetOp(path), {c});
      var s2 := SetFile(s1, r, s.cache[i].1);
      LocalsKeep(s1, s2, r, {c});
      OwnRecord(s, s2, c, r, {c}, good);
      CallBackRight(s2, c, good);
    } else {
      match s.pts[c].label_
      case Fresh =>
        WaitRight(s, SetFile(s, r, file.(name := Basename(path, |path|))), c, r, AtOpenat, Openat(c, path), good);
      case AtOpenat =>
        WaitRight(s, s, c, r, AtStatx, Statx(c, file.fd), good);
      case AtStatx =>
        AddToCacheKeeps(s, path, file, {c});
        AddedIsFront(s, path, file);
        OwnRecord(s, AddToCache(s, path, file), c, r, {c}, good);
        CallBackRight(AddToCache(s, path, file), c, good);
    }
  }

  lemma RunningFree(s: State, c: nat)
    requires Inv(s, {c}) && c in s.pts
    ensures !s.pts[c].suspended
  {
    hide Balanced, CacheRight, Chained, Owned, Bounded;
  }

  lemma WaitRight(s: State, s1: State, c: nat, r: nat, label_: Label, op: Op, good: Option<string>)
    requires Inv(s, {c}) && c in s.pts && s.pts[c].task.OpenFile? && s.pts[c].caller == Some(r) && IsRoot(s, r)
    requires RightBut(s, good, c) && r != c && IsRoot(s1, r)
    requires s1.pts.Keys == s.pts.Keys && forall p :: p in s.pts && p != r ==> s1.pts[p] == s.pts[p]
    requires label_ == AtOpenat ==> s1.pts[r].task.file.fd == 0 && s1.pts[r].task.file.size == 0
    requires label_ == AtStatx && good.Some? && s.pts[c].task == OpenFile(good.value) ==> s1.pts[r].task.file.fd != 0
    ensures RecordsRight(SuspendOn(s1, c, label_, op), good)
  {
    hide Inv;
    RunningFree(s, c);
    var s' := SuspendOn(s1, c, label_, op);
    OwnRecord(s, s', c, r, {c}, good);
    assert RecordRight(s', good, c);
  }

  // ---------- steps ----------

  /** Protothreads lose or gain nothing but bookkeeping. */
  lemma SameRight(s: State, s': State, good: Option<string>)
    requires RecordsRight(s, good)
    requires forall p :: p in s'.pts ==> p in s.pts && s'.pts[p].task == s.pts[p].task
                                         && s'.pts[p].caller == s.pts[p].caller && s'.pts[p].label_ == s.pts[p].label_
    ensures RecordsRight(s', good)
  {
    forall p: nat ensures RecordRight(s', good, p) {
      assert RecordRight(s, good, p);
    }
  }

  lemma FilledKeeps(s: State, e: Event)
    requires Inv(s, {}) && e.id in s.ops && (s.ops[e.id].Openat? || s.ops[e.id].Statx?)
    ensures Inv(Filled(s, e), {})
    ensures var p := s.ops[e.id].pt;
            && p in s.pts && s.pts[p].task.OpenFile? && s.pts[p].caller.Some? && IsRoot(s, s.pts[p].caller.value)
            && s.pts[p].label_ == (if s.ops[e.id].Openat? then AtOpenat else AtStatx)
            && var r := s.pts[p].caller.value;
               var s' := Filled(s, e);
               && r != p && s'.pts.Keys == s.pts.Keys && IsRoot(s', r)
               && (forall q :: q in s.pts && q != r ==> s'.pts[q] == s.pts[q])
               && s'.pts[r].task.file.fd == (if s.ops[e.id].Openat? && e.res >= 0 then e.res else s.pts[r].task.file.fd)
               && s'.pts[r].task.file.size == (if s.ops[e.id].Statx? && e.res >= 0 then e.size else s.pts[r].task.file.size)
  {
    hide Structured, Balanced, CacheRight;
    WaiterFacts(s, e.id);
    LeafFacts(s, s.ops[e.id].pt, {});
    if e.res >= 0 {
      if s.ops[e.id].Statx? {
        WithFileKeeps(s, e.id, None, Some(e.size));
      } else {
        var p := s.ops[e.id].pt;
        var root := if p in s.pts && s.pts[p].caller.Some? then s.pts[p].caller.value else 0;
        var s1 := s.(open := s.open[e.res := FileDesc(e.data, ByOpening(root))]);
        OutsideKeeps(s, s1, {});
        WithFileKeeps(s1, e.id, Some(e.res), None);
      }
    }
  }

  /** Opens of the path succeed, under descriptors of their own. */
  predicate OpensRight(s: State, e: Event, good: Option<string>) {
    e.id in s.ops && (s.ops[e.id].Openat? && good == Some(s.ops[e.id].path) ==> e.res > 0)
  }

  lemma OpensKeep(s: State, e: Event, public: set<string>, good: Option<string>)
    requires Inv(s, {}) && Allowed(s, e) && (s.ops[e.id].Openat? || s.ops[e.id].Statx?)
    requires RecordsRight(s, good) && OpensRight(s, e, good)
    ensures RecordsRight(Step(s, e, public), good)
  {
    hide Structured, Balanced, CacheRight, RecordRight, OpenEntry, OnOpenat, OnStatx, Filled;
    FilledStep(s, e, public);
    FilledFacts(s, e);
    FilledKeeps(s, e);
    var p := s.ops[e.id].pt;
    var s1 := Filled(s, e);
    WaiterFacts(s, e.id);
    if s.ops[e.id].Openat? {
      OpenatPath(s, e.id);
    }
    DeliverKeeps(s1, e.id);
    var s2 := Woken(s1, e.id, p);
    OwnRecord(s, s2, p, s.pts[p].caller.value, {}, good);
    OpenEntryRight(s2, p, good);
  }

  /** A path is opened for the routine that waits for it. */
  lemma OpenatPath(s: State, id: nat)
    requires Inv(s, {}) && id in s.ops && s.ops[id].Openat?
    ensures s.ops[id].pt in s.pts && s.pts[s.ops[id].pt].task == OpenFile(s.ops[id].path)
  {
    hide Balanced, CacheRight;
    WaiterFacts(s, id);
    assert Waiting(s, s.ops[id].pt);
  }

  lemma ReturnsRight(s: State, s1: State, id: nat, good: Option<string>)
    requires Inv(s, {}) && id in s.ops && RecordsRight(s, good) && s1.pts == s.pts && s1.ops == s.ops
    requires s.ops[id].SendOp? || s.ops[id].SpliceOp? || s.ops[id].Close?
    ensures RecordsRight(Deliver(s1, id), good)
  {
    hide Inv, Deliver, RecordRight, Quiet;
    if Waiter(s.ops[id]).Some? {
      WaiterFacts(s, id);
    }
    DeliverQuiet(s1, id);
    var s2 := s1.(ops := s1.ops - {id});
    SameRight(s, s2, good);
    forall p: nat ensures RecordRight(Deliver(s1, id), good, p) {
      QuietRight(s2, Deliver(s1, id), good, p);
    }
  }

  lemma CallersExist(s: State)
    requires Inv(s, {})
    ensures forall c :: c in s.pts && s.pts[c].caller.Some? ==> s.pts[c].caller.value in s.pts
  {
    hide Balanced, CacheRight;
    forall c | c in s.pts && s.pts[c].caller.Some? ensures s.pts[c].caller.value in s.pts {
      assert LinkedAt(s, c);
    }
  }

  lemma BegunRight(s: State, client: int, path: string, good: Option<string>)
    requires Bounded(s) && RecordsRight(s, good)
    requires forall c :: c in s.pts && s.pts[c].caller.Some? ==> s.pts[c].caller.value in s.pts
    ensures RightBut(Begun(s, client, path), good, s.next + 1) && EntersRight(Begun(s, client, path), s.next + 1, good)
  {
    hide Begun;
    BegunShape(s, client, path);
    var s' := Begun(s, client, path);
    forall p: nat | p != s.next + 1 ensures RecordRight(s', good, p) {
      assert RecordRight(s, good, p);
    }
  }

  lemma RecvRight(s: State, e: Event, public: set<string>, good: Option<string>)
    requires Inv(s, {}) && Allowed(s, e) && s.ops[e.id].Recv? && RecordsRight(s, good)
    ensures RecordsRight(OnRecv(s, e, public), good)
  {
    hide Inv, RecordRight, EntersRight, StartChain, OpenEntry, Begun, Receiving.OnChunk, PublicPath;
    var client := s.ops[e.id].client;
    var s1 := s.(ops := s.ops - {e.id});
    SameRight(s, s1, good);
    match Receiving.OnChunk(s.ops[e.id].buffer, if e.res <= 0 then "" else e.data)
    case Drop =>
    case More(b) =>
      SameRight(s, Submit(SetHolder(s1, client, ByRecv(s1.next)), Recv(client, b)), good);
    case Dispatch(_, head) =>
      var path := PublicPath(public, head);
      if path.Some? {
        DeliverKeeps(s, e.id);
        BoundedOf(s1, {});
        CallersExist(s1);
        BegunRight(s1, client, path.value, good);
        BegunInv(s1, client, path.value);
        BegunFacts(s1, client, path.value);
        OpenEntryRight(Begun(s1, client, path.value), s1.next + 1, good);
      }
  }

  lemma ResubmitRight(s: State, s1: State, id: nat, op: Op, good: Option<string>)
    requires RecordsRight(s, good) && s1.pts == s.pts && id in s1.ops
    ensures RecordsRight(Resubmit(s1, id, op), good)
  {
    hide RecordsRight;
    SameRight(s, Resubmit(s1, id, op), good);
  }

  lemma StepRecords(s: State, e: Event, public: set<string>, good: Option<string>)
    requires Inv(s, {}) && Allowed(s, e) && RecordsRight(s, good) && OpensRight(s, e, good)
    ensures RecordsRight(Step(s, e, public), good)
  {
    hide Inv, RecordsRight, Deliver, Resubmit, OnOpenat, OnStatx, OnRecv, SpliceAll.Complete;
    match s.ops[e.id]
    case Accept => SameRight(s, OnAccept(s, e), good);
    case Recv(_, _) => RecvRight(s, e, public, good);
    case Openat(_, _) => OpensKeep(s, e, public, good);
    case Statx(_, _) => OpensKeep(s, e, public, good);
    case SendOp(p, client, buffer) =>
      ReturnsRight(s, s, e.id, good);
      if e.res >= 0 {
        var s1 := s.(out := s.out[client := Sent(s, client) + buffer[..e.res]]);
        ReturnsRight(s, s1, e.id, good);
        ResubmitRight(s, s1, e.id, SendOp(p, client, buffer[e.res..]), good);
      }
    case SpliceOp(p, fdIn, fdOut, ctx, pipe) =>
      ReturnsRight(s, s, e.id, good);
      if e.res >= 0 {
        var c := SpliceAll.Complete(ctx, e.res).0;
        ResubmitRight(s, s, e.id, SpliceOp(p, fdIn, fdOut, c, pipe + e.data), good);
        if ctx.isDraining {
          var s1 := s.(out := s.out[fdOut := Sent(s, fdOut) + pipe[..e.res]]);
          ReturnsRight(s, s1, e.id, good);
          ResubmitRight(s, s1, e.id, SpliceOp(p, fdIn, fdOut, c, pipe[e.res..]), good);
        }
      }
    case Close(_, fd) =>
      ReturnsRight(s, s.(open := s.open - {fd}), e.id, good);
  }

  lemma {:induction false} NobodyBooted(accepts: nat)
    ensures Boot(accepts).pts == map[] && Boot(accepts).open == map[] && Boot(accepts).cache == []
  {
    if accepts > 0 {
      NobodyBooted(accepts - 1);
    }
  }

  lemma {:induction false} RunUntouched(accepts: nat, public: set<string>, es: seq<Event>)
    requires IsRun(accepts, public, es)
    ensures RecordsRight(After(accepts, public, es), None)
  {
    hide Inv, Step;
    if es == [] {
      NobodyBooted(accepts);
    } else {
      var before := es[..|es| - 1];
      RunUntouched(accepts, public, before);
      RunSafe(accepts, public, before);
      StepRecords(After(accepts, public, before), es[|es| - 1], public, None);
    }
  }

  /** In every reachable state the record of a file whose open is in flight is as it was created. */
  lemma OpenRecordsUntouched(accepts: nat, public: set<string>, es: seq<Event>, id: nat)
    requires IsRun(accepts, public, es)
    requires id in After(accepts, public, es).ops && After(accepts, public, es).ops[id].Openat?
    ensures var s := After(accepts, public, es);
            var p := s.ops[id].pt;
            && p in s.pts && s.pts[p].caller.Some? && IsRoot(s, s.pts[p].caller.value)
            && s.pts[s.pts[p].caller.value].task.file.fd == 0 && s.pts[s.pts[p].caller.value].task.file.size == 0
  {
    hide Inv;
    RunUntouched(accepts, public, es);
    RunSafe(accepts, public, es);
    var s := After(accepts, public, es);
    WaiterFacts(s, id);
    LeafFacts(s, s.ops[id].pt, {});
    assert RecordRight(s, None, s.ops[id].pt);
  }
}
