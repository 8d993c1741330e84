/**
 What the routines of a chain leave alone: the operations in flight and, but for the open routine, the
 cache. Nothing here needs the invariant.
 */
module Frames {
  import opened Wrappers
  import opened EventLoop
  import opened Delivery
  import DoublyLinkedList
  import RecencyList
  import SpliceAll

  /** s' has every operation of s; what it has besides is neither an accept nor a receive. Nothing is sent,
      and what has been logged stays. */
  ghost predicate Grows(s: State, s': State) {
    && s.next <= s'.next && s'.out == s.out && s.log <= s'.log
    && (forall id :: id in s.ops && id < s.next ==> id in s'.ops && s'.ops[id] == s.ops[id])
    && (forall id :: id in s'.ops ==>
          (id in s.ops && s'.ops[id] == s.ops[id]) || (s.next <= id && !s'.ops[id].Accept? && !s'.ops[id].Recv?))
  }

  /** A protothread keeps its caller, its routine and what it was called with, a root its file record, an
      open routine its label; a root that has begun to send keeps the content it sends. */
  ghost predicate Kept(t: Pt, t': Pt) {
    && t'.caller == t.caller
    && if t.task.SendFile? then
         && t'.task.SendFile? && t'.task.client == t.task.client && t'.task.path == t.task.path
         && t'.task.file == t.task.file
         && (t.label_ != AtOpen ==> t'.label_ != AtOpen && t'.task.body == t.task.body)
       else t'.task == t.task && (t.task.OpenFile? ==> t'.label_ == t.label_)
  }

  /** Besides, the cache and the descriptors are the same, nothing new opens a file, and protothreads
      keep what they stand for. */
  ghost predicate Quiet(s: State, s': State) {
    && Grows(s, s') && s'.cache == s.cache && s'.open == s.open
    && (forall id :: id in s'.ops ==> (id in s.ops && s'.ops[id] == s.ops[id]) || !s'.ops[id].Openat?)
    && (forall p :: p in s'.pts ==>
          (p in s.pts && Kept(s.pts[p], s'.pts[p]))
          || (s.next <= p && !s'.pts[p].task.SendFile? && !s'.pts[p].task.OpenFile?))
  }

  lemma QuietTrans(s: State, s1: State, s2: State)
    requires Quiet(s, s1) && Quiet(s1, s2)
    ensures Quiet(s, s2)
  {
  }

  lemma KeptSame()
    ensures forall t: Pt :: Kept(t, t)
  {
  }

  /** One protothread is rewritten, and at most one operation added. */
  lemma OnePt(s: State, s': State, p: nat)
    requires p in s.pts && p in s'.pts && s'.pts == s.pts[p := s'.pts[p]] && Kept(s.pts[p], s'.pts[p])
    requires s'.cache == s.cache && s'.open == s.open && s'.out == s.out && s.log <= s'.log
    requires (s'.ops == s.ops && s'.next == s.next)
             || (s'.next == s.next + 1 && s.next in s'.ops && s'.ops == s.ops[s.next := s'.ops[s.next]]
                 && !s'.ops[s.next].Accept? && !s'.ops[s.next].Recv? && !s'.ops[s.next].Openat?)
    ensures Quiet(s, s')
  {
    hide Kept;
    KeptSame();
  }

  lemma SuspendOnQuiet(s: State, p: nat, label_: Label, op: Op)
    requires !op.Accept? && !op.Recv? && !op.Openat? && label_ != AtOpen
    requires p in s.pts ==> !s.pts[p].task.OpenFile?
    ensures Quiet(s, SuspendOn(s, p, label_, op))
  {
    hide Quiet;
    FaultQuiet(s);
    if p in s.pts && !s.pts[p].suspended {
      OnePt(s, SuspendOn(s, p, label_, op), p);
    }
  }

  lemma SpawnQuiet(s: State, r: nat, task: Task, label_: Label)
    requires !task.SendFile? && !task.OpenFile? && label_ != AtOpen && IsRoot(s, r)
    ensures Quiet(s, Suspend(Spawn(s, r, task), r, label_))
    ensures var s' := Suspend(Spawn(s, r, task), r, label_); s.next in s'.pts && s'.pts[s.next].task == task
  {
    hide Quiet;
    FaultQuiet(s);
    var s1 := Spawn(s, r, task);
    FaultQuiet(s1);
    SpawnedQuiet(s, r, task);
    if r in s1.pts && !s1.pts[r].suspended {
      OnePt(s1, Suspend(s1, r, label_), r);
    }
    QuietTrans(s, s1, Suspend(s1, r, label_));
  }

  lemma SpawnedQuiet(s: State, r: nat, task: Task)
    requires !task.SendFile? && !task.OpenFile?
    ensures Quiet(s, Spawn(s, r, task))
  {
    hide Kept;
    KeptSame();
    KeptChild();
  }

  lemma KeptChild()
    ensures forall t: Pt, child :: t.task.SendFile? ==> Kept(t, t.(task := t.task.(child := child)))
  {
  }

  lemma StartSendQuiet(s: State, r: nat)
    requires r in s.pts ==> s.pts[r].label_ == AtOpen
    ensures Quiet(s, StartSend(s, r))
  {
    hide HeadFor, ContentOf, Spawn, Suspend, SuspendOn, Quiet;
    var s1 := FreeChild(s, r);
    FreeChildQuiet(s, r);
    if IsRoot(s1, r) {
      var t := s1.pts[r].task;
      var raw := HeadFor(t.file);
      var s2 := SetRaw(s1, r, raw, ContentOf(s1, t.file.fd));
      SetRawQuiet(s1, r, raw, ContentOf(s1, t.file.fd));
      var s4 := Suspend(Spawn(s2, r, SendBuffer(raw, t.client)), r, AtSend);
      SpawnQuiet(s2, r, SendBuffer(raw, t.client), AtSend);
      SuspendOnQuiet(s4, s2.next, AtSendOp, SendOp(s2.next, t.client, raw));
      QuietTrans(s2, s4, StartSend(s, r));
      QuietTrans(s1, s2, StartSend(s, r));
      QuietTrans(s, s1, StartSend(s, r));
    } else {
      FaultQuiet(s1);
      QuietTrans(s, s1, Fault(s1));
    }
  }

  lemma FaultQuiet(s: State)
    ensures Quiet(s, Fault(s)) && Quiet(s, s)
  {
  }

  lemma FreeChildQuiet(s: State, r: nat)
    ensures Quiet(s, FreeChild(s, r))
    ensures var s1 := FreeChild(s, r); r in s1.pts ==> r in s.pts && s1.pts[r].label_ == s.pts[r].label_
  {
  }

  lemma SetRawQuiet(s: State, r: nat, raw: string, body: string)
    requires r in s.pts ==> s.pts[r].label_ == AtOpen
    ensures IsRoot(s, r) ==> IsRoot(SetRaw(s, r, raw, body), r)
    ensures Quiet(s, SetRaw(s, r, raw, body))
  {
    hide Quiet;
    FaultQuiet(s);
    if IsRoot(s, r) {
      OnePt(s, SetRaw(s, r, raw, body), r);
    }
  }

  lemma StartBodyQuiet(s: State, r: nat)
    ensures Quiet(s, StartBody(s, r))
  {
    hide Spawn, Suspend, SuspendOn, Quiet;
    var s1 := FreeChild(s, r);
    FreeChildQuiet(s, r);
    if IsRoot(s1, r) {
      var t := s1.pts[r].task;
      var s3 := Suspend(Spawn(s1, r, SendBody(t.client)), r, AtBody);
      SpawnQuiet(s1, r, SendBody(t.client), AtBody);
      SuspendOnQuiet(s3, s1.next, AtSplice, SpliceOp(s1.next, t.file.fd, t.client, SpliceAll.Start(t.file.size), ""));
      QuietTrans(s1, s3, StartBody(s, r));
      QuietTrans(s, s1, StartBody(s, r));
    } else {
      FaultQuiet(s1);
      QuietTrans(s, s1, Fault(s1));
    }
  }

  lemma StartCloseQuiet(s: State, r: nat)
    ensures Quiet(s, StartClose(s, r))
  {
    hide SuspendOn, Quiet;
    var s1 := FreeChild(s, r);
    FreeChildQuiet(s, r);
    if IsRoot(s1, r) {
      SuspendOnQuiet(s1, r, AtClose, Close(Some(r), s1.pts[r].task.client));
    } else {
      FaultQuiet(s1);
    }
    QuietTrans(s, s1, StartClose(s, r));
  }

  lemma ContinueQuiet(s: State, r: nat)
    ensures Quiet(s, Continue(s, r))
  {
    hide StartSend, StartBody, StartClose;
    if r in s.pts && s.pts[r].label_ == AtOpen {
      StartSendQuiet(s, r);
    }
    StartBodyQuiet(s, r);
    StartCloseQuiet(s, r);
  }

  lemma CallBackQuiet(s: State, c: nat)
    ensures Quiet(s, CallBack(s, c))
  {
    hide Continue;
    if c in s.pts && s.pts[c].caller.Some? {
      var r := s.pts[c].caller.value;
      ContinueQuiet(Wake(s, r), r);
    }
  }

  lemma WakeQuiet(s: State, p: nat)
    ensures Quiet(s, Wake(s, p))
  {
    hide Quiet;
    FaultQuiet(s);
    if p in s.pts && s.pts[p].suspended {
      OnePt(s, Wake(s, p), p);
    }
  }

  // ---------- with the open routine ----------

  lemma GrowsTrans(s: State, s1: State, s2: State)
    requires Grows(s, s1) && Grows(s1, s2)
    ensures Grows(s, s2)
  {
  }

  lemma AddToCacheGrows(s: State, path: string, file: File)
    ensures Grows(s, AddToCache(s, path, file))
  {
    hide RecencyList.Step;
    if RecencyList.Find(s.cache, path) == |s.cache| {
      hide AddToCache;
      AddToCacheIs(s, path, file);
    }
  }

  lemma SetFileGrows(s: State, r: nat, file: File)
    ensures Grows(s, SetFile(s, r, file))
  {
  }

  lemma SuspendOnGrows(s: State, p: nat, label_: Label, op: Op)
    requires !op.Accept? && !op.Recv?
    ensures Grows(s, SuspendOn(s, p, label_, op))
  {
  }

  lemma OpenEntryGrows(s: State, c: nat)
    ensures Grows(s, OpenEntry(s, c))
  {
    hide CallBack, AddToCache, SuspendOn, SetFile, Grows;
    FaultQuiet(s);
    if c in s.pts && s.pts[c].task.OpenFile? && s.pts[c].caller.Some? && IsRoot(s, s.pts[c].caller.value) {
      var r := s.pts[c].caller.value;
      var path, file := s.pts[c].task.path, s.pts[r].task.file;
      var i := RecencyList.Find(s.cache, path);
      if i < |s.cache| {
        var s1 := s.(cache := DoublyLinkedList.Moved(s.cache, i));
        SameOps(s, s1);
        SetFileGrows(s1, r, s.cache[i].1);
        CallBackQuiet(SetFile(s1, r, s.cache[i].1), c);
        GrowsTrans(s1, SetFile(s1, r, s.cache[i].1), OpenEntry(s, c));
        GrowsTrans(s, s1, OpenEntry(s, c));
      } else {
        var named := file.(name := Basename(path, |path|));
        SetFileGrows(s, r, named);
        SuspendOnGrows(SetFile(s, r, named), c, AtOpenat, Openat(c, path));
        GrowsTrans(s, SetFile(s, r, named), SuspendOn(SetFile(s, r, named), c, AtOpenat, Openat(c, path)));
        SuspendOnGrows(s, c, AtStatx, Statx(c, file.fd));
        AddToCacheGrows(s, path, file);
        CallBackQuiet(AddToCache(s, path, file), c);
        GrowsTrans(s, AddToCache(s, path, file), CallBack(AddToCache(s, path, file), c));
      }
    }
  }

  lemma SameOps(s: State, s': State)
    requires s'.ops == s.ops && s'.next == s.next && s'.out == s.out && s'.log == s.log
    ensures Grows(s, s')
  {
  }

  /** The completed operation goes; nothing else that was in flight does. */
  lemma DeliverGrows(s: State, id: nat)
    requires id in s.ops
    ensures Grows(s.(ops := s.ops - {id}), Deliver(s, id))
  {
    hide CallBack, Continue, OpenEntry, Grows, Wake;
    var s1 := s.(ops := s.ops - {id});
    FaultQuiet(s1);
    if Waiter(s.ops[id]).Some? {
      var p := Waiter(s.ops[id]).value;
      var s2 := Wake(s1, p);
      WakeQuiet(s1, p);
      FaultQuiet(s2);
      CallBackQuiet(s2, p);
      ContinueQuiet(s2, p);
      OpenEntryGrows(s2, p);
      GrowsTrans(s1, s2, Deliver(s, id));
    }
  }

  /** Unless the waiter is the open routine, a completion is quiet. */
  lemma DeliverQuiet(s: State, id: nat)
    requires id in s.ops
    requires Waiter(s.ops[id]).Some? && Waiter(s.ops[id]).value in s.pts ==> !s.pts[Waiter(s.ops[id]).value].task.OpenFile?
    ensures Quiet(s.(ops := s.ops - {id}), Deliver(s, id))
  {
    hide CallBack, Continue, OpenEntry, Quiet;
    var s1 := s.(ops := s.ops - {id});
    FaultQuiet(s1);
    if Waiter(s.ops[id]).Some? {
      var p := Waiter(s.ops[id]).value;
      var s2 := Wake(s1, p);
      WakeQuiet(s1, p);
      FaultQuiet(s2);
      CallBackQuiet(s2, p);
      ContinueQuiet(s2, p);
      QuietTrans(s1, s2, Deliver(s, id));
    }
  }

  // ---------- what a chain is for ----------

  /** Every root was there before, for the same client and path. */
  ghost predicate SameChains(s: State, s': State) {
    && s.next <= s'.next
    && forall q: nat :: IsRoot(s', q) && q < s.next ==>
                     IsRoot(s, q) && s'.pts[q].task.client == s.pts[q].task.client
                     && s'.pts[q].task.path == s.pts[q].task.path
  }

  lemma SameChainsTrans(s: State, s1: State, s2: State)
    requires SameChains(s, s1) && SameChains(s1, s2)
    ensures SameChains(s, s2)
  {
  }

  lemma QuietChains(s: State, s': State)
    requires Quiet(s, s')
    ensures SameChains(s, s')
  {
  }

  /** Bookkeeping, and what does not concern protothreads. */
  lemma PlainChains(s: State, s': State)
    requires s.next <= s'.next
    requires forall p :: p in s'.pts ==> p in s.pts && s'.pts[p].task == s.pts[p].task
    ensures SameChains(s, s')
  {
  }

  lemma SetFileChains(s: State, r: nat, file: File)
    ensures SameChains(s, SetFile(s, r, file))
  {
  }

  lemma OpenEntryChains(s: State, c: nat)
    ensures SameChains(s, OpenEntry(s, c))
  {
    hide CallBack, AddToCache, SuspendOn, SetFile, SameChains, Quiet;
    PlainChains(s, s);
    PlainChains(s, Fault(s));
    if c in s.pts && s.pts[c].task.OpenFile? && s.pts[c].caller.Some? && IsRoot(s, s.pts[c].caller.value) {
      var r := s.pts[c].caller.value;
      var path, file := s.pts[c].task.path, s.pts[r].task.file;
      var i := RecencyList.Find(s.cache, path);
      if i < |s.cache| {
        var s1 := s.(cache := DoublyLinkedList.Moved(s.cache, i));
        var s2 := SetFile(s1, r, s.cache[i].1);
        PlainChains(s, s1);
        SetFileChains(s1, r, s.cache[i].1);
        CallBackQuiet(s2, c);
        QuietChains(s2, OpenEntry(s, c));
        SameChainsTrans(s1, s2, OpenEntry(s, c));
        SameChainsTrans(s, s1, OpenEntry(s, c));
      } else {
        var named := SetFile(s, r, file.(name := Basename(path, |path|)));
        SetFileChains(s, r, file.(name := Basename(path, |path|)));
        WaitChains(named, c, AtOpenat, Openat(c, path));
        SameChainsTrans(s, named, SuspendOn(named, c, AtOpenat, Openat(c, path)));
        WaitChains(s, c, AtStatx, Statx(c, file.fd));
        var added := AddToCache(s, path, file);
        AddToCacheIs(s, path, file);
        PlainChains(s, added);
        CallBackQuiet(added, c);
        QuietChains(added, CallBack(added, c));
        SameChainsTrans(s, added, CallBack(added, c));
      }
    }
  }

  lemma WaitChains(s: State, c: nat, label_: Label, op: Op)
    ensures SameChains(s, SuspendOn(s, c, label_, op))
  {
  }

  lemma DeliverChains(s: State, id: nat)
    requires id in s.ops
    ensures SameChains(s, Deliver(s, id))
  {
    hide CallBack, Continue, OpenEntry, SameChains, Wake, Quiet;
    var s1 := s.(ops := s.ops - {id});
    PlainChains(s, s1);
    PlainChains(s1, Fault(s1));
    if Waiter(s.ops[id]).Some? {
      var p := Waiter(s.ops[id]).value;
      var s2 := Wake(s1, p);
      WakeQuiet(s1, p);
      QuietChains(s1, s2);
      PlainChains(s2, Fault(s2));
      CallBackQuiet(s2, p);
      QuietChains(s2, CallBack(s2, p));
      ContinueQuiet(s2, p);
      QuietChains(s2, Continue(s2, p));
      OpenEntryChains(s2, p);
      SameChainsTrans(s1, s2, Deliver(s, id));
    }
    SameChainsTrans(s, s1, Deliver(s, id));
  }

  lemma WithFileChains(s: State, p: nat, fd: Option<int>, size: Option<nat>)
    ensures SameChains(s, WithFile(s, p, fd, size))
  {
  }

  lemma ResubmitChains(s: State, id: nat, op: Op)
    requires id in s.ops
    ensures SameChains(s, Resubmit(s, id, op))
  {
  }

  // ---------- opens and measures ----------

  /** The file_t filled in by an open or a statx that succeeded. */
  function Filled(s: State, e: Event): State
    requires e.id in s.ops && (s.ops[e.id].Openat? || s.ops[e.id].Statx?)
  {
    var p := s.ops[e.id].pt;
    if e.res < 0 then s
    else if s.ops[e.id].Statx? then WithFile(s, p, None, Some(e.size))
    else
      var root := if p in s.pts && s.pts[p].caller.Some? then s.pts[p].caller.value else 0;
      WithFile(s.(open := s.open[e.res := FileDesc(e.data, ByOpening(root))]), p, Some(e.res), None)
  }

  lemma FilledFacts(s: State, e: Event)
    requires e.id in s.ops && (s.ops[e.id].Openat? || s.ops[e.id].Statx?)
    ensures var s' := Filled(s, e);
            && s'.cache == s.cache && s'.ops == s.ops && s'.pts.Keys == s.pts.Keys
            && forall p :: p in s.pts ==> s'.pts[p].task.OpenFile? == s.pts[p].task.OpenFile?
  {
  }

  lemma FilledStep(s: State, e: Event, public: set<string>)
    requires Allowed(s, e) && (s.ops[e.id].Openat? || s.ops[e.id].Statx?)
    ensures e.id in Filled(s, e).ops && Step(s, e, public) == Deliver(Filled(s, e), e.id)
  {
    hide Deliver;
    FilledFacts(s, e);
  }

  lemma FilledChains(s: State, e: Event)
    requires e.id in s.ops && (s.ops[e.id].Openat? || s.ops[e.id].Statx?)
    ensures SameChains(s, Filled(s, e))
  {
    hide WithFile, SameChains;
    PlainChains(s, s);
    var p := s.ops[e.id].pt;
    WithFileChains(s, p, None, Some(e.size));
    var root := if p in s.pts && s.pts[p].caller.Some? then s.pts[p].caller.value else 0;
    var s1 := s.(open := s.open[e.res := FileDesc(e.data, ByOpening(root))]);
    PlainChains(s, s1);
    WithFileChains(s1, p, Some(e.res), None);
    SameChainsTrans(s, s1, WithFile(s1, p, Some(e.res), None));
  }
}
