/**
 What every completion leads to, whatever its result: which waiter it resumes, what reaches the client, and
 which operation is in flight instead. An error resumes the waiter as a success does; a chain then goes on
 as if all were well.
 */
module Completions {
  import opened Wrappers
  import opened EventLoop
  import opened EventLoopSafety
  import opened Delivery
  import opened DeliverySteps
  import opened Frames
  import opened OpenRecords
  import opened DeliveryRuns
  import DoublyLinkedList
  import RecencyList
  import SpliceAll

  /** In a reachable state the invariants hold. */
  lemma ReachedFacts(accepts: nat, public: set<string>, es: seq<Event>)
    requires IsRun(accepts, public, es)
    ensures var s := After(accepts, public, es); Inv(s, {}) && FdRight(s, {}) && AllUntouched(s)
  {
    hide Inv, FdRight, AllUntouched;
    RunSafe(accepts, public, es);
    RunAccountsForFds(accepts, public, es);
    RunUntouched(accepts, public, es);
    UntouchedOf(After(accepts, public, es), None);
  }

  // ---------- resuming ----------

  /** The waiter is resumed, and whatever else is logged comes later. */
  ghost predicate Resumes(s: State, s': State, p: nat) {
    s.log + [Resumed(p)] <= s'.log
  }

  lemma WaiterResumes(s: State, id: nat)
    requires id in s.ops && Waiter(s.ops[id]).Some?
    requires Waiter(s.ops[id]).value in s.pts && s.pts[Waiter(s.ops[id]).value].suspended
    ensures Resumes(s, Deliver(s, id), Waiter(s.ops[id]).value) && Deliver(s, id).out == s.out
  {
    hide CallBack, Continue, OpenEntry;
    var p := Waiter(s.ops[id]).value;
    var s2 := Wake(s.(ops := s.ops - {id}), p);
    CallBackQuiet(s2, p);
    ContinueQuiet(s2, p);
    OpenEntryGrows(s2, p);
  }

  predicate SameKind(a: Op, b: Op) {
    || (a.Openat? && b.Openat?) || (a.Statx? && b.Statx?) || (a.SendOp? && b.SendOp?)
    || (a.SpliceOp? && b.SpliceOp?) || (a.Close? && b.Close?)
  }

  /** Entered again, the open routine returns or has gone from its open to its statx. */
  lemma EntryMoves(s: State, c: nat)
    requires Inv(s, {c}) && c in s.pts && s.pts[c].task.OpenFile?
    requires s.pts[c].label_ == AtOpenat || s.pts[c].label_ == AtStatx
    ensures c in OpenEntry(s, c).pts ==> s.pts[c].label_ == AtOpenat && OpenEntry(s, c).pts[c].label_ == AtStatx
  {
    hide Structured, Balanced, CacheRight, CallBack, AddToCache;
    LeafFacts(s, c, {c});
    RunningFree(s, c);
    var r := s.pts[c].caller.value;
    var path, file := s.pts[c].task.path, s.pts[r].task.file;
    var i := RecencyList.Find(s.cache, path);
    if i < |s.cache| {
      var s1 := s.(cache := DoublyLinkedList.Moved(s.cache, i));
      CacheStepKeeps(s, s1.cache, RecencyList.GetOp(path), {c});
      LocalsKeep(s1, SetFile(s1, r, s.cache[i].1), r, {c});
      CallBackGone(SetFile(s1, r, s.cache[i].1), c);
    } else if s.pts[c].label_ == AtStatx {
      AddToCacheKeeps(s, path, file, {c});
      AddToCacheIs(s, path, file);
      CallBackGone(AddToCache(s, path, file), c);
    }
  }

  /** After a completion that resumes its waiter, the waiter is gone or waits for an operation of another kind. */
  lemma WaiterMoves(s: State, s1: State, id: nat)
    requires Inv(s, {}) && id in s.ops && Waiter(s.ops[id]).Some? && Inv(s1, {})
    requires s1.ops == s.ops && s1.pts == s.pts && s1.next == s.next
    ensures var p := Waiter(s.ops[id]).value;
            p in Deliver(s1, id).pts ==> s.ops[id].Openat? && Deliver(s1, id).pts[p].label_ == AtStatx
  {
    hide Structured, Balanced, CacheRight, CallBack, OpenEntry;
    WaiterFacts(s, id);
    DeliverKeeps(s1, id);
    var p := Waiter(s.ops[id]).value;
    var s2 := Woken(s1, id, p);
    if s.pts[p].task.OpenFile? {
      EntryMoves(s2, p);
    } else if !s.pts[p].task.SendFile? {
      CallBackGone(s2, p);
    }
  }

  lemma NoneLeft(s: State, p: nat, op: Op)
    requires Inv(s, {}) && Waiter(op) == Some(p) && (p in s.pts ==> op.Openat? && s.pts[p].label_ == AtStatx)
    ensures forall id :: id in s.ops && Waiter(s.ops[id]) == Some(p) ==> !SameKind(s.ops[id], op)
  {
    hide Balanced, CacheRight, Chained, Parked, Bounded;
  }

  /** An error ends an operation as a success would: its waiter is resumed at once and has no operation of the
      kind in flight any more, and nothing reaches any client. */
  lemma ErrorResumes(accepts: nat, public: set<string>, es: seq<Event>, e: Event)
    requires IsRun(accepts, public, es) && Allowed(After(accepts, public, es), e) && e.res < 0
    requires Waiter(After(accepts, public, es).ops[e.id]).Some?
    ensures var s := After(accepts, public, es);
            var s' := Step(s, e, public);
            var p := Waiter(s.ops[e.id]).value;
            && Resumes(s, s', p) && s'.out == s.out
            && forall id :: id in s'.ops && Waiter(s'.ops[id]) == Some(p) ==> !SameKind(s'.ops[id], s.ops[e.id])
  {
    hide IsRun, After, Inv, FdRight, AllUntouched, Deliver, Resumes, SameKind;
    ReachedFacts(accepts, public, es);
    var s := After(accepts, public, es);
    var op := s.ops[e.id];
    var p := Waiter(op).value;
    WaiterFacts(s, e.id);
    StepSafe(s, e, public);
    var s1 := if op.Close? then s.(open := s.open - {op.fd}) else s;
    OutsideKeeps(s, s1, {});
    assert Step(s, e, public) == Deliver(s1, e.id);
    WaiterResumes(s1, e.id);
    SameLog(s, s1, Step(s, e, public), p);
    WaiterMoves(s, s1, e.id);
    NoneLeft(Step(s, e, public), p, op);
  }

  lemma SameLog(s: State, s1: State, s': State, p: nat)
    requires Resumes(s1, s', p) && s1.log == s.log
    ensures Resumes(s, s', p)
  {
  }

  // ---------- sends ----------

  /** The bytes sent to this client, and to no other. */
  ghost predicate Gains(s: State, s': State, client: int, text: string) {
    Sent(s', client) == Sent(s, client) + text && forall c :: c != client ==> Sent(s', c) == Sent(s, c)
  }

  /** The waiter's operation has been replaced by this one; the waiter still waits. */
  ghost predicate GoesOn(s: State, s': State, id: nat, p: nat, op: Op) {
    && p in s.pts && s'.log == s.log && s'.ops == (s.ops - {id})[s.next := op]
    && s'.pts == s.pts[p := s.pts[p].(op := Some(s.next))]
  }

  /** Chain r, with the same file and client, waits for its body to be sent, beginning with a fill. */
  ghost predicate SendsBody(s: State, s': State, r: nat) {
    && IsRoot(s, r) && IsRoot(s', r) && s'.pts[r].label_ == AtBody
    && var t, t' := s.pts[r].task, s'.pts[r].task;
       && t'.file == t.file && t'.client == t.client && t'.child.Some?
       && exists id :: id in s'.ops
                       && s'.ops[id] == SpliceOp(t'.child.value, t.file.fd, t.client,
                                                 SpliceAll.Context(t.file.size % 0x1_0000_0000, 0, false), "")
  }

  /** The root a sending or splicing routine works for. */
  ghost predicate WorksFor(s: State, p: nat, r: nat) {
    p in s.pts && s.pts[p].caller == Some(r) && IsRoot(s, r)
  }

  lemma SplicingIs(s: State, s': State, r: nat)
    requires IsRoot(s, r)
    requires var t := s.pts[r].task;
             SplicingAt(s', r, t.file, t.client, SpliceAll.Start(t.file.size), "", t.raw, t.body)
    ensures SendsBody(s, s', r)
  {
  }

  /** A send that completes, with an error, some bytes or all. */
  lemma SendLeads(accepts: nat, public: set<string>, es: seq<Event>, e: Event)
    requires IsRun(accepts, public, es) && Allowed(After(accepts, public, es), e)
    requires After(accepts, public, es).ops[e.id].SendOp?
    ensures var s := After(accepts, public, es);
            var s' := Step(s, e, public);
            var SendOp(p, client, buffer) := s.ops[e.id];
            && Gains(s, s', client, if e.res < 0 then "" else buffer[..e.res])
            && if 0 <= e.res < |buffer| then GoesOn(s, s', e.id, p, SendOp(p, client, buffer[e.res..]))
               else exists r :: WorksFor(s, p, r) && Resumes(s, s', p) && p !in s'.pts && SendsBody(s, s', r)
  {
    hide IsRun, After, Inv, FdRight, AllUntouched, Deliver, Resubmit, SplicingAt, SendsBody, Resumes;
    ReachedFacts(accepts, public, es);
    var s := After(accepts, public, es);
    WriterFacts(s, e.id);
    WaiterFacts(s, e.id);
    var SendOp(p, client, buffer) := s.ops[e.id];
    var r := s.pts[p].caller.value;
    assert buffer[..0] == "";
    var s1 := if e.res < 0 then s else s.(out := s.out[client := Sent(s, client) + buffer[..e.res]]);
    if e.res >= 0 {
      OutFd(s, r, buffer[..e.res]);
    }
    OutsideKeeps(s, s1, {});
    if 0 <= e.res < |buffer| {
      ResubmitFd(s1, e.id, SendOp(p, client, buffer[e.res..]));
      ResubmitOps(s1, e.id, SendOp(p, client, buffer[e.res..]));
    } else {
      DeliverReturn(s1, e.id);
      WaiterResumes(s1, e.id);
      SameLog(s, s1, Step(s, e, public), p);
      WaiterMoves(s, s1, e.id);
      SplicingIs(s, Step(s, e, public), r);
      assert WorksFor(s, p, r);
    }
  }

  lemma ResubmitOps(s: State, id: nat, op: Op)
    requires id in s.ops && Waiter(op).Some? && Waiter(op).value in s.pts
    ensures GoesOn(s, Resubmit(s, id, op), id, Waiter(op).value, op)
  {
  }

  // ---------- splices ----------

  /** Chain r waits for the close of its client, which is in flight. */
  ghost predicate ClosesClient(s: State, s': State, r: nat) {
    && IsRoot(s, r) && IsRoot(s', r) && s'.pts[r].label_ == AtClose
    && s'.pts[r].task.file == s.pts[r].task.file && s'.pts[r].task.client == s.pts[r].task.client
    && exists id :: id in s'.ops && s'.ops[id] == Close(Some(r), s.pts[r].task.client)
  }

  lemma ClosingIs(s: State, s': State, r: nat)
    requires Inv(s', {}) && FdRight(s', {}) && IsRoot(s, r)
    requires var t := s.pts[r].task; ClosingAt(s', r, t.file, t.client, t.raw, t.body)
    ensures ClosesClient(s, s', r)
  {
    hide Balanced, CacheRight, Chained, Owned, Bounded, CachedFiles, OpeningFiles, Writes, Clients;
    assert Waiting(s', r);
    assert s'.ops[s'.pts[r].op.value] == Close(Some(r), s.pts[r].task.client);
  }

  /** A splice that completes: an error or the last drain ends the transfer; otherwise the machine goes on. */
  lemma SpliceLeads(accepts: nat, public: set<string>, es: seq<Event>, e: Event)
    requires IsRun(accepts, public, es) && Allowed(After(accepts, public, es), e)
    requires After(accepts, public, es).ops[e.id].SpliceOp?
    ensures var s := After(accepts, public, es);
            var s' := Step(s, e, public);
            var SpliceOp(p, fdIn, client, ctx, pipe) := s.ops[e.id];
            && Gains(s, s', client, if e.res < 0 || !ctx.isDraining then "" else pipe[..e.res])
            && if e.res >= 0 && !SpliceAll.Complete(ctx, e.res).1 then
                 GoesOn(s, s', e.id, p, SpliceOp(p, fdIn, client, SpliceAll.Complete(ctx, e.res).0,
                                                 if ctx.isDraining then pipe[e.res..] else pipe + e.data))
               else exists r :: WorksFor(s, p, r) && Resumes(s, s', p) && p !in s'.pts && ClosesClient(s, s', r)
  {
    hide IsRun, After, Inv, FdRight, AllUntouched, Deliver, Resubmit, ClosingAt, ClosesClient, Resumes;
    ReachedFacts(accepts, public, es);
    var s := After(accepts, public, es);
    WriterFacts(s, e.id);
    WaiterFacts(s, e.id);
    StepSafe(s, e, public);
    var SpliceOp(p, fdIn, client, ctx, pipe) := s.ops[e.id];
    var r := s.pts[p].caller.value;
    var s1 := if e.res < 0 || !ctx.isDraining then s else s.(out := s.out[client := Sent(s, client) + pipe[..e.res]]);
    if e.res >= 0 && ctx.isDraining {
      OutFd(s, r, pipe[..e.res]);
    }
    OutsideKeeps(s, s1, {});
    if e.res >= 0 && !SpliceAll.Complete(ctx, e.res).1 {
      var op := SpliceOp(p, fdIn, client, SpliceAll.Complete(ctx, e.res).0,
                         if ctx.isDraining then pipe[e.res..] else pipe + e.data);
      ResubmitFd(s1, e.id, op);
      ResubmitOps(s1, e.id, op);
    } else {
      DeliverReturn(s1, e.id);
      WaiterResumes(s1, e.id);
      SameLog(s, s1, Step(s, e, public), p);
      WaiterMoves(s, s1, e.id);
      ClosingIs(s, Step(s, e, public), r);
      assert WorksFor(s, p, r);
    }
  }

  // ---------- closes ----------

  /** A close takes its descriptor away, whatever its result. For a chain it is the last step: the chain is
      gone, and nothing has taken the place of the operation. */
  lemma CloseLeads(accepts: nat, public: set<string>, es: seq<Event>, e: Event)
    requires IsRun(accepts, public, es) && Allowed(After(accepts, public, es), e)
    requires After(accepts, public, es).ops[e.id].Close?
    ensures var s := After(accepts, public, es);
            var s' := Step(s, e, public);
            var Close(waiter, fd) := s.ops[e.id];
            && s'.ops == s.ops - {e.id} && s'.open == s.open - {fd} && s'.out == s.out && s'.cache == s.cache
            && if waiter.None? then s'.pts == s.pts && s'.log == s.log
               else s'.pts == s.pts - {waiter.value} && Resumes(s, s', waiter.value)
  {
    hide IsRun, After, Inv, FdRight, AllUntouched, Resumes;
    ReachedFacts(accepts, public, es);
    var s := After(accepts, public, es);
    var Close(waiter, fd) := s.ops[e.id];
    if waiter.Some? {
      hide Deliver;
      WaiterFacts(s, e.id);
      CloseClient(s, e.id, waiter.value);
      var s1 := s.(open := s.open - {fd});
      WaiterResumes(s1, e.id);
      SameLog(s, s1, Step(s, e, public), waiter.value);
    }
  }

  // ---------- opens and statxs ----------

  /** Chain r sends the head of this file to its own client. */
  ghost predicate SendsHead(s: State, s': State, r: nat, file: File) {
    && IsRoot(s, r) && IsRoot(s', r) && s'.pts[r].label_ == AtSend
    && var t, t' := s.pts[r].task, s'.pts[r].task;
       && t'.file == file && t'.client == t.client && t'.child.Some?
       && exists id :: id in s'.ops && s'.ops[id] == SendOp(t'.child.value, t.client, HeadFor(file))
  }

  lemma SendingIs(s: State, s2: State, s': State, r: nat, file: File)
    requires IsRoot(s, r) && IsRoot(s2, r) && s2.pts[r].task.client == s.pts[r].task.client
    requires exists body :: SendingAt(s', r, file, s2.pts[r].task.client, HeadFor(file), HeadFor(file), body)
    ensures SendsHead(s, s', r, file)
  {
    hide HeadFor;
  }

  /** The open routine entered again: it finds the file in the cache, or takes the next step. */
  lemma EntryLeads(s: State, c: nat, r: nat)
    requires Inv(s, {c}) && c in s.pts && s.pts[c].task.OpenFile? && s.pts[c].caller == Some(r) && IsRoot(s, r)
    requires s.pts[c].label_ == Fresh || s.pts[c].label_ == AtOpenat || s.pts[c].label_ == AtStatx
    ensures var s' := OpenEntry(s, c);
            var path, file := s.pts[c].task.path, s.pts[r].task.file;
            var i := RecencyList.Find(s.cache, path);
            if i < |s.cache| then SendsHead(s, s', r, s.cache[i].1) && s'.cache == DoublyLinkedList.Moved(s.cache, i)
            else if s.pts[c].label_ == Fresh then
              && s'.ops == s.ops[s.next := Openat(c, path)] && s'.cache == s.cache && IsRoot(s', r)
              && s'.pts[r].task.file == file.(name := Basename(path, |path|)) && c in s'.pts && s'.pts[c].caller == Some(r)
            else if s.pts[c].label_ == AtOpenat then
              s'.ops == s.ops[s.next := Statx(c, file.fd)] && s'.cache == s.cache && IsRoot(s', r) && s'.pts[r] == s.pts[r]
            else SendsHead(s, s', r, file) && s'.cache == RecencyList.Step(s.cache, CACHE_SIZE, RecencyList.AddOp(path, file)).0
  {
    hide Structured, Balanced, CacheRight, CallBack, AddToCache, HeadFor, SendsHead, SendingAt;
    LeafFacts(s, c, {c});
    RunningFree(s, c);
    var path, file := s.pts[c].task.path, s.pts[r].task.file;
    var i := RecencyList.Find(s.cache, path);
    if i < |s.cache| {
      var s1 := s.(cache := DoublyLinkedList.Moved(s.cache, i));
      CacheStepKeeps(s, s1.cache, RecencyList.GetOp(path), {c});
      var s2 := SetFile(s1, r, s.cache[i].1);
      LocalsKeep(s1, s2, r, {c});
      CallBackIs(s2, c);
      CallBackQuiet(s2, c);
      SendingIs(s, s2, CallBack(s2, c), r, s.cache[i].1);
    } else if s.pts[c].label_ == AtStatx {
      AddToCacheKeeps(s, path, file, {c});
      AddToCacheIs(s, path, file);
      var s1 := AddToCache(s, path, file);
      CallBackIs(s1, c);
      CallBackQuiet(s1, c);
      SendingIs(s, s1, CallBack(s1, c), r, file);
    }
  }

  lemma HeadSince(s: State, s2: State, s': State, r: nat, file: File)
    requires SendsHead(s2, s', r, file) && IsRoot(s, r) && s2.pts[r].task.client == s.pts[r].task.client
    ensures SendsHead(s, s', r, file)
  {
    hide HeadFor;
  }

  /** An open or a statx that completes, with an error or not. A path that has come into the cache meanwhile
      is served from there. Otherwise an open is followed by the statx of the descriptor, which is 0 after an
      error; a statx by the head of the file, which is cached as it is, its size filled in only by a success. */
  lemma OpenLeads(accepts: nat, public: set<string>, es: seq<Event>, e: Event)
    requires IsRun(accepts, public, es) && Allowed(After(accepts, public, es), e)
    requires After(accepts, public, es).ops[e.id].Openat? || After(accepts, public, es).ops[e.id].Statx?
    ensures var s := After(accepts, public, es);
            var s' := Step(s, e, public);
            var p := s.ops[e.id].pt;
            && s'.out == s.out && Resumes(s, s', p)
            && exists r :: WorksFor(s, p, r) && s.pts[p].task.OpenFile?
                 && var path, file := s.pts[p].task.path, s.pts[r].task.file;
                    var i := RecencyList.Find(s.cache, path);
                    if i < |s.cache| then SendsHead(s, s', r, s.cache[i].1) && s'.cache == DoublyLinkedList.Moved(s.cache, i)
                    else if s.ops[e.id].Openat? then
                      var fd := if e.res < 0 then 0 else e.res;
                      && s'.ops == (s.ops - {e.id})[s.next := Statx(p, fd)] && s'.cache == s.cache
                      && IsRoot(s', r) && s'.pts[r].task.file.fd == fd && s'.pts[r].task.file.name == file.name
                    else
                      var measured := if e.res < 0 then file else file.(size := e.size);
                      && SendsHead(s, s', r, measured)
                      && s'.cache == RecencyList.Step(s.cache, CACHE_SIZE, RecencyList.AddOp(path, measured)).0
  {
    hide IsRun, After, Inv, FdRight, OpenEntry, Filled, OnOpenat, OnStatx, SendsHead, Resumes, HeadFor, RecencyList.Step,
         RecencyList.Find;
    ReachedFacts(accepts, public, es);
    var s := After(accepts, public, es);
    var p := s.ops[e.id].pt;
    WaiterFacts(s, e.id);
    LeafFacts(s, p, {});
    var r := s.pts[p].caller.value;
    assert Untouched(s, p);
    FilledStep(s, e, public);
    FilledFacts(s, e);
    FilledKeeps(s, e);
    FilledRecord(s, e, r);
    var s1 := Filled(s, e);
    DeliverKeeps(s1, e.id);
    var s2 := Woken(s1, e.id, p);
    WaiterResumes(s1, e.id);
    SameLog(s, s1, Step(s, e, public), p);
    EntryLeads(s2, p, r);
    var i := RecencyList.Find(s.cache, s.pts[p].task.path);
    if i < |s.cache| {
      HeadSince(s, s2, Step(s, e, public), r, s.cache[i].1);
    } else if s.ops[e.id].Statx? {
      HeadSince(s, s2, Step(s, e, public), r, s2.pts[r].task.file);
    }
    assert WorksFor(s, p, r);
  }

  lemma FilledRecord(s: State, e: Event, r: nat)
    requires Allowed(s, e) && (s.ops[e.id].Openat? || s.ops[e.id].Statx?) && WorksFor(s, s.ops[e.id].pt, r)
    ensures var s' := Filled(s, e);
            && s'.out == s.out && s'.log == s.log && s'.next == s.next && IsRoot(s', r)
            && s'.pts[r].task.client == s.pts[r].task.client
            && s'.pts[r].task.file == (if e.res < 0 then s.pts[r].task.file
                                       else if s.ops[e.id].Openat? then s.pts[r].task.file.(fd := e.res)
                                       else s.pts[r].task.file.(size := e.size))
  {
  }
}
