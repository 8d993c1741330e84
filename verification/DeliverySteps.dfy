/**
 The handlers, one by one: each keeps the descriptors accounted for, touches no chain but the one its
 operation belongs to, and moves that chain from one stage of its delivery to the next.
 */
module DeliverySteps {
  import opened Wrappers
  import RecencyList
  import opened EventLoop
  import opened EventLoopSafety
  import opened Delivery
  import Receiving
  import Request
  import RequestParser
  import Response
  import SpliceAll

  // ---------- the stages of a delivery ----------

  ghost predicate StageSend(s: State, q: nat, rest: string) {
    && IsRoot(s, q)
    && var t := s.pts[q].task;
       && SendingAt(s, q, t.file, t.client, rest, t.raw, t.body)
       && Sent(s, t.client) + rest == t.raw == HeadFor(t.file)
       && Ready(s, t.file, t.body)
  }

  ghost predicate StageBody(s: State, q: nat, ctx: SpliceAll.Context, pipe: string) {
    && IsRoot(s, q)
    && var t := s.pts[q].task;
       && SplicingAt(s, q, t.file, t.client, ctx, pipe, t.raw, t.body)
       && Sent(s, t.client) == t.raw == HeadFor(t.file)
       && Ready(s, t.file, t.body)
       && (if ctx.isDraining then ctx == SpliceAll.Context(0, |t.body|, true) && pipe == t.body
           else ctx == SpliceAll.Start(|t.body|) && pipe == "")
  }

  ghost predicate StageClose(s: State, q: nat) {
    && IsRoot(s, q) && s.pts[q].label_ == AtClose
    && var t := s.pts[q].task;
       Sent(s, t.client) == t.raw + t.body && t.raw == HeadFor(t.file) && t.file.size == |t.body|
  }

  /** What has been sent to the client of chain q is what its stage says. */
  ghost predicate ChainRight(s: State, q: nat) {
    && IsRoot(s, q)
    && match s.pts[q].label_
       case AtOpen => Sent(s, s.pts[q].task.client) == ""
       case AtSend => exists rest :: StageSend(s, q, rest)
       case AtBody => exists ctx, pipe :: StageBody(s, q, ctx, pipe)
       case AtClose => StageClose(s, q)
       case _ => false
  }

  // ---------- frames ----------

  /** The protothreads an operation belongs to: its waiter and the waiter's caller. */
  ghost function Involved(s: State, id: nat): set<nat>
    requires id in s.ops
  {
    match Waiter(s.ops[id])
    case None => {}
    case Some(p) => {p} + if p in s.pts && s.pts[p].caller.Some? then {s.pts[p].caller.value} else {}
  }

  ghost function ClosedFd(op: Op): Option<int> {
    if op.Close? then Some(op.fd) else None
  }

  /** What a step on operation id leaves alone: every protothread and operation of other chains, every
      file it does not close, and what was sent to clients of other chains, unless the client is 0. A
      receive may start a chain with the next number. */
  ghost predicate StepFrame(s: State, s': State, id: nat) {
    && id in s.ops
    && Agree(s, s', if s.ops[id].Recv? then {s.next} else Involved(s, id), {id})
    && (forall fd :: fd in s.open && ClosedFd(s.ops[id]) != Some(fd) ==>
                       fd in s'.open && s'.open[fd].FileDesc? == s.open[fd].FileDesc?
                       && (s.open[fd].FileDesc? ==> s'.open[fd].content == s.open[fd].content))
    && (forall r :: IsRoot(s, r) && r !in Involved(s, id) && s.pts[r].task.client != 0 ==>
                      Sent(s', s.pts[r].task.client) == Sent(s, s.pts[r].task.client))
  }

  /** The file of chain q is not closed by this completion: it is not evicted meanwhile. */
  ghost predicate Spared(s: State, q: nat, id: nat)
    requires IsRoot(s, q) && id in s.ops
  {
    s.pts[q].label_ == AtSend || s.pts[q].label_ == AtBody ==> ClosedFd(s.ops[id]) != Some(s.pts[q].task.file.fd)
  }

  /** A chain that a step does not involve stays at its stage. */
  lemma OtherChain(s: State, s': State, id: nat, q: nat)
    requires Inv(s, {}) && StepFrame(s, s', id) && ChainRight(s, q) && q !in Involved(s, id) && Spared(s, q, id)
    requires s.pts[q].task.client != 0
    ensures ChainRight(s', q)
  {
    hide Balanced, CacheRight, HeadFor;
    ChildUninvolved(s, id, q);
    match s.pts[q].label_
    case AtOpen =>
    case AtSend =>
      var rest :| StageSend(s, q, rest);
      assert StageSend(s', q, rest);
    case AtBody =>
      var ctx, pipe :| StageBody(s, q, ctx, pipe);
      assert StageBody(s', q, ctx, pipe);
    case AtClose =>
  }

  lemma ChildUninvolved(s: State, id: nat, q: nat)
    requires Inv(s, {}) && id in s.ops && IsRoot(s, q) && q !in Involved(s, id)
    ensures q < s.next
    ensures s.pts[q].task.child.Some? ==>
              var c := s.pts[q].task.child.value;
              && c in s.pts && c < s.next && c !in Involved(s, id)
              && (s.pts[c].op.Some? ==> s.pts[c].op.value in s.ops && s.pts[c].op.value < s.next && s.pts[c].op.value != id)
  {
    hide Balanced, CacheRight;
    assert LinkedAt(s, q);
    if s.pts[q].task.child.Some? {
      var c := s.pts[q].task.child.value;
      assert Waiting(s, c) && LinkedAt(s, c);
      if Waiter(s.ops[id]).Some? {
        WaiterFacts(s, id);
        assert LinkedAt(s, Waiter(s.ops[id]).value);
      }
    }
  }

  // ---------- removing and waking ----------

  lemma RemoveOpFd(s: State, id: nat)
    requires Inv(s, {}) && FdRight(s, {}) && id in s.ops
    ensures match Waiter(s.ops[id])
            case None => FdRight(s.(ops := s.ops - {id}), {})
            case Some(p) => FdRight(s.(ops := s.ops - {id}), {p})
  {
    hide Balanced, CacheRight, CachedFiles, Chained, Parked, OpeningFiles, Claims, Aims;
    var s1 := s.(ops := s.ops - {id});
    ClaimsOutside(s, s1);
    CachedOutside(s, s1);
    RemoveOpOpening(s, id);
    AimsSame(s, s1);
  }

  lemma AimsSame(s: State, s': State)
    requires s'.pts == s.pts
    ensures forall p, client :: Aims(s, p, client) ==> Aims(s', p, client)
  {
  }

  lemma RemoveOpOpening(s: State, id: nat)
    requires Inv(s, {}) && OpeningFiles(s, {}) && id in s.ops
    ensures var run := if Waiter(s.ops[id]).Some? then {Waiter(s.ops[id]).value} else {};
            OpeningFiles(s.(ops := s.ops - {id}), run)
  {
    hide Balanced, CacheRight, Chained, Parked, Claims;
    var s1 := s.(ops := s.ops - {id});
    var run := if Waiter(s.ops[id]).Some? then {Waiter(s.ops[id]).value} else {};
    ClaimsOutside(s, s1);
    forall c | c in s1.pts && c !in run && s1.pts[c].task.OpenFile? && s1.pts[c].label_ == AtStatx
      ensures Opening(s1, c)
    {
      assert Opening(s, c);
    }
  }

  /** The state in which the waiter of a completed operation runs. */
  function Woken(s: State, id: nat, p: nat): State {
    Wake(s.(ops := s.ops - {id}), p)
  }

  lemma WokenFd(s: State, id: nat)
    requires Inv(s, {}) && FdRight(s, {}) && id in s.ops && Waiter(s.ops[id]).Some?
    ensures var p := Waiter(s.ops[id]).value;
            var s2 := Woken(s, id, p);
            && p in s.pts && Inv(s2, {p}) && FdRight(s2, {p})
            && Outside(s, s2) && Agree(s, s2, {p}, {id}) && s2.next == s.next
            && p in s2.pts && s2.pts == s.pts[p := s.pts[p].(suspended := false, op := None)]
  {
    hide Structured, Balanced, CacheRight, FdRight;
    WaiterFacts(s, id);
    DeliverKeeps(s, id);
    RemoveOpFd(s, id);
    var p := Waiter(s.ops[id]).value;
    WakeFd(s.(ops := s.ops - {id}), p, {p});
    assert {p} + {p} == {p};
  }

  // ---------- sends and splices ----------

  /** The chain an operation of a sending or splicing routine belongs to. */
  lemma WriterFacts(s: State, id: nat)
    requires Inv(s, {}) && FdRight(s, {}) && id in s.ops && (s.ops[id].SendOp? || s.ops[id].SpliceOp?)
    ensures var p := s.ops[id].pt;
            && p in s.pts && s.pts[p].caller.Some? && !s.pts[p].task.SendFile? && !s.pts[p].task.OpenFile?
            && (s.pts[p].task.SendBuffer? <==> s.ops[id].SendOp?) && s.pts[p].op == Some(id)
            && (var r := s.pts[p].caller.value;
                && IsRoot(s, r) && r != p && s.pts[r].task.child == Some(p) && Involved(s, id) == {p, r}
                && s.pts[r].label_ == (if s.ops[id].SendOp? then AtSend else AtBody)
                && (s.ops[id].SendOp? ==> s.ops[id].client == s.pts[r].task.client)
                && (s.ops[id].SpliceOp? ==> s.ops[id].fdOut == s.pts[r].task.client)
                && Claims(s, s.pts[r].task.client, ByChain(r), false))
  {
    hide Structured, Balanced, CacheRight, CachedFiles, OpeningFiles, Closings, Claims;
    WaiterFacts(s, id);
    LeafFacts(s, s.ops[id].pt, {});
  }

  /** The routine is done: its caller goes on. */
  lemma DeliverReturn(s: State, id: nat)
    requires Inv(s, {}) && FdRight(s, {}) && id in s.ops && (s.ops[id].SendOp? || s.ops[id].SpliceOp?)
    ensures var s' := Deliver(s, id);
            var p := s.ops[id].pt;
            && p in s.pts && s.pts[p].caller.Some?
            && var r := s.pts[p].caller.value;
            && IsRoot(s, r) && FdRight(s', {}) && Outside(s, s') && Agree(s, s', {p, r}, {id})
            && (var t := s.pts[r].task;
                && (s.ops[id].SendOp? ==> SplicingAt(s', r, t.file, t.client, SpliceAll.Start(t.file.size), "", t.raw, t.body))
                && (s.ops[id].SpliceOp? ==> ClosingAt(s', r, t.file, t.client, t.raw, t.body)))
  {
    hide Inv, FdRight, CallBack, OpenEntry, Continue, Agree, SplicingAt, ClosingAt, Claims;
    WriterFacts(s, id);
    WokenFd(s, id);
    var p := s.ops[id].pt;
    var r := s.pts[p].caller.value;
    var s2 := Woken(s, id, p);
    CallBackFd(s2, p);
    CallBackIs(s2, p);
    AgreeChain(s, s2, Deliver(s, id), p, r, id);
  }

  lemma AgreeChain(s: State, s2: State, s': State, p: nat, r: nat, id: nat)
    requires Agree(s, s2, {p}, {id}) && Agree(s2, s', {r, p}, {})
    ensures Agree(s, s', {p, r}, {id})
  {
  }

  /** Bytes written to a chain's client: no receiving connection and no other chain notices. */
  lemma OutFd(s: State, r: nat, text: string)
    requires FdRight(s, {}) && IsRoot(s, r)
    ensures var client := s.pts[r].task.client;
            var s1 := s.(out := s.out[client := Sent(s, client) + text]);
            && FdRight(s1, {})
            && Sent(s1, client) == Sent(s, client) + text
            && forall q :: IsRoot(s, q) && q != r && s.pts[q].task.client != 0 ==>
                             Sent(s1, s.pts[q].task.client) == Sent(s, s.pts[q].task.client)
  {
    hide CachedFiles, OpeningFiles, Closings, Writes;
    var client := s.pts[r].task.client;
    var s1 := s.(out := s.out[client := Sent(s, client) + text]);
    OutParts(s, s1);
    assert Claims(s, client, ByChain(r), false);
  }

  lemma OutParts(s: State, s1: State)
    requires s1 == s.(out := s1.out) && CachedFiles(s) && OpeningFiles(s, {}) && Closings(s) && Writes(s)
    ensures CachedFiles(s1) && OpeningFiles(s1, {}) && Closings(s1) && Writes(s1)
  {
    hide Claims;
    ClaimsOutside(s, s1);
    CachedOutside(s, s1);
    AimsSame(s, s1);
    forall c | c in s1.pts && s1.pts[c].task.OpenFile? && s1.pts[c].label_ == AtStatx ensures Opening(s1, c) {
      assert Opening(s, c);
    }
  }

  /** The routine goes on with what is left: a new operation for the same waiter and client. */
  lemma ResubmitFd(s: State, id: nat, op: Op)
    requires Inv(s, {}) && FdRight(s, {}) && id in s.ops
    requires (s.ops[id].SendOp? && op.SendOp? && op.pt == s.ops[id].pt && op.client == s.ops[id].client)
             || (s.ops[id].SpliceOp? && op.SpliceOp? && op.pt == s.ops[id].pt && op.fdOut == s.ops[id].fdOut)
    ensures var s' := Resubmit(s, id, op);
            var p := op.pt;
            && p in s.pts && FdRight(s', {}) && Outside(s, s') && Agree(s, s', {p}, {id})
            && s'.pts == s.pts[p := s.pts[p].(op := Some(s.next))] && s.next in s'.ops && s'.ops[s.next] == op
  {
    hide Structured, Balanced, CacheRight, FdRight, Claims;
    WriterFacts(s, id);
    BoundedOf(s, {});
    OpenersElsewhere(s, id);
    ResubmitParts(s, id, op);
  }

  lemma OpenersElsewhere(s: State, id: nat)
    requires Inv(s, {}) && FdRight(s, {}) && id in s.ops && (s.ops[id].SendOp? || s.ops[id].SpliceOp?)
    ensures forall c :: c in s.pts && s.pts[c].task.OpenFile? ==> s.pts[c].op != Some(id)
  {
    hide Balanced, CacheRight, FdRight;
    WriterFacts(s, id);
    forall c | c in s.pts && s.pts[c].task.OpenFile? ensures s.pts[c].op != Some(id) {
      assert Waiting(s, c);
    }
  }

  lemma ResubmitParts(s: State, id: nat, op: Op)
    requires Bounded(s) && FdRight(s, {}) && id in s.ops && !op.Recv? && !op.Close?
    requires Waiter(op).Some? && Waiter(op).value in s.pts && !s.pts[Waiter(op).value].task.OpenFile?
    requires (op.SendOp? ==> Aims(s, op.pt, op.client)) && (op.SpliceOp? ==> Aims(s, op.pt, op.fdOut))
    requires forall c :: c in s.pts && s.pts[c].task.OpenFile? ==> s.pts[c].op != Some(id)
    ensures FdRight(Resubmit(s, id, op), {})
  {
    hide Claims, CachedFiles, OpeningFiles, Closings, Writes, Clients;
    var s' := Resubmit(s, id, op);
    CachedOutside(s, s');
    ResubmitOpening(s, id, op);
    ResubmitRoles(s, id, op);
  }

  lemma ResubmitOpening(s: State, id: nat, op: Op)
    requires Bounded(s) && OpeningFiles(s, {}) && id in s.ops
    requires Waiter(op).Some? && Waiter(op).value in s.pts && !s.pts[Waiter(op).value].task.OpenFile?
    requires forall c :: c in s.pts && s.pts[c].task.OpenFile? ==> s.pts[c].op != Some(id)
    ensures OpeningFiles(Resubmit(s, id, op), {})
  {
    hide Claims;
    var s' := Resubmit(s, id, op);
    ClaimsOutside(s, s');
    forall c | c in s'.pts && s'.pts[c].task.OpenFile? && s'.pts[c].label_ == AtStatx ensures Opening(s', c) {
      assert Opening(s, c);
    }
  }

  lemma ResubmitRoles(s: State, id: nat, op: Op)
    requires Bounded(s) && Closings(s) && Writes(s) && Clients(s) && id in s.ops && !op.Recv? && !op.Close?
    requires Waiter(op).Some? && Waiter(op).value in s.pts
    requires (op.SendOp? ==> Aims(s, op.pt, op.client)) && (op.SpliceOp? ==> Aims(s, op.pt, op.fdOut))
    ensures Closings(Resubmit(s, id, op)) && Writes(Resubmit(s, id, op)) && Clients(Resubmit(s, id, op))
  {
    hide Claims;
    ClaimsOutside(s, Resubmit(s, id, op));
  }

  /** A completion with no error, and for the splice machine a full one on a file that fits one fill. */
  ghost predicate CleanFor(s: State, e: Event, q: nat)
    requires IsRoot(s, q) && e.id in s.ops
  {
    && Spared(s, q, e.id)
    && (q in Involved(s, e.id) ==>
          && e.res >= 0
          && (s.ops[e.id].SpliceOp? ==> e.res == SpliceAll.Request(s.ops[e.id].ctx)
                                        && |s.pts[q].task.body| <= 65536))
  }

  /** What the cache holds for the path has been opened and measured. */
  ghost predicate SoundCache(s: State, path: string) {
    forall i :: 0 <= i < |s.cache| && s.cache[i].0 == path ==> SoundFile(s, s.cache[i].1)
  }

  ghost predicate SoundFile(s: State, file: File) {
    file.fd != 0 && (file.fd in s.open && s.open[file.fd].FileDesc? ==> file.size == |s.open[file.fd].content|)
  }

  ghost predicate SoundFor(s: State, q: nat) {
    IsRoot(s, q) && SoundCache(s, s.pts[q].task.path)
  }

  /** What every handler guarantees. */
  ghost predicate StepRight(s: State, s': State, e: Event)
    requires Allowed(s, e)
  {
    && FdRight(s', {}) && StepFrame(s, s', e.id)
    && (forall q :: ChainRight(s, q) && CleanFor(s, e, q) && q in Involved(s, e.id) && SoundFor(s', q) ==> ChainRight(s', q))
  }

  /** The first file in the cache, if it is sound, is ready to be sent. */
  lemma FirstIsReady(s: State, r: nat, file: File, body: string)
    requires FdRight(s, {}) && SoundFor(s, r) && s.cache != [] && s.cache[0] == (s.pts[r].task.path, file)
    requires body == ContentOf(s, file.fd)
    ensures Ready(s, file, body)
  {
    assert Cached(s, s.cache[0]);
    assert SoundFile(s, s.cache[0].1);
  }

  lemma OnSendSteps(s: State, e: Event)
    requires Inv(s, {}) && FdRight(s, {}) && Allowed(s, e) && s.ops[e.id].SendOp?
    ensures StepRight(s, OnSend(s, e), e)
  {
    hide Inv, FdRight, Deliver, Resubmit, Agree, ChainRight, Claims, StageSend, StageBody, HeadFor;
    WriterFacts(s, e.id);
    RootsOnly(s);
    var SendOp(p, client, buffer) := s.ops[e.id];
    var r := s.pts[p].caller.value;
    if e.res < 0 {
      DeliverReturn(s, e.id);
    } else {
      var text, rest := buffer[..e.res], buffer[e.res..];
      OutFd(s, r, text);
      var s1 := s.(out := s.out[client := Sent(s, client) + text]);
      OutsideKeeps(s, s1, {});
      if rest != "" {
        ResubmitFd(s1, e.id, SendOp(p, client, rest));
      } else {
        DeliverReturn(s1, e.id);
      }
      var s' := OnSend(s, e);
      SameAgree(s, s1, s', p, r, e.id);
      if ChainRight(s, r) {
        SendStage(s, s1, s', e, r);
      }
    }
  }

  lemma RootsOnly(s: State)
    ensures forall q :: ChainRight(s, q) ==> IsRoot(s, q)
  {
  }

  lemma SameAgree(s: State, s1: State, s': State, p: nat, r: nat, id: nat)
    requires s1 == s.(out := s1.out) && (Agree(s1, s', {p, r}, {id}) || Agree(s1, s', {p}, {id}))
    ensures Agree(s, s', {p, r}, {id})
  {
  }

  lemma SendStage(s: State, s1: State, s': State, e: Event, r: nat)
    requires Inv(s, {}) && FdRight(s, {}) && Allowed(s, e) && s.ops[e.id].SendOp? && e.res >= 0
    requires ChainRight(s, r) && r in s.pts && s.pts[r].task.SendFile? && s.pts[r].task.child == Some(s.ops[e.id].pt)
    requires var SendOp(p, client, buffer) := s.ops[e.id];
             && client == s.pts[r].task.client && p in s.pts && s.pts[p].op == Some(e.id) && s.pts[r].label_ == AtSend
             && s1 == s.(out := s.out[client := Sent(s, client) + buffer[..e.res]])
             && Outside(s1, s')
             && var t := s.pts[r].task;
                if buffer[e.res..] != "" then
                  && s'.pts == s1.pts[p := s1.pts[p].(op := Some(s1.next))] && s1.next in s'.ops
                  && s'.ops[s1.next] == SendOp(p, client, buffer[e.res..])
                else SplicingAt(s', r, t.file, t.client, SpliceAll.Start(t.file.size), "", t.raw, t.body)
    ensures ChainRight(s', r)
  {
    hide Inv, FdRight, HeadFor;
    var SendOp(p, client, buffer) := s.ops[e.id];
    var rest :| StageSend(s, r, rest);
    assert rest == buffer;
    assert Sent(s', client) + buffer[e.res..] == Sent(s, client) + buffer;
    if buffer[e.res..] != "" {
      assert StageSend(s', r, buffer[e.res..]);
    } else {
      assert Sent(s', client) == s.pts[r].task.raw;
      assert StageBody(s', r, SpliceAll.Start(s.pts[r].task.file.size), "");
    }
  }

  lemma OnSpliceSteps(s: State, e: Event)
    requires Inv(s, {}) && FdRight(s, {}) && Allowed(s, e) && s.ops[e.id].SpliceOp?
    ensures StepRight(s, OnSplice(s, e), e)
  {
    hide Inv, FdRight, Deliver, Resubmit, Agree, ChainRight, Claims, StageSend, StageBody, HeadFor,
         SpliceAll.Complete, SpliceAll.Request;
    WriterFacts(s, e.id);
    RootsOnly(s);
    var SpliceOp(p, fdIn, fdOut, ctx, pipe) := s.ops[e.id];
    var r := s.pts[p].caller.value;
    var s' := OnSplice(s, e);
    if e.res < 0 {
      DeliverReturn(s, e.id);
    } else {
      var (c, finished) := SpliceAll.Complete(ctx, e.res);
      var s1 := if ctx.isDraining then s.(out := s.out[fdOut := Sent(s, fdOut) + pipe[..e.res]]) else s;
      if ctx.isDraining {
        OutFd(s, r, pipe[..e.res]);
      }
      OutsideKeeps(s, s1, {});
      if ctx.isDraining && finished {
        DeliverReturn(s1, e.id);
      } else {
        ResubmitFd(s1, e.id, SpliceOp(p, fdIn, fdOut, c, if ctx.isDraining then pipe[e.res..] else pipe + e.data));
      }
      SameAgree(s, s1, s', p, r, e.id);
      if ChainRight(s, r) && CleanFor(s, e, r) {
        SpliceStage(s, s1, s', e, r);
      }
    }
  }

  /** A full fill of a file that fits one fill, and a full drain of it. */
  lemma FullFillAndDrain(n: nat)
    requires n <= SpliceAll.SPLICE_MAX_SIZE
    ensures SpliceAll.Start(n) == SpliceAll.Context(n, 0, false)
    ensures SpliceAll.Request(SpliceAll.Start(n)) == n
    ensures SpliceAll.Complete(SpliceAll.Start(n), n) == (SpliceAll.Context(0, n, true), false)
    ensures SpliceAll.Request(SpliceAll.Context(0, n, true)) == n
    ensures SpliceAll.Complete(SpliceAll.Context(0, n, true), n) == (SpliceAll.Context(0, 0, true), true)
  {
    SpliceAll.SmallMod(n, SpliceAll.UINT);
    SpliceAll.SmallMod(n, SpliceAll.SIZE_T);
    SpliceAll.SmallMod(0, SpliceAll.UINT);
    SpliceAll.SmallMod(0, SpliceAll.SIZE_T);
    assert SpliceAll.Min(n, SpliceAll.SPLICE_MAX_SIZE) - 0 == n;
  }

  lemma SpliceStage(s: State, s1: State, s': State, e: Event, r: nat)
    requires Inv(s, {}) && FdRight(s, {}) && Allowed(s, e) && s.ops[e.id].SpliceOp? && e.res >= 0
    requires ChainRight(s, r) && r in s.pts && s.pts[r].task.SendFile? && s.pts[r].task.child == Some(s.ops[e.id].pt)
    requires CleanFor(s, e, r) && r in Involved(s, e.id)
    requires var SpliceOp(p, fdIn, client, ctx, pipe) := s.ops[e.id];
             var (c, finished) := SpliceAll.Complete(ctx, e.res);
             && client == s.pts[r].task.client && p in s.pts && s.pts[p].op == Some(e.id) && s.pts[r].label_ == AtBody
             && s1 == (if ctx.isDraining then s.(out := s.out[client := Sent(s, client) + pipe[..e.res]]) else s)
             && Outside(s1, s')
             && var t := s.pts[r].task;
                if ctx.isDraining && finished then ClosingAt(s', r, t.file, t.client, t.raw, t.body)
                else
                  && s'.pts == s1.pts[p := s1.pts[p].(op := Some(s1.next))] && s1.next in s'.ops
                  && s'.ops[s1.next] == SpliceOp(p, fdIn, client, c, if ctx.isDraining then pipe[e.res..] else pipe + e.data)
    ensures ChainRight(s', r)
  {
    hide Inv, FdRight, HeadFor, SpliceAll.Complete, SpliceAll.Request;
    var SpliceOp(p, fdIn, client, ctx, pipe) := s.ops[e.id];
    var body := s.pts[r].task.body;
    var ctx', pipe' :| StageBody(s, r, ctx', pipe');
    assert ctx' == ctx && pipe' == pipe;
    FullFillAndDrain(|body|);
    if ctx.isDraining {
      assert pipe[..e.res] == body;
      assert StageClose(s', r);
    } else {
      assert e.data == body;
      assert pipe + e.data == body;
      assert StageBody(s', r, SpliceAll.Context(0, |body|, true), body);
    }
  }

  // ---------- closes ----------

  lemma OnCloseSteps(s: State, e: Event)
    requires Inv(s, {}) && FdRight(s, {}) && Allowed(s, e) && s.ops[e.id].Close?
    ensures StepRight(s, OnClose(s, e), e)
  {
    hide StepRight, Inv, FdRight, OnClose;
    if s.ops[e.id].waiter.None? {
      CloseEvictedSteps(s, e);
    } else {
      CloseClientSteps(s, e);
    }
  }

  lemma CloseEvictedSteps(s: State, e: Event)
    requires Inv(s, {}) && FdRight(s, {}) && Allowed(s, e) && s.ops[e.id].Close? && s.ops[e.id].waiter.None?
    ensures StepRight(s, OnClose(s, e), e)
  {
    hide Inv, FdRight, ChainRight, CleanFor, Wake, OpenEntry, Continue, CallBack;
    CloseEvicted(s, e.id);
  }

  lemma CloseClientSteps(s: State, e: Event)
    requires Inv(s, {}) && FdRight(s, {}) && Allowed(s, e) && s.ops[e.id].Close? && s.ops[e.id].waiter.Some?
    ensures StepRight(s, OnClose(s, e), e)
  {
    hide Inv, FdRight, ChainRight, CleanFor, Deliver;
    WaiterFacts(s, e.id);
    RootHasNoCaller(s, s.ops[e.id].waiter.value);
    CloseClient(s, e.id, s.ops[e.id].waiter.value);
  }

  lemma RootHasNoCaller(s: State, r: nat)
    requires Inv(s, {}) && IsRoot(s, r)
    ensures s.pts[r].caller == None
  {
    hide Balanced, CacheRight, Owned, Bounded, Parked;
    assert LinkedAt(s, r);
  }

  /** A close takes with it one descriptor and the one party that answered for it. */
  lemma ClosedFdClaims(s: State, s': State, fd: int)
    requires s'.open == s.open - {fd} && fd in s.open
    ensures ClaimsStand(s, s', Some(s.open[fd].holder))
  {
  }

  lemma ClosedClient(s: State, s': State, fd: int, r: nat)
    requires s'.open == s.open - {fd} && Claims(s, fd, ByChain(r), false)
    ensures ClaimsStand(s, s', Some(ByChain(r)))
  {
    if fd != 0 {
      ClosedFdClaims(s, s', fd);
    }
  }

  lemma ClosedHeld(s: State, s': State, fd: int, h: Holder)
    requires s'.open == s.open - {fd} && Held(s, fd, h)
    ensures ClaimsStand(s, s', Some(h))
  {
    if fd != 0 {
      ClosedFdClaims(s, s', fd);
    }
  }

  lemma CloseEvicted(s: State, id: nat)
    requires Inv(s, {}) && FdRight(s, {}) && id in s.ops && s.ops[id].Close? && s.ops[id].waiter.None?
    ensures FdRight(s.(open := s.open - {s.ops[id].fd}, ops := s.ops - {id}), {})
  {
    hide Inv, FdRight, CachedFiles, OpeningFiles, Closings, Writes, Clients, Claims;
    FdAll(s, {});
    RemoveOpFd(s, id);
    var s1 := s.(ops := s.ops - {id});
    FdAll(s1, {});
    ClosingHeld(s, id);
    ClaimsOutside(s, s1);
    var s' := s1.(open := s1.open - {s.ops[id].fd});
    ClosedHeld(s1, s', s.ops[id].fd, ByClosing(id));
    CloseParts(s1, s', id);
  }

  lemma FdAll(s: State, run: set<nat>)
    requires FdRight(s, run)
    ensures CachedFiles(s) && OpeningFiles(s, run) && Closings(s) && Writes(s) && Clients(s)
  {
  }

  lemma ClosingHeld(s: State, id: nat)
    requires Closings(s) && id in s.ops && s.ops[id].Close? && s.ops[id].waiter.None?
    ensures Held(s, s.ops[id].fd, ByClosing(id))
  {
  }

  lemma CloseParts(s: State, s': State, id: nat)
    requires CachedFiles(s) && OpeningFiles(s, {}) && Closings(s) && Writes(s) && Clients(s) && id !in s.ops
    requires s' == s.(open := s'.open) && ClaimsStand(s, s', Some(ByClosing(id)))
    requires forall fd :: fd in s'.open ==> fd in s.open && s'.open[fd] == s.open[fd]
    ensures FdRight(s', {})
  {
    hide Claims;
    AimsSame(s, s');
    forall i | 0 <= i < |s.cache| ensures Cached(s', s'.cache[i]) {
      assert Cached(s, s.cache[i]);
    }
    forall c | c in s'.pts && s'.pts[c].task.OpenFile? && s'.pts[c].label_ == AtStatx ensures Opening(s', c) {
      assert Opening(s, c);
    }
  }

  /** The last step of a chain: its client is closed and the chain is gone. */
  lemma CloseClient(s: State, id: nat, r: nat)
    requires Inv(s, {}) && FdRight(s, {}) && id in s.ops && s.ops[id].Close? && s.ops[id].waiter == Some(r)
    requires IsRoot(s, r) && s.pts[r].label_ == AtClose && s.pts[r].suspended && s.pts[r].task.child == None
    ensures var s' := Deliver(s.(open := s.open - {s.ops[id].fd}), id);
            && s'.open == s.open - {s.ops[id].fd} && s'.ops == s.ops - {id} && s'.pts == s.pts - {r}
            && s'.out == s.out && s'.cache == s.cache && s'.next == s.next
            && FdRight(s', {})
  {
    hide Structured, Balanced, CacheRight, FdRight, Claims;
    var s' := Deliver(s.(open := s.open - {s.ops[id].fd}), id);
    assert s'.pts == s.pts - {r};
    CloseClientFd(s, s', id, r);
  }

  lemma NoLeafOf(s: State, r: nat)
    requires Inv(s, {}) && IsRoot(s, r) && s.pts[r].task.child == None
    ensures forall p :: p in s.pts ==> s.pts[p].caller != Some(r)
  {
    hide Balanced, CacheRight, Owned, Bounded, Parked;
    forall p | p in s.pts ensures s.pts[p].caller != Some(r) {
      assert LinkedAt(s, p);
    }
  }

  lemma CloseClientFd(s: State, s': State, id: nat, r: nat)
    requires Inv(s, {}) && FdRight(s, {}) && id in s.ops && s.ops[id].Close? && s.ops[id].waiter == Some(r)
    requires IsRoot(s, r) && s.pts[r].task.child == None
    requires s'.open == s.open - {s.ops[id].fd} && s'.ops == s.ops - {id} && s'.pts == s.pts - {r}
    requires s'.out == s.out && s'.cache == s.cache
    ensures FdRight(s', {})
  {
    hide Structured, Balanced, CacheRight, Claims;
    NoLeafOf(s, r);
    OneClosePerRoot(s, id, r);
    assert Claims(s, s.ops[id].fd, ByChain(r), false);
    ClosedClient(s, s', s.ops[id].fd, r);
    forall i | 0 <= i < |s.cache| ensures Cached(s', s'.cache[i]) {
      assert Cached(s, s.cache[i]);
    }
    forall c | c in s'.pts && s'.pts[c].task.OpenFile? && s'.pts[c].label_ == AtStatx ensures Opening(s', c) {
      assert Opening(s, c);
    }
  }

  lemma OneClosePerRoot(s: State, id: nat, r: nat)
    requires Inv(s, {}) && id in s.ops && Waiter(s.ops[id]) == Some(r)
    ensures forall id' :: id' in s.ops && id' != id ==> Waiter(s.ops[id']) != Some(r)
  {
    hide Balanced, CacheRight, Chained, Parked, Bounded;
  }

  // ---------- opens ----------

  lemma NewDescFd(s: State, s': State, run: set<nat>, fd: int)
    requires FdRight(s, run) && fd !in s.open && fd in s'.open
    requires s' == s.(open := s.open[fd := s'.open[fd]])
    ensures FdRight(s', run)
  {
    hide Claims, Clients;
    assert ClaimsStand(s, s', None) by {
      NewDescClaims(s, s', fd);
    }
    AimsSame(s, s');
    forall i | 0 <= i < |s.cache| ensures Cached(s', s'.cache[i]) {
      assert Cached(s, s.cache[i]);
    }
    forall c | c in s'.pts && c !in run && s'.pts[c].task.OpenFile? && s'.pts[c].label_ == AtStatx
      ensures Opening(s', c)
    {
      assert Opening(s, c);
    }
    NewDescClients(s, s');
  }

  lemma NewDescClaims(s: State, s': State, fd: int)
    requires fd !in s.open && fd in s'.open && s'.open == s.open[fd := s'.open[fd]]
    ensures ClaimsStand(s, s', None)
  {
  }

  lemma NewDescClients(s: State, s': State)
    requires Clients(s) && ClaimsStand(s, s', None) && s' == s.(open := s'.open)
    ensures Clients(s')
  {
    hide Claims;
  }

  /** The exemption of a routine is over once its descriptor is in order. */
  lemma FdRightDrop(s: State, p: nat)
    requires FdRight(s, {p}) && p in s.pts && (s.pts[p].label_ == AtStatx ==> Opening(s, p))
    ensures FdRight(s, {})
  {
    hide CachedFiles, Closings, Writes, Clients, Opening;
  }

  /** Filling in a field of the file_t that the routine p works on. */
  lemma WithFileFd(s: State, id: nat, fd: Option<int>, size: Option<nat>)
    requires Inv(s, {}) && FdRight(s, {}) && id in s.ops && (s.ops[id].Openat? || (s.ops[id].Statx? && fd.None?))
    ensures var p := s.ops[id].pt;
            var s' := WithFile(s, p, fd, size);
            && p in s.pts && s.pts[p].caller.Some? && s.pts[p].task.OpenFile? && s.pts[p].op == Some(id)
            && s.pts[p].label_ == (if s.ops[id].Openat? then AtOpenat else AtStatx)
            && var r := s.pts[p].caller.value;
            && IsRoot(s, r) && r != p && s.pts[r].label_ == AtOpen && s.pts[r].task.child == Some(p)
            && Involved(s, id) == {p, r}
            && Inv(s', {}) && FdRight(s', {})
            && s' == s.(pts := s'.pts) && s'.pts.Keys == s.pts.Keys
            && (forall q :: q in s.pts && q != r ==> s'.pts[q] == s.pts[q])
            && s'.pts[r] == s.pts[r].(task := s'.pts[r].task) && s'.pts[r].task.SendFile?
            && s'.pts[r].task.client == s.pts[r].task.client
            && s'.pts[r].task.file.fd == (if fd.Some? then fd.value else s.pts[r].task.file.fd)
            && s'.pts[r].task.file.size == (if size.Some? then size.value else s.pts[r].task.file.size)
  {
    hide Structured, Balanced, CacheRight, FdRight, Claims;
    WaiterFacts(s, id);
    var p := s.ops[id].pt;
    LeafFacts(s, p, {});
    var r := s.pts[p].caller.value;
    OnlyChild(s, r, p, {});
    WithFileKeeps(s, id, fd, size);
    var s' := WithFile(s, p, fd, size);
    FdRightGrow(s, {}, p);
    assert {} + {p} == {p};
    SetFileFd(s, r, s'.pts[r].task.file, p);
    if s.pts[p].label_ == AtStatx {
      OpeningOf(s, p);
      ClaimsOutside(s, s');
      assert Opening(s', p);
    }
    FdRightDrop(s', p);
  }

  lemma OpeningOf(s: State, p: nat)
    requires FdRight(s, {}) && p in s.pts && s.pts[p].task.OpenFile? && s.pts[p].label_ == AtStatx
    ensures Opening(s, p)
  {
  }

  /** The open routine enters again, with its descriptor in order. */
  lemma EnterAgain(s: State, id: nat)
    requires Inv(s, {}) && FdRight(s, {}) && id in s.ops && (s.ops[id].Openat? || s.ops[id].Statx?)
    requires var p := s.ops[id].pt;
             p in s.pts && s.pts[p].caller.Some? && IsRoot(s, s.pts[p].caller.value)
             && var file := s.pts[s.pts[p].caller.value].task.file;
                Held(s, file.fd, ByOpening(s.pts[p].caller.value))
    ensures var s' := Deliver(s, id);
            var p := s.ops[id].pt;
            var r := s.pts[p].caller.value;
            && FdRight(s', {}) && SameFiles(s, s') && s'.out == s.out && Agree(s, s', {p, r}, {id})
            && (SendsFirst(s', r, s.pts[r].task.client)
                || (IsRoot(s', r) && s'.pts[r].label_ == s.pts[r].label_ && s'.pts[r].task.client == s.pts[r].task.client))
  {
    hide Inv, FdRight, OpenEntry, SendsFirst, SameFiles, Agree;
    WaiterFacts(s, id);
    var p := s.ops[id].pt;
    LeafFacts(s, p, {});
    var r := s.pts[p].caller.value;
    WokenFd(s, id);
    var s2 := Woken(s, id, p);
    OpenEntryFd(s2, p);
    var s' := OpenEntry(s2, p);
    AgreeChain(s, s2, s', p, r, id);
    SameFilesFrom(s, s2, s');
  }

  lemma SameFilesFrom(s: State, s2: State, s': State)
    requires s2.open == s.open && SameFiles(s2, s')
    ensures SameFiles(s, s')
  {
  }

  /** The record of a file that is still to be opened is as it was created. */
  ghost predicate Untouched(s: State, p: nat) {
    p in s.pts && s.pts[p].task.OpenFile? && s.pts[p].label_ == AtOpenat
    && s.pts[p].caller.Some? && IsRoot(s, s.pts[p].caller.value) ==>
      s.pts[s.pts[p].caller.value].task.file.fd == 0 && s.pts[s.pts[p].caller.value].task.file.size == 0
  }

  lemma ZeroHeld(s: State, h: Holder)
    ensures Held(s, 0, h)
  {
  }

  lemma OnOpenatSteps(s: State, e: Event)
    requires Inv(s, {}) && FdRight(s, {}) && Allowed(s, e) && s.ops[e.id].Openat?
    requires Untouched(s, s.ops[e.id].pt)
    ensures StepRight(s, OnOpenat(s, e), e)
  {
    hide Inv, FdRight, Deliver, WithFile, SendsFirst, ChainRight, Agree, SoundCache, Claims;
    WaiterFacts(s, e.id);
    var p := s.ops[e.id].pt;
    LeafFacts(s, p, {});
    var r := s.pts[p].caller.value;
    if e.res < 0 {
      ZeroHeld(s, ByOpening(r));
      EnterAgain(s, e.id);
      OpenedStage(s, s, OnOpenat(s, e), e, p, r);
    } else {
      var s1 := s.(open := s.open[e.res := FileDesc(e.data, ByOpening(r))]);
      NewDescFd(s, s1, {}, e.res);
      OutsideKeeps(s, s1, {});
      WithFileFd(s1, e.id, Some(e.res), None);
      var s2 := WithFile(s1, p, Some(e.res), None);
      assert Claims(s2, e.res, ByOpening(r), true) by {
        FreshClaim(s2, e.res, ByOpening(r));
      }
      EnterAgain(s2, e.id);
      OpenedStage(s, s2, OnOpenat(s, e), e, p, r);
    }
  }

  /** The open routine has been entered again: its chain waits on or starts to send. */
  lemma OpenedStage(s: State, s2: State, s': State, e: Event, p: nat, r: nat)
    requires Inv(s, {}) && Allowed(s, e) && (s.ops[e.id].Openat? || s.ops[e.id].Statx?) && p == s.ops[e.id].pt
    requires p in s.pts && s.pts[p].caller == Some(r) && IsRoot(s, r)
    requires s2.ops == s.ops && s2.next == s.next && s2.pts.Keys == s.pts.Keys && s2.out == s.out
    requires forall q :: q in s.pts && q != r ==> s2.pts[q] == s.pts[q]
    requires IsRoot(s2, r) && s2.pts[r].label_ == s.pts[r].label_ && s2.pts[r].task.client == s.pts[r].task.client
    requires SameFiles(s2, s') && s'.out == s2.out && Agree(s2, s', {p, r}, {e.id}) && FdRight(s', {})
    requires forall fd :: fd in s.open ==> fd in s2.open && s2.open[fd] == s.open[fd]
    requires SendsFirst(s', r, s2.pts[r].task.client)
             || (IsRoot(s', r) && s'.pts[r].label_ == s2.pts[r].label_ && s'.pts[r].task.client == s2.pts[r].task.client)
    ensures StepRight(s, s', e)
  {
    hide Inv, FdRight, SendsFirst, ChainRight, Agree, SoundCache;
    AgreeFrom(s, s2, s', p, r, e.id);
    RootsOnly(s);
    WaiterFacts(s, e.id);
    LeafFacts(s, p, {});
    AtOpenRoot(s, e.id, p, r);
    if ChainRight(s, r) && SoundFor(s', r) {
      OpenStage(s, s', r);
    }
  }

  lemma AtOpenRoot(s: State, id: nat, p: nat, r: nat)
    requires Inv(s, {}) && id in s.ops && (s.ops[id].Openat? || s.ops[id].Statx?) && p == s.ops[id].pt
    requires p in s.pts && s.pts[p].caller == Some(r) && IsRoot(s, r)
    ensures s.pts[r].label_ == AtOpen && Involved(s, id) == {p, r}
  {
    hide Balanced, CacheRight;
    WaiterFacts(s, id);
    LeafFacts(s, p, {});
    assert Waiting(s, r);
  }

  lemma FreshClaim(s: State, fd: int, h: Holder)
    requires fd in s.open && s.open[fd].FileDesc? && s.open[fd].holder == h
    ensures Claims(s, fd, h, true)
  {
  }

  lemma AgreeFrom(s: State, s2: State, s': State, p: nat, r: nat, id: nat)
    requires s2.ops == s.ops && s2.next == s.next && s2.pts.Keys == s.pts.Keys
    requires forall q :: q in s.pts && q != r ==> s2.pts[q] == s.pts[q]
    requires IsRoot(s, r) && Agree(s2, s', {p, r}, {id})
    ensures Agree(s, s', {p, r}, {id})
  {
  }

  lemma OpenStage(s: State, s': State, r: nat)
    requires ChainRight(s, r) && IsRoot(s, r) && s.pts[r].label_ == AtOpen && s'.out == s.out
    requires FdRight(s', {}) && SoundFor(s', r)
    requires SendsFirst(s', r, s.pts[r].task.client)
             || (IsRoot(s', r) && s'.pts[r].label_ == AtOpen && s'.pts[r].task.client == s.pts[r].task.client)
    ensures ChainRight(s', r)
  {
    hide HeadFor, FdRight, SoundCache, ContentOf;
    if SendsFirst(s', r, s.pts[r].task.client) {
      var file, body :| SendingAt(s', r, file, s.pts[r].task.client, HeadFor(file), HeadFor(file), body)
                        && body == ContentOf(s', file.fd) && s'.cache != [] && s'.cache[0] == (s'.pts[r].task.path, file);
      FirstIsReady(s', r, file, body);
      assert StageSend(s', r, HeadFor(file));
    }
  }

  lemma OnStatxSteps(s: State, e: Event)
    requires Inv(s, {}) && FdRight(s, {}) && Allowed(s, e) && s.ops[e.id].Statx?
    ensures StepRight(s, OnStatx(s, e), e)
  {
    hide Inv, FdRight, Deliver, WithFile, SendsFirst, ChainRight, Agree, SoundCache;
    var p := s.ops[e.id].pt;
    WithFileFd(s, e.id, None, Some(e.size));
    OpeningOf(s, p);
    var r := s.pts[p].caller.value;
    var s2 := if e.res < 0 then s else WithFile(s, p, None, Some(e.size));
    EnterAgain(s2, e.id);
    OpenedStage(s, s2, OnStatx(s, e), e, p, r);
  }

  // ---------- accepting and receiving ----------

  lemma OnAcceptSteps(s: State, e: Event)
    requires Inv(s, {}) && FdRight(s, {}) && Allowed(s, e) && s.ops[e.id].Accept?
    ensures StepRight(s, OnAccept(s, e), e)
  {
    hide Inv, FdRight, ChainRight, CleanFor, Claims, StepFrame, SoundFor;
    RemoveOpFd(s, e.id);
    FreshIdsOf(s);
    if e.res >= 0 {
      var s1 := s.(ops := s.ops - {e.id});
      AcceptFd(s1, e.res);
      if e.res > 0 {
        AcceptClients(s, e.res);
      }
    }
    AcceptFrame(s, e);
  }

  lemma AcceptFrame(s: State, e: Event)
    requires Bounded(s) && Allowed(s, e) && s.ops[e.id].Accept?
    requires e.res > 0 ==> forall r :: IsRoot(s, r) ==> s.pts[r].task.client != e.res
    ensures StepFrame(s, OnAccept(s, e), e.id)
  {
    hide Agree;
    AcceptAgrees(s, e);
  }

  lemma AcceptAgrees(s: State, e: Event)
    requires Bounded(s) && e.id in s.ops
    ensures Agree(s, OnAccept(s, e), {}, {e.id})
  {
  }

  lemma FreshIdsOf(s: State)
    requires Inv(s, {})
    ensures Bounded(s)
  {
  }

  lemma AcceptClients(s: State, fd: int)
    requires FdRight(s, {}) && fd !in s.open && fd != 0
    ensures forall r :: IsRoot(s, r) ==> s.pts[r].task.client != fd
  {
    hide CachedFiles, OpeningFiles, Closings, Writes;
    forall r | IsRoot(s, r) ensures s.pts[r].task.client != fd {
      assert Claims(s, s.pts[r].task.client, ByChain(r), false);
    }
  }

  lemma AcceptFd(s: State, fd: int)
    requires FdRight(s, {}) && Bounded(s) && fd !in s.open
    ensures var s2 := s.(open := s.open[fd := ClientDesc(ByRecv(s.next))], out := s.out[fd := ""]);
            FdRight(Submit(Submit(s2, Recv(fd, "")), Accept), {})
  {
    hide FdRight, CachedFiles, OpeningFiles, Closings, Writes, Clients;
    var s1 := s.(open := s.open[fd := ClientDesc(ByRecv(s.next))]);
    NewDescFd(s, s1, {}, fd);
    var s2 := s1.(out := s.out[fd := ""]);
    FdAll(s1, {});
    OutParts(s1, s2);
    AcceptRecvs(s, s1, s2, fd);
    FdParts(s1, s2, {});
    SubmitPlain(s2, Recv(fd, ""));
    var s3 := Submit(s2, Recv(fd, ""));
    SubmitPlain(s3, Accept);
  }

  lemma AcceptRecvs(s: State, s1: State, s2: State, fd: int)
    requires FdRight(s, {}) && Clients(s1) && fd !in s.open
    requires s1 == s.(open := s.open[fd := ClientDesc(ByRecv(s.next))]) && s2 == s1.(out := s.out[fd := ""])
    ensures Clients(s2) && Claims(s2, fd, ByRecv(s.next), false) && Sent(s2, fd) == ""
  {
    hide CachedFiles, OpeningFiles, Closings, Writes;
    forall id | id in s.ops && s.ops[id].Recv? && s.ops[id].client != 0 ensures s.ops[id].client != fd {
      assert Claims(s, s.ops[id].client, ByRecv(id), false);
    }
  }

  /** Submitting an accept, or a receive on a client that is held for it. */
  lemma SubmitPlain(s: State, op: Op)
    requires FdRight(s, {}) && Bounded(s)
    requires op.Accept? || (op.Recv? && Claims(s, op.client, ByRecv(s.next), false) && Unsent(s, op.client))
    ensures FdRight(Submit(s, op), {}) && Bounded(Submit(s, op))
  {
    hide Claims, CachedFiles, OpeningFiles;
    var s' := Submit(s, op);
    ClaimsOutside(s, s');
    CachedOutside(s, s');
    SubmitOpening(s, {}, op);
    AimsSame(s, s');
  }

  /** A client passes from a receive that is over to whoever is next. */
  lemma RehomeFd(s: State, client: int, id: nat, h: Holder)
    requires FdRight(s, {}) && Claims(s, client, ByRecv(id), false) && id !in s.ops && h != ByRecv(id)
    ensures var s1 := SetHolder(s, client, h);
            && FdRight(s1, {}) && SameFiles(s, s1) && Claims(s1, client, h, false)
            && s1 == s.(open := s1.open)
  {
    hide Claims;
    var s1 := SetHolder(s, client, h);
    ClientChanged(s, s1, client, id, h);
    AimsSame(s, s1);
    forall i | 0 <= i < |s.cache| ensures Cached(s1, s1.cache[i]) {
      assert Cached(s, s.cache[i]);
    }
    forall c | c in s1.pts && s1.pts[c].task.OpenFile? && s1.pts[c].label_ == AtStatx ensures Opening(s1, c) {
      assert Opening(s, c);
    }
  }

  lemma ClientChanged(s: State, s': State, client: int, id: nat, h: Holder)
    requires s'.open == SetHolder(s, client, h).open && Claims(s, client, ByRecv(id), false) && h != ByRecv(id)
    ensures SameFiles(s, s') && Claims(s', client, h, false) && ClaimsStand(s, s', Some(ByRecv(id)))
  {
    if client != 0 {
      HolderChanged(s, s', client, h);
    }
  }

  lemma RecvClaim(s: State, id: nat)
    requires FdRight(s, {}) && id in s.ops && s.ops[id].Recv?
    ensures Claims(s, s.ops[id].client, ByRecv(id), false) && Unsent(s, s.ops[id].client)
  {
  }

  /** A new root with a client of its own. */
  lemma NewRootFd(s: State, root: Pt)
    requires FdRight(s, {}) && Bounded(s) && root.task.SendFile?
    requires Claims(s, root.task.client, ByChain(s.next), false)
    ensures FdRight(s.(pts := s.pts[s.next := root], next := s.next + 1), {})
  {
    hide Claims, CachedFiles;
    var s' := s.(pts := s.pts[s.next := root], next := s.next + 1);
    ClaimsOutside(s, s');
    CachedOutside(s, s');
    forall c | c in s'.pts && s'.pts[c].task.OpenFile? && s'.pts[c].label_ == AtStatx ensures Opening(s', c) {
      assert Opening(s, c);
    }
  }

  lemma SpawnOpenFd(s: State, r: nat, path: string)
    requires FdRight(s, {}) && Bounded(s) && IsRoot(s, r)
    ensures FdRight(Spawn(s, r, OpenFile(path)), {s.next})
  {
    hide Claims, CachedFiles;
    var s' := Spawn(s, r, OpenFile(path));
    ClaimsOutside(s, s');
    CachedOutside(s, s');
    forall c | c in s'.pts && c !in {s.next} && s'.pts[c].task.OpenFile? && s'.pts[c].label_ == AtStatx
      ensures Opening(s', c)
    {
      assert Opening(s, c);
    }
  }

  lemma SuspendFd(s: State, r: nat, label_: Label, run: set<nat>)
    requires FdRight(s, run) && IsRoot(s, r)
    ensures FdRight(Suspend(s, r, label_), run)
  {
    hide Claims, CachedFiles, OpeningFiles, Closings, Writes, Clients;
    var s' := Suspend(s, r, label_);
    assert SameRoles(s, s');
    RolesKeep(s, s');
    CachedOutside(s, s');
    SuspendOpening(s, r, label_, run);
  }

  lemma SuspendOpening(s: State, r: nat, label_: Label, run: set<nat>)
    requires OpeningFiles(s, run) && IsRoot(s, r)
    ensures OpeningFiles(Suspend(s, r, label_), run)
  {
    var s' := Suspend(s, r, label_);
    forall c | c in s'.pts && c !in run && s'.pts[c].task.OpenFile? && s'.pts[c].label_ == AtStatx
      ensures Opening(s', c)
    {
      assert Opening(s, c);
    }
  }

  /** A chain whose root waits for a routine that has not been entered yet. */
  function Begun(s: State, client: int, path: string): State {
    var r := s.next;
    var root := Pt(SendFile(client, path, File(0, "", 0), "", "", None), Fresh, None, false, None);
    var s1 := SetHolder(s, client, ByChain(r)).(pts := s.pts[r := root], next := s.next + 1);
    Suspend(Spawn(s1, r, OpenFile(path)), r, AtOpen)
  }

  lemma BegunShape(s: State, client: int, path: string)
    ensures var s' := Begun(s, client, path);
            var r := s.next;
            && s'.open == SetHolder(s, client, ByChain(r)).open && s'.ops == s.ops && s'.next == s.next + 2
            && (forall p :: p in s'.pts && p != r && p != r + 1 ==> p in s.pts && s'.pts[p] == s.pts[p])
            && (forall p :: p in s.pts ==> p in s'.pts)
            && IsRoot(s', r) && s'.pts[r].task.path == path && s'.pts[r].label_ == AtOpen
            && s'.pts[r].task.file == File(0, "", 0)
            && r + 1 in s'.pts && s'.pts[r + 1] == Pt(OpenFile(path), Fresh, Some(r), false, None)
  {
  }

  lemma BegunInv(s: State, client: int, path: string)
    requires Inv(s, {})
    ensures Inv(Begun(s, client, path), {s.next + 1})
  {
    hide Structured, Balanced, CacheRight;
    var r := s.next;
    var c := r + 1;
    var root := Pt(SendFile(client, path, File(0, "", 0), "", "", None), Fresh, None, false, None);
    var s0 := SetHolder(s, client, ByChain(r));
    OutsideKeeps(s, s0, {});
    NewRootKeeps(s0, root);
    var s1 := s0.(pts := s.pts[r := root], next := s.next + 1);
    SpawnKeeps(s1, r, OpenFile(path), {r});
    assert {r} + {c} == {r, c} && {r, c} - {r} == {c};
    SuspendKeeps(Spawn(s1, r, OpenFile(path)), r, AtOpen, {r, c});
  }

  lemma BegunFd(s: State, client: int, path: string, id: nat)
    requires Bounded(s) && FdRight(s, {}) && Claims(s, client, ByRecv(id), false) && id !in s.ops
    ensures FdRight(Begun(s, client, path), {s.next + 1})
  {
    hide FdRight, Claims;
    var r := s.next;
    var root := Pt(SendFile(client, path, File(0, "", 0), "", "", None), Fresh, None, false, None);
    RehomeFd(s, client, id, ByChain(r));
    var s0 := SetHolder(s, client, ByChain(r));
    NewRootFd(s0, root);
    var s1 := s0.(pts := s.pts[r := root], next := s.next + 1);
    SpawnOpenFd(s1, r, path);
    SuspendFd(Spawn(s1, r, OpenFile(path)), r, AtOpen, {r + 1});
  }

  lemma BegunAgrees(s: State, client: int, path: string)
    requires Bounded(s)
    ensures Agree(s, Begun(s, client, path), {s.next}, {})
  {
    hide Begun;
    BegunShape(s, client, path);
    BegunRoots(s, client, path);
  }

  lemma BegunRoots(s: State, client: int, path: string)
    ensures forall p: nat :: IsRoot(Begun(s, client, path), p) ==> IsRoot(s, p) || p == s.next
  {
    hide Begun;
    BegunShape(s, client, path);
  }

  lemma BegunFiles(s: State, client: int, path: string)
    ensures var s' := Begun(s, client, path);
            SameFiles(s, s') && s'.out == s.out && s'.cache == s.cache && s'.pts[s.next].task.client == client
  {
  }

  lemma BegunStarts(s: State, client: int, path: string)
    ensures StartChain(s, client, path) == OpenEntry(Begun(s, client, path), s.next + 1)
  {
    hide OpenEntry;
  }

  lemma BegunFacts(s: State, client: int, path: string)
    requires Bounded(s)
    ensures var s3 := Begun(s, client, path);
            var r, c := s.next, s.next + 1;
            && Agree(s, s3, {r}, {}) && SameFiles(s, s3) && s3.out == s.out && s3.next == s.next + 2
            && IsRoot(s3, r) && s3.pts[r].label_ == AtOpen && s3.pts[r].task.client == client
            && MayEnter(s3, c) && s3.pts[c].caller == Some(r)
            && StartChain(s, client, path) == OpenEntry(s3, c)
  {
    hide OpenEntry, StartChain, Begun, Agree, SameFiles, Held;
    BegunShape(s, client, path);
    BegunAgrees(s, client, path);
    BegunFiles(s, client, path);
    BegunStarts(s, client, path);
  }

  lemma StartChainFd(s: State, client: int, path: string, id: nat)
    requires Inv(s, {}) && FdRight(s, {}) && Claims(s, client, ByRecv(id), false) && id !in s.ops && Unsent(s, client)
    ensures var s' := StartChain(s, client, path);
            && FdRight(s', {}) && SameFiles(s, s') && s'.out == s.out && Agree(s, s', {s.next}, {})
            && IsRoot(s', s.next) && s'.pts[s.next].task.client == client
            && (SoundFor(s', s.next) && client != 0 ==> ChainRight(s', s.next))
  {
    hide Inv, FdRight, OpenEntry, SameFiles, Claims, SendsFirst, ChainRight, Begun, Agree, StartChain;
    var r, c := s.next, s.next + 1;
    FreshIdsOf(s);
    BegunInv(s, client, path);
    BegunFd(s, client, path, id);
    BegunFacts(s, client, path);
    var s3 := Begun(s, client, path);
    OpenEntryFd(s3, c);
    var s' := OpenEntry(s3, c);
    AgreeNew(s, s3, s', r, c);
    SameFilesJoin(s, s3, s');
    SendsOwn(s', r, client);
    if SoundFor(s', r) && client != 0 {
      StartStage(s3, s', r);
    }
  }

  lemma SendsOwn(s: State, r: nat, client: int)
    ensures SendsFirst(s, r, client) ==> IsRoot(s, r) && s.pts[r].task.client == client
  {
  }

  lemma AgreeNew(s: State, s3: State, s': State, r: nat, c: nat)
    requires Agree(s, s3, {r}, {}) && Agree(s3, s', {r, c}, {}) && r == s.next < c < s3.next
    ensures Agree(s, s', {s.next}, {})
  {
  }

  lemma StartStage(s: State, s': State, r: nat)
    requires IsRoot(s, r) && s.pts[r].label_ == AtOpen && Sent(s, s.pts[r].task.client) == "" && s'.out == s.out
    requires FdRight(s', {}) && SoundFor(s', r)
    requires SendsFirst(s', r, s.pts[r].task.client)
             || (IsRoot(s', r) && s'.pts[r].label_ == AtOpen && s'.pts[r].task.client == s.pts[r].task.client)
    ensures ChainRight(s', r)
  {
    assert ChainRight(s, r);
    OpenStage(s, s', r);
  }

  lemma OnRecvSteps(s: State, e: Event, public: set<string>)
    requires Inv(s, {}) && FdRight(s, {}) && Allowed(s, e) && s.ops[e.id].Recv?
    ensures var s' := OnRecv(s, e, public);
            && StepRight(s, s', e)
            && forall r :: !IsRoot(s, r) && SoundFor(s', r) && r == s.next && s'.pts[r].task.client != 0 ==> ChainRight(s', r)
  {
    hide Inv, FdRight, StartChain, ChainRight, CleanFor, Claims, Receiving.OnChunk, Agree, SameFiles;
    var Recv(client, buffer) := s.ops[e.id];
    RecvClaim(s, e.id);
    RemoveOpFd(s, e.id);
    DeliverKeeps(s, e.id);
    FreshIdsOf(s);
    var s1 := s.(ops := s.ops - {e.id});
    RemovedAgree(s, e.id);
    ClaimsOutside(s, s1);
    match Receiving.OnChunk(buffer, if e.res <= 0 then "" else e.data)
    case Drop =>
    case More(b) =>
      RehomeFd(s1, client, e.id, ByRecv(s1.next));
      var s2 := SetHolder(s1, client, ByRecv(s1.next));
      SubmitPlain(s2, Recv(client, b));
      MoreFrame(s, s1, s2, e.id, Recv(client, b));
    case Dispatch(_, head) =>
      var path := PublicPath(public, head);
      if path.Some? {
        StartChainFd(s1, client, path.value, e.id);
        ChainFrame(s, s1, StartChain(s1, client, path.value), e.id);
      }
  }

  lemma RemovedAgree(s: State, id: nat)
    requires id in s.ops
    ensures Agree(s, s.(ops := s.ops - {id}), {}, {id}) && Agree(s, s.(ops := s.ops - {id}), {s.next}, {id})
  {
  }

  lemma MoreFrame(s: State, s1: State, s2: State, id: nat, op: Op)
    requires id in s.ops && s.ops[id].Recv? && s1 == s.(ops := s.ops - {id}) && SameFiles(s1, s2) && s2 == s1.(open := s2.open)
    ensures StepFrame(s, Submit(s2, op), id)
  {
  }

  lemma ChainFrame(s: State, s1: State, s': State, id: nat)
    requires id in s.ops && s.ops[id].Recv? && s1 == s.(ops := s.ops - {id}) && SameFiles(s1, s') && s'.out == s1.out
    requires Agree(s1, s', {s.next}, {})
    ensures StepFrame(s, s', id)
  {
  }

  // ---------- every step ----------

  lemma InvolvedExist(s: State, id: nat)
    requires Inv(s, {}) && id in s.ops
    ensures forall p :: p in Involved(s, id) ==> p < s.next
  {
    hide Balanced, CacheRight;
    if Waiter(s.ops[id]).Some? {
      WaiterFacts(s, id);
      assert LinkedAt(s, Waiter(s.ops[id]).value);
    }
  }

  /** Every file still to be opened has its record as it was created. */
  ghost predicate AllUntouched(s: State) {
    forall p: nat :: Untouched(s, p)
  }

  lemma StepDelivers(s: State, e: Event, public: set<string>)
    requires Inv(s, {}) && FdRight(s, {}) && AllUntouched(s) && Allowed(s, e)
    ensures var s' := Step(s, e, public);
            && StepRight(s, s', e)
            && forall r :: !IsRoot(s, r) && SoundFor(s', r) && s'.pts[r].task.client != 0 ==> ChainRight(s', r)
  {
    hide Inv, FdRight, OnAccept, OnRecv, OnOpenat, OnStatx, OnSend, OnSplice, OnClose, ChainRight, CleanFor, SoundCache,
         Untouched;
    InvolvedExist(s, e.id);
    match s.ops[e.id]
    case Accept => OnAcceptSteps(s, e);
    case Recv(_, _) => OnRecvSteps(s, e, public);
    case Openat(p, _) =>
      assert Untouched(s, p);
      OnOpenatSteps(s, e);
    case Statx(_, _) => OnStatxSteps(s, e);
    case SendOp(_, _, _) => OnSendSteps(s, e);
    case SpliceOp(_, _, _, _, _) => OnSpliceSteps(s, e);
    case Close(_, _) => OnCloseSteps(s, e);
  }

  lemma RootStays(s: State, s': State, id: nat, q: nat)
    requires Inv(s, {}) && StepFrame(s, s', id) && IsRoot(s, q) && q !in Involved(s, id)
    ensures q in s'.pts && s'.pts[q] == s.pts[q]
  {
    hide Balanced, CacheRight, Chained, Parked, Owned;
  }

  lemma ChainStep(s: State, e: Event, public: set<string>, q: nat)
    requires Inv(s, {}) && FdRight(s, {}) && AllUntouched(s) && Allowed(s, e)
    requires IsRoot(s, q) ==> ChainRight(s, q) && CleanFor(s, e, q)
    requires SoundFor(Step(s, e, public), q) && Step(s, e, public).pts[q].task.client != 0
    ensures ChainRight(Step(s, e, public), q)
  {
    hide Inv, FdRight, ChainRight, Step, Agree, SoundCache, AllUntouched;
    StepDelivers(s, e, public);
    if IsRoot(s, q) && q !in Involved(s, e.id) {
      RootStays(s, Step(s, e, public), e.id, q);
      OtherChain(s, Step(s, e, public), e.id, q);
    }
  }
}
