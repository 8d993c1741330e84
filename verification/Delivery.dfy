/**
 What reaches a client. In every run each descriptor in use, apart from descriptor 0, is answered for by
 exactly one party, whatever opens fail. A record in the cache either stands for an open descriptor of the
 cache's own or has descriptor 0: left by a failed open, it may be anyone's. This file has the predicates
 and what the routines of a chain keep of them.
 */
module Delivery {
  import opened Wrappers
  import opened DoublyLinkedList
  import RecencyList
  import opened EventLoop
  import opened EventLoopSafety
  import Receiving
  import SpliceAll
  import Request
  import RequestParser
  import Response

  // ---------- who answers for a descriptor ----------

  /** Descriptor 0 is no one's: a record whose open failed has it, and its eviction closes it. */
  ghost predicate Claims(s: State, fd: int, h: Holder, isFile: bool) {
    fd != 0 ==> fd in s.open && s.open[fd].holder == h && s.open[fd].FileDesc? == isFile
  }

  ghost predicate Held(s: State, fd: int, h: Holder) {
    Claims(s, fd, h, true)
  }

  /** The cache answers for the files it lists. */
  ghost predicate CachedFiles(s: State) {
    forall i :: 0 <= i < |s.cache| ==> Cached(s, s.cache[i])
  }

  ghost predicate Cached(s: State, e: (string, File)) {
    Held(s, e.1.fd, ByCache(e.0))
  }

  /** A file that has been opened but not yet measured belongs to the chain that opened it, and it is
      the one the kernel has been asked to measure. */
  ghost predicate Opening(s: State, c: nat)
    requires c in s.pts
  {
    && s.pts[c].caller.Some? && IsRoot(s, s.pts[c].caller.value)
    && var file := s.pts[s.pts[c].caller.value].task.file;
       && Held(s, file.fd, ByOpening(s.pts[c].caller.value))
       && s.pts[c].op.Some? && s.pts[c].op.value in s.ops && s.ops[s.pts[c].op.value] == Statx(c, file.fd)
  }

  ghost predicate OpeningFiles(s: State, run: set<nat>) {
    forall c :: c in s.pts && c !in run && s.pts[c].task.OpenFile? && s.pts[c].label_ == AtStatx ==> Opening(s, c)
  }

  /** A close without a waiter closes an evicted file; one with a waiter closes the waiter's client. */
  ghost predicate Closings(s: State) {
    forall id :: id in s.ops && s.ops[id].Close? ==>
                   if s.ops[id].waiter.None? then Held(s, s.ops[id].fd, ByClosing(id))
                   else IsRoot(s, s.ops[id].waiter.value) && s.ops[id].fd == s.pts[s.ops[id].waiter.value].task.client
  }

  /** Whatever is written by the routine p goes to the client of the chain it belongs to. */
  ghost predicate Aims(s: State, p: nat, client: int) {
    p in s.pts && s.pts[p].caller.Some? && IsRoot(s, s.pts[p].caller.value)
    && client == s.pts[s.pts[p].caller.value].task.client
  }

  ghost predicate Writes(s: State) {
    forall id :: id in s.ops ==>
                   && (s.ops[id].SendOp? ==> Aims(s, s.ops[id].pt, s.ops[id].client))
                   && (s.ops[id].SpliceOp? ==> Aims(s, s.ops[id].pt, s.ops[id].fdOut))
  }

  /** Each receiving connection and each chain has its client alone, but for client 0. */
  ghost predicate Clients(s: State) {
    && (forall id :: id in s.ops && s.ops[id].Recv? ==>
                       Claims(s, s.ops[id].client, ByRecv(id), false) && Unsent(s, s.ops[id].client))
    && (forall r :: IsRoot(s, r) ==> Claims(s, s.pts[r].task.client, ByChain(r), false))
  }

  ghost predicate Unsent(s: State, client: int) {
    client != 0 ==> Sent(s, client) == ""
  }

  ghost predicate FdRight(s: State, run: set<nat>) {
    CachedFiles(s) && OpeningFiles(s, run) && Closings(s) && Writes(s) && Clients(s)
  }

  // ---------- what a chain's own routines leave behind ----------

  /** The chain r, seen from outside: its record, its child's and the operation one of them waits for. */
  ghost predicate SendingAt(s: State, r: nat, file: File, client: int, rest: string, raw: string, body: string) {
    && IsRoot(s, r) && s.pts[r].label_ == AtSend
    && s.pts[r].task.file == file && s.pts[r].task.client == client
    && s.pts[r].task.raw == raw && s.pts[r].task.body == body
    && s.pts[r].task.child.Some?
    && var c := s.pts[r].task.child.value;
       && c in s.pts && s.pts[c].task.SendBuffer? && s.pts[c].op.Some? && s.pts[c].op.value in s.ops
       && s.ops[s.pts[c].op.value] == SendOp(c, client, rest)
  }

  ghost predicate SplicingAt(s: State, r: nat, file: File, client: int, ctx: SpliceAll.Context, pipe: string,
                             raw: string, body: string) {
    && IsRoot(s, r) && s.pts[r].label_ == AtBody
    && s.pts[r].task.file == file && s.pts[r].task.client == client
    && s.pts[r].task.raw == raw && s.pts[r].task.body == body
    && s.pts[r].task.child.Some?
    && var c := s.pts[r].task.child.value;
       && c in s.pts && s.pts[c].task.SendBody? && s.pts[c].op.Some? && s.pts[c].op.value in s.ops
       && s.ops[s.pts[c].op.value] == SpliceOp(c, file.fd, client, ctx, pipe)
  }

  ghost predicate ClosingAt(s: State, r: nat, file: File, client: int, raw: string, body: string) {
    && IsRoot(s, r) && s.pts[r].label_ == AtClose
    && s.pts[r].task.file == file && s.pts[r].task.client == client && s.pts[r].task.raw == raw && s.pts[r].task.body == body
  }

  ghost predicate Outside(s: State, s': State) {
    s'.open == s.open && s'.out == s.out && s'.cache == s.cache
  }

  lemma StartSendIs(s: State, r: nat, c: nat)
    requires Inv(s, {r, c}) && IsRoot(s, r) && s.pts[r].task.child == Some(c)
    ensures var s' := StartSend(s, r);
            var t := s.pts[r].task;
            && Outside(s, s')
            && SendingAt(s', r, t.file, t.client, HeadFor(t.file), HeadFor(t.file), ContentOf(s, t.file.fd))
    ensures IsRoot(StartSend(s, r), r) && StartSend(s, r).pts[r].task.path == s.pts[r].task.path
  {
    hide Structured, Balanced, CacheRight, HeadFor;
    FreeChildFacts(s, r, c);
    FreshIds(s, r, {r, c});
  }

  lemma StartBodyIs(s: State, r: nat, c: nat)
    requires Inv(s, {r, c}) && IsRoot(s, r) && s.pts[r].task.child == Some(c)
    ensures var s' := StartBody(s, r);
            var t := s.pts[r].task;
            && Outside(s, s')
            && SplicingAt(s', r, t.file, t.client, SpliceAll.Start(t.file.size), "", t.raw, t.body)
    ensures IsRoot(StartBody(s, r), r) && StartBody(s, r).pts[r].task.path == s.pts[r].task.path
  {
    hide Structured, Balanced, CacheRight;
    FreeChildFacts(s, r, c);
    FreshIds(s, r, {r, c});
  }

  lemma StartCloseIs(s: State, r: nat, c: nat)
    requires Inv(s, {r, c}) && IsRoot(s, r) && s.pts[r].task.child == Some(c)
    ensures var s' := StartClose(s, r);
            var t := s.pts[r].task;
            Outside(s, s') && ClosingAt(s', r, t.file, t.client, t.raw, t.body)
    ensures IsRoot(StartClose(s, r), r) && StartClose(s, r).pts[r].task.path == s.pts[r].task.path
  {
    hide Structured, Balanced, CacheRight;
    FreeChildFacts(s, r, c);
    FreshIds(s, r, {r, c});
  }

  // ---------- what they leave alone ----------

  /** s' agrees with s on every protothread and operation that existed in s, apart from ps and ids;
      what is new carries a new number, and there is no new root but in ps. */
  ghost predicate Agree(s: State, s': State, ps: set<nat>, ids: set<nat>) {
    && s'.next >= s.next
    && (forall p :: p < s.next && p !in ps ==> (p in s'.pts <==> p in s.pts) && (p in s.pts ==> s'.pts[p] == s.pts[p]))
    && (forall p: nat :: IsRoot(s', p) ==> IsRoot(s, p) || (p >= s.next && p in ps))
    && (forall id :: id < s.next && id !in ids ==> (id in s'.ops <==> id in s.ops) && (id in s.ops ==> s'.ops[id] == s.ops[id]))
  }

  /** Before its first operation: the head is printed and the sending routine is there. */
  ghost function SendReady(s: State, r: nat): State
    requires IsRoot(s, r) && IsRoot(FreeChild(s, r), r)
  {
    var s1 := FreeChild(s, r);
    var t := s1.pts[r].task;
    var raw := HeadFor(t.file);
    Suspend(Spawn(SetRaw(s1, r, raw, ContentOf(s1, t.file.fd)), r, SendBuffer(raw, t.client)), r, AtSend)
  }

  lemma SendReadyAgrees(s: State, r: nat, c: nat)
    requires IsRoot(s, r) && s.pts[r].task.child == Some(c) && r != c && c in s.pts && !s.pts[c].task.SendFile?
    requires Bounded(s) && !s.pts[r].suspended
    ensures IsRoot(FreeChild(s, r), r)
    ensures var s' := SendReady(s, r);
            Agree(s, s', {r, c}, {}) && s'.next == s.next + 1 && s.next in s'.pts && !IsRoot(s', s.next)
  {
    hide HeadFor;
  }

  lemma SendReadyOutside(s: State, r: nat)
    requires IsRoot(s, r) && IsRoot(FreeChild(s, r), r)
    ensures Outside(s, SendReady(s, r))
  {
    hide HeadFor;
  }

  lemma WaitAgrees(s: State, s1: State, p: nat, label_: Label, op: Op, ps: set<nat>)
    requires Agree(s, s1, ps, {}) && p >= s.next && p in s1.pts && !IsRoot(s1, p)
    ensures Agree(s, SuspendOn(s1, p, label_, op), ps, {})
  {
    var s' := SuspendOn(s1, p, label_, op);
    assert forall q :: q != p ==> (q in s'.pts <==> q in s1.pts) && (q in s1.pts ==> s'.pts[q] == s1.pts[q]);
  }

  lemma WaitOutside(s: State, s1: State, p: nat, label_: Label, op: Op)
    requires Outside(s, s1)
    ensures Outside(s, SuspendOn(s1, p, label_, op))
  {
  }

  lemma StartSendAgrees(s: State, r: nat, c: nat)
    requires Inv(s, {r, c}) && IsRoot(s, r) && s.pts[r].task.child == Some(c)
    ensures Agree(s, StartSend(s, r), {r, c}, {}) && Outside(s, StartSend(s, r))
  {
    hide Inv, HeadFor, Agree, Outside, Spawn, Suspend, SuspendOn, FreeChild;
    FreeChildFacts(s, r, c);
    FreshIds(s, r, {r, c});
    BoundedOf(s, {r, c});
    SendReadyAgrees(s, r, c);
    SendReadyOutside(s, r);
    var t := FreeChild(s, r).pts[r].task;
    var n := SetRaw(FreeChild(s, r), r, HeadFor(t.file), ContentOf(FreeChild(s, r), t.file.fd)).next;
    FreeChildNext(s, r);
    WaitAgrees(s, SendReady(s, r), n, AtSendOp, SendOp(n, t.client, HeadFor(t.file)), {r, c});
    WaitOutside(s, SendReady(s, r), n, AtSendOp, SendOp(n, t.client, HeadFor(t.file)));
  }

  lemma FreeChildNext(s: State, r: nat)
    ensures FreeChild(s, r).next == s.next
  {
  }

  lemma StartBodyAgrees(s: State, r: nat, c: nat)
    requires Inv(s, {r, c}) && IsRoot(s, r) && s.pts[r].task.child == Some(c)
    ensures Agree(s, StartBody(s, r), {r, c}, {}) && Outside(s, StartBody(s, r))
  {
    hide Structured, Balanced, CacheRight;
    FreeChildFacts(s, r, c);
    FreshIds(s, r, {r, c});
  }

  lemma StartCloseAgrees(s: State, r: nat, c: nat)
    requires Inv(s, {r, c}) && IsRoot(s, r) && s.pts[r].task.child == Some(c)
    ensures Agree(s, StartClose(s, r), {r, c}, {}) && Outside(s, StartClose(s, r))
  {
    hide Structured, Balanced, CacheRight;
    FreeChildFacts(s, r, c);
    FreshIds(s, r, {r, c});
  }

  lemma ContinueAgrees(s: State, r: nat, c: nat)
    requires Inv(s, {r, c}) && IsRoot(s, r) && s.pts[r].task.child == Some(c)
    requires s.pts[r].label_ == AtOpen || s.pts[r].label_ == AtSend || s.pts[r].label_ == AtBody
    ensures Agree(s, Continue(s, r), {r, c}, {}) && Outside(s, Continue(s, r))
  {
    hide Inv, StartSend, StartBody, StartClose, Agree, Outside;
    match s.pts[r].label_
    case AtOpen => StartSendAgrees(s, r, c);
    case AtSend => StartBodyAgrees(s, r, c);
    case AtBody => StartCloseAgrees(s, r, c);
  }

  /** What is new in s' belongs to the chain r and concerns no file that is open or being opened. */
  ghost predicate NewIsOf(s: State, s': State, r: nat) {
    && (forall p :: p in s'.pts && p >= s.next ==> !s'.pts[p].task.OpenFile? && !s'.pts[p].task.SendFile?)
    && (forall id :: id in s'.ops && id >= s.next ==>
                       && !s'.ops[id].Recv?
                       && (s'.ops[id].SendOp? ==> Aims(s', s'.ops[id].pt, s'.ops[id].client))
                       && (s'.ops[id].SpliceOp? ==> Aims(s', s'.ops[id].pt, s'.ops[id].fdOut))
                       && (s'.ops[id].Close? ==> s'.ops[id].waiter == Some(r) && IsRoot(s', r)
                                                 && s'.ops[id].fd == s'.pts[r].task.client))
  }

  ghost predicate Continued(s: State, s': State, r: nat, c: nat) {
    && NewIsOf(s, s', r) && c !in s'.pts
    && IsRoot(s, r) && IsRoot(s', r) && s'.pts[r].task.client == s.pts[r].task.client
  }

  lemma StartSendNew(s: State, r: nat, c: nat)
    requires Inv(s, {r, c}) && IsRoot(s, r) && s.pts[r].task.child == Some(c)
    ensures Continued(s, StartSend(s, r), r, c)
  {
    hide Balanced, CacheRight, HeadFor, Owned, Chained, Parked;
    FreeChildFacts(s, r, c);
    FreshIds(s, r, {r, c});
  }

  lemma StartBodyNew(s: State, r: nat, c: nat)
    requires Inv(s, {r, c}) && IsRoot(s, r) && s.pts[r].task.child == Some(c)
    ensures Continued(s, StartBody(s, r), r, c)
  {
    hide Balanced, CacheRight, Owned, Chained, Parked;
    FreeChildFacts(s, r, c);
    FreshIds(s, r, {r, c});
  }

  lemma StartCloseNew(s: State, r: nat, c: nat)
    requires Inv(s, {r, c}) && IsRoot(s, r) && s.pts[r].task.child == Some(c)
    ensures Continued(s, StartClose(s, r), r, c)
  {
    hide Balanced, CacheRight, Owned, Chained, Parked;
    FreeChildFacts(s, r, c);
    FreshIds(s, r, {r, c});
  }

  lemma ContinueNew(s: State, r: nat, c: nat)
    requires Inv(s, {r, c}) && IsRoot(s, r) && s.pts[r].task.child == Some(c)
    requires s.pts[r].label_ == AtOpen || s.pts[r].label_ == AtSend || s.pts[r].label_ == AtBody
    ensures Continued(s, Continue(s, r), r, c)
  {
    hide Inv, StartSend, StartBody, StartClose, Continued;
    match s.pts[r].label_
    case AtOpen => StartSendNew(s, r, c);
    case AtSend => StartBodyNew(s, r, c);
    case AtBody => StartCloseNew(s, r, c);
  }

  lemma FdRightAfter(s: State, s': State, r: nat, c: nat)
    requires Inv(s, {r, c}) && FdRight(s, {c}) && Outside(s, s') && Agree(s, s', {r, c}, {})
    requires Continued(s, s', r, c) && c in s.pts && !s.pts[c].task.SendFile?
    requires forall p :: p in s.pts && p != c && s.pts[p].caller == Some(r) ==> !s.pts[p].task.OpenFile?
    ensures FdRight(s', {})
  {
    hide Inv, CachedFiles, OpeningFiles, Closings, Writes, Clients, Agree, Continued;
    CachedOutside(s, s');
    BoundedOf(s, {r, c});
    OpeningAfter(s, s', r, c);
    ClosingsAfter(s, s', r, c);
    WritesAfter(s, s', r, c);
  }

  lemma ClosingsAfter(s: State, s': State, r: nat, c: nat)
    requires Bounded(s) && Closings(s) && Clients(s) && s'.open == s.open && s'.out == s.out && Agree(s, s', {r, c}, {})
    requires Continued(s, s', r, c) && c in s.pts && !s.pts[c].task.SendFile?
    ensures Closings(s') && Clients(s')
  {
    hide Claims, Aims;
    ClaimsOutside(s, s');
  }

  lemma WritesAfter(s: State, s': State, r: nat, c: nat)
    requires Inv(s, {r, c}) && Writes(s) && Agree(s, s', {r, c}, {})
    requires Continued(s, s', r, c) && c in s.pts && !s.pts[c].task.SendFile?
    ensures Writes(s')
  {
    hide Balanced, CacheRight, Chained, Parked;
    assert forall id :: id in s.ops && Waiter(s.ops[id]).Some? ==> Waiter(s.ops[id]).value !in {r, c} by {
      RunningOwnNothing(s, {r, c});
    }
  }

  lemma RunningOwnNothing(s: State, run: set<nat>)
    requires Inv(s, run)
    ensures forall id :: id in s.ops && Waiter(s.ops[id]).Some? ==> Waiter(s.ops[id]).value !in run
  {
  }

  lemma ClaimsOutside(s: State, s': State)
    requires s'.open == s.open
    ensures forall fd, h, isFile :: Claims(s, fd, h, isFile) ==> Claims(s', fd, h, isFile)
  {
  }

  lemma OpeningAfter(s: State, s': State, r: nat, c: nat)
    requires Bounded(s) && OpeningFiles(s, {c}) && s'.open == s.open && Agree(s, s', {r, c}, {})
    requires Continued(s, s', r, c) && c in s.pts && !s.pts[c].task.SendFile?
    requires forall p :: p in s.pts && p != c && s.pts[p].caller == Some(r) ==> !s.pts[p].task.OpenFile?
    ensures OpeningFiles(s', {})
  {
    forall p | p in s'.pts && s'.pts[p].task.OpenFile? && s'.pts[p].label_ == AtStatx
      ensures Opening(s', p)
    {
      assert p < s.next && p != r;
      assert s'.pts[p] == s.pts[p] && Opening(s, p);
    }
  }

  /** A root's only leaf is its child. */
  lemma OnlyChild(s: State, r: nat, c: nat, run: set<nat>)
    requires Inv(s, run) && IsRoot(s, r) && s.pts[r].task.child == Some(c)
    ensures forall p :: p in s.pts && p != c && s.pts[p].caller == Some(r) ==> !s.pts[p].task.OpenFile?
  {
    forall p | p in s.pts && p != c && s.pts[p].caller == Some(r) ensures !s.pts[p].task.OpenFile? {
      assert LinkedAt(s, p);
    }
  }

  lemma CallBackFd(s: State, c: nat)
    requires Inv(s, {c}) && c in s.pts && !s.pts[c].task.SendFile? && FdRight(s, {c})
    ensures FdRight(CallBack(s, c), {})
    ensures var r := s.pts[c].caller.value;
            s.pts[c].caller.Some? && Agree(s, CallBack(s, c), {r, c}, {}) && Outside(s, CallBack(s, c))
  {
    hide Structured, Balanced, CacheRight, Continue, FdRight;
    LeafFacts(s, c, {c});
    var r := s.pts[c].caller.value;
    WakeKeeps(s, r, {c});
    assert {c} + {r} == {r, c};
    var s1 := Wake(s, r);
    WakeFd(s, r, {c});
    FdRightShrink(s1, {c}, r);
    ContinueAgrees(s1, r, c);
    ContinueNew(s1, r, c);
    OnlyChild(s1, r, c, {r, c});
    FdRightAfter(s1, Continue(s1, r), r, c);
  }

  lemma BoundedOf(s: State, run: set<nat>)
    requires Inv(s, run)
    ensures Bounded(s)
  {
  }

  /** Nothing but labels and bookkeeping has changed. */
  ghost predicate SameRoles(s: State, s': State) {
    && s'.ops == s.ops && s'.open == s.open && s'.out == s.out
    && s'.pts.Keys == s.pts.Keys
    && forall p :: p in s.pts ==> s'.pts[p].task == s.pts[p].task && s'.pts[p].caller == s.pts[p].caller
  }

  lemma RolesKeep(s: State, s': State)
    requires SameRoles(s, s') && Closings(s) && Writes(s) && Clients(s)
    ensures Closings(s') && Writes(s') && Clients(s')
  {
    hide Claims;
    ClaimsOutside(s, s');
    forall id | id in s'.ops && s'.ops[id].SendOp? ensures Aims(s', s'.ops[id].pt, s'.ops[id].client) {
      assert Aims(s, s.ops[id].pt, s.ops[id].client);
    }
    forall id | id in s'.ops && s'.ops[id].SpliceOp? ensures Aims(s', s'.ops[id].pt, s'.ops[id].fdOut) {
      assert Aims(s, s.ops[id].pt, s.ops[id].fdOut);
    }
    forall r | IsRoot(s', r) ensures Claims(s', s'.pts[r].task.client, ByChain(r), false) {
      assert IsRoot(s, r);
    }
  }

  lemma WakeFd(s: State, p: nat, run: set<nat>)
    requires FdRight(s, run)
    ensures FdRight(Wake(s, p), run + {p})
  {
    hide Claims, CachedFiles, OpeningFiles, Closings, Writes, Clients;
    assert SameRoles(s, Wake(s, p));
    RolesKeep(s, Wake(s, p));
    CachedOutside(s, Wake(s, p));
    WakeOpening(s, p, run);
  }

  lemma WakeOpening(s: State, p: nat, run: set<nat>)
    requires OpeningFiles(s, run)
    ensures OpeningFiles(Wake(s, p), run + {p})
  {
    hide Claims;
    ClaimsOutside(s, Wake(s, p));
    var s' := Wake(s, p);
    forall c | c in s'.pts && c !in run + {p} && s'.pts[c].task.OpenFile? && s'.pts[c].label_ == AtStatx
      ensures Opening(s', c)
    {
      assert Opening(s, c);
    }
  }

  /** The exemption is only needed for a routine that opens a file. */
  lemma FdRightShrink(s: State, run: set<nat>, r: nat)
    requires FdRight(s, run + {r}) && IsRoot(s, r)
    ensures FdRight(s, run)
  {
    hide CachedFiles, Closings, Writes, Clients, Opening;
  }

  lemma FdRightGrow(s: State, run: set<nat>, p: nat)
    requires FdRight(s, run)
    ensures FdRight(s, run + {p})
  {
    hide CachedFiles, Closings, Writes, Clients, Opening;
  }

  // ---------- opening a file ----------

  /** The same descriptors stand for the same contents; only who answers for them may have changed. */
  ghost predicate SameFiles(s: State, s': State) {
    && s'.open.Keys == s.open.Keys
    && forall fd :: fd in s.open ==> s'.open[fd].FileDesc? == s.open[fd].FileDesc?
                                     && (s.open[fd].FileDesc? ==> s'.open[fd].content == s.open[fd].content)
  }

  /** The file a chain holds is open with this content, and its size is known. */
  ghost predicate Ready(s: State, file: File, body: string) {
    file.fd in s.open && s.open[file.fd].FileDesc? && s.open[file.fd].content == body && file.size == |body|
  }

  lemma SetFileFd(s: State, r: nat, file: File, c: nat)
    requires FdRight(s, {c}) && IsRoot(s, r)
    requires forall p :: p in s.pts && p != c && s.pts[p].caller == Some(r) ==> !s.pts[p].task.OpenFile?
    ensures FdRight(SetFile(s, r, file), {c})
  {
    hide Claims, CachedFiles, OpeningFiles;
    var s' := SetFile(s, r, file);
    ClaimsOutside(s, s');
    CachedOutside(s, s');
    SetFileOpening(s, r, file, c);
  }

  lemma SetFileOpening(s: State, r: nat, file: File, c: nat)
    requires OpeningFiles(s, {c}) && IsRoot(s, r)
    requires forall p :: p in s.pts && p != c && s.pts[p].caller == Some(r) ==> !s.pts[p].task.OpenFile?
    ensures OpeningFiles(SetFile(s, r, file), {c})
  {
    var s' := SetFile(s, r, file);
    forall p | p in s'.pts && p != c && s'.pts[p].task.OpenFile? && s'.pts[p].label_ == AtStatx
      ensures Opening(s', p)
    {
      assert Opening(s, p);
    }
  }

  lemma CacheMovedFd(s: State, i: nat, run: set<nat>)
    requires FdRight(s, run) && i < |s.cache|
    ensures FdRight(s.(cache := Moved(s.cache, i)), run)
  {
    hide Claims;
    var s' := s.(cache := Moved(s.cache, i));
    ClaimsOutside(s, s');
    Transferred(s, s', run, None);
    CacheMovedCached(s, i);
  }

  lemma CacheMovedCached(s: State, i: nat)
    requires CachedFiles(s) && i < |s.cache|
    ensures CachedFiles(s.(cache := Moved(s.cache, i)))
  {
    var s' := s.(cache := Moved(s.cache, i));
    MovedAt(s.cache, i);
    forall k | 0 <= k < |s'.cache| ensures Cached(s', s'.cache[k]) {
      var j := if k == 0 then i else if k <= i then k - 1 else k;
      assert s'.cache[k] == s.cache[j] && Cached(s, s.cache[j]);
    }
  }

  /** Every claim of s stands in s', but perhaps those of one holder. */
  ghost predicate ClaimsStand(s: State, s': State, lost: Option<Holder>) {
    forall fd, h, isFile :: Claims(s, fd, h, isFile) && lost != Some(h) ==> Claims(s', fd, h, isFile)
  }

  /** Claims other than the cache's are kept when the protothreads and operations are. */
  lemma Transferred(s: State, s': State, run: set<nat>, lost: Option<Holder>)
    requires FdRight(s, run) && s'.pts == s.pts && s'.ops == s.ops && s'.out == s.out
    requires ClaimsStand(s, s', lost)
    requires lost.None? || lost.value.ByCache? || lost.value.ByOpening?
    requires lost.Some? && lost.value.ByOpening? ==>
               forall p :: p in s.pts && p !in run && s.pts[p].caller == Some(lost.value.root) ==> !s.pts[p].task.OpenFile?
    ensures OpeningFiles(s', run) && Closings(s') && Writes(s') && Clients(s')
  {
    hide Claims, CachedFiles;
    forall c | c in s'.pts && c !in run && s'.pts[c].task.OpenFile? && s'.pts[c].label_ == AtStatx
      ensures Opening(s', c)
    {
      assert Opening(s, c);
    }
  }

  lemma SuspendOnFd(s: State, c: nat, label_: Label, op: Op)
    requires FdRight(s, {c}) && c in s.pts && s.pts[c].task.OpenFile? && Bounded(s) && !s.pts[c].suspended
    requires op.Openat? || op.Statx?
    requires label_ == AtStatx ==>
               && s.pts[c].caller.Some? && IsRoot(s, s.pts[c].caller.value)
               && var file := s.pts[s.pts[c].caller.value].task.file;
                  Held(s, file.fd, ByOpening(s.pts[c].caller.value)) && op == Statx(c, file.fd)
    ensures FdRight(SuspendOn(s, c, label_, op), {})
  {
    hide CachedFiles, OpeningFiles, Closings, Writes, Clients, Claims;
    CachedOutside(s, SuspendOn(s, c, label_, op));
    SuspendOnOpening(s, c, label_, op);
    SuspendOnOps(s, c, label_, op);
  }

  lemma SuspendOnOpening(s: State, c: nat, label_: Label, op: Op)
    requires Bounded(s) && OpeningFiles(s, {c}) && c in s.pts && s.pts[c].task.OpenFile? && !s.pts[c].suspended
    requires label_ == AtStatx ==>
               && s.pts[c].caller.Some? && IsRoot(s, s.pts[c].caller.value)
               && var file := s.pts[s.pts[c].caller.value].task.file;
                  Held(s, file.fd, ByOpening(s.pts[c].caller.value)) && op == Statx(c, file.fd)
    ensures OpeningFiles(SuspendOn(s, c, label_, op), {})
  {
    hide Claims;
    var s' := SuspendOn(s, c, label_, op);
    ClaimsOutside(s, s');
    forall p | p in s'.pts && s'.pts[p].task.OpenFile? && s'.pts[p].label_ == AtStatx ensures Opening(s', p) {
      if p != c {
        assert Opening(s, p);
      }
    }
  }

  lemma SuspendOnOps(s: State, c: nat, label_: Label, op: Op)
    requires Closings(s) && Writes(s) && Clients(s) && c in s.pts && s.pts[c].task.OpenFile? && Bounded(s)
    requires !s.pts[c].suspended && (op.Openat? || op.Statx?)
    ensures var s' := SuspendOn(s, c, label_, op); Closings(s') && Writes(s') && Clients(s')
  {
    hide Claims;
    ClaimsOutside(s, SuspendOn(s, c, label_, op));
  }

  /** One descriptor changes hands: every other claim stands. */
  lemma HolderChanged(s: State, s': State, fd: int, h: Holder)
    requires s'.open == SetHolder(s, fd, h).open && fd in s.open && s.open[fd].holder != h && fd != 0
    ensures SameFiles(s, s')
    ensures Claims(s', fd, h, s.open[fd].FileDesc?)
    ensures ClaimsStand(s, s', Some(s.open[fd].holder))
  {
  }

  lemma HeldStands(s: State, s': State, lost: Option<Holder>)
    requires ClaimsStand(s, s', lost)
    ensures forall fd, h :: Held(s, fd, h) && lost != Some(h) ==> Held(s', fd, h)
  {
    hide Claims;
  }

  /** A descriptor goes from one holder to another. */
  lemma HeldChanged(s: State, s': State, fd: int, old_: Holder, h: Holder)
    requires s'.open == SetHolder(s, fd, h).open && Held(s, fd, old_) && old_ != h
    ensures SameFiles(s, s') && Held(s', fd, h) && ClaimsStand(s, s', Some(old_))
  {
    if fd != 0 {
      HolderChanged(s, s', fd, h);
    }
  }

  /** The file that has just been measured goes into the cache, before any eviction. */
  lemma InsertFd(s: State, c: nat, r: nat, path: string, file: File, cache: seq<(string, File)>)
    requires FdRight(s, {c}) && Held(s, file.fd, ByOpening(r))
    requires forall p :: p in s.pts && p != c && s.pts[p].caller == Some(r) ==> !s.pts[p].task.OpenFile?
    requires 1 <= |cache| <= |s.cache| + 1 && cache == [(path, file)] + s.cache[..|cache| - 1]
    ensures var s1 := SetHolder(s.(cache := cache), file.fd, ByCache(path));
            SameFiles(s, s1) && FdRight(s1, {c}) && ClaimsStand(s, s1, Some(ByOpening(r)))
  {
    hide FdRight, OpeningFiles, Closings, Writes, Clients, Held, ClaimsStand;
    var s1 := SetHolder(s.(cache := cache), file.fd, ByCache(path));
    HeldChanged(s, s1, file.fd, ByOpening(r), ByCache(path));
    HeldStands(s, s1, Some(ByOpening(r)));
    Transferred(s, s1, {c}, Some(ByOpening(r)));
    FdParts(s, s1, {c});
    forall k | 0 <= k < |cache| ensures Cached(s1, cache[k]) {
      if k > 0 {
        assert cache[k] == s.cache[k - 1] && Cached(s, s.cache[k - 1]);
      }
    }
  }

  lemma FdParts(s: State, s': State, run: set<nat>)
    requires FdRight(s, run)
    ensures CachedFiles(s)
    ensures CachedFiles(s') && OpeningFiles(s', run) && Closings(s') && Writes(s') && Clients(s') ==> FdRight(s', run)
  {
  }

  /** The descriptor that dropped out of the cache is handed to a close. */
  lemma EvictFd(s: State, c: nat, path: string, fd: int)
    requires FdRight(s, {c}) && Bounded(s) && Held(s, fd, ByCache(path))
    requires forall i :: 0 <= i < |s.cache| ==> s.cache[i].0 != path
    ensures var s1 := Submit(SetHolder(s, fd, ByClosing(s.next)), Close(None, fd));
            SameFiles(s, s1) && FdRight(s1, {c})
  {
    hide FdRight, OpeningFiles, Closings, Writes, Clients, Held, ClaimsStand;
    var s0 := SetHolder(s, fd, ByClosing(s.next));
    HeldChanged(s, s0, fd, ByCache(path), ByClosing(s.next));
    HeldStands(s, s0, Some(ByCache(path)));
    Transferred(s, s0, {c}, Some(ByCache(path)));
    FdParts(s, s0, {c});
    forall k | 0 <= k < |s.cache| ensures Cached(s0, s.cache[k]) {
      assert Cached(s, s.cache[k]);
    }
    SubmitCloseFd(s0, {c}, fd);
  }

  lemma SubmitCloseFd(s: State, run: set<nat>, fd: int)
    requires FdRight(s, run) && Bounded(s) && Held(s, fd, ByClosing(s.next))
    ensures FdRight(Submit(s, Close(None, fd)), run)
  {
    hide Claims, CachedFiles, OpeningFiles;
    ClaimsOutside(s, Submit(s, Close(None, fd)));
    CachedOutside(s, Submit(s, Close(None, fd)));
    SubmitOpening(s, run, Close(None, fd));
  }

  lemma SubmitOpening(s: State, run: set<nat>, op: Op)
    requires OpeningFiles(s, run) && Bounded(s)
    ensures OpeningFiles(Submit(s, op), run)
  {
    var s' := Submit(s, op);
    forall c | c in s'.pts && c !in run && s'.pts[c].task.OpenFile? && s'.pts[c].label_ == AtStatx
      ensures Opening(s', c)
    {
      assert Opening(s, c);
    }
  }

  lemma CachedOutside(s: State, s': State)
    requires CachedFiles(s) && s'.open == s.open && s'.cache == s.cache
    ensures CachedFiles(s')
  {
    forall i | 0 <= i < |s.cache| ensures Cached(s', s'.cache[i]) {
      assert Cached(s, s.cache[i]);
    }
  }

  lemma SetHolderOnly(s: State, fd: int, h: Holder)
    ensures SetHolder(s, fd, h) == s.(open := SetHolder(s, fd, h).open)
    ensures SetHolder(s, fd, h).open.Keys == s.open.Keys
  {
  }

  /** What adding a file to the cache does, apart from who holds which descriptor: the file that drops out,
      if one does, is closed. */
  lemma AddToCacheIs(s: State, path: string, file: File)
    requires RecencyList.Find(s.cache, path) == |s.cache|
    ensures var s' := AddToCache(s, path, file);
            var (cache, out) := RecencyList.Step(s.cache, CACHE_SIZE, RecencyList.AddOp(path, file));
            && s'.pts == s.pts && s'.out == s.out && s'.log == s.log && s'.open.Keys == s.open.Keys
            && s'.cache == cache && out.Added?
            && if out.evicted.None? then s'.ops == s.ops && s'.next == s.next
               else s'.next == s.next + 1 && s'.ops == s.ops[s.next := Close(None, out.evicted.value.1.fd)]
  {
    hide RecencyList.Step, SetHolder;
    var (cache, out) := RecencyList.Step(s.cache, CACHE_SIZE, RecencyList.AddOp(path, file));
    SetHolderOnly(s.(cache := cache), file.fd, ByCache(path));
    var s1 := SetHolder(s.(cache := cache), file.fd, ByCache(path));
    AddsOnly(s.cache, path, file);
    if out.evicted.Some? {
      SetHolderOnly(s1, out.evicted.value.1.fd, ByClosing(s.next));
    }
  }

  lemma AddsOnly(cache: seq<(string, File)>, path: string, file: File)
    ensures RecencyList.Step(cache, CACHE_SIZE, RecencyList.AddOp(path, file)).1.Added?
  {
  }

  lemma AddedIsFront(s: State, path: string, file: File)
    requires RecencyList.Find(s.cache, path) == |s.cache|
    ensures var s' := AddToCache(s, path, file);
            s'.pts == s.pts && s'.cache != [] && s'.cache[0] == (path, file)
  {
    hide AddToCache;
    AddToCacheIs(s, path, file);
  }

  lemma AddToCacheFd(s: State, c: nat, r: nat, path: string, file: File)
    requires Inv(s, {c}) && FdRight(s, {c}) && RecencyList.Find(s.cache, path) == |s.cache|
    requires Held(s, file.fd, ByOpening(r))
    requires forall p :: p in s.pts && p != c && s.pts[p].caller == Some(r) ==> !s.pts[p].task.OpenFile?
    ensures var s' := AddToCache(s, path, file);
            FdRight(s', {c}) && SameFiles(s, s') && s'.out == s.out && Agree(s, s', {}, {})
  {
    hide Inv, FdRight, Held, SameFiles, CacheRight;
    BoundedOf(s, {c});
    CacheRightOf(s, {c});
    if |s.cache| < CACHE_SIZE {
      assert s.cache[..|s.cache|] == s.cache;
      InsertFd(s, c, r, path, file, [(path, file)] + s.cache);
    } else {
      AddAndEvict(s, c, r, path, file);
    }
  }

  lemma AddWhenFull(s: State, path: string, file: File)
    requires RecencyList.Find(s.cache, path) == |s.cache| >= CACHE_SIZE
    ensures var s1 := SetHolder(s.(cache := [(path, file)] + s.cache[..CACHE_SIZE - 1]), file.fd, ByCache(path));
            var last := s.cache[|s.cache| - 1].1.fd;
            AddToCache(s, path, file) == Submit(SetHolder(s1, last, ByClosing(s1.next)), Close(None, last))
  {
    hide Submit;
    assert |s.cache| >= 1;
  }

  lemma AddAndEvict(s: State, c: nat, r: nat, path: string, file: File)
    requires Bounded(s) && CacheRight(s) && FdRight(s, {c})
    requires RecencyList.Find(s.cache, path) == |s.cache| >= CACHE_SIZE
    requires Held(s, file.fd, ByOpening(r))
    requires forall p :: p in s.pts && p != c && s.pts[p].caller == Some(r) ==> !s.pts[p].task.OpenFile?
    ensures var s' := AddToCache(s, path, file);
            FdRight(s', {c}) && SameFiles(s, s') && s'.out == s.out && s'.pts == s.pts
            && s'.ops == s.ops[s.next := s'.ops[s.next]] && s'.next == s.next + 1 && s.next in s'.ops
  {
    hide FdRight, Held, SameFiles, AddToCache, ClaimsStand;
    AddWhenFull(s, path, file);
    var cache := [(path, file)] + s.cache[..CACHE_SIZE - 1];
    InsertFd(s, c, r, path, file, cache);
    var s1 := SetHolder(s.(cache := cache), file.fd, ByCache(path));
    var last := s.cache[|s.cache| - 1];
    CachedHeld(s, |s.cache| - 1, {c});
    HeldStands(s, s1, Some(ByOpening(r)));
    EvictFd(s1, c, last.0, last.1.fd);
    var s' := Submit(SetHolder(s1, last.1.fd, ByClosing(s1.next)), Close(None, last.1.fd));
    SameFilesJoin(s, s1, s');
  }

  lemma SameFilesJoin(s: State, s1: State, s2: State)
    requires SameFiles(s, s1) && SameFiles(s1, s2)
    ensures SameFiles(s, s2)
  {
  }

  lemma CacheRightOf(s: State, run: set<nat>)
    requires Inv(s, run)
    ensures CacheRight(s)
  {
  }

  lemma CachedHeld(s: State, i: nat, run: set<nat>)
    requires FdRight(s, run) && i < |s.cache|
    ensures Held(s, s.cache[i].1.fd, ByCache(s.cache[i].0))
  {
    assert Cached(s, s.cache[i]);
  }

  /** async_io_open_file entered with its descriptor, if it has one already, in its own name. */
  ghost predicate MayEnter(s: State, c: nat) {
    && c in s.pts && s.pts[c].task.OpenFile? && s.pts[c].caller.Some? && IsRoot(s, s.pts[c].caller.value)
    && (s.pts[c].label_ == Fresh || s.pts[c].label_ == AtOpenat || s.pts[c].label_ == AtStatx)
    && var r := s.pts[c].caller.value;
       var file := s.pts[r].task.file;
       && (s.pts[c].label_ != Fresh ==> Held(s, file.fd, ByOpening(r)))
  }

  lemma AgreeTrans(s: State, s1: State, s2: State, ps: set<nat>, ids: set<nat>)
    requires Agree(s, s1, ps, ids) && Agree(s1, s2, ps, {})
    ensures Agree(s, s2, ps, ids)
  {
  }

  /** What a routine leaves behind for the root it returns to. */
  lemma CallBackIs(s: State, c: nat)
    requires Inv(s, {c}) && c in s.pts && !s.pts[c].task.SendFile?
    ensures s.pts[c].caller.Some? && IsRoot(s, s.pts[c].caller.value)
    ensures var r := s.pts[c].caller.value;
            IsRoot(CallBack(s, c), r) && CallBack(s, c).pts[r].task.path == s.pts[r].task.path
    ensures var r := s.pts[c].caller.value;
            var t := s.pts[r].task;
            var s' := CallBack(s, c);
            && (s.pts[c].task.OpenFile? ==>
                  SendingAt(s', r, t.file, t.client, HeadFor(t.file), HeadFor(t.file), ContentOf(s, t.file.fd)))
            && (s.pts[c].task.SendBuffer? ==>
                  SplicingAt(s', r, t.file, t.client, SpliceAll.Start(t.file.size), "", t.raw, t.body))
            && (s.pts[c].task.SendBody? ==> ClosingAt(s', r, t.file, t.client, t.raw, t.body))
  {
    hide Structured, Balanced, CacheRight, StartSend, StartBody, StartClose, HeadFor, SendingAt, SplicingAt, ClosingAt;
    LeafFacts(s, c, {c});
    var r := s.pts[c].caller.value;
    WakeKeeps(s, r, {c});
    assert {c} + {r} == {r, c};
    var s1 := Wake(s, r);
    match s.pts[c].task
    case OpenFile(_) => StartSendIs(s1, r, c);
    case SendBuffer(_, _) => StartBodyIs(s1, r, c);
    case SendBody(_) => StartCloseIs(s1, r, c);
  }

  /** The chain of root r is about to send the headers of a file, the one it asked for: it is the first
      in the cache. */
  ghost predicate SendsFirst(s: State, r: nat, client: int) {
    exists file, body ::
      && SendingAt(s, r, file, client, HeadFor(file), HeadFor(file), body) && body == ContentOf(s, file.fd)
      && s.cache != [] && s.cache[0] == (s.pts[r].task.path, file)
  }

  lemma SameFilesTrans(s: State, s1: State, s2: State)
    requires SameFiles(s, s1) && s2.open == s1.open
    ensures SameFiles(s, s2) && SameFiles(s1, s2)
  {
  }

  lemma OpenHit(s: State, c: nat)
    requires Inv(s, {c}) && FdRight(s, {c}) && MayEnter(s, c)
    requires RecencyList.Find(s.cache, s.pts[c].task.path) < |s.cache|
    ensures var s' := OpenEntry(s, c);
            var r := s.pts[c].caller.value;
            && FdRight(s', {}) && SameFiles(s, s') && s'.out == s.out && Agree(s, s', {r, c}, {})
            && SendsFirst(s', r, s.pts[r].task.client)
  {
    hide Structured, Balanced, CacheRight, CallBack, FdRight, Held, SendingAt, HeadFor, SameFiles, ContentOf;
    LeafFacts(s, c, {c});
    OwnPath(s, c, {c});
    var r := s.pts[c].caller.value;
    OnlyChild(s, r, c, {c});
    var i := RecencyList.Find(s.cache, s.pts[c].task.path);
    var file := s.cache[i].1;
    var s1 := s.(cache := Moved(s.cache, i));
    CacheStepKeeps(s, s1.cache, RecencyList.GetOp(s.pts[c].task.path), {c});
    CacheMovedFd(s, i, {c});
    var s2 := SetFile(s1, r, file);
    LocalsKeep(s1, s2, r, {c});
    SetFileFd(s1, r, file, c);
    CallBackFd(s2, c);
    CallBackIs(s2, c);
    var s' := CallBack(s2, c);
    AgreeTrans(s, s2, s', {r, c}, {});
    SameOpen(s, s');
    ContentSame(s2, s', file.fd);
    assert s'.cache[0] == (s'.pts[r].task.path, file);
  }

  /** The open routine works for its caller's path. */
  lemma OwnPath(s: State, c: nat, run: set<nat>)
    requires Inv(s, run) && c in s.pts && s.pts[c].task.OpenFile?
    ensures s.pts[c].caller.Some? && IsRoot(s, s.pts[c].caller.value)
    ensures s.pts[s.pts[c].caller.value].task.path == s.pts[c].task.path
  {
    hide Balanced, CacheRight, Parked;
    assert LinkedAt(s, c);
  }

  lemma ContentSame(s: State, s': State, fd: int)
    requires SameFiles(s, s') || s'.open == s.open
    ensures ContentOf(s', fd) == ContentOf(s, fd)
  {
  }

  lemma SameOpen(s: State, s': State)
    requires s'.open == s.open
    ensures SameFiles(s, s')
  {
  }

  lemma OpenAdd(s: State, c: nat)
    requires Inv(s, {c}) && FdRight(s, {c}) && MayEnter(s, c) && s.pts[c].label_ == AtStatx
    requires RecencyList.Find(s.cache, s.pts[c].task.path) == |s.cache|
    ensures var s' := OpenEntry(s, c);
            var r := s.pts[c].caller.value;
            && FdRight(s', {}) && SameFiles(s, s') && s'.out == s.out && Agree(s, s', {r, c}, {})
            && SendsFirst(s', r, s.pts[r].task.client)
  {
    hide Structured, Balanced, CacheRight, CallBack, AddToCache, FdRight, Held, SendingAt, HeadFor, SameFiles, ContentOf;
    LeafFacts(s, c, {c});
    OwnPath(s, c, {c});
    var r := s.pts[c].caller.value;
    OnlyChild(s, r, c, {c});
    var path, file := s.pts[c].task.path, s.pts[r].task.file;
    AddToCacheKeeps(s, path, file, {c});
    AddToCacheFd(s, c, r, path, file);
    AddedIsFront(s, path, file);
    var s1 := AddToCache(s, path, file);
    CallBackFd(s1, c);
    CallBackIs(s1, c);
    var s' := CallBack(s1, c);
    assert Agree(s, s1, {r, c}, {});
    AgreeTrans(s, s1, s', {r, c}, {});
    SameFilesTrans(s, s1, s');
    ContentSame(s1, s', file.fd);
    assert s'.cache[0] == (s'.pts[r].task.path, file);
  }

  lemma OpenWait(s: State, c: nat)
    requires Inv(s, {c}) && FdRight(s, {c}) && MayEnter(s, c) && s.pts[c].label_ != AtStatx
    requires RecencyList.Find(s.cache, s.pts[c].task.path) == |s.cache|
    ensures var s' := OpenEntry(s, c);
            var r := s.pts[c].caller.value;
            && FdRight(s', {}) && s'.open == s.open && s'.out == s.out && Agree(s, s', {r, c}, {})
            && IsRoot(s', r) && s'.pts[r].label_ == s.pts[r].label_ && s'.pts[r].task.client == s.pts[r].task.client
  {
    hide Structured, Balanced, CacheRight, FdRight, Claims;
    LeafFacts(s, c, {c});
    FreshIds(s, c, {c});
    BoundedOf(s, {c});
    var r := s.pts[c].caller.value;
    OnlyChild(s, r, c, {c});
    var path := s.pts[c].task.path;
    var file := s.pts[r].task.file;
    match s.pts[c].label_
    case Fresh =>
      OpenFirst(s, c, r, path, file.(name := Basename(path, |path|)));
    case AtOpenat =>
      SuspendOnFd(s, c, AtStatx, Statx(c, file.fd));
  }

  lemma OpenFirst(s: State, c: nat, r: nat, path: string, file: File)
    requires Inv(s, {c}) && FdRight(s, {c}) && MayEnter(s, c) && r == s.pts[c].caller.value
    ensures var s' := SuspendOn(SetFile(s, r, file), c, AtOpenat, Openat(c, path));
            && FdRight(s', {}) && s'.open == s.open && s'.out == s.out && Agree(s, s', {r, c}, {})
            && IsRoot(s', r) && s'.pts[r].label_ == s.pts[r].label_ && s'.pts[r].task.client == s.pts[r].task.client
  {
    hide Structured, Balanced, CacheRight, FdRight, Claims;
    LeafFacts(s, c, {c});
    FreshIds(s, c, {c});
    BoundedOf(s, {c});
    OnlyChild(s, r, c, {c});
    var s1 := SetFile(s, r, file);
    LocalsKeep(s, s1, r, {c});
    BoundedOf(s1, {c});
    SetFileFd(s, r, file, c);
    SuspendOnFd(s1, c, AtOpenat, Openat(c, path));
  }

  /** Whatever async_io_open_file does when entered: the descriptors stay accounted for, other chains
      are not touched, and its own chain either waits on or starts to send a file that is ready. */
  lemma OpenEntryFd(s: State, c: nat)
    requires Inv(s, {c}) && FdRight(s, {c}) && MayEnter(s, c)
    ensures var s' := OpenEntry(s, c);
            var r := s.pts[c].caller.value;
            && FdRight(s', {}) && SameFiles(s, s') && s'.out == s.out && Agree(s, s', {r, c}, {})
            && (SendsFirst(s', r, s.pts[r].task.client)
                || (IsRoot(s', r) && s'.pts[r].label_ == s.pts[r].label_ && s'.pts[r].task.client == s.pts[r].task.client))
  {
    hide Structured, Balanced, CacheRight, FdRight, Claims, OpenEntry, SendsFirst, Agree;
    if RecencyList.Find(s.cache, s.pts[c].task.path) < |s.cache| {
      OpenHit(s, c);
    } else if s.pts[c].label_ == AtStatx {
      OpenAdd(s, c);
    } else {
      OpenWait(s, c);
    }
  }
}
