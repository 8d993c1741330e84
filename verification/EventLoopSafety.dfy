/**
 What every step of the event loop keeps: operations in flight that carry a protothread correspond
 one to one to the suspended leaf protothreads, every caller chain is a leaf below a root, each wait
 is resumed exactly once, and a label is never added to the cache twice.
 The invariant is stated with a set of running routines, those between a resumption and their next
 wait, so that it can be followed through the primitive actions of one handler.
 */
module EventLoopSafety {
  import opened Wrappers
  import opened DoublyLinkedList
  import RecencyList
  import opened EventLoop
  import Request
  import Receiving
  import SpliceAll

  // ---------- the invariant ----------

  /** Which wait an operation ends. */
  predicate Ends(op: Op, label_: Label) {
    match op
    case Openat(_, _) => label_ == AtOpenat
    case Statx(_, _) => label_ == AtStatx
    case SendOp(_, _, _) => label_ == AtSendOp
    case SpliceOp(_, _, _, _, _) => label_ == AtSplice
    case Close(_, _) => label_ == AtClose
    case _ => false
  }

  /** Which routine a root waits for at a label. */
  predicate CalledAt(t: Task, label_: Label) {
    match t
    case OpenFile(_) => label_ == AtOpen
    case SendBuffer(_, _) => label_ == AtSend
    case SendBody(_) => label_ == AtBody
    case _ => false
  }

  /** At which labels a routine waits for an operation. */
  predicate RestsAt(t: Task, label_: Label) {
    match t
    case SendFile(_, _, _, _, _, _) => label_ == AtClose
    case OpenFile(_) => label_ == AtOpenat || label_ == AtStatx
    case SendBuffer(_, _) => label_ == AtSendOp
    case SendBody(_) => label_ == AtSplice
  }

  ghost predicate Bounded(s: State) {
    && (forall id :: id in s.ops ==> id < s.next)
    && (forall p :: p in s.pts ==> p < s.next)
  }

  /** Every operation that carries a protothread is the one that protothread waits for. */
  ghost predicate Owned(s: State) {
    forall id :: id in s.ops && Waiter(s.ops[id]).Some? ==>
                   var p := Waiter(s.ops[id]).value;
                   p in s.pts && s.pts[p].suspended && s.pts[p].op == Some(id) && Ends(s.ops[id], s.pts[p].label_)
  }

  ghost predicate LinkedAt(s: State, p: nat)
    requires p in s.pts
  {
    var t := s.pts[p];
    if t.task.SendFile? then
      && t.caller == None
      && (t.task.child.Some? ==>
            var c := t.task.child.value;
            c in s.pts && s.pts[c].caller == Some(p) && !s.pts[c].task.SendFile?)
    else
      && t.caller.Some? && IsRoot(s, t.caller.value)
      && s.pts[t.caller.value].task.child == Some(p)
      && (t.task.OpenFile? ==> s.pts[t.caller.value].task.path == t.task.path)
  }

  /** Caller chains: a leaf routine is the one child of a root, and a root has no caller. */
  ghost predicate Chained(s: State) {
    forall p :: p in s.pts ==> LinkedAt(s, p)
  }

  /** A protothread that is not running waits for exactly one thing: a root for its child or, at its
      last wait, for an operation; a leaf for an operation. */
  ghost predicate Waiting(s: State, p: nat)
    requires p in s.pts
  {
    var t := s.pts[p];
    && t.suspended
    && (t.op.Some? <==> !t.task.SendFile? || t.label_ == AtClose)
    && (t.op.Some? ==> RestsAt(t.task, t.label_))
    && (t.op.Some? ==> t.op.value in s.ops && Waiter(s.ops[t.op.value]) == Some(p) && Ends(s.ops[t.op.value], t.label_))
    && (t.op.Some? && s.ops[t.op.value].Openat? ==> t.task == OpenFile(s.ops[t.op.value].path))
    && (t.task.SendFile? ==> (t.task.child.None? <==> t.label_ == AtClose))
    && (t.task.SendFile? && t.task.child.Some? && t.task.child.value in s.pts ==>
          CalledAt(s.pts[t.task.child.value].task, t.label_))
  }

  ghost predicate Parked(s: State, run: set<nat>) {
    && (forall p :: p in s.pts && p !in run ==> Waiting(s, p))
    && (forall p :: p in run ==> p in s.pts && !s.pts[p].suspended && s.pts[p].op == None)
  }

  ghost predicate CacheRight(s: State) {
    && |s.cache| <= CACHE_SIZE
    && forall i, j :: 0 <= i < j < |s.cache| ==> s.cache[i].0 != s.cache[j].0
  }

  function Count(log: seq<Mark>, m: Mark): nat {
    if log == [] then 0 else Count(log[..|log| - 1], m) + if log[|log| - 1] == m then 1 else 0
  }

  ghost predicate SuspendedNow(s: State, p: nat) {
    p in s.pts && s.pts[p].suspended
  }

  /** At no point of the log has a protothread been resumed more often than it has waited, nor has it
      begun a second wait before the first was resumed. */
  ghost predicate Alternating(log: seq<Mark>) {
    forall p: nat, k: nat :: k <= |log| ==>
                               Count(log[..k], Resumed(p)) <= Count(log[..k], Waited(p)) <= Count(log[..k], Resumed(p)) + 1
  }

  /** Waits and resumptions of one protothread: as many of each, but for a wait still open. */
  ghost predicate Balanced(s: State) {
    && Alternating(s.log)
    && (forall p: nat :: Count(s.log, Waited(p)) == Count(s.log, Resumed(p)) + if SuspendedNow(s, p) then 1 else 0)
    && (forall p: nat :: p >= s.next ==> Count(s.log, Waited(p)) == 0)
  }

  ghost predicate Structured(s: State, run: set<nat>) {
    Bounded(s) && Owned(s) && Chained(s) && Parked(s, run)
  }

  ghost predicate Inv(s: State, run: set<nat>) {
    !s.fault && Structured(s, run) && CacheRight(s) && Balanced(s)
  }

  // ---------- the log under the primitive actions ----------

  lemma CountSnoc(log: seq<Mark>, m: Mark)
    ensures forall x :: Count(log + [m], x) == Count(log, x) + if x == m then 1 else 0
  {
    assert (log + [m])[..|log|] == log;
  }

  lemma AlternatingSnoc(log: seq<Mark>, m: Mark)
    requires Alternating(log)
    requires m.Waited? ==> Count(log, m) == Count(log, Resumed(m.pt))
    requires m.Resumed? ==> Count(log, Waited(m.pt)) == Count(log, m) + 1
    ensures Alternating(log + [m])
  {
    CountSnoc(log, m);
    forall p: nat, k: nat | k <= |log| + 1
      ensures var l := (log + [m])[..k]; Count(l, Resumed(p)) <= Count(l, Waited(p)) <= Count(l, Resumed(p)) + 1
    {
      if k <= |log| {
        assert (log + [m])[..k] == log[..k];
      } else {
        assert (log + [m])[..k] == log + [m];
        assert log[..|log|] == log;
      }
    }
  }

  lemma BalancedSame(s: State, s': State)
    requires Balanced(s) && s'.log == s.log && s'.next >= s.next
    requires forall p :: SuspendedNow(s', p) <==> SuspendedNow(s, p)
    ensures Balanced(s')
  {
  }

  lemma BalancedWaited(s: State, s': State, p: nat)
    requires Balanced(s) && s'.log == s.log + [Waited(p)] && s'.next >= s.next > p
    requires !SuspendedNow(s, p) && SuspendedNow(s', p)
    requires forall q :: q != p ==> (SuspendedNow(s', q) <==> SuspendedNow(s, q))
    ensures Balanced(s')
  {
    CountSnoc(s.log, Waited(p));
    AlternatingSnoc(s.log, Waited(p));
  }

  lemma BalancedResumed(s: State, s': State, p: nat)
    requires Balanced(s) && s'.log == s.log + [Resumed(p)] && s'.next >= s.next
    requires SuspendedNow(s, p) && !SuspendedNow(s', p)
    requires forall q :: q != p ==> (SuspendedNow(s', q) <==> SuspendedNow(s, q))
    ensures Balanced(s')
  {
    CountSnoc(s.log, Resumed(p));
    AlternatingSnoc(s.log, Resumed(p));
  }

  // ---------- the primitive actions ----------

  lemma WakeKeeps(s: State, p: nat, run: set<nat>)
    requires Inv(s, run) && p in s.pts && p !in run && s.pts[p].op.None?
    ensures Inv(Wake(s, p), run + {p})
  {
    hide Balanced, CacheRight;
    assert Waiting(s, p);
    BalancedResumed(s, Wake(s, p), p);
    CacheSame(s, Wake(s, p));
  }

  lemma CacheSame(s: State, s': State)
    requires CacheRight(s) && s'.cache == s.cache
    ensures CacheRight(s')
  {
  }

  /** A completed operation is taken out and the protothread it carries is resumed. */
  lemma DeliverKeeps(s: State, id: nat)
    requires Inv(s, {}) && id in s.ops
    ensures var s1 := s.(ops := s.ops - {id});
            match Waiter(s.ops[id])
            case None => Inv(s1, {})
            case Some(p) => p in s.pts && Inv(Wake(s1, p), {p})
  {
    hide Balanced, CacheRight, Parked;
    var s1 := s.(ops := s.ops - {id});
    BalancedSame(s, s1);
    CacheSame(s, s1);
    DeliverParked(s, id);
    match Waiter(s.ops[id])
    case None =>
    case Some(p) =>
      assert SuspendedNow(s1, p);
      BalancedResumed(s1, Wake(s1, p), p);
      CacheSame(s1, Wake(s1, p));
  }

  lemma DeliverParked(s: State, id: nat)
    requires Owned(s) && Parked(s, {}) && id in s.ops
    ensures var s1 := s.(ops := s.ops - {id});
            match Waiter(s.ops[id])
            case None => Parked(s1, {})
            case Some(p) => Parked(Wake(s1, p), {p})
  {
    var s1 := s.(ops := s.ops - {id});
    forall q | q in s.pts && Waiter(s.ops[id]) != Some(q) ensures Waiting(s1, q) {
      assert Waiting(s, q);
    }
  }

  lemma SuspendKeeps(s: State, r: nat, label_: Label, run: set<nat>)
    requires Inv(s, run) && r in run && IsRoot(s, r) && s.pts[r].task.child.Some? && label_ != AtClose
    requires s.pts[r].task.child.value in s.pts && CalledAt(s.pts[s.pts[r].task.child.value].task, label_)
    ensures Inv(Suspend(s, r, label_), run - {r})
  {
    hide Balanced, CacheRight;
    BalancedWaited(s, Suspend(s, r, label_), r);
    CacheSame(s, Suspend(s, r, label_));
  }

  lemma SuspendOnKeeps(s: State, p: nat, label_: Label, op: Op, run: set<nat>)
    requires Inv(s, run) && p in run && p in s.pts && Waiter(op) == Some(p) && Ends(op, label_)
    requires op.Openat? ==> s.pts[p].task == OpenFile(op.path)
    requires RestsAt(s.pts[p].task, label_)
    requires s.pts[p].task.SendFile? ==> s.pts[p].task.child == None
    ensures Inv(SuspendOn(s, p, label_, op), run - {p})
  {
    hide Balanced, CacheRight, Parked;
    SuspendOnParked(s, p, label_, op, run);
    BalancedWaited(s, SuspendOn(s, p, label_, op), p);
    CacheSame(s, SuspendOn(s, p, label_, op));
  }

  lemma SuspendOnParked(s: State, p: nat, label_: Label, op: Op, run: set<nat>)
    requires Bounded(s) && Parked(s, run) && p in run && p in s.pts && Waiter(op) == Some(p) && Ends(op, label_)
    requires RestsAt(s.pts[p].task, label_)
    requires s.pts[p].task.SendFile? ==> s.pts[p].task.child == None
    requires op.Openat? ==> s.pts[p].task == OpenFile(op.path)
    ensures Parked(SuspendOn(s, p, label_, op), run - {p})
    ensures !s.pts[p].suspended
  {
    var s' := SuspendOn(s, p, label_, op);
    forall q | q in s'.pts && q !in run - {p} ensures Waiting(s', q) {
      assert q != p ==> Waiting(s, q);
    }
  }

  lemma SpawnKeeps(s: State, r: nat, task: Task, run: set<nat>)
    requires Inv(s, run) && r in run && IsRoot(s, r) && s.pts[r].task.child == None && !task.SendFile?
    requires task.OpenFile? ==> task.path == s.pts[r].task.path
    ensures Inv(Spawn(s, r, task), run + {s.next})
  {
    hide Balanced, CacheRight, Parked;
    BalancedSame(s, Spawn(s, r, task));
    CacheSame(s, Spawn(s, r, task));
    SpawnParked(s, r, task, run);
  }

  lemma SpawnParked(s: State, r: nat, task: Task, run: set<nat>)
    requires Bounded(s) && Chained(s) && Parked(s, run) && r in run && IsRoot(s, r) && s.pts[r].task.child == None
    ensures Parked(Spawn(s, r, task), run + {s.next})
  {
    var s' := Spawn(s, r, task);
    forall p | p in s'.pts && p !in run + {s.next} ensures Waiting(s', p) {
      assert Waiting(s, p) && LinkedAt(s, p);
    }
  }

  lemma FreeChildKeeps(s: State, r: nat, c: nat)
    requires Inv(s, {r, c}) && IsRoot(s, r) && s.pts[r].task.child == Some(c)
    ensures Inv(FreeChild(s, r), {r})
  {
    hide Balanced, CacheRight, Parked, Owned;
    assert LinkedAt(s, r) && LinkedAt(s, c);
    FreeChildParked(s, r, c);
    BalancedSame(s, FreeChild(s, r));
    CacheSame(s, FreeChild(s, r));
  }

  lemma FreeChildParked(s: State, r: nat, c: nat)
    requires Owned(s) && Chained(s) && Parked(s, {r, c}) && IsRoot(s, r) && s.pts[r].task.child == Some(c)
    ensures Parked(FreeChild(s, r), {r}) && Owned(FreeChild(s, r))
    ensures r != c && c in s.pts && !s.pts[c].suspended && !s.pts[r].suspended
  {
    var s' := FreeChild(s, r);
    assert LinkedAt(s, r) && LinkedAt(s, c);
    forall p | p in s'.pts && p != r ensures Waiting(s', p) {
      assert Waiting(s, p) && LinkedAt(s, p);
    }
  }

  /** Changing a root's locals other than the child. */
  lemma LocalsKeep(s: State, s': State, r: nat, run: set<nat>)
    requires Inv(s, run) && IsRoot(s, r) && IsRoot(s', r)
    requires s' == s.(pts := s.pts[r := s.pts[r].(task := s'.pts[r].task)])
    requires s'.pts[r].task.child == s.pts[r].task.child && s'.pts[r].task.path == s.pts[r].task.path
    ensures Inv(s', run)
  {
    hide Balanced, CacheRight, Parked;
    LocalsParked(s, s', r, run);
    BalancedSame(s, s');
    CacheSame(s, s');
  }

  lemma LocalsParked(s: State, s': State, r: nat, run: set<nat>)
    requires Parked(s, run) && IsRoot(s, r) && IsRoot(s', r)
    requires s' == s.(pts := s.pts[r := s.pts[r].(task := s'.pts[r].task)])
    requires s'.pts[r].task.child == s.pts[r].task.child
    ensures Parked(s', run)
  {
    forall p | p in s'.pts && p !in run ensures Waiting(s', p) {
      assert Waiting(s, p);
    }
  }

  lemma RetireKeeps(s: State, r: nat)
    requires Inv(s, {r}) && IsRoot(s, r) && s.pts[r].task.child == None
    ensures Inv(Retire(s, r), {})
  {
    hide Balanced, CacheRight;
    BalancedSame(s, Retire(s, r));
    CacheSame(s, Retire(s, r));
    assert forall p :: p in s.pts && s.pts[p].caller == Some(r) ==> LinkedAt(s, p);
  }

  /** Submitting an operation that carries no protothread. */
  lemma SubmitKeeps(s: State, op: Op, run: set<nat>)
    requires Inv(s, run) && Waiter(op) == None
    ensures Inv(Submit(s, op), run)
  {
    hide Balanced, CacheRight;
    BalancedSame(s, Submit(s, op));
    CacheSame(s, Submit(s, op));
  }

  /** Descriptors and output are no part of the invariant. */
  lemma OutsideKeeps(s: State, s': State, run: set<nat>)
    requires Inv(s, run) && s' == s.(open := s'.open, out := s'.out)
    ensures Inv(s', run)
  {
    hide Balanced, CacheRight;
    BalancedSame(s, s');
    CacheSame(s, s');
  }

  lemma ResubmitKeeps(s: State, id: nat, op: Op)
    requires Inv(s, {}) && id in s.ops && Waiter(s.ops[id]).Some? && Waiter(op) == Waiter(s.ops[id])
    requires forall l :: Ends(s.ops[id], l) ==> Ends(op, l)
    requires !op.Openat?
    ensures Inv(Resubmit(s, id, op), {})
  {
    hide Balanced, CacheRight, Owned, Chained, Parked, Bounded;
    ResubmitOwned(s, id, op);
    BalancedSame(s, Resubmit(s, id, op));
    CacheSame(s, Resubmit(s, id, op));
    ResubmitChained(s, id, op);
    ResubmitParked(s, id, op);
  }

  lemma ResubmitOwned(s: State, id: nat, op: Op)
    requires Bounded(s) && Owned(s)
    requires id in s.ops && Waiter(s.ops[id]).Some? && Waiter(op) == Waiter(s.ops[id])
    requires forall l :: Ends(s.ops[id], l) ==> Ends(op, l)
    ensures var p := Waiter(op).value; p in s.pts && SuspendedNow(s, p)
    ensures Owned(Resubmit(s, id, op)) && Bounded(Resubmit(s, id, op)) && Resubmit(s, id, op).fault == s.fault
    ensures Resubmit(s, id, op).log == s.log
    ensures forall q :: SuspendedNow(s, q) <==> SuspendedNow(Resubmit(s, id, op), q)
  {
  }

  lemma ResubmitChained(s: State, id: nat, op: Op)
    requires Chained(s) && id in s.ops && Waiter(op).Some? && Waiter(op).value in s.pts
    ensures Chained(Resubmit(s, id, op))
  {
    forall p | p in Resubmit(s, id, op).pts ensures LinkedAt(Resubmit(s, id, op), p) {
      assert LinkedAt(s, p);
    }
  }

  lemma ResubmitParked(s: State, id: nat, op: Op)
    requires Bounded(s) && Owned(s) && Parked(s, {})
    requires id in s.ops && Waiter(s.ops[id]).Some? && Waiter(op) == Waiter(s.ops[id])
    requires forall l :: Ends(s.ops[id], l) ==> Ends(op, l)
    requires !op.Openat?
    ensures Parked(Resubmit(s, id, op), {})
  {
    var s' := Resubmit(s, id, op);
    forall p | p in s'.pts ensures Waiting(s', p) {
      assert Waiting(s, p);
    }
  }

  // ---------- the routines ----------

  lemma StartSendKeeps(s: State, r: nat, c: nat)
    requires Inv(s, {r, c}) && IsRoot(s, r) && s.pts[r].task.child == Some(c)
    ensures Inv(StartSend(s, r), {})
  {
    hide Structured, Balanced, CacheRight, HeadFor;
    FreeChildFacts(s, r, c);
    FreeChildKeeps(s, r, c);
    var s1 := FreeChild(s, r);
    var t := s1.pts[r].task;
    var raw := HeadFor(t.file);
    var s2 := SetRaw(s1, r, raw, ContentOf(s1, t.file.fd));
    LocalsKeep(s1, s2, r, {r});
    SpawnKeeps(s2, r, SendBuffer(raw, t.client), {r});
    var s3 := Spawn(s2, r, SendBuffer(raw, t.client));
    FreshIds(s2, r, {r});
    assert {r} + {s2.next} == {r, s2.next} && {r, s2.next} - {r} == {s2.next};
    SuspendKeeps(s3, r, AtSend, {r, s2.next});
    var s4 := Suspend(s3, r, AtSend);
    SuspendOnKeeps(s4, s2.next, AtSendOp, SendOp(s2.next, t.client, raw), {s2.next});
    assert {s2.next} - {s2.next} == {};
  }

  lemma StartBodyKeeps(s: State, r: nat, c: nat)
    requires Inv(s, {r, c}) && IsRoot(s, r) && s.pts[r].task.child == Some(c)
    ensures Inv(StartBody(s, r), {})
  {
    hide Structured, Balanced, CacheRight;
    FreeChildFacts(s, r, c);
    FreeChildKeeps(s, r, c);
    var s1 := FreeChild(s, r);
    var t := s1.pts[r].task;
    SpawnKeeps(s1, r, SendBody(t.client), {r});
    var s2 := Spawn(s1, r, SendBody(t.client));
    FreshIds(s1, r, {r});
    assert {r} + {s1.next} == {r, s1.next} && {r, s1.next} - {r} == {s1.next};
    SuspendKeeps(s2, r, AtBody, {r, s1.next});
    var s3 := Suspend(s2, r, AtBody);
    SuspendOnKeeps(s3, s1.next, AtSplice,
                   SpliceOp(s1.next, t.file.fd, t.client, SpliceAll.Start(t.file.size), ""), {s1.next});
    assert {s1.next} - {s1.next} == {};
  }

  lemma StartCloseKeeps(s: State, r: nat, c: nat)
    requires Inv(s, {r, c}) && IsRoot(s, r) && s.pts[r].task.child == Some(c)
    ensures Inv(StartClose(s, r), {})
  {
    hide Structured, Balanced, CacheRight;
    FreeChildFacts(s, r, c);
    FreeChildKeeps(s, r, c);
    var s1 := FreeChild(s, r);
    SuspendOnKeeps(s1, r, AtClose, Close(Some(r), s1.pts[r].task.client), {r});
    assert {r} - {r} == {};
  }

  lemma FreeChildFacts(s: State, r: nat, c: nat)
    requires Inv(s, {r, c}) && IsRoot(s, r) && s.pts[r].task.child == Some(c)
    ensures r != c && c in s.pts && !s.pts[c].task.SendFile?
  {
    assert LinkedAt(s, r);
  }

  lemma FreshIds(s: State, p: nat, run: set<nat>)
    requires Inv(s, run) && p in s.pts
    ensures p < s.next && s.next !in s.pts && s.next !in s.ops && (p in run ==> !s.pts[p].suspended)
  {
  }

  lemma ContinueKeeps(s: State, r: nat, c: nat)
    requires Inv(s, {r, c}) && IsRoot(s, r) && s.pts[r].task.child == Some(c)
    requires s.pts[r].label_ == AtOpen || s.pts[r].label_ == AtSend || s.pts[r].label_ == AtBody
    ensures Inv(Continue(s, r), {})
  {
    hide Structured, Balanced, CacheRight, StartSend, StartBody, StartClose;
    match s.pts[r].label_
    case AtOpen => StartSendKeeps(s, r, c);
    case AtSend => StartBodyKeeps(s, r, c);
    case AtBody => StartCloseKeeps(s, r, c);
  }

  /** A routine that is not a root has a root waiting for it. */
  lemma LeafFacts(s: State, c: nat, run: set<nat>)
    requires Inv(s, run) && c in s.pts && !s.pts[c].task.SendFile?
    ensures s.pts[c].caller.Some?
    ensures var r := s.pts[c].caller.value;
            && IsRoot(s, r) && r != c && s.pts[r].task.child == Some(c)
            && (r !in run ==> s.pts[r].suspended && s.pts[r].op == None && CalledAt(s.pts[c].task, s.pts[r].label_))
  {
    assert LinkedAt(s, c);
    var r := s.pts[c].caller.value;
    assert r !in run ==> Waiting(s, r);
  }

  lemma CallBackKeeps(s: State, c: nat)
    requires Inv(s, {c}) && c in s.pts && !s.pts[c].task.SendFile?
    ensures Inv(CallBack(s, c), {})
  {
    hide Structured, Balanced, CacheRight, Continue;
    LeafFacts(s, c, {c});
    var r := s.pts[c].caller.value;
    WakeKeeps(s, r, {c});
    assert {c} + {r} == {r, c};
    ContinueKeeps(Wake(s, r), r, c);
  }

  lemma AddToCacheKeeps(s: State, path: string, file: File, run: set<nat>)
    requires Inv(s, run) && RecencyList.Find(s.cache, path) == |s.cache|
    ensures Inv(AddToCache(s, path, file), run)
    ensures AddToCache(s, path, file).pts == s.pts
  {
    hide Structured, Balanced, CacheRight;
    var (cache, out) := RecencyList.Step(s.cache, CACHE_SIZE, RecencyList.AddOp(path, file));
    var s0 := s.(cache := cache);
    CacheStepKeeps(s, cache, RecencyList.AddOp(path, file), run);
    var s1 := SetHolder(s0, file.fd, ByCache(path));
    OutsideKeeps(s0, s1, run);
    if out.evicted.Some? {
      var s2 := SetHolder(s1, out.evicted.value.1.fd, ByClosing(s.next));
      OutsideKeeps(s1, s2, run);
      SubmitKeeps(s2, Close(None, out.evicted.value.1.fd), run);
    }
  }

  lemma CacheStepKeeps(s: State, cache: seq<(string, File)>, op: RecencyList.Op<File>, run: set<nat>)
    requires Inv(s, run) && cache == RecencyList.Step(s.cache, CACHE_SIZE, op).0
    ensures Inv(s.(cache := cache), run)
  {
    hide Balanced, CacheRight;
    BalancedSame(s, s.(cache := cache));
    CacheStepRight(s, cache, op);
  }

  lemma CacheStepRight(s: State, cache: seq<(string, File)>, op: RecencyList.Op<File>)
    requires CacheRight(s) && cache == RecencyList.Step(s.cache, CACHE_SIZE, op).0
    ensures CacheRight(s.(cache := cache))
  {
    var i := RecencyList.Find(s.cache, op.key);
    if op.GetOp? && i < |s.cache| {
      MovedAt(s.cache, i);
    }
  }

  lemma OpenEntryKeeps(s: State, c: nat)
    requires Inv(s, {c}) && c in s.pts && s.pts[c].task.OpenFile?
    requires s.pts[c].label_ == Fresh || s.pts[c].label_ == AtOpenat || s.pts[c].label_ == AtStatx
    ensures Inv(OpenEntry(s, c), {})
  {
    hide Structured, Balanced, CacheRight, CallBack, AddToCache;
    LeafFacts(s, c, {c});
    var r := s.pts[c].caller.value;
    var path := s.pts[c].task.path;
    var file := s.pts[r].task.file;
    var i := RecencyList.Find(s.cache, path);
    if i < |s.cache| {
      var s1 := s.(cache := Moved(s.cache, i));
      CacheStepKeeps(s, s1.cache, RecencyList.GetOp(path), {c});
      LocalsKeep(s1, SetFile(s1, r, s.cache[i].1), r, {c});
      CallBackKeeps(SetFile(s1, r, s.cache[i].1), c);
    } else {
      assert {c} - {c} == {};
      match s.pts[c].label_
      case Fresh =>
        var s1 := SetFile(s, r, file.(name := Basename(path, |path|)));
        LocalsKeep(s, s1, r, {c});
        SuspendOnKeeps(s1, c, AtOpenat, Openat(c, path), {c});
      case AtOpenat => SuspendOnKeeps(s, c, AtStatx, Statx(c, file.fd), {c});
      case AtStatx =>
        AddToCacheKeeps(s, path, file, {c});
        CallBackKeeps(AddToCache(s, path, file), c);
    }
  }

  lemma StartChainKeeps(s: State, client: int, path: string)
    requires Inv(s, {})
    ensures Inv(StartChain(s, client, path), {})
  {
    hide Structured, Balanced, CacheRight, OpenEntry;
    var r := s.next;
    var root := Pt(SendFile(client, path, File(0, "", 0), "", "", None), Fresh, None, false, None);
    var s0 := SetHolder(s, client, ByChain(r));
    OutsideKeeps(s, s0, {});
    var s1 := s0.(pts := s.pts[r := root], next := s.next + 1);
    NewRootKeeps(s0, root);
    SpawnKeeps(s1, r, OpenFile(path), {r});
    var s2 := Spawn(s1, r, OpenFile(path));
    var c := s1.next;
    assert {r} + {c} == {r, c} && {r, c} - {r} == {c};
    SuspendKeeps(s2, r, AtOpen, {r, c});
    OpenEntryKeeps(Suspend(s2, r, AtOpen), c);
  }

  lemma NewRootKeeps(s: State, root: Pt)
    requires Inv(s, {}) && root.task.SendFile? && root.task.child == None && root.caller == None
    requires !root.suspended && root.op == None
    ensures Inv(s.(pts := s.pts[s.next := root], next := s.next + 1), {s.next})
  {
    hide Balanced, CacheRight, Parked;
    var s' := s.(pts := s.pts[s.next := root], next := s.next + 1);
    NewRootParked(s, root);
    BalancedSame(s, s');
    CacheSame(s, s');
  }

  lemma NewRootParked(s: State, root: Pt)
    requires Bounded(s) && Chained(s) && Parked(s, {}) && !root.suspended && root.op == None
    ensures Parked(s.(pts := s.pts[s.next := root], next := s.next + 1), {s.next})
  {
    var s' := s.(pts := s.pts[s.next := root], next := s.next + 1);
    forall p | p in s.pts ensures Waiting(s', p) {
      assert Waiting(s, p) && LinkedAt(s, p);
    }
  }

  // ---------- the handlers ----------

  lemma DeliverSafe(s: State, id: nat)
    requires Inv(s, {}) && id in s.ops
    ensures Inv(Deliver(s, id), {})
  {
    hide Structured, Balanced, CacheRight, OpenEntry, CallBack;
    DeliverKeeps(s, id);
    match Waiter(s.ops[id])
    case None =>
    case Some(p) =>
      WaiterFacts(s, id);
      var s2 := Wake(s.(ops := s.ops - {id}), p);
      match s2.pts[p].task
      case OpenFile(_) => OpenEntryKeeps(s2, p);
      case SendFile(_, _, _, _, _, _) => RetireKeeps(s2, p);
      case _ => CallBackKeeps(s2, p);
  }

  /** What an operation in flight says about the protothread it carries. */
  lemma WaiterFacts(s: State, id: nat)
    requires Inv(s, {}) && id in s.ops && Waiter(s.ops[id]).Some?
    ensures var p := Waiter(s.ops[id]).value;
            && p in s.pts && s.pts[p].suspended && s.pts[p].op == Some(id) && Ends(s.ops[id], s.pts[p].label_)
            && (s.pts[p].task.SendFile? <==> s.pts[p].label_ == AtClose)
            && (s.pts[p].task.SendFile? ==> s.pts[p].task.child == None)
            && (s.pts[p].task.OpenFile? <==> s.ops[id].Openat? || s.ops[id].Statx?)
            && (s.pts[p].task.SendBuffer? <==> s.ops[id].SendOp?)
            && (s.pts[p].task.SendBody? <==> s.ops[id].SpliceOp?)
  {
    var p := Waiter(s.ops[id]).value;
    assert Waiting(s, p) && LinkedAt(s, p);
  }

  lemma WithFileKeeps(s: State, id: nat, fd: Option<int>, size: Option<nat>)
    requires Inv(s, {}) && id in s.ops && (s.ops[id].Openat? || s.ops[id].Statx?)
    ensures Inv(WithFile(s, s.ops[id].pt, fd, size), {})
    ensures WithFile(s, s.ops[id].pt, fd, size).ops == s.ops
  {
    hide Structured, Balanced, CacheRight;
    WaiterFacts(s, id);
    var p := s.ops[id].pt;
    LeafFacts(s, p, {});
    LocalsKeep(s, WithFile(s, p, fd, size), s.pts[p].caller.value, {});
  }

  lemma OnAcceptSafe(s: State, e: Event)
    requires Inv(s, {}) && Allowed(s, e) && s.ops[e.id].Accept?
    ensures Inv(OnAccept(s, e), {})
  {
    hide Structured, Balanced, CacheRight;
    DeliverKeeps(s, e.id);
    if e.res >= 0 {
      var s1 := s.(ops := s.ops - {e.id});
      var s2 := s1.(open := s1.open[e.res := ClientDesc(ByRecv(s1.next))], out := s1.out[e.res := ""]);
      OutsideKeeps(s1, s2, {});
      SubmitKeeps(s2, Recv(e.res, ""), {});
      SubmitKeeps(Submit(s2, Recv(e.res, "")), Accept, {});
    }
  }

  lemma OnRecvSafe(s: State, e: Event, public: set<string>)
    requires Inv(s, {}) && Allowed(s, e) && s.ops[e.id].Recv?
    ensures Inv(OnRecv(s, e, public), {})
  {
    hide Structured, Balanced, CacheRight, StartChain, Receiving.OnChunk;
    var Recv(client, buffer) := s.ops[e.id];
    DeliverKeeps(s, e.id);
    var s1 := s.(ops := s.ops - {e.id});
    match Receiving.OnChunk(buffer, if e.res <= 0 then "" else e.data)
    case Drop =>
    case More(b) =>
      var s2 := SetHolder(s1, client, ByRecv(s1.next));
      OutsideKeeps(s1, s2, {});
      SubmitKeeps(s2, Recv(client, b), {});
    case Dispatch(_, head) =>
      var path := PublicPath(public, head);
      if path.Some? {
        StartChainKeeps(s1, client, path.value);
      }
  }

  lemma OnOpenSafe(s: State, e: Event)
    requires Inv(s, {}) && Allowed(s, e) && (s.ops[e.id].Openat? || s.ops[e.id].Statx?)
    ensures s.ops[e.id].Openat? ==> Inv(OnOpenat(s, e), {})
    ensures s.ops[e.id].Statx? ==> Inv(OnStatx(s, e), {})
  {
    hide Structured, Balanced, CacheRight, Deliver, WithFile;
    if e.res < 0 {
      DeliverSafe(s, e.id);
    } else if s.ops[e.id].Openat? {
      var p := s.ops[e.id].pt;
      var root := if p in s.pts && s.pts[p].caller.Some? then s.pts[p].caller.value else 0;
      var s1 := s.(open := s.open[e.res := FileDesc(e.data, ByOpening(root))]);
      OutsideKeeps(s, s1, {});
      WithFileKeeps(s1, e.id, Some(e.res), None);
      DeliverSafe(WithFile(s1, p, Some(e.res), None), e.id);
    } else {
      WithFileKeeps(s, e.id, None, Some(e.size));
      DeliverSafe(WithFile(s, s.ops[e.id].pt, None, Some(e.size)), e.id);
    }
  }

  lemma OnSendSafe(s: State, e: Event)
    requires Inv(s, {}) && Allowed(s, e) && s.ops[e.id].SendOp?
    ensures Inv(OnSend(s, e), {})
  {
    hide Structured, Balanced, CacheRight, Deliver, Resubmit;
    var SendOp(p, client, buffer) := s.ops[e.id];
    if e.res < 0 {
      DeliverSafe(s, e.id);
    } else {
      var s1 := s.(out := s.out[client := Sent(s, client) + buffer[..e.res]]);
      OutsideKeeps(s, s1, {});
      if buffer[e.res..] != "" {
        ResubmitKeeps(s1, e.id, SendOp(p, client, buffer[e.res..]));
      } else {
        DeliverSafe(s1, e.id);
      }
    }
  }

  lemma OnSpliceSafe(s: State, e: Event)
    requires Inv(s, {}) && Allowed(s, e) && s.ops[e.id].SpliceOp?
    ensures Inv(OnSplice(s, e), {})
  {
    hide Structured, Balanced, CacheRight, Deliver, Resubmit, SpliceAll.Complete;
    var SpliceOp(p, fdIn, fdOut, ctx, pipe) := s.ops[e.id];
    if e.res < 0 {
      DeliverSafe(s, e.id);
    } else {
      var (c, finished) := SpliceAll.Complete(ctx, e.res);
      if ctx.isDraining {
        var s1 := s.(out := s.out[fdOut := Sent(s, fdOut) + pipe[..e.res]]);
        OutsideKeeps(s, s1, {});
        if finished {
          DeliverSafe(s1, e.id);
        } else {
          ResubmitKeeps(s1, e.id, SpliceOp(p, fdIn, fdOut, c, pipe[e.res..]));
        }
      } else {
        ResubmitKeeps(s, e.id, SpliceOp(p, fdIn, fdOut, c, pipe + e.data));
      }
    }
  }

  lemma OnCloseSafe(s: State, e: Event)
    requires Inv(s, {}) && Allowed(s, e) && s.ops[e.id].Close?
    ensures Inv(OnClose(s, e), {})
  {
    hide Structured, Balanced, CacheRight, Deliver;
    var s1 := s.(open := s.open - {s.ops[e.id].fd});
    OutsideKeeps(s, s1, {});
    DeliverSafe(s1, e.id);
  }

  // ---------- every step, every run ----------

  lemma StepSafe(s: State, e: Event, public: set<string>)
    requires Inv(s, {}) && Allowed(s, e)
    ensures Inv(Step(s, e, public), {})
  {
    hide Inv, OnAccept, OnRecv, OnOpenat, OnStatx, OnSend, OnSplice, OnClose;
    match s.ops[e.id]
    case Accept => OnAcceptSafe(s, e);
    case Recv(_, _) => OnRecvSafe(s, e, public);
    case Openat(_, _) => OnOpenSafe(s, e);
    case Statx(_, _) => OnOpenSafe(s, e);
    case SendOp(_, _, _) => OnSendSafe(s, e);
    case SpliceOp(_, _, _, _, _) => OnSpliceSafe(s, e);
    case Close(_, _) => OnCloseSafe(s, e);
  }

  lemma {:induction false} BootSafe(accepts: nat)
    ensures Inv(Boot(accepts), {})
  {
    if accepts > 0 {
      BootSafe(accepts - 1);
      SubmitKeeps(Boot(accepts - 1), Accept, {});
    }
  }

  /** The invariant holds in every reachable state, whatever the kernel answers and in whatever order. */
  lemma {:induction false} RunSafe(accepts: nat, public: set<string>, es: seq<Event>)
    requires IsRun(accepts, public, es)
    ensures Inv(After(accepts, public, es), {})
  {
    if es == [] {
      BootSafe(accepts);
    } else {
      RunSafe(accepts, public, es[..|es| - 1]);
      StepSafe(After(accepts, public, es[..|es| - 1]), es[|es| - 1], public);
    }
  }

  // ---------- main results ----------

  /** A routine that has called no other. */
  predicate IsLeaf(t: Pt) {
    !t.task.SendFile? || t.task.child.None?
  }

  /** In every reachable state nothing has gone wrong, every protothread is suspended, and the
      operations in flight that carry a protothread correspond one to one to the leaves: each leaf
      has one, it is a leaf that each carries, and no two carry the same. */
  lemma OperationsMatchLeaves(accepts: nat, public: set<string>, es: seq<Event>)
    requires IsRun(accepts, public, es)
    ensures var s := After(accepts, public, es);
            && !s.fault
            && (forall p :: p in s.pts ==> s.pts[p].suspended)
            && (forall p :: p in s.pts && IsLeaf(s.pts[p]) ==> exists id :: id in s.ops && Waiter(s.ops[id]) == Some(p))
            && (forall id :: id in s.ops && Waiter(s.ops[id]).Some? ==>
                  Waiter(s.ops[id]).value in s.pts && IsLeaf(s.pts[Waiter(s.ops[id]).value]))
            && (forall id, id' ::
                  id in s.ops && id' in s.ops && Waiter(s.ops[id]).Some? && Waiter(s.ops[id]) == Waiter(s.ops[id'])
                  ==> id == id')
  {
    hide Balanced, CacheRight;
    RunSafe(accepts, public, es);
    var s := After(accepts, public, es);
    forall p | p in s.pts ensures Waiting(s, p) {
    }
    forall p | p in s.pts && IsLeaf(s.pts[p])
      ensures exists id :: id in s.ops && Waiter(s.ops[id]) == Some(p)
    {
      assert Waiting(s, p);
      assert s.pts[p].op.value in s.ops;
    }
  }

  /** Caller chains are acyclic in every reachable state: a caller is a live root whose own caller is
      none, and it is waiting for exactly this child. */
  lemma CallerChainsEnd(accepts: nat, public: set<string>, es: seq<Event>)
    requires IsRun(accepts, public, es)
    ensures var s := After(accepts, public, es);
            forall p :: p in s.pts && s.pts[p].caller.Some? ==>
                          && IsRoot(s, s.pts[p].caller.value)
                          && s.pts[s.pts[p].caller.value].caller == None
                          && s.pts[s.pts[p].caller.value].task.child == Some(p)
  {
    hide Balanced, CacheRight, Owned, Bounded, Parked;
    RunSafe(accepts, public, es);
    var s := After(accepts, public, es);
    forall p | p in s.pts && s.pts[p].caller.Some? ensures LinkedAt(s, p) && LinkedAt(s, s.pts[p].caller.value) {
    }
  }

  /** Each wait is resumed exactly once: over every run, waits and resumptions of a protothread
      alternate, and at any time exactly the protothreads that are alive have one wait open. */
  lemma WaitsResumedOnce(accepts: nat, public: set<string>, es: seq<Event>)
    requires IsRun(accepts, public, es)
    ensures var s := After(accepts, public, es);
            && Alternating(s.log)
            && forall p: nat :: Count(s.log, Waited(p)) == Count(s.log, Resumed(p)) + if p in s.pts then 1 else 0
  {
    RunSafe(accepts, public, es);
    var s := After(accepts, public, es);
    assert forall p :: p in s.pts ==> Waiting(s, p);
  }

  /** However many opens of one path are under way at once, LRU_cache_add is never called with a
      label that is in the cache: that would be a fault. So the cache's labels stay distinct. */
  lemma NoDuplicateAdd(accepts: nat, public: set<string>, es: seq<Event>)
    requires IsRun(accepts, public, es)
    ensures var s := After(accepts, public, es);
            && !s.fault
            && (forall path: string, file: File ::
                  RecencyList.Find(s.cache, path) < |s.cache| ==> AddToCache(s, path, file).fault)
            && (forall i, j :: 0 <= i < j < |s.cache| ==> s.cache[i].0 != s.cache[j].0)
            && |s.cache| <= 16
  {
    RunSafe(accepts, public, es);
  }

  // ---------- the loop ----------

  /** The completions `es` can be taken one after the other from s. */
  ghost predicate CanProcess(s: State, es: seq<Event>, public: set<string>)
    decreases |es|
  {
    es == [] || (Allowed(s, es[0]) && CanProcess(Step(s, es[0], public), es[1..], public))
  }

  ghost function Processed(s: State, es: seq<Event>, public: set<string>): State
    requires CanProcess(s, es, public)
    decreases |es|
  {
    if es == [] then s else Processed(Step(s, es[0], public), es[1..], public)
  }

  class Server {
    const public: set<string>
    var state: State

    constructor (public: set<string>, accepts: nat)
      ensures this.public == public && state == Boot(accepts) && Inv(state, {})
    {
      this.public := public;
      state := Boot(accepts);
      BootSafe(accepts);
    }

    /** async_io_process: take completions from the ring until it is empty. */
    method Process(ring: seq<Event>)
      requires Inv(state, {}) && CanProcess(state, ring, public)
      modifies this
      ensures state == Processed(old(state), ring, public) && Inv(state, {})
    {
      hide Inv, Step;
      var rest := ring;
      while rest != []
        invariant Inv(state, {}) && CanProcess(state, rest, public)
        invariant Processed(state, rest, public) == Processed(old(state), ring, public)
        decreases |rest|
      {
        StepSafe(state, rest[0], public);
        state := Step(state, rest[0], public);
        rest := rest[1..];
      }
    }
  }
}
