/**
 Which file a chain serves. When every successful open of a path yields the same content and no open of
 it fails, the body a chain for this path sends is that content, whether it opened the file itself or
 found it in the cache.
 */
module ServedFile {
  import opened Wrappers
  import opened DoublyLinkedList
  import opened EventLoop
  import opened EventLoopSafety
  import opened Delivery
  import opened DeliverySteps
  import opened Frames
  import opened OpenRecords
  import opened DeliveryRuns
  import opened FileNames
  import CacheTrace
  import RecencyList
  import Receiving
  import SpliceAll

  // What is under a path.
  datatype Entry = Entry(path: string, content: string)

  ghost predicate NamedDesc(s: State, d: Desc, it: Entry) {
    d.FileDesc? ==>
      match d.holder
      case ByCache(path) => path == it.path ==> d.content == it.content
      case ByOpening(r) => r < s.next && (IsRoot(s, r) && s.pts[r].task.path == it.path ==> d.content == it.content)
      case _ => true
  }

  /** Descriptors held by the cache or by an opening chain for the path stand for its content, all but 0. */
  ghost predicate NamedFiles(s: State, it: Entry) {
    forall fd :: fd in s.open && fd != 0 ==> NamedDesc(s, s.open[fd], it)
  }

  ghost predicate NamedBody(s: State, q: nat, it: Entry) {
    IsRoot(s, q) && s.pts[q].label_ != AtOpen && s.pts[q].task.path == it.path ==> s.pts[q].task.body == it.content
  }

  ghost predicate NamedBodies(s: State, it: Entry) {
    forall q: nat :: NamedBody(s, q, it)
  }

  ghost predicate Named(s: State, it: Entry) {
    NamedFiles(s, it) && NamedBodies(s, it)
  }

  // ---------- quiet routines ----------

  lemma QuietFiles(s: State, s': State, it: Entry)
    requires Quiet(s, s') && NamedFiles(s, it)
    ensures NamedFiles(s', it)
  {
    forall fd | fd in s'.open && fd != 0 ensures NamedDesc(s', s'.open[fd], it) {
      assert NamedDesc(s, s.open[fd], it);
    }
  }

  /** A root that has begun to send keeps its body; so do roots that the routines do not touch. */
  lemma QuietBodies(s: State, s': State, r: nat, it: Entry)
    requires Quiet(s, s') && NamedBodies(s, it) && NamedBody(s', r, it)
    requires forall q :: IsRoot(s', q) && q != r ==> q in s.pts && (s.pts[q].label_ == AtOpen ==> s'.pts[q].label_ == AtOpen)
    ensures NamedBodies(s', it)
  {
    hide Grows;
    forall q: nat ensures NamedBody(s', q, it) {
      assert NamedBody(s, q, it);
    }
  }

  // ---------- entering async_io_open_file ----------

  /** The routine found or just cached the file: what its chain sends is the content under its path. */
  lemma CallBackNamed(s: State, c: nat, it: Entry)
    requires Inv(s, {c}) && FdRight(s, {c}) && Named(s, it)
    requires c in s.pts && s.pts[c].task.OpenFile? && s.pts[c].caller.Some? && IsRoot(s, s.pts[c].caller.value)
    requires var t := s.pts[s.pts[c].caller.value].task;
             t.path == it.path ==> t.file.fd != 0 && Held(s, t.file.fd, ByCache(it.path))
    ensures Named(CallBack(s, c), it)
  {
    hide Inv, FdRight, CallBack, Grows, HeadFor;
    var r := s.pts[c].caller.value;
    var s' := CallBack(s, c);
    CallBackQuiet(s, c);
    QuietFiles(s, s', it);
    CallBackIs(s, c);
    CallBackOthers(s, c);
    var fd := s.pts[r].task.file.fd;
    assert fd in s.open && fd != 0 ==> NamedDesc(s, s.open[fd], it);
    QuietBodies(s, s', r, it);
  }

  lemma CallBackOthers(s: State, c: nat)
    requires Inv(s, {c}) && FdRight(s, {c}) && c in s.pts && s.pts[c].task.OpenFile? && s.pts[c].caller.Some?
    ensures var r := s.pts[c].caller.value;
            && r < s.next && IsRoot(s, r)
            && forall q :: IsRoot(CallBack(s, c), q) && q != r ==> q in s.pts && CallBack(s, c).pts[q] == s.pts[q]
  {
    hide Structured, Balanced, CacheRight, CallBack, FdRight;
    LeafFacts(s, c, {c});
    FreshIds(s, c, {c});
    BoundedOf(s, {c});
    CallBackFd(s, c);
  }

  /** What the open routine relies on: what is cached for the path is sound, and so is the record if this
      is the path and the file has been opened. */
  ghost predicate EntersNamed(s: State, c: nat, it: Entry) {
    && MayEnter(s, c) && SoundCache(s, it.path)
    && (s.pts[c].task == OpenFile(it.path) && s.pts[c].label_ != Fresh ==>
          s.pts[s.pts[c].caller.value].task.file.fd != 0)
  }

  lemma OpenHitNamed(s: State, c: nat, it: Entry)
    requires Inv(s, {c}) && FdRight(s, {c}) && EntersNamed(s, c, it) && Named(s, it)
    requires RecencyList.Find(s.cache, s.pts[c].task.path) < |s.cache|
    ensures Named(OpenEntry(s, c), it)
  {
    hide Structured, Balanced, CacheRight, CallBack, FdRight, Held, Named;
    LeafFacts(s, c, {c});
    OwnPath(s, c, {c});
    var r := s.pts[c].caller.value;
    OnlyChild(s, r, c, {c});
    var i := RecencyList.Find(s.cache, s.pts[c].task.path);
    var file := s.cache[i].1;
    CachedHeld(s, i, {c});
    var s1 := s.(cache := Moved(s.cache, i));
    CacheStepKeeps(s, s1.cache, RecencyList.GetOp(s.pts[c].task.path), {c});
    CacheMovedFd(s, i, {c});
    var s2 := SetFile(s1, r, file);
    LocalsKeep(s1, s2, r, {c});
    SetFileFd(s1, r, file, c);
    RecordNamed(s, s2, r, it);
    HeldSame(s, s2);
    assert s.cache[i].0 == it.path ==> SoundFile(s, s.cache[i].1);
    CallBackNamed(s2, c, it);
  }

  lemma HeldSame(s: State, s': State)
    requires s'.open == s.open
    ensures forall fd, h :: Held(s, fd, h) ==> Held(s', fd, h)
  {
  }

  /** Filling in the record of a root changes no name. */
  lemma RecordNamed(s: State, s': State, r: nat, it: Entry)
    requires Named(s, it) && IsRoot(s, r) && IsRoot(s', r) && s'.open == s.open && s'.ops == s.ops && s'.next == s.next
    requires s'.pts == s.pts[r := s'.pts[r]]
    requires s'.pts[r] == s.pts[r].(task := s.pts[r].task.(file := s'.pts[r].task.file))
    ensures Named(s', it)
  {
    forall fd | fd in s'.open && fd != 0 ensures NamedDesc(s', s'.open[fd], it) {
      assert NamedDesc(s, s.open[fd], it);
    }
    forall q: nat ensures NamedBody(s', q, it) {
      assert NamedBody(s, q, it);
    }
  }

  lemma OpenAddNamed(s: State, c: nat, it: Entry)
    requires Inv(s, {c}) && FdRight(s, {c}) && EntersNamed(s, c, it) && Named(s, it) && s.pts[c].label_ == AtStatx
    requires RecencyList.Find(s.cache, s.pts[c].task.path) == |s.cache|
    ensures Named(OpenEntry(s, c), it)
  {
    hide Structured, Balanced, CacheRight, CallBack, AddToCache, FdRight, Held, Named;
    LeafFacts(s, c, {c});
    OwnPath(s, c, {c});
    var r := s.pts[c].caller.value;
    OnlyChild(s, r, c, {c});
    var path, file := s.pts[c].task.path, s.pts[r].task.file;
    AddToCacheKeeps(s, path, file, {c});
    AddToCacheFd(s, c, r, path, file);
    var s1 := AddToCache(s, path, file);
    AddToCacheNamed(s, r, path, file, it);
    AddedIsFront(s, path, file);
    CachedHeld(s1, 0, {c});
    CallBackNamed(s1, c, it);
  }

  /** The cache takes the descriptor over under the path it was opened for. */
  lemma AddToCacheNamed(s: State, r: nat, path: string, file: File, it: Entry)
    requires Named(s, it) && Held(s, file.fd, ByOpening(r)) && IsRoot(s, r) && s.pts[r].task.path == path
    ensures Named(AddToCache(s, path, file), it)
  {
    hide AddToCache, NamedFiles, Held;
    AddToCacheFiles(s, r, path, file, it);
    AddToCachePts(s, path, file);
    forall q: nat ensures NamedBody(AddToCache(s, path, file), q, it) {
      assert NamedBody(s, q, it);
    }
  }

  lemma AddToCacheFiles(s: State, r: nat, path: string, file: File, it: Entry)
    requires NamedFiles(s, it) && Held(s, file.fd, ByOpening(r)) && IsRoot(s, r) && s.pts[r].task.path == path
    ensures NamedFiles(AddToCache(s, path, file), it)
  {
    hide RecencyList.Step, RecencyList.Find, SetHolder, NamedFiles, NamedDesc;
    var (cache, out) := RecencyList.Step(s.cache, CACHE_SIZE, RecencyList.AddOp(path, file));
    var s1 := s.(cache := cache);
    NamesFile(s, r, path, file, it);
    HolderNamed(s, s1, file.fd, ByCache(path), it);
    var s2 := SetHolder(s1, file.fd, ByCache(path));
    SetHolderOnly(s1, file.fd, ByCache(path));
    LaterNamed(s, Fault(s), it);
    if RecencyList.Find(s.cache, path) == |s.cache| {
      AddsOnly(s.cache, path, file);
      if out.evicted.Some? {
        var fd := out.evicted.value.1.fd;
        ClosingNames(s2, fd, s.next, it);
        HolderNamed(s2, s2, fd, ByClosing(s.next), it);
        LaterNamed(SetHolder(s2, fd, ByClosing(s.next)), AddToCache(s, path, file), it);
      }
    }
  }

  lemma NamesFile(s: State, r: nat, path: string, file: File, it: Entry)
    requires NamedFiles(s, it) && Held(s, file.fd, ByOpening(r)) && IsRoot(s, r) && s.pts[r].task.path == path
    ensures file.fd in s.open && file.fd != 0 ==> NamedDesc(s, s.open[file.fd].(holder := ByCache(path)), it)
  {
    assert file.fd in s.open && file.fd != 0 ==> NamedDesc(s, s.open[file.fd], it);
  }

  lemma ClosingNames(s: State, fd: int, id: nat, it: Entry)
    ensures fd in s.open ==> NamedDesc(s, s.open[fd].(holder := ByClosing(id)), it)
  {
  }

  lemma HolderNamed(s: State, s1: State, fd: int, h: Holder, it: Entry)
    requires NamedFiles(s, it) && s1.open == s.open && s1.pts == s.pts && s1.next == s.next
    requires fd in s.open && fd != 0 ==> NamedDesc(s, s.open[fd].(holder := h), it)
    ensures NamedFiles(SetHolder(s1, fd, h), it)
  {
    var s' := SetHolder(s1, fd, h);
    forall d | d in s'.open && d != 0 ensures NamedDesc(s', s'.open[d], it) {
      assert NamedDesc(s, s.open[d], it);
    }
  }

  lemma LaterNamed(s: State, s': State, it: Entry)
    requires NamedFiles(s, it) && s'.open == s.open && s'.pts == s.pts && s'.next >= s.next
    ensures NamedFiles(s', it)
  {
    forall d | d in s'.open && d != 0 ensures NamedDesc(s', s'.open[d], it) {
      assert NamedDesc(s, s.open[d], it);
    }
  }

  lemma AddToCachePts(s: State, path: string, file: File)
    ensures AddToCache(s, path, file).pts == s.pts
  {
    hide RecencyList.Step;
  }

  lemma OpenWaitNamed(s: State, c: nat, it: Entry)
    requires Inv(s, {c}) && MayEnter(s, c) && Named(s, it) && s.pts[c].label_ != AtStatx
    requires RecencyList.Find(s.cache, s.pts[c].task.path) == |s.cache|
    ensures Named(OpenEntry(s, c), it)
  {
    hide Inv, Named;
    var r := s.pts[c].caller.value;
    var path, file := s.pts[c].task.path, s.pts[r].task.file;
    match s.pts[c].label_
    case Fresh =>
      var s1 := SetFile(s, r, file.(name := Basename(path, |path|)));
      RecordNamed(s, s1, r, it);
      WaitNamed(s1, c, AtOpenat, Openat(c, path), it);
    case AtOpenat =>
      WaitNamed(s, c, AtStatx, Statx(c, file.fd), it);
  }

  lemma WaitNamed(s: State, c: nat, label_: Label, op: Op, it: Entry)
    requires Named(s, it) && c in s.pts && s.pts[c].task.OpenFile?
    ensures Named(SuspendOn(s, c, label_, op), it)
  {
    var s' := SuspendOn(s, c, label_, op);
    forall fd | fd in s'.open && fd != 0 ensures NamedDesc(s', s'.open[fd], it) {
      assert NamedDesc(s, s.open[fd], it);
    }
    forall q: nat ensures NamedBody(s', q, it) {
      assert NamedBody(s, q, it);
    }
  }

  lemma OpenEntryNamed(s: State, c: nat, it: Entry)
    requires Inv(s, {c}) && FdRight(s, {c}) && EntersNamed(s, c, it) && Named(s, it)
    ensures Named(OpenEntry(s, c), it)
  {
    hide Inv, FdRight, Named, OpenEntry;
    if RecencyList.Find(s.cache, s.pts[c].task.path) < |s.cache| {
      OpenHitNamed(s, c, it);
    } else if s.pts[c].label_ == AtStatx {
      OpenAddNamed(s, c, it);
    } else {
      OpenWaitNamed(s, c, it);
    }
  }

  // ---------- steps ----------

  /** A successful open of the path yields its content. */
  predicate ReadsFrom(s: State, e: Event, it: Entry) {
    e.id in s.ops && (s.ops[e.id].Openat? && s.ops[e.id].path == it.path && e.res >= 0 ==> e.data == it.content)
  }

  /** Taking a completed operation out, waking its waiter, writing to a client, closing a descriptor. */
  lemma LessNamed(s: State, s': State, it: Entry)
    requires Named(s, it) && s'.next >= s.next
    requires forall fd :: fd in s'.open ==> fd in s.open && s'.open[fd] == s.open[fd]
    requires s'.pts.Keys == s.pts.Keys
    requires forall p :: p in s.pts ==> s'.pts[p].task == s.pts[p].task && s'.pts[p].caller == s.pts[p].caller
                                        && s'.pts[p].label_ == s.pts[p].label_
    ensures Named(s', it)
  {
    forall fd | fd in s'.open && fd != 0 ensures NamedDesc(s', s'.open[fd], it) {
      assert NamedDesc(s, s.open[fd], it);
    }
    forall q: nat ensures NamedBody(s', q, it) {
      assert NamedBody(s, q, it);
    }
  }

  /** The file just opened or measured: its descriptor is held, and named. */
  lemma FilledFd(s: State, e: Event)
    requires Inv(s, {}) && FdRight(s, {}) && RecordsRight(s, None) && Allowed(s, e)
    requires s.ops[e.id].Openat? || s.ops[e.id].Statx?
    ensures FdRight(Filled(s, e), {})
    ensures var p := s.ops[e.id].pt;
            && p in s.pts && s.pts[p].caller.Some? && IsRoot(Filled(s, e), s.pts[p].caller.value)
            && Held(Filled(s, e), Filled(s, e).pts[s.pts[p].caller.value].task.file.fd, ByOpening(s.pts[p].caller.value))
  {
    hide Inv, FdRight, WithFile, Claims;
    FilledKeeps(s, e);
    WaiterFacts(s, e.id);
    var p := s.ops[e.id].pt;
    var r := s.pts[p].caller.value;
    assert RecordRight(s, None, p);
    if s.ops[e.id].Statx? {
      WithFileFd(s, e.id, None, Some(e.size));
      OpeningOf(s, p);
      HeldSame(s, Filled(s, e));
    } else if e.res >= 0 {
      var s1 := s.(open := s.open[e.res := FileDesc(e.data, ByOpening(r))]);
      NewDescFd(s, s1, {}, e.res);
      OutsideKeeps(s, s1, {});
      WithFileFd(s1, e.id, Some(e.res), None);
      FreshClaim(WithFile(s1, p, Some(e.res), None), e.res, ByOpening(r));
    } else {
      ZeroHeld(s, ByOpening(r));
    }
  }

  lemma FilledNamed(s: State, e: Event, it: Entry)
    requires Inv(s, {}) && Allowed(s, e) && (s.ops[e.id].Openat? || s.ops[e.id].Statx?)
    requires Named(s, it) && ReadsFrom(s, e, it)
    ensures Named(Filled(s, e), it)
  {
    hide Inv, Named, WithFile;
    WaiterFacts(s, e.id);
    var p := s.ops[e.id].pt;
    LeafFacts(s, p, {});
    OwnPath(s, p, {});
    if e.res >= 0 {
      if s.ops[e.id].Statx? {
        WithFileNamed(s, e.id, None, Some(e.size), it);
      } else {
        OpenatPath(s, e.id);
        var s1 := s.(open := s.open[e.res := FileDesc(e.data, ByOpening(s.pts[p].caller.value))]);
        BoundedOf(s, {});
        OutsideKeeps(s, s1, {});
        OpenedNamed(s, s1, e, p, s.pts[p].caller.value, it);
        WithFileNamed(s1, e.id, Some(e.res), None, it);
      }
    }
  }

  lemma OpenedNamed(s: State, s1: State, e: Event, p: nat, r: nat, it: Entry)
    requires Bounded(s) && Named(s, it) && ReadsFrom(s, e, it)
    requires s.ops[e.id].Openat? && s.ops[e.id].pt == p && e.res >= 0
    requires p in s.pts && s.pts[p].task == OpenFile(s.ops[e.id].path) && s.pts[p].caller == Some(r) && IsRoot(s, r)
    requires s.pts[r].task.path == s.ops[e.id].path
    requires s1 == s.(open := s.open[e.res := FileDesc(e.data, ByOpening(r))])
    ensures Named(s1, it)
  {
    forall fd | fd in s1.open && fd != 0 ensures NamedDesc(s1, s1.open[fd], it) {
      if fd != e.res {
        assert NamedDesc(s, s.open[fd], it);
      }
    }
    forall q: nat ensures NamedBody(s1, q, it) {
      assert NamedBody(s, q, it);
    }
  }

  lemma WithFileNamed(s: State, id: nat, fd: Option<int>, size: Option<nat>, it: Entry)
    requires Inv(s, {}) && Named(s, it) && id in s.ops && (s.ops[id].Openat? || s.ops[id].Statx?)
    ensures Named(WithFile(s, s.ops[id].pt, fd, size), it)
  {
    hide Inv, Named;
    WaiterFacts(s, id);
    var p := s.ops[id].pt;
    LeafFacts(s, p, {});
    RecordNamed(s, WithFile(s, p, fd, size), s.pts[p].caller.value, it);
  }

  /** The path's opens succeed, and what is cached for it is sound. */
  ghost predicate PathRight(s: State, path: string) {
    SoundCache(s, path) && RecordsRight(s, Some(path))
  }

  lemma OpensNamed(s: State, e: Event, public: set<string>, it: Entry)
    requires Inv(s, {}) && FdRight(s, {}) && Allowed(s, e)
    requires PathRight(s, it.path) && PathOpens(s, e, it.path) && Named(s, it) && ReadsFrom(s, e, it)
    requires s.ops[e.id].Openat? || s.ops[e.id].Statx?
    ensures Named(Step(s, e, public), it)
  {
    hide Inv, FdRight, OpenEntry, OnOpenat, OnStatx, Named, Filled, Held;
    JustUntouched(s, it.path);
    FilledFd(s, e);
    FilledNamed(s, e, it);
    FilledStep(s, e, public);
    FilledFacts(s, e);
    FilledKeeps(s, e);
    FilledCache(s, e, it.path);
    var p := s.ops[e.id].pt;
    var s1 := Filled(s, e);
    WaiterFacts(s1, e.id);
    if s.ops[e.id].Openat? {
      OpenatPath(s, e.id);
    }
    assert RecordRight(s, Some(it.path), p);
    WokenFd(s1, e.id);
    var s2 := Woken(s1, e.id, p);
    HeldSame(s1, s2);
    SoundSame(s1, s2, it.path);
    LessNamed(s1, s2, it);
    OpenEntryNamed(s2, p, it);
  }

  lemma JustUntouched(s: State, path: string)
    requires RecordsRight(s, Some(path))
    ensures RecordsRight(s, None)
  {
    forall p: nat ensures RecordRight(s, None, p) {
      assert RecordRight(s, Some(path), p);
    }
  }

  lemma SoundSame(s: State, s': State, path: string)
    requires SoundCache(s, path) && s'.cache == s.cache && s'.open == s.open
    ensures SoundCache(s', path)
  {
    forall i | 0 <= i < |s'.cache| && s'.cache[i].0 == path ensures SoundFile(s', s'.cache[i].1) {
      assert SoundFile(s, s.cache[i].1);
    }
  }

  /** A new descriptor is not one that is cached. */
  lemma FilledCache(s: State, e: Event, path: string)
    requires FdRight(s, {}) && SoundCache(s, path) && Allowed(s, e) && (s.ops[e.id].Openat? || s.ops[e.id].Statx?)
    ensures SoundCache(Filled(s, e), path)
  {
    hide FdRight;
    FilledOpen(s, e);
    var s' := Filled(s, e);
    forall i | 0 <= i < |s'.cache| && s'.cache[i].0 == path ensures SoundFile(s', s'.cache[i].1) {
      assert SoundFile(s, s.cache[i].1);
      CachedHeld(s, i, {});
    }
  }

  lemma FilledOpen(s: State, e: Event)
    requires Allowed(s, e) && (s.ops[e.id].Openat? || s.ops[e.id].Statx?)
    ensures Filled(s, e).cache == s.cache
    ensures forall fd :: fd in s.open ==> fd in Filled(s, e).open && Filled(s, e).open[fd] == s.open[fd]
  {
  }

  /** A completion that concerns a chain already sending: its root is past the open. */
  lemma DeliverNamed(s: State, s1: State, e: Event, s': State, it: Entry)
    requires Inv(s, {}) && Named(s, it) && e.id in s.ops
    requires s.ops[e.id].SendOp? || s.ops[e.id].SpliceOp? || s.ops[e.id].Close?
    requires s1.pts == s.pts && s1.ops == s.ops && s1.next == s.next
    requires forall fd :: fd in s1.open ==> fd in s.open && s1.open[fd] == s.open[fd]
    requires s' == Deliver(s1, e.id) && StepFrame(s, s', e.id)
    ensures Named(s', it)
  {
    hide Inv, Deliver, Named, Quiet, StepFrame;
    if Waiter(s.ops[e.id]).Some? {
      WaiterFacts(s, e.id);
    }
    var s2 := s1.(ops := s1.ops - {e.id});
    LessNamed(s, s2, it);
    DeliverQuiet(s1, e.id);
    Unfold(s2, it);
    QuietFiles(s2, s', it);
    SendersBodies(s, s2, s', e.id, it);
    Fold(s', it);
  }

  lemma Fold(s: State, it: Entry)
    requires NamedFiles(s, it) && NamedBodies(s, it)
    ensures Named(s, it)
  {
  }

  lemma Unfold(s: State, it: Entry)
    requires Named(s, it)
    ensures NamedFiles(s, it) && NamedBodies(s, it)
  {
  }

  lemma SendersBodies(s: State, s2: State, s': State, id: nat, it: Entry)
    requires Inv(s, {}) && id in s.ops && StepFrame(s, s', id) && Quiet(s2, s') && NamedBodies(s2, it)
    requires s.ops[id].SendOp? || s.ops[id].SpliceOp? || s.ops[id].Close?
    requires s2.pts == s.pts && s2.next == s.next
    ensures NamedBodies(s', it)
  {
    hide Balanced, CacheRight, Grows;
    forall q: nat ensures NamedBody(s', q, it) {
      assert NamedBody(s2, q, it);
      if IsRoot(s', q) {
        SenderRoot(s, s', id, q);
      }
    }
  }

  /** A root after such a completion was there before, and if it was still opening, it is untouched. */
  lemma SenderRoot(s: State, s': State, id: nat, q: nat)
    requires Inv(s, {}) && id in s.ops && StepFrame(s, s', id) && IsRoot(s', q)
    requires s.ops[id].SendOp? || s.ops[id].SpliceOp? || s.ops[id].Close?
    ensures IsRoot(s, q) && q < s.next
    ensures s.pts[q].label_ == AtOpen ==> s'.pts[q] == s.pts[q]
  {
    hide Balanced, CacheRight;
    if Waiter(s.ops[id]).Some? {
      WaiterFacts(s, id);
      var p := Waiter(s.ops[id]).value;
      assert LinkedAt(s, p);
      assert Waiting(s, p);
      if !s.pts[p].task.SendFile? {
        assert Waiting(s, s.pts[p].caller.value);
      }
    }
  }

  lemma ResubmitNamed(s: State, s1: State, id: nat, op: Op, it: Entry)
    requires Named(s, it) && id in s.ops && !op.Openat?
    requires s1.pts == s.pts && s1.ops == s.ops && s1.next == s.next && s1.open == s.open
    ensures Named(Resubmit(s1, id, op), it)
  {
    hide Named;
    LessNamed(s, Resubmit(s1, id, op), it);
  }

  lemma OnSendNamed(s: State, e: Event, it: Entry)
    requires Inv(s, {}) && FdRight(s, {}) && Allowed(s, e) && s.ops[e.id].SendOp? && Named(s, it)
    ensures Named(OnSend(s, e), it)
  {
    hide Inv, FdRight, Deliver, Resubmit, StepFrame, Named, ChainRight, CleanFor;
    OnSendSteps(s, e);
    var SendOp(p, client, buffer) := s.ops[e.id];
    if e.res < 0 {
      DeliverNamed(s, s, e, OnSend(s, e), it);
    } else {
      var s1 := s.(out := s.out[client := Sent(s, client) + buffer[..e.res]]);
      if buffer[e.res..] != "" {
        ResubmitNamed(s, s1, e.id, SendOp(p, client, buffer[e.res..]), it);
      } else {
        DeliverNamed(s, s1, e, OnSend(s, e), it);
      }
    }
  }

  lemma OnSpliceNamed(s: State, e: Event, it: Entry)
    requires Inv(s, {}) && FdRight(s, {}) && Allowed(s, e) && s.ops[e.id].SpliceOp? && Named(s, it)
    ensures Named(OnSplice(s, e), it)
  {
    hide Inv, FdRight, Deliver, Resubmit, StepFrame, Named, ChainRight, CleanFor, SpliceAll.Complete;
    OnSpliceSteps(s, e);
    var SpliceOp(p, fdIn, fdOut, ctx, pipe) := s.ops[e.id];
    if e.res < 0 {
      DeliverNamed(s, s, e, OnSplice(s, e), it);
    } else {
      var (c, finished) := SpliceAll.Complete(ctx, e.res);
      if ctx.isDraining {
        var s1 := s.(out := s.out[fdOut := Sent(s, fdOut) + pipe[..e.res]]);
        if finished {
          DeliverNamed(s, s1, e, OnSplice(s, e), it);
        } else {
          ResubmitNamed(s, s1, e.id, SpliceOp(p, fdIn, fdOut, c, pipe[e.res..]), it);
        }
      } else {
        ResubmitNamed(s, s, e.id, SpliceOp(p, fdIn, fdOut, c, pipe + e.data), it);
      }
    }
  }

  lemma OnCloseNamed(s: State, e: Event, it: Entry)
    requires Inv(s, {}) && FdRight(s, {}) && Allowed(s, e) && s.ops[e.id].Close? && Named(s, it)
    ensures Named(OnClose(s, e), it)
  {
    hide Inv, FdRight, Deliver, StepFrame, Named, ChainRight, CleanFor;
    OnCloseSteps(s, e);
    DeliverNamed(s, s.(open := s.open - {s.ops[e.id].fd}), e, OnClose(s, e), it);
  }

  /** A client's descriptor names no file. */
  lemma ClientNamed(s: State, s': State, fd: int, it: Entry)
    requires Named(s, it) && s'.pts == s.pts && s'.next >= s.next
    requires fd in s'.open ==> s'.open[fd].ClientDesc? || s'.open[fd].holder.ByRecv? || s'.open[fd].holder.ByChain?
    requires forall k :: k in s'.open && k != fd ==> k in s.open && s'.open[k] == s.open[k]
    ensures Named(s', it)
  {
    forall k | k in s'.open && k != 0 ensures NamedDesc(s', s'.open[k], it) {
      if k != fd {
        assert NamedDesc(s, s.open[k], it);
      }
    }
    forall q: nat ensures NamedBody(s', q, it) {
      assert NamedBody(s, q, it);
    }
  }

  lemma BegunNamed(s: State, client: int, path: string, it: Entry)
    requires Bounded(s) && Named(s, it)
    ensures Named(Begun(s, client, path), it)
  {
    hide Named, Begun;
    BegunShape(s, client, path);
    var s1 := SetHolder(s, client, ByChain(s.next));
    ClientNamed(s, s1, client, it);
    NewChainNamed(s1, Begun(s, client, path), s.next, path, it);
  }

  /** Two new protothreads: a root and the open routine it calls, on the same path. */
  lemma NewChainNamed(s: State, s': State, r: nat, path: string, it: Entry)
    requires Bounded(s) && Named(s, it) && r == s.next && s'.next >= s.next && s'.open == s.open && s'.ops == s.ops
    requires forall p :: p in s'.pts && p != r && p != r + 1 ==> p in s.pts && s'.pts[p] == s.pts[p]
    requires forall p :: p in s.pts ==> p in s'.pts
    requires IsRoot(s', r) && s'.pts[r].task.path == path && s'.pts[r].label_ == AtOpen
    requires r + 1 in s'.pts && s'.pts[r + 1].task == OpenFile(path)
    ensures Named(s', it)
  {
    forall fd | fd in s'.open && fd != 0 ensures NamedDesc(s', s'.open[fd], it) {
      assert NamedDesc(s, s.open[fd], it);
    }
    forall q: nat ensures NamedBody(s', q, it) {
      assert NamedBody(s, q, it);
    }
  }

  lemma OnRecvNamed(s: State, e: Event, public: set<string>, it: Entry)
    requires Inv(s, {}) && FdRight(s, {}) && Allowed(s, e) && s.ops[e.id].Recv? && Named(s, it)
    requires SoundCache(s, it.path)
    ensures Named(OnRecv(s, e, public), it)
  {
    hide Inv, FdRight, Named, StartChain, OpenEntry, Begun, Claims, Receiving.OnChunk, PublicPath;
    var Recv(client, buffer) := s.ops[e.id];
    var s1 := s.(ops := s.ops - {e.id});
    LessNamed(s, s1, it);
    match Receiving.OnChunk(buffer, if e.res <= 0 then "" else e.data)
    case Drop =>
    case More(b) =>
      ClientNamed(s1, Submit(SetHolder(s1, client, ByRecv(s1.next)), Recv(client, b)), client, it);
    case Dispatch(_, head) =>
      var path := PublicPath(public, head);
      if path.Some? {
        DispatchedNamed(s, e.id, client, path.value, it);
      }
  }

  lemma DispatchedNamed(s: State, id: nat, client: int, path: string, it: Entry)
    requires Inv(s, {}) && FdRight(s, {}) && id in s.ops && s.ops[id].Recv? && s.ops[id].client == client
    requires Named(s.(ops := s.ops - {id}), it) && SoundCache(s, it.path)
    ensures Named(StartChain(s.(ops := s.ops - {id}), client, path), it)
  {
    hide Inv, FdRight, Named, OpenEntry, StartChain, Begun, Claims;
    var s1 := s.(ops := s.ops - {id});
    RecvClaim(s, id);
    RemoveOpFd(s, id);
    DeliverKeeps(s, id);
    FreshIdsOf(s);
    ClaimsOutside(s, s1);
    BoundedOf(s1, {});
    BegunNamed(s1, client, path, it);
    BegunInv(s1, client, path);
    BegunFd(s1, client, path, id);
    BegunFacts(s1, client, path);
    BegunShape(s1, client, path);
    BegunSound(s, s1, client, path, it.path);
    OpenEntryNamed(Begun(s1, client, path), s1.next + 1, it);
  }

  lemma BegunSound(s: State, s1: State, client: int, path: string, mine: string)
    requires SoundCache(s, mine) && s1.cache == s.cache && s1.open == s.open
    ensures SoundCache(Begun(s1, client, path), mine)
  {
    hide Begun;
    BegunShape(s1, client, path);
    CacheTrace.BegunCache(s1, client, path);
    var s' := Begun(s1, client, path);
    forall i | 0 <= i < |s'.cache| && s'.cache[i].0 == mine ensures SoundFile(s', s'.cache[i].1) {
      assert SoundFile(s, s.cache[i].1);
    }
  }

  lemma StepNamed(s: State, e: Event, public: set<string>, it: Entry)
    requires Inv(s, {}) && FdRight(s, {}) && Allowed(s, e)
    requires PathRight(s, it.path) && PathOpens(s, e, it.path) && Named(s, it) && ReadsFrom(s, e, it)
    ensures Named(Step(s, e, public), it)
  {
    hide Inv, FdRight, Named, OnRecv, OnOpenat, OnStatx, OnSend, OnSplice, OnClose;
    match s.ops[e.id]
    case Accept =>
      var s1 := s.(ops := s.ops - {e.id});
      LessNamed(s, s1, it);
      if e.res >= 0 {
        ClientNamed(s1, OnAccept(s, e), e.res, it);
      }
    case Recv(_, _) => OnRecvNamed(s, e, public, it);
    case Openat(_, _) => OpensNamed(s, e, public, it);
    case Statx(_, _) => OpensNamed(s, e, public, it);
    case SendOp(_, _, _) => OnSendNamed(s, e, it);
    case SpliceOp(_, _, _, _, _) => OnSpliceNamed(s, e, it);
    case Close(_, _) => OnCloseNamed(s, e, it);
  }

  // ---------- runs ----------

  ghost predicate ReadsFromIn(accepts: nat, public: set<string>, es: seq<Event>, it: Entry)
    requires IsRun(accepts, public, es)
  {
    es == [] || (ReadsFromIn(accepts, public, es[..|es| - 1], it)
                 && ReadsFrom(After(accepts, public, es[..|es| - 1]), es[|es| - 1], it))
  }

  lemma {:induction false} RunNamed(accepts: nat, public: set<string>, es: seq<Event>, it: Entry)
    requires IsRun(accepts, public, es) && PathOpensIn(accepts, public, es, it.path)
    requires ReadsFromIn(accepts, public, es, it)
    ensures Named(After(accepts, public, es), it)
  {
    hide Inv, FdRight, Step, SoundCache, RecordsRight;
    if es == [] {
      NobodyBooted(accepts);
    } else {
      var before := es[..|es| - 1];
      RunNamed(accepts, public, before, it);
      RunSafe(accepts, public, before);
      RunAccountsForFds(accepts, public, before);
      RunKeepsPath(accepts, public, before, it.path);
      StepNamed(After(accepts, public, before), es[|es| - 1], public, it);
    }
  }

  /** The right file: over every run in which the opens of a path succeed and yield the same content, a
      chain for this path that is past its open sends that content, whoever opened the file and whatever
      happens to other files. */
  lemma ServesOwnPath(accepts: nat, public: set<string>, es: seq<Event>, it: Entry, q: nat)
    requires IsRun(accepts, public, es) && PathOpensIn(accepts, public, es, it.path)
    requires ReadsFromIn(accepts, public, es, it)
    requires IsRoot(After(accepts, public, es), q) && After(accepts, public, es).pts[q].label_ != AtOpen
    requires After(accepts, public, es).pts[q].task.path == it.path
    ensures After(accepts, public, es).pts[q].task.body == it.content
  {
    hide IsRun, After, PathOpensIn, ReadsFromIn, NamedFiles;
    RunNamed(accepts, public, es, it);
    assert NamedBody(After(accepts, public, es), q, it);
  }

  /** All together: a clean chain for this path that has submitted its close has sent a complete response
      whose body is the path's content, whose Content-Length is that content's length, and whose Content-Type
      is the one for the path's extension. */
  lemma WholeFileIsServed(accepts: nat, public: set<string>, es: seq<Event>, it: Entry, q: nat)
    requires IsRun(accepts, public, es) && PathOpensIn(accepts, public, es, it.path)
    requires ReadsFromIn(accepts, public, es, it) && CleanRunFor(accepts, public, es, q)
    requires IsRoot(After(accepts, public, es), q) && After(accepts, public, es).pts[q].label_ == AtClose
    requires After(accepts, public, es).pts[q].task.path == it.path && After(accepts, public, es).pts[q].task.client != 0
    ensures var s := After(accepts, public, es);
            var bytes := Sent(s, s.pts[q].task.client);
            && (exists section, type_ :: WholeResponse(bytes, section, type_, it.content))
            && forall ext :: EndsIn(it.path, ext) ==> exists section :: WholeResponse(bytes, section, TypeOf(ext), it.content)
  {
    hide IsRun, After, PathOpensIn, ReadsFromIn, CleanRunFor, WholeResponse, EndsIn, TypeOf, ContentType;
    ServesOwnPath(accepts, public, es, it, q);
    ContentLengthIsDelivered(accepts, public, es, q);
    forall ext | EndsIn(it.path, ext)
      ensures var bytes := Sent(After(accepts, public, es), After(accepts, public, es).pts[q].task.client);
              exists section :: WholeResponse(bytes, section, TypeOf(ext), it.content)
    {
      TypeIsDelivered(accepts, public, es, q, ext);
    }
  }
}
