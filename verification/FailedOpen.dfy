/**
 What happens when a file cannot be opened. The error is not passed on: descriptor 0, which the record
 has from its creation, is measured all the same, the record goes into the cache, and a response goes
 out as if all were well.
 */
module FailedOpen {
  import opened Wrappers
  import RecencyList
  import opened EventLoop
  import opened EventLoopSafety
  import opened Delivery
  import opened DeliverySteps
  import opened Frames
  import opened OpenRecords
  import opened DeliveryRuns
  import Request
  import Response

  /** The root on whose behalf an open or a statx is under way. */
  ghost function RootOf(s: State, p: nat): nat
    requires Inv(s, {}) && p in s.pts && s.pts[p].task.OpenFile?
    ensures s.pts[p].caller == Some(RootOf(s, p)) && IsRoot(s, RootOf(s, p))
  {
    LeafFacts(s, p, {});
    s.pts[p].caller.value
  }

  /** After a failed open the descriptor left in the record is measured, whatever it is. */
  lemma FailedOpenIsMeasured(s: State, e: Event, public: set<string>)
    requires Inv(s, {}) && Allowed(s, e) && s.ops[e.id].Openat? && e.res < 0
    ensures var p := s.ops[e.id].pt;
            && p in s.pts && s.pts[p].task.OpenFile?
            && (RecencyList.Find(s.cache, s.pts[p].task.path) == |s.cache| ==>
                  var s' := Step(s, e, public);
                  var r := RootOf(s, p);
                  && s'.ops == (s.ops - {e.id})[s.next := Statx(p, s.pts[r].task.file.fd)]
                  && IsRoot(s', r) && s'.pts[r] == s.pts[r] && p in s'.pts && s'.pts[p].task == s.pts[p].task
                  && s'.pts[p].caller == s.pts[p].caller && s'.cache == s.cache && s'.open == s.open)
  {
    hide Structured, Balanced, CacheRight;
    WaiterFacts(s, e.id);
    LeafFacts(s, s.ops[e.id].pt, {});
  }

  /** After a statx, failed or not, the record goes into the cache as it is, and its headers are sent. */
  lemma MeasuredIsServed(s: State, e: Event, public: set<string>)
    requires Inv(s, {}) && Allowed(s, e) && s.ops[e.id].Statx?
    ensures var p := s.ops[e.id].pt;
            && p in s.pts && s.pts[p].task.OpenFile?
            && (RecencyList.Find(s.cache, s.pts[p].task.path) == |s.cache| ==>
                  var s' := Step(s, e, public);
                  var r := RootOf(s, p);
                  && IsRoot(Filled(s, e), r)
                  && var file := Filled(s, e).pts[r].task.file;
                     && file.fd == s.pts[r].task.file.fd
                     && file.size == (if e.res >= 0 then e.size else s.pts[r].task.file.size)
                     && s'.cache != [] && s'.cache[0] == (s.pts[p].task.path, file)
                     && IsRoot(s', r) && s'.pts[r].label_ == AtSend && s'.pts[r].task.raw == HeadFor(file)
                     && s'.open.Keys == s.open.Keys)
  {
    hide Structured, Balanced, CacheRight, OpenEntry, HeadFor, Filled, OnStatx;
    WaiterFacts(s, e.id);
    var p := s.ops[e.id].pt;
    LeafFacts(s, p, {});
    if RecencyList.Find(s.cache, s.pts[p].task.path) == |s.cache| {
      FilledStep(s, e, public);
      FilledFacts(s, e);
      FilledKeeps(s, e);
      MeasuredOpen(s, e);
      DeliverKeeps(Filled(s, e), e.id);
      ServesRecord(Woken(Filled(s, e), e.id, p), p);
    }
  }

  lemma MeasuredOpen(s: State, e: Event)
    requires e.id in s.ops && s.ops[e.id].Statx?
    ensures Filled(s, e).open == s.open
  {
  }

  lemma ServesRecord(s: State, p: nat)
    requires Inv(s, {p}) && p in s.pts && s.pts[p].task.OpenFile? && s.pts[p].label_ == AtStatx
    requires s.pts[p].caller.Some? && IsRoot(s, s.pts[p].caller.value)
    requires RecencyList.Find(s.cache, s.pts[p].task.path) == |s.cache|
    ensures var s' := OpenEntry(s, p);
            var r := s.pts[p].caller.value;
            var file := s.pts[r].task.file;
            && s'.cache != [] && s'.cache[0] == (s.pts[p].task.path, file)
            && IsRoot(s', r) && s'.pts[r].label_ == AtSend && s'.pts[r].task.raw == HeadFor(file)
            && s'.open.Keys == s.open.Keys
  {
    hide Inv, CallBack, HeadFor, AddToCache;
    var r := s.pts[p].caller.value;
    var path, file := s.pts[p].task.path, s.pts[r].task.file;
    CallBackQuiet(AddToCache(s, path, file), p);
    AddToCacheKeeps(s, path, file, {p});
    AddedIsFront(s, path, file);
    AddToCacheIs(s, path, file);
    CallBackIs(AddToCache(s, path, file), p);
  }

  /** So in every reachable state a chain whose open fails answers "200 OK" all the same, and the record it
      leaves in the cache has descriptor 0. If the statx of descriptor 0 fails as well, the Content-Length
      is zero; if it succeeds, it is the size of whatever descriptor 0 stands for. Every later request for
      the path finds that record, whose descriptor need not be open at all. */
  lemma MissingFileIsServed(accepts: nat, public: set<string>, es: seq<Event>, open: Event, statx: Event)
    requires IsRun(accepts, public, es)
    requires Allowed(After(accepts, public, es), open) && After(accepts, public, es).ops[open.id].Openat? && open.res < 0
    requires var s := After(accepts, public, es);
             RecencyList.Find(s.cache, s.ops[open.id].path) == |s.cache|
             && statx.id == s.next && Allowed(Step(s, open, public), statx)
    ensures var s := After(accepts, public, es);
            var s' := Step(Step(s, open, public), statx, public);
            var p := s.ops[open.id].pt;
            && p in s.pts && s.pts[p].caller.Some?
            && var r := s.pts[p].caller.value;
               && IsRoot(s', r) && s'.pts[r].label_ == AtSend
               && s'.cache != [] && s'.cache[0].0 == s.ops[open.id].path
               && s'.cache[0].1.fd == 0 && s'.cache[0].1.size == (if statx.res >= 0 then statx.size else 0)
               && s'.pts[r].task.raw == HeadFor(s'.cache[0].1)
               && (statx.res < 0 ==> exists section ::
                     WholeResponse(s'.pts[r].task.raw, section, ContentType(s'.cache[0].1.name), ""))
               && (0 in s'.open <==> 0 in s.open)
  {
    hide Inv, Step, HeadFor, FileHeaders, ContentType, Response.ParseFields, Response.HeaderSection, After, IsRun;
    var s := After(accepts, public, es);
    RunSafe(accepts, public, es);
    OpenRecordsUntouched(accepts, public, es, open.id);
    OpenatPath(s, open.id);
    FailedOpenIsMeasured(s, open, public);
    StepSafe(s, open, public);
    var s1 := Step(s, open, public);
    MeasuredIsServed(s1, statx, public);
    if statx.res < 0 {
      var file := Step(s1, statx, public).cache[0].1;
      HeadAnnouncesSize(file);
      FileHeadersAre(file);
      assert WholeResponse(HeadFor(file), Response.HeaderSection(FileHeaders(file)), ContentType(file.name), "");
    }
  }

  lemma FileHeadersAre(file: File)
    ensures |FileHeaders(file)| == 2
            && FileHeaders(file)[1] == Request.Field("Content-Length", Response.Decimal(file.size))
  {
  }
}
