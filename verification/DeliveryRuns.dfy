/**
 What reaches a client over whole runs. In every run descriptors are accounted for, all but descriptor 0.
 A chain whose client is not 0 delivers its file in every run in which the opens of its own path yield
 descriptors other than 0 and its own completions are clean, whatever other chains do.
 */
module DeliveryRuns {
  import opened Wrappers
  import opened EventLoop
  import opened EventLoopSafety
  import opened Delivery
  import opened DeliverySteps
  import opened Frames
  import opened CacheTrace
  import opened OpenRecords
  import DoublyLinkedList
  import RecencyList
  import Receiving
  import Request
  import RequestParser
  import Response
  import SpliceAll

  // ---------- files of one path ----------

  /** No open of this path fails or returns descriptor 0, and no statx of it fails. */
  predicate PathOpens(s: State, e: Event, path: string) {
    && e.id in s.ops
    && (s.ops[e.id].Openat? && s.ops[e.id].path == path ==> e.res > 0)
    && (s.ops[e.id].Statx? && s.ops[e.id].pt in s.pts && s.pts[s.ops[e.id].pt].task == OpenFile(path) ==> e.res >= 0)
  }

  /** A cache operation brings in no more than what it adds. */
  lemma EntriesOf(s: seq<(string, File)>, op: RecencyList.Op<File>)
    ensures forall x :: x in RecencyList.Step(s, CACHE_SIZE, op).0 ==> x in s || (op.AddOp? && x == (op.key, op.value))
  {
    var s' := RecencyList.Step(s, CACHE_SIZE, op).0;
    var i := RecencyList.Find(s, op.key);
    if op.GetOp? && i < |s| {
      DoublyLinkedList.MovedAt(s, i);
      forall x | x in s' ensures x in s {
        var k :| 0 <= k < |s'| && s'[k] == x;
        assert x == s[if k == 0 then i else if k <= i then k - 1 else k];
      }
    }
  }

  lemma EntryEntries(s: State, c: nat)
    ensures forall x :: x in OpenEntry(s, c).cache ==>
                          x in s.cache
                          || (c in s.pts && s.pts[c].task.OpenFile? && s.pts[c].label_ == AtStatx && s.pts[c].caller.Some?
                              && IsRoot(s, s.pts[c].caller.value)
                              && x == (s.pts[c].task.path, s.pts[s.pts[c].caller.value].task.file))
  {
    hide OpenEntry, RecencyList.Step, RecencyList.Find;
    OpenEntryCache(s, c);
    var ask := EntryTalk(s, c);
    if ask != [] {
      EntriesOf(s.cache, ask[|ask| - 1].0);
    }
  }

  /** What a step adds to the cache is the record of the file it has measured. */
  lemma StepEntries(s: State, e: Event, public: set<string>)
    requires Inv(s, {}) && Allowed(s, e)
    ensures forall x :: x in Step(s, e, public).cache ==>
                          x in s.cache
                          || (s.ops[e.id].Statx? && s.ops[e.id].pt in s.pts && s.pts[s.ops[e.id].pt].task.OpenFile?
                              && s.pts[s.ops[e.id].pt].caller.Some? && IsRoot(Filled(s, e), s.pts[s.ops[e.id].pt].caller.value)
                              && x == (s.pts[s.ops[e.id].pt].task.path,
                                       Filled(s, e).pts[s.pts[s.ops[e.id].pt].caller.value].task.file))
  {
    hide Inv, OpenEntry, OnRecv, OnOpenat, OnStatx, Filled;
    if s.ops[e.id].Recv? {
      RecvEntries(s, e, public);
    } else if s.ops[e.id].Openat? || s.ops[e.id].Statx? {
      FilledStep(s, e, public);
      FilledFacts(s, e);
      FilledKeeps(s, e);
      WaiterFacts(s, e.id);
      var p := s.ops[e.id].pt;
      EntryEntries(Woken(Filled(s, e), e.id, p), p);
    } else {
      OtherSteps(s, e, public);
    }
  }

  lemma RecvEntries(s: State, e: Event, public: set<string>)
    requires Inv(s, {}) && Allowed(s, e) && s.ops[e.id].Recv?
    ensures forall x :: x in OnRecv(s, e, public).cache ==> x in s.cache
  {
    hide Inv, OpenEntry, StartChain, Begun, Receiving.OnChunk, PublicPath;
    var s1 := s.(ops := s.ops - {e.id});
    match Receiving.OnChunk(s.ops[e.id].buffer, if e.res <= 0 then "" else e.data)
    case Drop =>
    case More(_) =>
    case Dispatch(_, head) =>
      var path := PublicPath(public, head);
      if path.Some? {
        var client := s.ops[e.id].client;
        DeliverKeeps(s, e.id);
        BoundedOf(s1, {});
        BegunFacts(s1, client, path.value);
        BegunShape(s1, client, path.value);
        BegunCache(s1, client, path.value);
        EntryEntries(Begun(s1, client, path.value), s1.next + 1);
      }
  }

  lemma CachedEntry(s: State, x: (string, File))
    requires FdRight(s, {}) && x in s.cache
    ensures Held(s, x.1.fd, ByCache(x.0))
  {
    var i :| 0 <= i < |s.cache| && s.cache[i] == x;
    assert Cached(s, s.cache[i]);
  }

  /** A file that was sound stays sound while it is cached: its descriptor is not closed. */
  lemma StaysSound(s: State, s': State, id: nat, x: (string, File))
    requires FdRight(s, {}) && FdRight(s', {}) && StepFrame(s, s', id)
    requires x in s.cache && x in s'.cache && SoundFile(s, x.1)
    ensures SoundFile(s', x.1)
  {
    hide FdRight, Agree;
    CachedEntry(s, x);
    CachedEntry(s', x);
    NotClosed(s, id, x);
  }

  lemma NotClosed(s: State, id: nat, x: (string, File))
    requires FdRight(s, {}) && id in s.ops && x in s.cache && x.1.fd != 0
    ensures ClosedFd(s.ops[id]) != Some(x.1.fd)
  {
    CachedEntry(s, x);
    if s.ops[id].Close? {
      if s.ops[id].waiter.None? {
        assert Held(s, s.ops[id].fd, ByClosing(id));
      } else {
        assert Claims(s, s.ops[id].fd, ByChain(s.ops[id].waiter.value), false);
      }
    }
  }

  /** The file just measured is sound, if its open and its statx have succeeded. */
  lemma MeasuredSound(s: State, s': State, e: Event, path: string)
    requires Inv(s, {}) && FdRight(s, {}) && Allowed(s, e) && s.ops[e.id].Statx? && StepFrame(s, s', e.id)
    requires PathOpens(s, e, path) && RecordsRight(s, Some(path))
    requires s.ops[e.id].pt in s.pts && s.pts[s.ops[e.id].pt].task == OpenFile(path)
    requires s.pts[s.ops[e.id].pt].caller.Some?
    requires IsRoot(Filled(s, e), s.pts[s.ops[e.id].pt].caller.value)
    ensures SoundFile(s', Filled(s, e).pts[s.pts[s.ops[e.id].pt].caller.value].task.file)
  {
    hide Inv, FdRight, Filled, Agree;
    var p := s.ops[e.id].pt;
    FilledKeeps(s, e);
    WaiterFacts(s, e.id);
    assert RecordRight(s, Some(path), p);
    OpeningOf(s, p);
  }

  lemma StepSound(s: State, e: Event, public: set<string>, path: string)
    requires Inv(s, {}) && FdRight(s, {}) && Allowed(s, e)
    requires PathOpens(s, e, path) && RecordsRight(s, Some(path)) && SoundCache(s, path)
    ensures SoundCache(Step(s, e, public), path)
  {
    hide Inv, FdRight, Step, Filled, StepFrame, SoundFile, ChainRight;
    UntouchedOf(s, Some(path));
    StepDelivers(s, e, public);
    StepEntries(s, e, public);
    var s' := Step(s, e, public);
    forall i | 0 <= i < |s'.cache| && s'.cache[i].0 == path ensures SoundFile(s', s'.cache[i].1) {
      var x := s'.cache[i];
      assert x in s'.cache;
      if x in s.cache {
        var k :| 0 <= k < |s.cache| && s.cache[k] == x;
        StaysSound(s, s', e.id, x);
      } else {
        MeasuredSound(s, s', e, path);
      }
    }
  }

  lemma UntouchedOf(s: State, good: Option<string>)
    requires RecordsRight(s, good)
    ensures AllUntouched(s)
  {
    forall p: nat ensures Untouched(s, p) {
      assert RecordRight(s, good, p);
    }
  }

  // ---------- every run ----------

  /** A chain keeps its client and its path. */
  lemma StepChains(s: State, e: Event, public: set<string>)
    requires Inv(s, {}) && Allowed(s, e)
    ensures SameChains(s, Step(s, e, public))
  {
    hide Inv, SameChains, Deliver, Resubmit, StartChain, OpenEntry, Receiving.OnChunk, PublicPath, Filled, SpliceAll.Complete;
    match s.ops[e.id]
    case Accept => PlainChains(s, OnAccept(s, e));
    case Recv(_, _) => RecvChains(s, e, public);
    case Openat(_, _) => FilledStepChains(s, e, public);
    case Statx(_, _) => FilledStepChains(s, e, public);
    case SendOp(p, client, buffer) =>
      DeliverChains(s, e.id);
      if e.res >= 0 {
        var s1 := s.(out := s.out[client := Sent(s, client) + buffer[..e.res]]);
        PlainChains(s, s1);
        DeliverChains(s1, e.id);
        ResubmitChains(s1, e.id, SendOp(p, client, buffer[e.res..]));
        SameChainsTrans(s, s1, OnSend(s, e));
      }
    case SpliceOp(p, fdIn, fdOut, ctx, pipe) =>
      DeliverChains(s, e.id);
      if e.res >= 0 {
        var c := SpliceAll.Complete(ctx, e.res).0;
        ResubmitChains(s, e.id, SpliceOp(p, fdIn, fdOut, c, pipe + e.data));
        if ctx.isDraining {
          var s1 := s.(out := s.out[fdOut := Sent(s, fdOut) + pipe[..e.res]]);
          PlainChains(s, s1);
          DeliverChains(s1, e.id);
          ResubmitChains(s1, e.id, SpliceOp(p, fdIn, fdOut, c, pipe[e.res..]));
          SameChainsTrans(s, s1, OnSplice(s, e));
        }
      }
    case Close(_, fd) =>
      var s1 := s.(open := s.open - {fd});
      PlainChains(s, s1);
      DeliverChains(s1, e.id);
      SameChainsTrans(s, s1, OnClose(s, e));
  }

  lemma FilledStepChains(s: State, e: Event, public: set<string>)
    requires Allowed(s, e) && (s.ops[e.id].Openat? || s.ops[e.id].Statx?)
    ensures SameChains(s, Step(s, e, public))
  {
    hide Deliver, Filled, SameChains, OnOpenat, OnStatx;
    FilledStep(s, e, public);
    FilledChains(s, e);
    DeliverChains(Filled(s, e), e.id);
    SameChainsTrans(s, Filled(s, e), Step(s, e, public));
  }

  lemma RecvChains(s: State, e: Event, public: set<string>)
    requires Inv(s, {}) && Allowed(s, e) && s.ops[e.id].Recv?
    ensures SameChains(s, OnRecv(s, e, public))
  {
    hide Inv, SameChains, OpenEntry, StartChain, Begun, Receiving.OnChunk, PublicPath;
    var s1 := s.(ops := s.ops - {e.id});
    PlainChains(s, s1);
    var client := s.ops[e.id].client;
    match Receiving.OnChunk(s.ops[e.id].buffer, if e.res <= 0 then "" else e.data)
    case Drop =>
    case More(b) => PlainChains(s, Submit(SetHolder(s1, client, ByRecv(s1.next)), Recv(client, b)));
    case Dispatch(_, head) =>
      var path := PublicPath(public, head);
      if path.Some? {
        DeliverKeeps(s, e.id);
        BoundedOf(s1, {});
        BegunFacts(s1, client, path.value);
        BegunChains(s1, client, path.value);
        OpenEntryChains(Begun(s1, client, path.value), s1.next + 1);
        SameChainsTrans(s1, Begun(s1, client, path.value), OnRecv(s, e, public));
        SameChainsTrans(s, s1, OnRecv(s, e, public));
      }
  }

  lemma BegunChains(s: State, client: int, path: string)
    ensures SameChains(s, Begun(s, client, path))
  {
    hide Begun;
    BegunShape(s, client, path);
  }

  ghost predicate PathOpensIn(accepts: nat, public: set<string>, es: seq<Event>, path: string)
    requires IsRun(accepts, public, es)
  {
    es == [] || (PathOpensIn(accepts, public, es[..|es| - 1], path)
                 && PathOpens(After(accepts, public, es[..|es| - 1]), es[|es| - 1], path))
  }

  /** While chain q is alive, its own completions are clean and its file is not evicted. */
  ghost predicate CleanRunFor(accepts: nat, public: set<string>, es: seq<Event>, q: nat)
    requires IsRun(accepts, public, es)
  {
    es == [] ||
    (var before := es[..|es| - 1];
     && CleanRunFor(accepts, public, before, q)
     && (IsRoot(After(accepts, public, before), q) ==> CleanFor(After(accepts, public, before), es[|es| - 1], q)))
  }

  lemma {:induction false} BootFd(accepts: nat)
    ensures FdRight(Boot(accepts), {}) && Boot(accepts).pts == map[]
  {
    if accepts > 0 {
      BootFd(accepts - 1);
      BootSafe(accepts - 1);
      FreshIdsOf(Boot(accepts - 1));
      SubmitPlain(Boot(accepts - 1), Accept);
    }
  }

  /** Descriptors other than 0 are accounted for in every run, whatever fails: every such descriptor in the
      cache is open and the cache's; none is closed while anyone else answers for it; and no two chains or
      receiving connections share a client. */
  lemma {:induction false} RunAccountsForFds(accepts: nat, public: set<string>, es: seq<Event>)
    requires IsRun(accepts, public, es)
    ensures FdRight(After(accepts, public, es), {})
  {
    hide Inv, FdRight, Step, StepFrame, ChainRight;
    NobodyBooted(accepts);
    if es == [] {
      BootFd(accepts);
    } else {
      var before, e := es[..|es| - 1], es[|es| - 1];
      RunAccountsForFds(accepts, public, before);
      RunSafe(accepts, public, before);
      RunUntouched(accepts, public, before);
      UntouchedOf(After(accepts, public, before), None);
      StepDelivers(After(accepts, public, before), e, public);
    }
  }

  /** Whatever is cached for a path whose opens succeed is open, the cache's, and of the recorded size. */
  lemma {:induction false} RunKeepsPath(accepts: nat, public: set<string>, es: seq<Event>, path: string)
    requires IsRun(accepts, public, es) && PathOpensIn(accepts, public, es, path)
    ensures SoundCache(After(accepts, public, es), path) && RecordsRight(After(accepts, public, es), Some(path))
  {
    hide Inv, FdRight, Step, RecordRight;
    NobodyBooted(accepts);
    if es == [] {
      NoRecords(After(accepts, public, es), Some(path));
    } else {
      var before, e := es[..|es| - 1], es[|es| - 1];
      RunKeepsPath(accepts, public, before, path);
      RunAccountsForFds(accepts, public, before);
      RunSafe(accepts, public, before);
      StepRecords(After(accepts, public, before), e, public, Some(path));
      StepSound(After(accepts, public, before), e, public, path);
    }
  }

  lemma NoRecords(s: State, good: Option<string>)
    requires s.pts == map[]
    ensures RecordsRight(s, good)
  {
  }

  lemma {:induction false} RunKeepsChain(accepts: nat, public: set<string>, es: seq<Event>, q: nat, path: string)
    requires IsRun(accepts, public, es) && PathOpensIn(accepts, public, es, path)
    requires CleanRunFor(accepts, public, es, q)
    requires IsRoot(After(accepts, public, es), q) && After(accepts, public, es).pts[q].task.path == path
    requires After(accepts, public, es).pts[q].task.client != 0
    ensures ChainRight(After(accepts, public, es), q)
  {
    hide Inv, FdRight, ChainRight, CleanFor, Step, SoundCache, RecordsRight, SameChains, PathOpens;
    NobodyBooted(accepts);
    if es != [] {
      var before, e := es[..|es| - 1], es[|es| - 1];
      var s := After(accepts, public, before);
      RunAccountsForFds(accepts, public, before);
      RunSafe(accepts, public, before);
      RunUntouched(accepts, public, before);
      UntouchedOf(s, None);
      RunKeepsPath(accepts, public, es, path);
      StepChains(s, e, public);
      BoundedOf(s, {});
      if IsRoot(s, q) {
        OwnChain(s, Step(s, e, public), q);
        RunKeepsChain(accepts, public, before, q, path);
      }
      ChainStep(s, e, public, q);
    }
  }

  lemma OwnChain(s: State, s': State, q: nat)
    requires SameChains(s, s') && Bounded(s) && IsRoot(s, q) && IsRoot(s', q)
    ensures s'.pts[q].task.path == s.pts[q].task.path && s'.pts[q].task.client == s.pts[q].task.client
  {
  }

  // ---------- main results ----------

  /** All that a chain is meant to send. */
  ghost function Due(s: State, q: nat): string
    requires IsRoot(s, q)
  {
    s.pts[q].task.raw + s.pts[q].task.body
  }

  lemma PrefixOf(a: string, b: string, c: string)
    requires a + b == c
    ensures a <= c
  {
  }

  /** For every interleaving in which a chain's own completions are clean, its file is not evicted and
      the opens of its path succeed, whatever other chains do and whatever of theirs fails: the bytes on
      its client are at any time a prefix of the serialized headers followed by the file's bytes, and
      equal to them when the close is submitted; the headers announce the size that the file has. */
  lemma OutputIsPrefix(accepts: nat, public: set<string>, es: seq<Event>, q: nat)
    requires IsRun(accepts, public, es) && CleanRunFor(accepts, public, es, q)
    requires IsRoot(After(accepts, public, es), q) && After(accepts, public, es).pts[q].task.client != 0
    requires PathOpensIn(accepts, public, es, After(accepts, public, es).pts[q].task.path)
    ensures var s := After(accepts, public, es);
            var t := s.pts[q].task;
            && Sent(s, t.client) <= Due(s, q)
            && (s.pts[q].label_ == AtClose ==> Sent(s, t.client) == Due(s, q))
            && (s.pts[q].label_ != AtOpen ==> t.raw == HeadFor(t.file) && t.file.size == |t.body|)
  {
    hide HeadFor;
    RunKeepsChain(accepts, public, es, q, After(accepts, public, es).pts[q].task.path);
    var s := After(accepts, public, es);
    var t := s.pts[q].task;
    match s.pts[q].label_
    case AtOpen =>
    case AtSend =>
      var rest :| StageSend(s, q, rest);
      PrefixOf(Sent(s, t.client), rest, t.raw);
    case AtBody =>
      var ctx, pipe :| StageBody(s, q, ctx, pipe);
    case AtClose =>
  }

  lemma StatusLineOk()
    ensures Response.StatusText(Response.ResponseHead(RequestParser.Http11, 200, "OK")) == "HTTP/1.1 200 OK" + Request.CRLF
  {
    assert Response.Decimal(2) == "2" && Response.Decimal(20) == "20" && Response.Decimal(200) == "200";
    assert Response.CString("OK") == "OK";
  }

  predicate Printable(s: string) {
    s != "" && forall i :: 0 <= i < |s| ==> ' ' < s[i]
  }

  lemma TypePrintable(name: string)
    ensures Printable(ContentType(name))
  {
    hide Extension;
  }

  lemma PrintableSafe(name: string, v: string)
    requires Printable(name) && ':' !in name && Printable(v)
    ensures Response.WireSafe(Request.Field(name, v))
  {
  }

  lemma FileHeadersSafe(file: File)
    ensures Response.WireSafe(FileHeaders(file)[0]) && Response.WireSafe(FileHeaders(file)[1])
  {
    hide ContentType, Response.WireSafe, Response.Decimal;
    TypePrintable(file.name);
    PrintableSafe("Content-Type", ContentType(file.name));
    PrintableSafe("Content-Length", Response.Decimal(file.size));
  }

  /** The head of a file's response is a status line and a header section that reads back as the type
      and the length, and that length is the file's size. */
  lemma HeadAnnouncesSize(file: File)
    ensures var section := Response.HeaderSection(FileHeaders(file));
            && HeadFor(file) == "HTTP/1.1 200 OK" + Request.CRLF + section + Request.CRLF
            && Response.ParseFields(section) == Some(FileHeaders(file))
            && FileHeaders(file)[0] == Request.Field("Content-Type", ContentType(file.name))
            && FileHeaders(file)[1].name == "Content-Length"
            && Response.DecimalValue(FileHeaders(file)[1].value) == file.size
  {
    hide Response.HeaderSection, Response.WireSafe, Response.ParseFields, Response.DecimalInt, Response.CString,
      ContentType, Response.StatusText;
    StatusLineOk();
    FileHeadersSafe(file);
    Response.HeaderRoundTrip(FileHeaders(file));
    Response.DecimalRoundTrip(file.size);
  }

  /** A complete response: a status line, a header section that reads back as two fields, the first of which
      gives the type, and exactly as many bytes of body as the second of them, Content-Length, says. */
  ghost predicate WholeResponse(bytes: string, section: string, type_: string, body: string) {
    && bytes == "HTTP/1.1 200 OK" + Request.CRLF + section + Request.CRLF + body
    && var fields := Response.ParseFields(section);
       && fields.Some? && |fields.value| == 2
       && fields.value[0] == Request.Field("Content-Type", type_)
       && fields.value[1] == Request.Field("Content-Length", Response.Decimal(|body|))
       && Response.DecimalValue(fields.value[1].value) == |body|
  }

  /** What a chain has sent when it submits the close is a complete response with the file's bytes. */
  lemma ContentLengthIsDelivered(accepts: nat, public: set<string>, es: seq<Event>, q: nat)
    requires IsRun(accepts, public, es) && CleanRunFor(accepts, public, es, q)
    requires IsRoot(After(accepts, public, es), q) && After(accepts, public, es).pts[q].label_ == AtClose
    requires After(accepts, public, es).pts[q].task.client != 0
    requires PathOpensIn(accepts, public, es, After(accepts, public, es).pts[q].task.path)
    ensures var s := After(accepts, public, es);
            var t := s.pts[q].task;
            exists section :: WholeResponse(Sent(s, t.client), section, ContentType(t.file.name), t.body)
  {
    hide CleanRunFor, PathOpensIn, IsRun, After, Response.ParseFields, Response.HeaderSection, HeadFor, ContentType;
    OutputIsPrefix(accepts, public, es, q);
    var s := After(accepts, public, es);
    HeadAnnouncesSize(s.pts[q].task.file);
    var t := s.pts[q].task;
    assert WholeResponse(Sent(s, t.client), Response.HeaderSection(FileHeaders(t.file)), ContentType(t.file.name), t.body);
  }

  /** Whatever fails, two live chains share a client only if it is client 0. */
  lemma ClientsNotShared(accepts: nat, public: set<string>, es: seq<Event>, q: nat, q': nat)
    requires IsRun(accepts, public, es)
    requires IsRoot(After(accepts, public, es), q) && IsRoot(After(accepts, public, es), q') && q != q'
    requires After(accepts, public, es).pts[q].task.client != 0
    ensures After(accepts, public, es).pts[q].task.client != After(accepts, public, es).pts[q'].task.client
  {
    RunAccountsForFds(accepts, public, es);
    var s := After(accepts, public, es);
    assert Claims(s, s.pts[q].task.client, ByChain(q), false);
    assert Claims(s, s.pts[q'].task.client, ByChain(q'), false);
  }
}
