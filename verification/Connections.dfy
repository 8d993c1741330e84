/**
 Accepting and receiving, across everything else the event loop does: how many accepts are in flight,
 and that what becomes of a connection depends on its own bytes alone.
 */
module Connections {
  import opened Wrappers
  import opened EventLoop
  import opened EventLoopSafety
  import opened Delivery
  import opened DeliverySteps
  import opened Frames
  import opened DeliveryRuns
  import opened Completions
  import opened HeadInFull
  import DoublyLinkedList
  import RecencyList
  import Receiving
  import Request
  import RequestParser
  import SpliceAll

  // ---------- what a step does to accepts and receives ----------

  predicate Plain(op: Op) {
    op.Accept? || op.Recv?
  }

  /** The bytes a completed receive brings: none at the end of the stream or on an error. */
  function Received(e: Event): string {
    if e.res <= 0 then "" else e.data
  }

  /** The accepts and receives that take the place of a completed operation. */
  function Successors(s: State, e: Event): map<nat, Op>
    requires e.id in s.ops
  {
    match s.ops[e.id]
    case Accept => if e.res < 0 then map[] else map[s.next := Recv(e.res, ""), s.next + 1 := Accept]
    case Recv(client, buffer) =>
      var a := Receiving.OnChunk(buffer, Received(e));
      if a.More? then map[s.next := Recv(client, a.buffer)] else map[]
    case _ => map[]
  }

  /** Accepts and receives stay in flight until they complete, and come about in no other way. */
  ghost predicate PlainStep(s: State, s': State, e: Event)
    requires e.id in s.ops
  {
    && s.next <= s'.next
    && (forall id :: id in s.ops && id != e.id ==> id in s'.ops && s'.ops[id] == s.ops[id])
    && (forall id :: id in Successors(s, e) ==> id in s'.ops && s'.ops[id] == Successors(s, e)[id])
    && (forall id :: id in s'.ops && Plain(s'.ops[id]) ==>
          (id in s.ops && id != e.id && s'.ops[id] == s.ops[id]) || id in Successors(s, e))
  }

  lemma DeliverPlain(s: State, s1: State, e: Event)
    requires Bounded(s) && e.id in s.ops && !Plain(s.ops[e.id]) && s1.ops == s.ops && s1.next == s.next
    ensures PlainStep(s, Deliver(s1, e.id), e)
  {
    hide Deliver;
    DeliverGrows(s1, e.id);
    assert Successors(s, e) == map[];
  }

  lemma ResubmitPlain(s: State, s1: State, e: Event, op: Op)
    requires Bounded(s) && e.id in s.ops && !Plain(s.ops[e.id]) && !Plain(op) && s1.ops == s.ops && s1.next == s.next
    ensures PlainStep(s, Resubmit(s1, e.id, op), e)
  {
    assert Successors(s, e) == map[];
  }

  lemma ChainPlain(s: State, e: Event, public: set<string>)
    requires Inv(s, {}) && Allowed(s, e) && !Plain(s.ops[e.id])
    ensures PlainStep(s, Step(s, e, public), e)
  {
    hide Inv, Deliver, Resubmit, PlainStep, Bounded, WithFile;
    BoundedState(s);
    match s.ops[e.id]
    case Openat(p, _) =>
      DeliverPlain(s, s, e);
      var root := if p in s.pts && s.pts[p].caller.Some? then s.pts[p].caller.value else 0;
      var s1 := s.(open := s.open[e.res := FileDesc(e.data, ByOpening(root))]);
      WithFilePlain(s1, p, Some(e.res), None);
      DeliverPlain(s, WithFile(s1, p, Some(e.res), None), e);
    case Statx(p, _) =>
      DeliverPlain(s, s, e);
      WithFilePlain(s, p, None, Some(e.size));
      DeliverPlain(s, WithFile(s, p, None, Some(e.size)), e);
    case SendOp(p, client, buffer) =>
      DeliverPlain(s, s, e);
      if e.res >= 0 {
        var s1 := s.(out := s.out[client := Sent(s, client) + buffer[..e.res]]);
        DeliverPlain(s, s1, e);
        ResubmitPlain(s, s1, e, SendOp(p, client, buffer[e.res..]));
      }
    case SpliceOp(p, fdIn, fdOut, ctx, pipe) =>
      DeliverPlain(s, s, e);
      if e.res >= 0 {
        var c := SpliceAll.Complete(ctx, e.res).0;
        ResubmitPlain(s, s, e, SpliceOp(p, fdIn, fdOut, c, pipe + e.data));
        if ctx.isDraining {
          var s1 := s.(out := s.out[fdOut := Sent(s, fdOut) + pipe[..e.res]]);
          DeliverPlain(s, s1, e);
          ResubmitPlain(s, s1, e, SpliceOp(p, fdIn, fdOut, c, pipe[e.res..]));
        }
      }
    case Close(_, fd) =>
      DeliverPlain(s, s.(open := s.open - {fd}), e);
  }

  lemma WithFilePlain(s: State, p: nat, fd: Option<int>, size: Option<nat>)
    ensures WithFile(s, p, fd, size).ops == s.ops && WithFile(s, p, fd, size).next == s.next
  {
  }

  lemma BoundedState(s: State)
    requires Inv(s, {})
    ensures Bounded(s)
  {
    hide Balanced, CacheRight;
  }

  lemma RecvPlain(s: State, e: Event, public: set<string>)
    requires Inv(s, {}) && Allowed(s, e) && s.ops[e.id].Recv?
    ensures PlainStep(s, OnRecv(s, e, public), e)
  {
    hide Inv, OpenEntry, StartChain, PublicPath, Receiving.OnChunk, Begun;
    BoundedState(s);
    var s1 := s.(ops := s.ops - {e.id});
    match Receiving.OnChunk(s.ops[e.id].buffer, Received(e))
    case Drop =>
    case More(_) =>
    case Dispatch(_, head) =>
      var path := PublicPath(public, head);
      if path.Some? {
        BegunFacts(s1, s.ops[e.id].client, path.value);
        BegunOps(s1, s.ops[e.id].client, path.value);
        OpenEntryGrows(Begun(s1, s.ops[e.id].client, path.value), s.next + 1);
      }
  }

  lemma BegunOps(s: State, client: int, path: string)
    ensures Begun(s, client, path).ops == s.ops
  {
  }

  lemma StepPlain(s: State, e: Event, public: set<string>)
    requires Inv(s, {}) && Allowed(s, e)
    ensures PlainStep(s, Step(s, e, public), e)
  {
    hide Inv, OnRecv, OnOpenat, OnStatx, OnSend, OnSplice, OnClose, PlainStep;
    if s.ops[e.id].Accept? {
      AcceptPlain(s, e);
    } else if s.ops[e.id].Recv? {
      RecvPlain(s, e, public);
    } else {
      ChainPlain(s, e, public);
    }
  }

  lemma AcceptPlain(s: State, e: Event)
    requires Inv(s, {}) && e.id in s.ops && s.ops[e.id].Accept?
    ensures PlainStep(s, OnAccept(s, e), e)
  {
    hide Inv;
    BoundedState(s);
  }

  // ---------- accepts ----------

  ghost function Accepts(s: State): set<nat> {
    set id | id in s.ops && s.ops[id].Accept?
  }

  /** Accepts that completed with an error. */
  ghost function FailedAccepts(accepts: nat, public: set<string>, es: seq<Event>): nat
    requires IsRun(accepts, public, es)
  {
    if es == [] then 0
    else
      var before, e := es[..|es| - 1], es[|es| - 1];
      FailedAccepts(accepts, public, before)
      + if After(accepts, public, before).ops[e.id].Accept? && e.res < 0 then 1 else 0
  }

  lemma AcceptsAre(s: State, s': State, e: Event)
    requires Bounded(s) && e.id in s.ops && PlainStep(s, s', e)
    ensures !s.ops[e.id].Accept? ==> Accepts(s') == Accepts(s)
    ensures s.ops[e.id].Accept? ==> Accepts(s') == Accepts(s) - {e.id} + if e.res < 0 then {} else {s.next + 1}
  {
    var more := if s.ops[e.id].Accept? && e.res >= 0 then {s.next + 1} else {};
    SuccessorAccepts(s, e);
    forall id ensures id in Accepts(s') <==> (id in Accepts(s) && id != e.id) || id in more {
    }
  }

  lemma SuccessorAccepts(s: State, e: Event)
    requires e.id in s.ops
    ensures forall id :: id in Successors(s, e) ==>
                           (Successors(s, e)[id].Accept? <==> s.ops[e.id].Accept? && e.res >= 0 && id == s.next + 1)
    ensures s.ops[e.id].Accept? && e.res >= 0 ==> s.next + 1 in Successors(s, e)
    ensures forall id :: id in Successors(s, e) ==> s.next <= id
  {
    hide Receiving.OnChunk;
  }

  lemma AcceptsStep(s: State, s': State, e: Event)
    requires Bounded(s) && e.id in s.ops && PlainStep(s, s', e)
    ensures |Accepts(s')| + (if s.ops[e.id].Accept? && e.res < 0 then 1 else 0) == |Accepts(s)|
  {
    hide PlainStep, Successors;
    AcceptsAre(s, s', e);
    assert s.next + 1 !in Accepts(s);
  }

  /** Over every run the accepts in flight are those submitted at the start less those that failed: a
      successful one is replaced at once, a failed one never is. */
  lemma {:induction false} AcceptsConserved(accepts: nat, public: set<string>, es: seq<Event>)
    requires IsRun(accepts, public, es)
    ensures |Accepts(After(accepts, public, es))| + FailedAccepts(accepts, public, es) == accepts
  {
    hide Step, Inv, PlainStep;
    if es == [] {
      BootAccepts(accepts);
    } else {
      var before, e := es[..|es| - 1], es[|es| - 1];
      AcceptsConserved(accepts, public, before);
      RunSafe(accepts, public, before);
      var s := After(accepts, public, before);
      BoundedState(s);
      StepPlain(s, e, public);
      AcceptsStep(s, Step(s, e, public), e);
    }
  }

  lemma {:induction false} BootAccepts(accepts: nat)
    ensures |Accepts(Boot(accepts))| == accepts && Bounded(Boot(accepts))
  {
    if accepts > 0 {
      BootAccepts(accepts - 1);
      assert Accepts(Boot(accepts)) == Accepts(Boot(accepts - 1)) + {Boot(accepts - 1).next};
    } else {
      assert Accepts(Boot(0)) == {};
    }
  }

  // ---------- receives ----------

  /** What the connection whose receive is `id` after the run has received so far, chunk by chunk. */
  ghost function Chunks(accepts: nat, public: set<string>, es: seq<Event>, id: nat): seq<string>
    requires IsRun(accepts, public, es)
  {
    if es == [] then []
    else
      var before, e := es[..|es| - 1], es[|es| - 1];
      var s := After(accepts, public, before);
      if id in s.ops then Chunks(accepts, public, before, id)
      else if s.ops[e.id].Recv? then Chunks(accepts, public, before, e.id) + [Received(e)]
      else []
  }

  lemma {:induction false} ReceiveSnoc(buffer: string, chunks: seq<string>, chunk: string)
    requires Receiving.Receive(buffer, chunks).More?
    ensures Receiving.Receive(buffer, chunks + [chunk])
            == Receiving.OnChunk(Receiving.Receive(buffer, chunks).buffer, chunk)
    decreases |chunks|
  {
    hide Receiving.OnChunk;
    if chunks == [] {
      assert [chunk][1..] == [];
    } else {
      ReceiveSnoc(Receiving.OnChunk(buffer, chunks[0]).buffer, chunks[1..], chunk);
      assert (chunks + [chunk])[1..] == chunks[1..] + [chunk];
    }
  }

  lemma {:induction false} OfferedSnoc(buffer: string, chunks: seq<string>, chunk: string)
    requires Receiving.Offered(buffer, chunks) && Receiving.Receive(buffer, chunks).More?
    requires var b := Receiving.Receive(buffer, chunks).buffer; |b| + |chunk| <= Receiving.Room(b)
    ensures Receiving.Offered(buffer, chunks + [chunk])
    decreases |chunks|
  {
    hide Receiving.OnChunk, Receiving.Room;
    if chunks == [] {
      assert [chunk][1..] == [];
    } else {
      OfferedSnoc(Receiving.OnChunk(buffer, chunks[0]).buffer, chunks[1..], chunk);
      assert (chunks + [chunk])[1..] == chunks[1..] + [chunk];
    }
  }

  lemma UndecidedSoFar(buffer: string, chunk: string)
    requires Receiving.OnChunk(buffer, chunk).More?
    ensures Request.Decompose(Receiving.OnChunk(buffer, chunk).buffer).Incomplete?
  {
    hide Request.Decompose;
  }

  /** Whatever else completes in between, a receive in flight has in its buffer what its connection's
      own chunks have left undecided. */
  lemma {:induction false} BufferIsOwnStream(accepts: nat, public: set<string>, es: seq<Event>, id: nat)
    requires IsRun(accepts, public, es)
    requires id in After(accepts, public, es).ops && After(accepts, public, es).ops[id].Recv?
    ensures Receiving.Receive("", Chunks(accepts, public, es, id))
            == Receiving.More(After(accepts, public, es).ops[id].buffer)
    ensures Request.Decompose(After(accepts, public, es).ops[id].buffer).Incomplete?
    ensures Receiving.Offered("", Chunks(accepts, public, es, id))
  {
    hide Step, Inv, Receiving.OnChunk, Receiving.Room, Request.Decompose;
    Receiving.NothingIncomplete();
    if es == [] {
      BootOps(accepts);
    } else {
      var before, e := es[..|es| - 1], es[|es| - 1];
      var s := After(accepts, public, before);
      RunSafe(accepts, public, before);
      BoundedState(s);
      StepPlain(s, e, public);
      SuccessorAccepts(s, e);
      if id in s.ops {
        BufferIsOwnStream(accepts, public, before, id);
      } else if s.ops[e.id].Recv? {
        BufferIsOwnStream(accepts, public, before, e.id);
        ReceiveSnoc("", Chunks(accepts, public, before, e.id), Received(e));
        FitsOffer(s, e);
        OfferedSnoc("", Chunks(accepts, public, before, e.id), Received(e));
        UndecidedSoFar(s.ops[e.id].buffer, Received(e));
      }
    }
  }

  lemma FitsOffer(s: State, e: Event)
    requires Allowed(s, e) && s.ops[e.id].Recv? && Request.Decompose(s.ops[e.id].buffer).Incomplete?
    ensures |s.ops[e.id].buffer| + |Received(e)| <= Receiving.Room(s.ops[e.id].buffer)
  {
    hide Request.Decompose;
    Receiving.RoomStays(s.ops[e.id].buffer);
    Receiving.ShortYet(s.ops[e.id].buffer);
  }

  lemma {:induction false} BootOps(accepts: nat)
    ensures forall id :: id in Boot(accepts).ops ==> Boot(accepts).ops[id].Accept?
  {
    if accepts > 0 {
      BootOps(accepts - 1);
    }
  }

  /** What a completed receive leads to is decided by the connection's own chunks: it is dropped, it
      receives again, or the head it has sent is dispatched, which starts a chain on this client for the
      public file asked for, if there is one. */
  lemma ChunksDecide(accepts: nat, public: set<string>, es: seq<Event>, e: Event)
    requires IsRun(accepts, public, es) && Allowed(After(accepts, public, es), e)
    requires After(accepts, public, es).ops[e.id].Recv?
    ensures var s := After(accepts, public, es);
            var s' := Step(s, e, public);
            var client := s.ops[e.id].client;
            var s1 := s.(ops := s.ops - {e.id});
            match Receiving.Receive("", Chunks(accepts, public, es, e.id) + [Received(e)])
            case Drop => s' == s1
            case More(b) => s'.ops == s1.ops[s.next := Recv(client, b)] && s'.pts == s.pts
            case Dispatch(_, head) =>
              var path := PublicPath(public, head);
              s' == if path.Some? then StartChain(s1, client, path.value) else s1
  {
    hide StartChain, PublicPath, Receiving.OnChunk, After, IsRun, Chunks;
    BufferIsOwnStream(accepts, public, es, e.id);
    ReceiveSnoc("", Chunks(accepts, public, es, e.id), Received(e));
  }

  /** The chunks of a connection fit the room offered for them. */
  lemma ChunksOffered(accepts: nat, public: set<string>, es: seq<Event>, e: Event)
    requires IsRun(accepts, public, es) && Allowed(After(accepts, public, es), e)
    requires After(accepts, public, es).ops[e.id].Recv?
    ensures Receiving.Offered("", Chunks(accepts, public, es, e.id) + [Received(e)])
  {
    hide After, IsRun, Chunks, Request.Decompose, Receiving.Offered, Receiving.Room, Receiving.Receive;
    BufferIsOwnStream(accepts, public, es, e.id);
    FitsOffer(After(accepts, public, es), e);
    OfferedSnoc("", Chunks(accepts, public, es, e.id), Received(e));
  }

  /** End to end: take a stream whose first blank line ends within 4096 bytes, or whose head is
      malformed. However the network cuts it, and whatever other
      connections do meanwhile, once its last chunk is in the connection has been dealt with as the
      whole stream deserves. */
  lemma StreamDecides(accepts: nat, public: set<string>, es: seq<Event>, e: Event, stream: string, end: nat)
    requires IsRun(accepts, public, es) && Allowed(After(accepts, public, es), e)
    requires After(accepts, public, es).ops[e.id].Recv?
    requires Receiving.Chunking(Chunks(accepts, public, es, e.id) + [Received(e)], stream)
    requires Request.FirstEnd(stream, end)
    requires end + 4 <= 4096 || Request.Decompose(stream).Bad?
    ensures var s := After(accepts, public, es);
            var s1 := s.(ops := s.ops - {e.id});
            Step(s, e, public)
            == match Receiving.Settled(stream)
               case Dispatch(_, head) =>
                 var path := PublicPath(public, head);
                 if path.Some? then StartChain(s1, s.ops[e.id].client, path.value) else s1
               case _ => s1
  {
    hide Step, StartChain, PublicPath, After, IsRun, Chunks, Allowed, Request.Decompose, Request.FirstEnd,
         Receiving.Offered, Receiving.Room, Receiving.Receive;
    Receiving.ChunkingIrrelevant(stream, end);
    ChunksOffered(accepts, public, es, e);
    ChunksDecide(accepts, public, es, e);
  }

  /** What an accept leads to: with an error nothing, not even another accept; otherwise a receive on the new
      connection and the next accept. */
  lemma AcceptLeads(accepts: nat, public: set<string>, es: seq<Event>, e: Event)
    requires IsRun(accepts, public, es) && Allowed(After(accepts, public, es), e)
    requires After(accepts, public, es).ops[e.id].Accept?
    ensures var s := After(accepts, public, es);
            var s' := Step(s, e, public);
            var ended := s.(ops := s.ops - {e.id});
            if e.res < 0 then s' == ended
            else && s'.ops == ended.ops[s.next := Recv(e.res, "")][s.next + 1 := Accept] && s'.pts == s.pts
                 && s'.cache == s.cache && s'.log == s.log && Sent(s', e.res) == ""
                 && s'.open.Keys == s.open.Keys + {e.res} && forall c :: c != e.res ==> Sent(s', c) == Sent(s, c)
  {
    hide IsRun, After;
  }

  // ---------- what a completed receive leads to, in bytes ----------

  /** Fewer than 4096 bytes and no blank line yet. */
  ghost predicate StillOpen(b: string) {
    |b| < 4096 && forall j :: !Request.BlankLineAt(b, j)
  }

  /** The end of the stream or an error ends the connection: the context is gone, and nothing else happens. */
  lemma RecvEnds(accepts: nat, public: set<string>, es: seq<Event>, e: Event)
    requires IsRun(accepts, public, es) && Allowed(After(accepts, public, es), e)
    requires After(accepts, public, es).ops[e.id].Recv? && e.res <= 0
    ensures var s := After(accepts, public, es); Step(s, e, public) == s.(ops := s.ops - {e.id})
  {
  }

  /** What a chunk makes of the buffer. */
  lemma ChunkDecides(buffer: string, chunk: string)
    requires Request.Decompose(buffer).Incomplete? && chunk != "" && |buffer| + |chunk| <= Receiving.Room(buffer)
    ensures var b := buffer + chunk;
            && (StillOpen(b) <==> Receiving.OnChunk(buffer, chunk) == Receiving.More(b))
            && (!StillOpen(b) && (forall n, v, u, fs :: 0 <= n <= |b| ==> !HeadBytes(b[..n], v, u, fs)) ==>
                  Receiving.OnChunk(buffer, chunk) == Receiving.Drop)
            && forall n, v, u, fs :: 0 <= n <= |b| && HeadBytes(b[..n], v, u, fs) ==>
                 Receiving.OnChunk(buffer, chunk).Dispatch?
                 && Receiving.OnChunk(buffer, chunk).head.verb == v && Receiving.OnChunk(buffer, chunk).head.uri == u
  {
    hide Request.Decompose, HeadBytes, Request.BlankLineAt;
    var b := buffer + chunk;
    Receiving.RoomStays(buffer);
    Request.IncompleteExactly(b);
    RequestParser.CompleteExactly(b);
    forall n, v, u, fs | 0 <= n <= |b| && HeadBytes(b[..n], v, u, fs)
      ensures Receiving.OnChunk(buffer, chunk).Dispatch?
              && Receiving.OnChunk(buffer, chunk).head.verb == v && Receiving.OnChunk(buffer, chunk).head.uri == u
    {
      AcceptedExactly(b, n, v, u, fs);
    }
  }

  /** The file is in the cache under its path, and its head is being sent to the client. */
  ghost predicate SendsCached(s: State, s': State, r: nat, client: int, path: string) {
    exists i, id, c: nat :: && 0 <= i < |s.cache| && s.cache[i].0 == path && IsRoot(s', r) && s'.pts[r].task.file == s.cache[i].1
                       && id in s'.ops && s'.ops[id] == SendOp(c, client, HeadFor(s.cache[i].1))
                       && s'.pts[r].task.child == Some(c)
  }

  /** The file is not in the cache, and an open of its path is in flight. */
  ghost predicate OpensFile(s: State, s': State, r: nat, path: string) {
    && (forall i :: 0 <= i < |s.cache| ==> s.cache[i].0 != path)
    && exists id, c: nat :: id in s'.ops && s'.ops[id] == Openat(c, path) && c in s'.pts && s'.pts[c].caller == Some(r)
  }

  /** A chain on this client for the file at this path has been started. */
  ghost predicate Started(s: State, s': State, client: int, path: string) {
    && s.next !in s.pts && IsRoot(s', s.next) && s'.pts[s.next].task.client == client && s'.pts[s.next].task.path == path
    && (SendsCached(s, s', s.next, client, path) || OpensFile(s, s', s.next, path))
  }

  /** What the bytes received so far lead to. While they are no whole head, the connection receives again;
      a head with the URI "/" has the index page sent, a GET with a dot in the URI the public file of that
      name; any other head, and anything that is no head, starts nothing. */
  lemma RecvLeads(accepts: nat, public: set<string>, es: seq<Event>, e: Event)
    requires IsRun(accepts, public, es) && Allowed(After(accepts, public, es), e)
    requires After(accepts, public, es).ops[e.id].Recv? && e.res > 0
    ensures var s := After(accepts, public, es);
            var s' := Step(s, e, public);
            var client, b := s.ops[e.id].client, s.ops[e.id].buffer + e.data;
            var ended := s.(ops := s.ops - {e.id});
            && (StillOpen(b) ==>
                  && s'.ops == ended.ops[s.next := Recv(client, b)] && s'.pts == s.pts && s'.cache == s.cache
                  && s'.out == s.out && s'.log == s.log)
            && (!StillOpen(b) && (forall n, v, u, fs :: 0 <= n <= |b| ==> !HeadBytes(b[..n], v, u, fs)) ==> s' == ended)
            && forall n, v, u, fs :: 0 <= n <= |b| && HeadBytes(b[..n], v, u, fs) ==>
                 if u == "/" then Started(s, s', client, "assets/public/index.html")
                 else if v == Request.Get && '.' in u && u in public then Started(s, s', client, "assets/public" + u)
                 else s' == ended
  {
    hide IsRun, After, StartChain, Request.Decompose, HeadBytes, Request.BlankLineAt, Receiving.OnChunk, Receiving.Room,
         Inv, FdRight, Started;
    var s := After(accepts, public, es);
    BufferIsOwnStream(accepts, public, es, e.id);
    ChunkDecides(s.ops[e.id].buffer, e.data);
    RunSafe(accepts, public, es);
    RunAccountsForFds(accepts, public, es);
    match Receiving.OnChunk(s.ops[e.id].buffer, e.data)
    case Drop =>
    case More(_) =>
    case Dispatch(_, head) =>
      var path := PublicPath(public, head);
      if path.Some? {
        ChainStarted(s, e.id, s.ops[e.id].client, path.value);
      }
  }

  lemma ChainStarted(s: State, id: nat, client: int, path: string)
    requires Inv(s, {}) && FdRight(s, {}) && id in s.ops && s.ops[id].Recv? && s.ops[id].client == client
    ensures Started(s, StartChain(s.(ops := s.ops - {id}), client, path), client, path)
  {
    hide Inv, FdRight, OpenEntry, Begun, Claims, StartChain, SameChains, Agree, SameFiles, ChainRight;
    var s1 := s.(ops := s.ops - {id});
    RecvClaim(s, id);
    RemoveOpFd(s, id);
    DeliverKeeps(s, id);
    FreshIdsOf(s);
    ClaimsOutside(s, s1);
    StartChainFd(s1, client, path, id);
    BegunFacts(s1, client, path);
    BegunShape(s1, client, path);
    OpenEntryChains(Begun(s1, client, path), s1.next + 1);
    SamePath(Begun(s1, client, path), StartChain(s1, client, path), s1.next);
    FirstOperation(s, s1, client, path);
  }

  lemma FirstOperation(s: State, s1: State, client: int, path: string)
    requires Inv(s1, {}) && s1.cache == s.cache && s1.next == s.next
    ensures var s' := StartChain(s1, client, path);
            SendsCached(s, s', s.next, client, path) || OpensFile(s, s', s.next, path)
  {
    hide Inv, OpenEntry, StartChain, Begun, Basename, HeadFor, RecencyList.Find, DoublyLinkedList.Moved;
    var r := s1.next;
    BoundedOf(s1, {});
    BegunShape(s1, client, path);
    BegunFacts(s1, client, path);
    BegunFiles(s1, client, path);
    BegunInv(s1, client, path);
    var s3 := Begun(s1, client, path);
    EntryLeads(s3, r + 1, r);
    var i := RecencyList.Find(s.cache, path);
    if i < |s.cache| {
      assert SendsHead(s3, StartChain(s1, client, path), r, s.cache[i].1);
    } else {
      assert s3.next in StartChain(s1, client, path).ops;
    }
  }

  lemma SamePath(s: State, s': State, q: nat)
    requires SameChains(s, s') && IsRoot(s, q) && IsRoot(s', q) && q < s.next
    ensures s'.pts[q].task.path == s.pts[q].task.path
  {
  }

  // ---------- receives, counted ----------

  ghost function Receives(s: State): set<nat> {
    set id | id in s.ops && s.ops[id].Recv?
  }

  /** A receive that is not followed by another: the end of the stream, an error, a whole head or a bad one. */
  ghost predicate LastReceive(s: State, e: Event) {
    e.id in s.ops && s.ops[e.id].Recv? && (e.res <= 0 || !StillOpen(s.ops[e.id].buffer + e.data))
  }

  ghost function LastReceives(accepts: nat, public: set<string>, es: seq<Event>): nat
    requires IsRun(accepts, public, es)
  {
    if es == [] then 0
    else
      var before := es[..|es| - 1];
      LastReceives(accepts, public, before) + if LastReceive(After(accepts, public, before), es[|es| - 1]) then 1 else 0
  }

  ghost predicate Connects(s: State, e: Event) {
    e.id in s.ops && s.ops[e.id].Accept? && e.res >= 0
  }

  /** Connections accepted. */
  ghost function Connected(accepts: nat, public: set<string>, es: seq<Event>): nat
    requires IsRun(accepts, public, es)
  {
    if es == [] then 0
    else
      var before := es[..|es| - 1];
      Connected(accepts, public, before) + if Connects(After(accepts, public, before), es[|es| - 1]) then 1 else 0
  }

  lemma ReceivesAre(s: State, s': State, e: Event)
    requires Bounded(s) && e.id in s.ops && PlainStep(s, s', e)
    requires s.ops[e.id].Recv? ==> (LastReceive(s, e) <==> Successors(s, e) == map[])
    ensures Receives(s')
            == Receives(s) - {e.id} + if LastReceive(s, e) || !(Connects(s, e) || s.ops[e.id].Recv?) then {} else {s.next}
  {
    hide StillOpen, Receiving.OnChunk;
    var more := if LastReceive(s, e) || !(Connects(s, e) || s.ops[e.id].Recv?) then {} else {s.next};
    NextReceive(s, e);
    forall id ensures id in Receives(s') <==> (id in Receives(s) && id != e.id) || id in more {
    }
  }

  lemma NextReceive(s: State, e: Event)
    requires e.id in s.ops
    ensures forall id :: id in Successors(s, e) && Successors(s, e)[id].Recv? ==> id == s.next
    ensures Connects(s, e) || (s.ops[e.id].Recv? && Successors(s, e) != map[]) ==>
              s.next in Successors(s, e) && Successors(s, e)[s.next].Recv?
    ensures !Connects(s, e) && !s.ops[e.id].Recv? ==> Successors(s, e) == map[]
  {
    hide Receiving.OnChunk;
  }

  lemma ReceivesStep(s: State, s': State, e: Event)
    requires Bounded(s) && e.id in s.ops && PlainStep(s, s', e)
    requires s.ops[e.id].Recv? ==> (LastReceive(s, e) <==> Successors(s, e) == map[])
    ensures |Receives(s')| + (if LastReceive(s, e) then 1 else 0) == |Receives(s)| + if Connects(s, e) then 1 else 0
  {
    hide PlainStep, Successors, StillOpen;
    ReceivesAre(s, s', e);
    assert s.next !in Receives(s);
  }

  lemma LastIfNone(s: State, e: Event)
    requires Allowed(s, e) && s.ops[e.id].Recv? && Request.Decompose(s.ops[e.id].buffer).Incomplete?
    ensures LastReceive(s, e) <==> Successors(s, e) == map[]
  {
    hide Request.Decompose, Receiving.OnChunk, StillOpen;
    if e.res > 0 {
      ChunkDecides(s.ops[e.id].buffer, e.data);
      WhatElse(s.ops[e.id].buffer, e.data);
      assert Successors(s, e) != map[] <==> s.next in Successors(s, e);
    } else {
      NoChunk(s.ops[e.id].buffer);
    }
  }

  lemma NoChunk(buffer: string)
    ensures Receiving.OnChunk(buffer, "") == Receiving.Drop
  {
  }

  lemma WhatElse(buffer: string, chunk: string)
    ensures Receiving.OnChunk(buffer, chunk).More? ==> Receiving.OnChunk(buffer, chunk) == Receiving.More(buffer + chunk)
  {
  }

  /** Over every run the receives in flight are the connections accepted less those done with: each has one
      receive in flight until its stream ends or fails, or its head is whole or bad, and none from then on. */
  lemma {:induction false} ReceivesConserved(accepts: nat, public: set<string>, es: seq<Event>)
    requires IsRun(accepts, public, es)
    ensures |Receives(After(accepts, public, es))| + LastReceives(accepts, public, es) == Connected(accepts, public, es)
  {
    hide Step, Inv, PlainStep, Successors, LastReceive, Connects, Request.Decompose;
    if es == [] {
      BootOps(accepts);
      assert Receives(Boot(accepts)) == {};
    } else {
      var before, e := es[..|es| - 1], es[|es| - 1];
      ReceivesConserved(accepts, public, before);
      RunSafe(accepts, public, before);
      var s := After(accepts, public, before);
      BoundedState(s);
      StepPlain(s, e, public);
      if s.ops[e.id].Recv? {
        BufferIsOwnStream(accepts, public, before, e.id);
        LastIfNone(s, e);
      }
      ReceivesStep(s, Step(s, e, public), e);
    }
  }
}
