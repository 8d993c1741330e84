/**
 The event loop as a protocol. The state holds the operations in flight, the suspended protothreads,
 the file cache, the open descriptors and what has been sent to each client. A step lets the kernel
 complete any operation in flight with any result within its bounds and runs the handler, which may
 resume protothreads along their caller chain and submit further operations.

 Touching a protothread that is not allocated, resuming one that is not suspended, suspending one
 that is, or adding a label to the cache twice sets `fault`, so that "no fault" is a safety property.
 */
module EventLoop {
  import opened Wrappers
  import opened DoublyLinkedList
  import opened RecencyList
  import Request
  import RequestParser
  import Response
  import Receiving
  import SpliceAll

  const CACHE_SIZE := 16

  datatype File = File(fd: int, name: string, size: nat)

  // Who answers for an open descriptor; an auxiliary record that no handler consults.
  datatype Holder = ByCache(path: string) | ByOpening(root: nat) | ByClosing(op: nat)
                  | ByRecv(op: nat) | ByChain(root: nat)
  datatype Desc = FileDesc(content: string, holder: Holder) | ClientDesc(holder: Holder)

  // A protothread's routine together with its locals. `child` is the state of the routine it called;
  // `body` is auxiliary: the content of the file as it was when opened or found in the cache.
  datatype Task =
    | SendFile(client: int, path: string, file: File, raw: string, body: string, child: Option<nat>)
    | OpenFile(path: string)
    | SendBuffer(buffer: string, client: int)
    | SendBody(client: int)

  // resume_label: the PT_WAIT at which the routine is to go on.
  datatype Label = Fresh | AtOpen | AtSend | AtBody | AtClose | AtOpenat | AtStatx | AtSendOp | AtSplice

  // `suspended` and `op`, the operation waited for, are auxiliary.
  datatype Pt = Pt(task: Task, label_: Label, caller: Option<nat>, suspended: bool, op: Option<nat>)

  datatype Op =
    | Accept
    | Recv(client: int, buffer: string)
    | Openat(pt: nat, path: string)
    | Statx(pt: nat, fd: int)
    | SendOp(pt: nat, client: int, buffer: string)
    | SpliceOp(pt: nat, fdIn: int, fdOut: int, ctx: SpliceAll.Context, pipe: string)
    | Close(waiter: Option<nat>, fd: int)

  datatype Mark = Waited(pt: nat) | Resumed(pt: nat)

  datatype State = State(pts: map<nat, Pt>, ops: map<nat, Op>, next: nat, cache: seq<(string, File)>,
                         open: map<int, Desc>, out: map<int, string>, log: seq<Mark>, fault: bool)

  // A completion: the operation, the kernel's result, the bytes it brought, the size statx found.
  datatype Event = Event(id: nat, res: int, data: string, size: nat)

  function Waiter(op: Op): Option<nat> {
    match op
    case Accept => None
    case Recv(_, _) => None
    case Close(w, _) => w
    case Openat(p, _) => Some(p)
    case Statx(p, _) => Some(p)
    case SendOp(p, _, _) => Some(p)
    case SpliceOp(p, _, _, _, _) => Some(p)
  }

  function Sent(s: State, client: int): string {
    if client in s.out then s.out[client] else ""
  }

  // ---------- primitive actions ----------

  function Fault(s: State): State {
    s.(fault := true)
  }

  function Submit(s: State, op: Op): State {
    s.(ops := s.ops[s.next := op], next := s.next + 1)
  }

  function SetHolder(s: State, fd: int, h: Holder): State {
    if fd in s.open then s.(open := s.open[fd := s.open[fd].(holder := h)]) else s
  }

  /** The bookkeeping of PT_WAIT for a wait on a called routine. */
  function Suspend(s: State, p: nat, label_: Label): State {
    if p !in s.pts || s.pts[p].suspended then Fault(s)
    else s.(pts := s.pts[p := s.pts[p].(label_ := label_, suspended := true)], log := s.log + [Waited(p)])
  }

  /** PT_WAIT on an operation: record where to go on, then submit. */
  function SuspendOn(s: State, p: nat, label_: Label, op: Op): State {
    if p !in s.pts || s.pts[p].suspended then Fault(s)
    else
      Submit(s, op).(pts := s.pts[p := s.pts[p].(label_ := label_, suspended := true, op := Some(s.next))],
                     log := s.log + [Waited(p)])
  }

  /** Entering a routine again through `self`, by its operation or by the routine it called. */
  function Wake(s: State, p: nat): State {
    if p !in s.pts || !s.pts[p].suspended then Fault(s)
    else s.(pts := s.pts[p := s.pts[p].(suspended := false, op := None)], log := s.log + [Resumed(p)])
  }

  function IsRoot(s: State, r: nat): bool {
    r in s.pts && s.pts[r].task.SendFile?
  }

  function Spawn(s: State, r: nat, task: Task): State {
    if !IsRoot(s, r) then Fault(s)
    else
      s.(pts := s.pts[r := s.pts[r].(task := s.pts[r].task.(child := Some(s.next)))]
                     [s.next := Pt(task, Fresh, Some(r), false, None)],
         next := s.next + 1)
  }

  /** Freeing the state of the routine that has returned. */
  function FreeChild(s: State, r: nat): State {
    if !IsRoot(s, r) || s.pts[r].task.child.None? then Fault(s)
    else s.(pts := s.pts[r := s.pts[r].(task := s.pts[r].task.(child := None))] - {s.pts[r].task.child.value})
  }

  function SetFile(s: State, r: nat, file: File): State {
    if !IsRoot(s, r) then Fault(s)
    else s.(pts := s.pts[r := s.pts[r].(task := s.pts[r].task.(file := file))])
  }

  function SetRaw(s: State, r: nat, raw: string, body: string): State {
    if !IsRoot(s, r) then Fault(s)
    else s.(pts := s.pts[r := s.pts[r].(task := s.pts[r].task.(raw := raw, body := body))])
  }

  function Retire(s: State, p: nat): State {
    s.(pts := s.pts - {p})
  }

  // ---------- route_callback_send_file ----------

  function Extension(name: string, i: nat): string
    requires i <= |name|
  {
    if i == 0 then "" else if name[i - 1] == '.' then name[i..] else Extension(name, i - 1)
  }

  /** content_type_val_helper. */
  function TypeByExtension(ext: string): string {
    if ext == "html" then "text/html"
    else if ext == "css" then "text/css"
    else if ext == "js" then "text/javascript"
    else if ext == "json" then "application/json"
    else if ext == "jpg" || ext == "jpeg" then "image/jpeg"
    else if ext == "png" then "image/png"
    else if ext == "gif" then "image/gif"
    else if ext == "webp" then "image/webp"
    else if ext == "svg" then "image/svg+xml"
    else if ext == "ico" then "image/x-icon"
    else "application/octet-stream"
  }

  function ContentType(name: string): string {
    TypeByExtension(Extension(name, |name|))
  }

  function FileHeaders(file: File): seq<Request.Field> {
    [Request.Field("Content-Type", ContentType(file.name)),
     Request.Field("Content-Length", Response.Decimal(file.size))]
  }

  function HeadFor(file: File): string {
    Response.Serialize(Response.ResponseHead(RequestParser.Http11, 200, "OK"), FileHeaders(file), None)
  }

  function ContentOf(s: State, fd: int): string {
    if fd in s.open && s.open[fd].FileDesc? then s.open[fd].content else ""
  }

  /** From the open file to the first send. */
  function StartSend(s: State, r: nat): State {
    var s1 := FreeChild(s, r);
    if !IsRoot(s1, r) then Fault(s1)
    else
      var t := s1.pts[r].task;
      var raw := HeadFor(t.file);
      var s2 := SetRaw(s1, r, raw, ContentOf(s1, t.file.fd));
      var s3 := Spawn(s2, r, SendBuffer(raw, t.client));
      var s4 := Suspend(s3, r, AtSend);
      SuspendOn(s4, s2.next, AtSendOp, SendOp(s2.next, t.client, raw))
  }

  /** From the last header byte to the first splice. */
  function StartBody(s: State, r: nat): State {
    var s1 := FreeChild(s, r);
    if !IsRoot(s1, r) then Fault(s1)
    else
      var t := s1.pts[r].task;
      var s2 := Spawn(s1, r, SendBody(t.client));
      var s3 := Suspend(s2, r, AtBody);
      SuspendOn(s3, s1.next, AtSplice,
                SpliceOp(s1.next, t.file.fd, t.client, SpliceAll.Start(t.file.size), ""))
  }

  function StartClose(s: State, r: nat): State {
    var s1 := FreeChild(s, r);
    if !IsRoot(s1, r) then Fault(s1)
    else SuspendOn(s1, r, AtClose, Close(Some(r), s1.pts[r].task.client))
  }

  /** route_callback_send_file entered again: on from its label. */
  function Continue(s: State, r: nat): State {
    if !IsRoot(s, r) then Fault(s)
    else
      match s.pts[r].label_
      case AtOpen => StartSend(s, r)
      case AtSend => StartBody(s, r)
      case AtBody => StartClose(s, r)
      case AtClose => Retire(s, r)
      case _ => Fault(s)
  }

  /** caller->self(caller). */
  function CallBack(s: State, c: nat): State {
    if c !in s.pts || s.pts[c].caller.None? then Fault(s)
    else
      var r := s.pts[c].caller.value;
      Continue(Wake(s, r), r)
  }

  // ---------- async_io_open_file ----------

  function Basename(path: string, i: nat): string
    requires i <= |path|
  {
    if i == 0 then path else if path[i - 1] == '/' then path[i..] else Basename(path, i - 1)
  }

  /** LRU_cache_add and, for the descriptor that drops out, file_eviction_handler. */
  function AddToCache(s: State, path: string, file: File): State {
    if Find(s.cache, path) < |s.cache| then Fault(s)
    else
      var (cache, out) := RecencyList.Step(s.cache, CACHE_SIZE, AddOp(path, file));
      var s1 := SetHolder(s.(cache := cache), file.fd, ByCache(path));
      if out.evicted.None? then s1
      else Submit(SetHolder(s1, out.evicted.value.1.fd, ByClosing(s.next)), Close(None, out.evicted.value.1.fd))
  }

  /** async_io_open_file entered, for the first time or again: the cache comes first every time. */
  function OpenEntry(s: State, c: nat): State {
    if c !in s.pts || !s.pts[c].task.OpenFile? || s.pts[c].caller.None? || !IsRoot(s, s.pts[c].caller.value) then Fault(s)
    else
      var r := s.pts[c].caller.value;
      var path := s.pts[c].task.path;
      var file := s.pts[r].task.file;
      var i := Find(s.cache, path);
      if i < |s.cache| then
        CallBack(SetFile(s.(cache := Moved(s.cache, i)), r, s.cache[i].1), c)
      else
        match s.pts[c].label_
        case Fresh =>
          SuspendOn(SetFile(s, r, file.(name := Basename(path, |path|))), c, AtOpenat, Openat(c, path))
        case AtOpenat => SuspendOn(s, c, AtStatx, Statx(c, file.fd))
        case AtStatx => CallBack(AddToCache(s, path, file), c)
        case _ => Fault(s)
  }

  // ---------- starting a chain ----------

  /** router_handle_request: the public file a request asks for, if any. */
  function PublicPath(public: set<string>, h: Request.RawHead): Option<string> {
    if h.uri == "/" then Some("assets/public/index.html")
    else if h.verb == Request.Get && '.' in h.uri && h.uri in public then Some("assets/public" + h.uri)
    else None
  }

  function StartChain(s: State, client: int, path: string): State {
    var r := s.next;
    var root := Pt(SendFile(client, path, File(0, "", 0), "", "", None), Fresh, None, false, None);
    var s1 := SetHolder(s, client, ByChain(r)).(pts := s.pts[r := root], next := s.next + 1);
    var s2 := Spawn(s1, r, OpenFile(path));
    OpenEntry(Suspend(s2, r, AtOpen), s1.next)
  }

  // ---------- completions ----------

  /** ctx->pt->self(ctx->pt) when the operation is done: the context is gone, the waiter runs. */
  function Deliver(s: State, id: nat): State
    requires id in s.ops
  {
    var s1 := s.(ops := s.ops - {id});
    match Waiter(s.ops[id])
    case None => s1
    case Some(p) =>
      var s2 := Wake(s1, p);
      if p !in s2.pts then Fault(s2)
      else
        match s2.pts[p].task
        case OpenFile(_) => OpenEntry(s2, p)
        case SendFile(_, _, _, _, _, _) => Continue(s2, p)
        case _ => CallBack(s2, p)
  }

  /** A new operation takes the place of a completed one; its waiter stays suspended. */
  function Resubmit(s: State, id: nat, op: Op): State
    requires id in s.ops
  {
    var s1 := Submit(s.(ops := s.ops - {id}), op);
    match Waiter(op)
    case None => s1
    case Some(p) => if p !in s1.pts then Fault(s1) else s1.(pts := s1.pts[p := s1.pts[p].(op := Some(s.next))])
  }

  function OnAccept(s: State, e: Event): State
    requires e.id in s.ops
  {
    var s1 := s.(ops := s.ops - {e.id});
    if e.res < 0 then s1
    else
      var s2 := s1.(open := s1.open[e.res := ClientDesc(ByRecv(s1.next))], out := s1.out[e.res := ""]);
      Submit(Submit(s2, Recv(e.res, "")), Accept)
  }

  function OnRecv(s: State, e: Event, public: set<string>): State
    requires e.id in s.ops && s.ops[e.id].Recv?
  {
    var Recv(client, buffer) := s.ops[e.id];
    var s1 := s.(ops := s.ops - {e.id});
    match Receiving.OnChunk(buffer, if e.res <= 0 then "" else e.data)
    case Drop => s1
    case More(b) => Submit(SetHolder(s1, client, ByRecv(s1.next)), Recv(client, b))
    case Dispatch(_, head) =>
      var path := PublicPath(public, head);
      if path.None? then s1 else StartChain(s1, client, path.value)
  }

  /** The file_t the routine p fills in lives in its caller's locals. */
  function WithFile(s: State, p: nat, fd: Option<int>, size: Option<nat>): State {
    if p !in s.pts || s.pts[p].caller.None? || !IsRoot(s, s.pts[p].caller.value) then Fault(s)
    else
      var r := s.pts[p].caller.value;
      var file := s.pts[r].task.file;
      SetFile(s, r, File(if fd.Some? then fd.value else file.fd, file.name,
                         if size.Some? then size.value else file.size))
  }

  function OnOpenat(s: State, e: Event): State
    requires e.id in s.ops && s.ops[e.id].Openat?
  {
    if e.res < 0 then Deliver(s, e.id)
    else
      var p := s.ops[e.id].pt;
      var root := if p in s.pts && s.pts[p].caller.Some? then s.pts[p].caller.value else 0;
      var s1 := s.(open := s.open[e.res := FileDesc(e.data, ByOpening(root))]);
      Deliver(WithFile(s1, p, Some(e.res), None), e.id)
  }

  function OnStatx(s: State, e: Event): State
    requires e.id in s.ops && s.ops[e.id].Statx?
  {
    if e.res < 0 then Deliver(s, e.id)
    else Deliver(WithFile(s, s.ops[e.id].pt, None, Some(e.size)), e.id)
  }

  function OnSend(s: State, e: Event): State
    requires e.id in s.ops && s.ops[e.id].SendOp? && e.res <= |s.ops[e.id].buffer|
  {
    var SendOp(p, client, buffer) := s.ops[e.id];
    if e.res < 0 then Deliver(s, e.id)
    else
      var s1 := s.(out := s.out[client := Sent(s, client) + buffer[..e.res]]);
      if buffer[e.res..] != "" then Resubmit(s1, e.id, SendOp(p, client, buffer[e.res..]))
      else Deliver(s1, e.id)
  }

  function OnSplice(s: State, e: Event): State
    requires e.id in s.ops && s.ops[e.id].SpliceOp?
    requires s.ops[e.id].ctx.isDraining ==> e.res <= |s.ops[e.id].pipe|
  {
    var SpliceOp(p, fdIn, fdOut, ctx, pipe) := s.ops[e.id];
    if e.res < 0 then Deliver(s, e.id)
    else
      var (c, finished) := SpliceAll.Complete(ctx, e.res);
      if ctx.isDraining then
        var s1 := s.(out := s.out[fdOut := Sent(s, fdOut) + pipe[..e.res]]);
        if finished then Deliver(s1, e.id)
        else Resubmit(s1, e.id, SpliceOp(p, fdIn, fdOut, c, pipe[e.res..]))
      else Resubmit(s, e.id, SpliceOp(p, fdIn, fdOut, c, pipe + e.data))
  }

  function OnClose(s: State, e: Event): State
    requires e.id in s.ops && s.ops[e.id].Close?
  {
    Deliver(s.(open := s.open - {s.ops[e.id].fd}), e.id)
  }

  // ---------- steps and runs ----------

  /** The kernel's bounds on a completion. */
  predicate Allowed(s: State, e: Event) {
    && e.id in s.ops
    && match s.ops[e.id]
       case Accept => e.res >= 0 ==> e.res !in s.open
       case Recv(_, buffer) => e.res > 0 ==> |e.data| == e.res && |buffer| + e.res <= Receiving.Room(buffer)
       case Openat(_, _) => e.res >= 0 ==> e.res !in s.open
       case Statx(_, fd) => e.res >= 0 && fd in s.open && s.open[fd].FileDesc? ==> e.size == |s.open[fd].content|
       case SendOp(_, _, buffer) => e.res <= |buffer|
       case SpliceOp(_, fdIn, _, ctx, pipe) =>
         && e.res <= SpliceAll.Request(ctx)
         && (ctx.isDraining ==> e.res <= |pipe|)
         && (!ctx.isDraining && e.res >= 0 ==>
               && |e.data| == e.res
               && (fdIn in s.open && s.open[fdIn].FileDesc? ==>
                     e.res <= |s.open[fdIn].content| && e.data == s.open[fdIn].content[..e.res]))
       case Close(_, _) => true
  }

  /** The dispatch through the completion table. */
  function Step(s: State, e: Event, public: set<string>): State
    requires Allowed(s, e)
  {
    match s.ops[e.id]
    case Accept => OnAccept(s, e)
    case Recv(_, _) => OnRecv(s, e, public)
    case Openat(_, _) => OnOpenat(s, e)
    case Statx(_, _) => OnStatx(s, e)
    case SendOp(_, _, _) => OnSend(s, e)
    case SpliceOp(_, _, _, _, _) => OnSplice(s, e)
    case Close(_, _) => OnClose(s, e)
  }

  /** The loop before anything has completed: so many accepts submitted by server_run. */
  function Boot(accepts: nat): State {
    if accepts == 0 then State(map[], map[], 0, [], map[], map[], [], false)
    else Submit(Boot(accepts - 1), Accept)
  }

  ghost predicate IsRun(accepts: nat, public: set<string>, es: seq<Event>)
    decreases |es|, 0
  {
    es == [] || (IsRun(accepts, public, es[..|es| - 1])
                 && Allowed(After(accepts, public, es[..|es| - 1]), es[|es| - 1]))
  }

  ghost function After(accepts: nat, public: set<string>, es: seq<Event>): State
    requires IsRun(accepts, public, es)
    decreases |es|, 1
  {
    if es == [] then Boot(accepts)
    else Step(After(accepts, public, es[..|es| - 1]), es[|es| - 1], public)
  }
}
