/**
 The name of a file and the type its response announces. In every reachable state a chain's file record and
 every record in the cache carry the part of their own path behind the last slash, whatever has failed; the
 type depends on what is behind the last dot of that.
 */
module FileNames {
  import opened Wrappers
  import opened EventLoop
  import opened EventLoopSafety
  import opened Delivery
  import opened DeliverySteps
  import opened Frames
  import opened OpenRecords
  import opened DeliveryRuns
  import opened Completions
  import DoublyLinkedList
  import RecencyList
  import Receiving

  // ---------- names and types in full ----------

  const TYPES: map<string, string> :=
    map["html" := "text/html", "css" := "text/css", "js" := "text/javascript", "json" := "application/json",
        "jpg" := "image/jpeg", "jpeg" := "image/jpeg", "png" := "image/png", "gif" := "image/gif",
        "webp" := "image/webp", "svg" := "image/svg+xml", "ico" := "image/x-icon"]

  function TypeOf(ext: string): string {
    if ext in TYPES then TYPES[ext] else "application/octet-stream"
  }

  ghost predicate Parts(path: string, dir: string, stem: string, ext: string) {
    path == dir + "/" + stem + "." + ext && '/' !in stem && '/' !in ext && '.' !in ext
  }

  /** The path's last component ends in a dot and this extension. */
  ghost predicate EndsIn(path: string, ext: string) {
    exists dir, stem :: Parts(path, dir, stem, ext)
  }

  lemma {:induction false} BasenameIs(dir: string, base: string, i: nat)
    requires '/' !in base && |dir| + 1 <= i <= |dir| + 1 + |base|
    ensures Basename(dir + "/" + base, i) == base
    decreases i
  {
    var path := dir + "/" + base;
    if i == |dir| + 1 {
      assert path[i - 1] == '/' && path[i..] == base;
    } else {
      assert path[i - 1] == base[i - |dir| - 2];
      BasenameIs(dir, base, i - 1);
    }
  }

  lemma {:induction false} ExtensionIs(stem: string, ext: string, i: nat)
    requires '.' !in ext && |stem| + 1 <= i <= |stem| + 1 + |ext|
    ensures Extension(stem + "." + ext, i) == ext
    decreases i
  {
    var name := stem + "." + ext;
    if i == |stem| + 1 {
      assert name[i - 1] == '.' && name[i..] == ext;
    } else {
      assert name[i - 1] == ext[i - |stem| - 2];
      ExtensionIs(stem, ext, i - 1);
    }
  }

  /** The table, entry by entry. */
  lemma TypeTable()
    ensures TypeOf("html") == "text/html" && TypeOf("css") == "text/css" && TypeOf("js") == "text/javascript"
    ensures TypeOf("json") == "application/json" && TypeOf("jpg") == TypeOf("jpeg") == "image/jpeg"
    ensures TypeOf("png") == "image/png" && TypeOf("gif") == "image/gif" && TypeOf("webp") == "image/webp"
    ensures TypeOf("svg") == "image/svg+xml" && TypeOf("ico") == "image/x-icon"
  {
  }

  lemma OtherTypes(ext: string)
    requires ext !in ["html", "css", "js", "json", "jpg", "jpeg", "png", "gif", "webp", "svg", "ico"]
    ensures TypeOf(ext) == "application/octet-stream"
  {
  }

  lemma TypeOfExtension(ext: string)
    ensures TypeByExtension(ext) == TypeOf(ext)
  {
    hide TypeOf, TYPES;
    TypeTable();
    if ext == "html" {
    } else if ext == "css" {
    } else if ext == "js" {
    } else if ext == "json" {
    } else if ext == "jpg" || ext == "jpeg" {
    } else if ext == "png" {
    } else if ext == "gif" {
    } else if ext == "webp" {
    } else if ext == "svg" {
    } else if ext == "ico" {
    } else {
      OtherTypes(ext);
    }
  }

  /** The type announced for a file is the one the table has for the extension of its path. */
  lemma TypeByPath(path: string, ext: string)
    requires EndsIn(path, ext)
    ensures ContentType(Basename(path, |path|)) == TypeOf(ext)
  {
    hide TypeByExtension, TypeOf, Extension, Basename;
    var dir, stem :| Parts(path, dir, stem, ext);
    var name := stem + "." + ext;
    assert path == dir + "/" + name;
    BasenameIs(dir, name, |path|);
    ExtensionIs(stem, ext, |name|);
    TypeOfExtension(ext);
  }

  // ---------- every record carries its own name ----------

  predicate OwnName(file: File, path: string) {
    file.name == Basename(path, |path|)
  }

  ghost predicate NamesRight(s: State) {
    && (forall x :: x in s.cache ==> OwnName(x.1, x.0))
    && forall q: nat :: IsRoot(s, q) ==> OwnName(s.pts[q].task.file, s.pts[q].task.path)
  }

  lemma CachedNames(s: State, i: nat)
    requires NamesRight(s) && i < |s.cache|
    ensures OwnName(s.cache[i].1, s.cache[i].0)
  {
    assert s.cache[i] in s.cache;
  }

  /** A root that was there before keeps its name, or has taken that of a record cached for its path. */
  lemma RootNamed(s: State, s': State, id: nat, r: nat)
    requires NamesRight(s) && StepFrame(s, s', id) && SameChains(s, s') && IsRoot(s, r) && IsRoot(s', r) && r < s.next
    requires r in Involved(s, id) ==>
               || s'.pts[r].task.file.name == s.pts[r].task.file.name
               || exists i :: 0 <= i < |s.cache| && s.cache[i].0 == s.pts[r].task.path && s'.pts[r].task.file == s.cache[i].1
    requires !s.ops[id].Recv?
    ensures OwnName(s'.pts[r].task.file, s'.pts[r].task.path)
  {
    if r in Involved(s, id) && s'.pts[r].task.file.name != s.pts[r].task.file.name {
      var i :| 0 <= i < |s.cache| && s.cache[i].0 == s.pts[r].task.path && s'.pts[r].task.file == s.cache[i].1;
      CachedNames(s, i);
    }
  }

  /** What a completion that resumes a waiter makes of its root's record. */
  lemma InvolvedRoot(accepts: nat, public: set<string>, es: seq<Event>, e: Event, r: nat)
    requires IsRun(accepts, public, es) && Allowed(After(accepts, public, es), e)
    requires var s := After(accepts, public, es);
             IsRoot(s, r) && r in Involved(s, e.id) && IsRoot(Step(s, e, public), r)
    ensures var s := After(accepts, public, es);
            var s' := Step(s, e, public);
            || s'.pts[r].task.file.name == s.pts[r].task.file.name
            || exists i :: 0 <= i < |s.cache| && s.cache[i].0 == s.pts[r].task.path && s'.pts[r].task.file == s.cache[i].1
  {
    hide IsRun, After, Inv, FdRight, AllUntouched, Step, Resumes, Gains, RecencyList.Step;
    ReachedFacts(accepts, public, es);
    var s := After(accepts, public, es);
    InvolvedOne(s, e.id, r);
    match s.ops[e.id]
    case SendOp(_, _, _) => SendLeads(accepts, public, es, e);
    case SpliceOp(_, _, _, _, _) => SpliceLeads(accepts, public, es, e);
    case Close(_, _) => CloseLeads(accepts, public, es, e);
    case Openat(p, _) =>
      OpenLeads(accepts, public, es, e);
      OwnPath(s, p, {});
    case Statx(p, _) =>
      OpenLeads(accepts, public, es, e);
      OwnPath(s, p, {});
  }

  lemma InvolvedOne(s: State, id: nat, r: nat)
    requires Inv(s, {}) && id in s.ops && IsRoot(s, r) && r in Involved(s, id)
    ensures Waiter(s.ops[id]).Some?
    ensures var p := Waiter(s.ops[id]).value;
            && p in s.pts && (p == r <==> s.ops[id].Close?)
            && (p != r ==> s.pts[p].caller == Some(r) && (s.pts[p].task.OpenFile? <==> s.ops[id].Openat? || s.ops[id].Statx?))
  {
    hide Structured, Balanced, CacheRight;
    WaiterFacts(s, id);
    var p := Waiter(s.ops[id]).value;
    if s.pts[p].task.SendFile? {
      RootHasNoCaller(s, p);
    }
  }

  /** A chain just started has its own path's name: that of the record found, or that cut from the path. */
  lemma StartedNamed(s: State, client: int, path: string)
    requires Inv(s, {}) && NamesRight(s)
    ensures var s' := StartChain(s, client, path);
            IsRoot(s', s.next) && OwnName(s'.pts[s.next].task.file, path)
  {
    hide Inv, OpenEntry, StartChain, Begun, Basename, RecencyList.Find, HeadFor;
    var r := s.next;
    BoundedOf(s, {});
    BegunShape(s, client, path);
    BegunFacts(s, client, path);
    BegunFiles(s, client, path);
    BegunInv(s, client, path);
    EntryLeads(Begun(s, client, path), r + 1, r);
    var i := RecencyList.Find(s.cache, path);
    if i < |s.cache| {
      CachedNames(s, i);
    }
  }

  lemma RecvNames(s: State, e: Event, public: set<string>)
    requires Inv(s, {}) && FdRight(s, {}) && AllUntouched(s) && Allowed(s, e) && s.ops[e.id].Recv? && NamesRight(s)
    ensures NamesRight(OnRecv(s, e, public))
  {
    hide Inv, FdRight, StartChain, OpenEntry, Receiving.OnChunk, PublicPath, OwnName, SameChains, SameFiles;
    var client := s.ops[e.id].client;
    var s1 := s.(ops := s.ops - {e.id});
    var s' := OnRecv(s, e, public);
    StepDelivers(s, e, public);
    RecvEntries(s, e, public);
    BoundedOf(s, {});
    match Receiving.OnChunk(s.ops[e.id].buffer, if e.res <= 0 then "" else e.data)
    case Drop =>
    case More(_) =>
    case Dispatch(_, head) =>
      var path := PublicPath(public, head);
      if path.Some? {
        DeliverKeeps(s, e.id);
        NamesSame(s, s1);
        StartedNamed(s1, client, path.value);
        StartedPath(s1, client, path.value);
        forall q: nat | IsRoot(s', q) ensures OwnName(s'.pts[q].task.file, s'.pts[q].task.path) {
          assert q == s.next || (IsRoot(s, q) && s'.pts[q] == s.pts[q]);
        }
      }
  }

  lemma NamesSame(s: State, s': State)
    requires NamesRight(s) && s'.cache == s.cache && s'.pts == s.pts
    ensures NamesRight(s')
  {
  }

  lemma StartedPath(s: State, client: int, path: string)
    requires Inv(s, {}) && IsRoot(StartChain(s, client, path), s.next)
    ensures StartChain(s, client, path).pts[s.next].task.path == path
  {
    hide Inv, OpenEntry, StartChain, Begun;
    BoundedOf(s, {});
    BegunShape(s, client, path);
    BegunFacts(s, client, path);
    OpenEntryChains(Begun(s, client, path), s.next + 1);
  }

  /** What is newly cached has been measured: it has the name of the file it was opened for. */
  lemma StepCacheNames(s: State, e: Event, public: set<string>)
    requires Inv(s, {}) && Allowed(s, e) && NamesRight(s)
    ensures forall x :: x in Step(s, e, public).cache ==> OwnName(x.1, x.0)
  {
    hide Inv, Step, Filled, OwnName;
    StepEntries(s, e, public);
    forall x | x in Step(s, e, public).cache ensures OwnName(x.1, x.0) {
      if x !in s.cache {
        MeasuredName(s, e);
      }
    }
  }

  lemma MeasuredName(s: State, e: Event)
    requires Inv(s, {}) && Allowed(s, e) && s.ops[e.id].Statx? && NamesRight(s)
    ensures var p := s.ops[e.id].pt;
            && p in s.pts && s.pts[p].task.OpenFile? && s.pts[p].caller.Some? && IsRoot(Filled(s, e), s.pts[p].caller.value)
            && OwnName(Filled(s, e).pts[s.pts[p].caller.value].task.file, s.pts[p].task.path)
  {
    hide Inv, Filled, Basename;
    FilledKeeps(s, e);
    var p := s.ops[e.id].pt;
    FilledRecord(s, e, s.pts[p].caller.value);
    OwnPath(s, p, {});
  }

  lemma StepNames(accepts: nat, public: set<string>, es: seq<Event>, e: Event)
    requires IsRun(accepts, public, es) && Allowed(After(accepts, public, es), e) && NamesRight(After(accepts, public, es))
    ensures NamesRight(Step(After(accepts, public, es), e, public))
  {
    hide IsRun, After, Inv, FdRight, AllUntouched, Step, OwnName, SameChains;
    ReachedFacts(accepts, public, es);
    var s := After(accepts, public, es);
    var s' := Step(s, e, public);
    StepCacheNames(s, e, public);
    if s.ops[e.id].Recv? {
      RecvIsStep(s, e, public);
      RecvNames(s, e, public);
    } else {
      StepDelivers(s, e, public);
      StepChains(s, e, public);
      BoundedOf(s, {});
      InvolvedExist(s, e.id);
      forall q: nat | IsRoot(s', q) ensures OwnName(s'.pts[q].task.file, s'.pts[q].task.path) {
        if q in Involved(s, e.id) {
          InvolvedRoot(accepts, public, es, e, q);
        }
        RootNamed(s, s', e.id, q);
      }
    }
  }

  lemma RecvIsStep(s: State, e: Event, public: set<string>)
    requires Allowed(s, e) && s.ops[e.id].Recv?
    ensures Step(s, e, public) == OnRecv(s, e, public)
  {
  }

  lemma {:induction false} RunNames(accepts: nat, public: set<string>, es: seq<Event>)
    requires IsRun(accepts, public, es)
    ensures NamesRight(After(accepts, public, es))
  {
    hide Step, OwnName;
    if es == [] {
      NobodyBooted(accepts);
    } else {
      RunNames(accepts, public, es[..|es| - 1]);
      StepNames(accepts, public, es[..|es| - 1], es[|es| - 1]);
    }
  }

  /** In every reachable state, whatever has failed: a chain that sends for a path with this extension has
      printed a head that announces the table's type for it, in a field named Content-Type. */
  lemma TypeAnnounced(accepts: nat, public: set<string>, es: seq<Event>, q: nat, ext: string)
    requires IsRun(accepts, public, es) && IsRoot(After(accepts, public, es), q)
    requires EndsIn(After(accepts, public, es).pts[q].task.path, ext)
    ensures ContentType(After(accepts, public, es).pts[q].task.file.name) == TypeOf(ext)
  {
    hide IsRun, After, ContentType, EndsIn, TypeOf, Basename;
    RunNames(accepts, public, es);
    TypeByPath(After(accepts, public, es).pts[q].task.path, ext);
  }

  /** What a clean chain has sent at its close announces that type. */
  lemma TypeIsDelivered(accepts: nat, public: set<string>, es: seq<Event>, q: nat, ext: string)
    requires IsRun(accepts, public, es) && CleanRunFor(accepts, public, es, q)
    requires IsRoot(After(accepts, public, es), q) && After(accepts, public, es).pts[q].label_ == AtClose
    requires After(accepts, public, es).pts[q].task.client != 0
    requires PathOpensIn(accepts, public, es, After(accepts, public, es).pts[q].task.path)
    requires EndsIn(After(accepts, public, es).pts[q].task.path, ext)
    ensures var s := After(accepts, public, es);
            var t := s.pts[q].task;
            exists section :: WholeResponse(Sent(s, t.client), section, TypeOf(ext), t.body)
  {
    hide IsRun, After, CleanRunFor, PathOpensIn, ContentType, EndsIn, TypeOf, WholeResponse;
    ContentLengthIsDelivered(accepts, public, es, q);
    TypeAnnounced(accepts, public, es, q, ext);
  }
}
