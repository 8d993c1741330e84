/**
 What a parsed request sets going: the send-file chain of a public file, the handler of a route, both,
 or nothing.
 */
module Router {
  import opened Wrappers
  import opened Route
  import opened RouteTable
  import opened RouteTrie
  import opened HashTable
  import EventLoop
  import Request

  datatype Start<+C> = SendFile(client: int, path: string) | Handler(client: int, callback: C)

  /** The protothreads that router_handle_request starts, in order. */
  function Dispatch<C>(public: set<string>, rs: Table<C>, h: Request.RawHead, client: int): seq<Start<C>> {
    var handler := Lookup(rs, h.verb, Split(h.uri));
    (if h.uri == "/" then [SendFile(client, "assets/public/index.html")] else [])
    + (if h.verb == Request.Get && '.' in h.uri && h.uri in public then [SendFile(client, "assets/public" + h.uri)]
       else [])
    + (if handler.Some? then [Handler(client, handler.value)] else [])
  }

  class Router<C> {
    const public: HashMap<bool>
    const trie: Trie<C>
    var started: seq<Start<C>>

    ghost predicate Valid()
      reads this, public, public.entries, trie, trie.nodes.Values
    {
      public.Valid() && trie.Valid()
    }

    constructor (public: HashMap<bool>)
      requires public.Valid()
      ensures Valid() && this.public == public && fresh(trie) && trie.routes == [] && started == []
    {
      this.public, started := public, [];
      trie := new Trie<C>();
    }

    method HandleRequest(h: Request.RawHead, client: int)
      requires Valid()
      modifies `started
      ensures Valid()
      ensures started == old(started) + Dispatch(public.Contents().Keys, trie.routes, h, client)
    {
      hide Lookup, Split, HashMap.Valid, HashMap.Contents, Trie.Valid;
      if h.uri == "/" {
        started := started + [SendFile(client, "assets/public/index.html")];
      }
      if h.verb == Request.Get {
        if '.' in h.uri {
          var known := public.Get(h.uri);
          if known.Some? {
            started := started + [SendFile(client, "assets/public" + h.uri)];
          }
        }
      }
      var handler := trie.Find(h.verb, Split(h.uri));
      if handler.Some? {
        started := started + [Handler(client, handler.value)];
      }
    }
  }

  /** At most one send-file chain is started, the one for the file the event loop serves; besides it at
      most one handler runs, the one the flat list of routes gives. */
  lemma DispatchedOnce<C>(public: set<string>, rs: Table<C>, h: Request.RawHead, client: int)
    ensures var starts := Dispatch(public, rs, h, client);
            var path := EventLoop.PublicPath(public, h);
            var handler := Lookup(rs, h.verb, Split(h.uri));
            && |starts| == (if path.Some? then 1 else 0) + (if handler.Some? then 1 else 0)
            && (path.Some? ==> starts[0] == SendFile(client, path.value))
            && (handler.Some? ==> starts[|starts| - 1] == Handler(client, handler.value))
  {
  }

  /** A send-file chain has its client to itself exactly when the trie finds no handler. */
  lemma OwnsClientAlone<C>(public: set<string>, rs: Table<C>, h: Request.RawHead, client: int)
    ensures (exists path :: Dispatch(public, rs, h, client) == [SendFile(client, path)])
            <==> EventLoop.PublicPath(public, h).Some? && Lookup(rs, h.verb, Split(h.uri)) == None
  {
    DispatchedOnce(public, rs, h, client);
    var starts := Dispatch(public, rs, h, client);
    assert |starts| == 1 ==> starts == [starts[0]];
  }

  /** On static routes that is the case exactly when no callback is registered for the URI's own
      segments and none for a proper prefix of them that no route extends. */
  lemma OwnsClientAmongStatic<C>(public: set<string>, rs: Table<C>, h: Request.RawHead, client: int)
    requires Static(rs, h.verb) && EventLoop.PublicPath(public, h).Some?
    ensures (exists path :: Dispatch(public, rs, h, client) == [SendFile(client, path)])
            <==> Registered(rs, h.verb, Split(h.uri)) == None
                 && forall p :: Absorbs(rs, h.verb, p, Split(h.uri)) ==> Registered(rs, h.verb, p) == None
  {
    hide Lookup, Registered, Absorbs, Reaches, Static, Split, EventLoop.PublicPath;
    var u := Split(h.uri);
    OwnsClientAlone(public, rs, h, client);
    StaticLookup(rs, h.verb, u);
    RegisteredOnlyReached(rs, h.verb, u);
    if p :| Absorbs(rs, h.verb, p, u) {
      NotBoth(rs, h.verb, p, u);
      forall q | Absorbs(rs, h.verb, q, u) ensures q == p {
        AbsorberUnique(rs, h.verb, p, q, u);
      }
    }
  }

  lemma NotBoth<C>(rs: Table<C>, v: Request.Method, p: Path, u: Path)
    requires Absorbs(rs, v, p, u)
    ensures !Reaches(rs, v, u)
  {
    LeafExactly(rs, v, p);
    Beyond(rs, v, p, u);
  }

  /** A request that matches nothing starts nothing: no response is ever sent. */
  lemma NothingStarted<C>(public: set<string>, rs: Table<C>, h: Request.RawHead, client: int)
    ensures Dispatch(public, rs, h, client) == []
            <==> EventLoop.PublicPath(public, h) == None && Lookup(rs, h.verb, Split(h.uri)) == None
  {
    DispatchedOnce(public, rs, h, client);
  }
}
