/**
 How a request head arrives: the receive handler appends each chunk to the connection's buffer,
 parses the whole buffer again, and either drops the connection, asks for more, or dispatches.
 */
module Receiving {
  import opened Request

  const MAX_REQUEST := 16384
  const RECV_CHUNK := 4096
  const MAX_PREALLOC := 1048576

  datatype Action = Drop | More(buffer: string) | Dispatch(n: nat, head: RawHead)

  /** One completion of a receive; an empty chunk stands for end of stream or an error. */
  function OnChunk(buffer: string, chunk: string): Action {
    if chunk == "" then Drop
    else
      var b := buffer + chunk;
      var v := Decompose(b);
      if v.Bad? || |b| > MAX_REQUEST then Drop
      else if v.Incomplete? then More(b)
      else Dispatch(v.n, v.head)
  }

  /** The whole exchange: what becomes of a connection whose bytes arrive in these chunks. */
  function Receive(buffer: string, chunks: seq<string>): Action
    decreases |chunks|
  {
    if chunks == [] then More(buffer)
    else
      var a := OnChunk(buffer, chunks[0]);
      if a.More? then Receive(a.buffer, chunks[1..]) else a
  }

  // ---------- the room a receive offers ----------

  /** What sdsMakeRoomFor makes of a string's allocation. */
  function MakeRoom(len: nat, alloc: nat, more: nat): nat {
    if alloc >= len + more then alloc
    else if len + more < MAX_PREALLOC then 2 * (len + more)
    else len + more + MAX_PREALLOC
  }

  /** The allocation a receive is submitted with: an empty buffer has none yet, any other the first one. */
  function Room(buffer: string): nat {
    MakeRoom(|buffer|, if buffer == "" then 0 else 2 * RECV_CHUNK, RECV_CHUNK)
  }

  /** The first allocation lasts for the whole exchange: a buffer that is received into again is shorter
      than 4096 bytes. */
  lemma RoomStays(buffer: string)
    requires Decompose(buffer).Incomplete?
    ensures Room(buffer) == 8192
    ensures buffer != "" ==> MakeRoom(|buffer|, Room(buffer), RECV_CHUNK) == Room(buffer)
  {
    hide ParseHead, FindEnd;
  }

  lemma ShortYet(buffer: string)
    requires Decompose(buffer).Incomplete?
    ensures |buffer| < 4096
  {
    hide ParseHead, FindEnd;
  }

  /** Every chunk received fits into the room that its receive offers. */
  ghost predicate Offered(buffer: string, chunks: seq<string>)
    decreases |chunks|
  {
    chunks == []
    || (&& |buffer| + |chunks[0]| <= Room(buffer)
        && var a := OnChunk(buffer, chunks[0]);
           a.More? ==> Offered(a.buffer, chunks[1..]))
  }

  function Concat(chunks: seq<string>): string {
    if chunks == [] then "" else chunks[0] + Concat(chunks[1..])
  }

  ghost predicate Chunking(chunks: seq<string>, stream: string) {
    Concat(chunks) == stream && forall i :: 0 <= i < |chunks| ==> chunks[i] != ""
  }

  /** What the stream deserves, whatever the chunks. */
  function Settled(stream: string): Action {
    var v := Decompose(stream);
    if v.Complete? then Dispatch(v.n, v.head) else Drop
  }

  // ---------- stability of the parser ----------

  lemma FirstEndOfPrefix(s: string, k: nat, e: nat)
    requires FirstEnd(s, e) && k <= |s|
    ensures FindEnd(s, 0) == e
    ensures FindEnd(s[..k], 0) == if e + 4 <= k then e else k
  {
    var t := s[..k];
    assert forall j :: 0 <= j < |t| ==> (IsEnd(t, j) <==> IsEnd(s, j) && j + 4 <= k);
    if e + 4 <= k {
      assert IsEnd(t, e);
    }
  }

  /** Bytes that arrive after the blank line change nothing: neither a positive nor a negative
      result. */
  lemma ExtensionStable(raw: string, more: string)
    requires FindEnd(raw, 0) < |raw|
    ensures Decompose(raw + more) == Decompose(raw)
  {
    hide ParseHead, IsEnd;
    FirstEndOfExtension(raw, more);
    PrefixOfExtension(raw, more, FindEnd(raw, 0) + 2);
  }

  lemma PrefixOfExtension(raw: string, more: string, k: nat)
    requires k <= |raw|
    ensures (raw + more)[..k] == raw[..k]
  {
  }

  lemma FirstEndOfExtension(raw: string, more: string)
    requires FindEnd(raw, 0) < |raw|
    ensures FindEnd(raw + more, 0) == FindEnd(raw, 0) <= |raw| - 4
  {
    var e := FindEnd(raw, 0);
    assert IsEnd(raw + more, e);
    assert forall j :: 0 <= j < e ==> (IsEnd(raw + more, j) <==> IsEnd(raw, j));
  }

  lemma PositiveStable(raw: string, more: string)
    requires Decompose(raw).Complete?
    ensures Decompose(raw + more) == Decompose(raw)
  {
    ExtensionStable(raw, more);
  }

  /** A buffer that is reported incomplete has only incomplete prefixes. */
  lemma IncompletePrefixes(raw: string, k: nat)
    requires Decompose(raw) == Incomplete && k <= |raw|
    ensures Decompose(raw[..k]) == Incomplete
  {
    var t := raw[..k];
    forall j | 0 <= j < |t| ensures !IsEnd(t, j) {
      assert IsEnd(t, j) ==> IsEnd(raw, j);
    }
    assert FindEnd(t, 0) == |t|;
  }

  /** What a prefix of the stream is reported as, before and after the blank line is in. */
  lemma PrefixVerdict(s: string, e: nat, k: nat)
    requires FirstEnd(s, e) && k <= |s|
    ensures e + 4 <= k ==> Decompose(s[..k]) == Decompose(s)
    ensures k < e + 4 ==> Decompose(s[..k]) == if k >= 4096 then Bad else Incomplete
    ensures !Decompose(s).Incomplete?
  {
    hide ParseHead, FirstEnd, IsEnd;
    FirstEndOfPrefix(s, k, e);
    if e + 4 <= k {
      ExtensionStable(s[..k], s[k..]);
      assert s[..k] + s[k..] == s;
    }
    EndBounds(s, e);
  }

  lemma EndBounds(s: string, e: nat)
    requires FirstEnd(s, e)
    ensures e + 4 <= |s| && FindEnd(s, 0) == e
  {
  }

  // ---------- chunkings ----------

  /** The receive loop comes to this, however the network cuts the stream. */
  ghost predicate Always(s: string, a: Action) {
    forall chunks :: Chunking(chunks, s) && Offered("", chunks) ==> Receive("", chunks) == a
  }

  /** Whatever has come in, up to a point before the blank line's end. */
  lemma {:induction false} ReceiveSettles(s: string, e: nat, k: nat, chunks: seq<string>, a: Action)
    requires FirstEnd(s, e) && k < e + 4 && Decompose(s[..k]).Incomplete?
    requires Chunking(chunks, s[k..]) && Offered(s[..k], chunks)
    requires if e + 4 <= 4096 || Decompose(s).Bad? then a == Settled(s) else e + 4 > 8192 && a == Drop
    ensures Receive(s[..k], chunks) == a
    decreases |chunks|
  {
    hide Decompose, FirstEnd, FindEnd;
    EndBounds(s, e);
    RoomStays(s[..k]);
    assert s[k..] != "";
    if chunks != [] {
      var c := chunks[0];
      var k' := k + |c|;
      assert s[k..] == c + Concat(chunks[1..]);
      assert k' <= |s| && s[..k] + c == s[..k'];
      assert s[k'..] == s[k..][|c|..] == Concat(chunks[1..]);
      PrefixVerdict(s, e, k');
      if Decompose(s[..k']).Incomplete? {
        ReceiveSettles(s, e, k', chunks[1..], a);
      }
    }
  }

  lemma NothingIncomplete()
    ensures Decompose("").Incomplete?
  {
  }

  /** Streaming does not change the verdict, exactly when it cannot: for a stream of any length whose first
      blank line ends at byte e + 4, every way of cutting it into chunks that fit the room offered leads
      the receive loop to the verdict on the whole stream, with the same head, if and only if that blank
      line ends within MAX_HEADER_BYTES or the head is malformed anyway. The chunking does not matter at
      all if, besides, the blank line ends beyond what the buffer can hold: the stream is then dropped. */
  lemma ChunkingIrrelevant(s: string, e: nat)
    requires FirstEnd(s, e)
    ensures Always(s, Settled(s)) <==> e + 4 <= 4096 || Decompose(s).Bad?
    ensures (exists a :: Always(s, a)) <==> e + 4 <= 4096 || Decompose(s).Bad? || e + 4 > 8192
  {
    hide Decompose, FirstEnd, Receive, Offered, Chunking;
    if e + 4 <= MAX_HEADER_BYTES || Decompose(s).Bad? {
      AlwaysSettles(s, e, Settled(s));
    } else {
      TwoChunks(s, e);
      EndBounds(s, e);
      var chunks := [s[..MAX_HEADER_BYTES], s[MAX_HEADER_BYTES..]];
      assert Receive("", chunks) != Settled(s);
      if e + 4 > 2 * RECV_CHUNK {
        AlwaysSettles(s, e, Drop);
      }
    }
  }

  lemma AlwaysSettles(s: string, e: nat, a: Action)
    requires FirstEnd(s, e)
    requires if e + 4 <= 4096 || Decompose(s).Bad? then a == Settled(s) else e + 4 > 8192 && a == Drop
    ensures Always(s, a)
  {
    hide Decompose, FirstEnd, Receive, Offered;
    NothingIncomplete();
    forall chunks | Chunking(chunks, s) && Offered("", chunks) ensures Receive("", chunks) == a {
      assert s[0..] == s && s[..0] == "";
      ReceiveSettles(s, e, 0, chunks, a);
    }
  }

  /** The failing case: cut at 4096 the stream is dropped; with its whole head in one chunk, if the room
      suffices for that, it is dispatched. */
  lemma TwoChunks(s: string, e: nat)
    requires FirstEnd(s, e) && e + 4 > 4096 && !Decompose(s).Bad?
    ensures Settled(s).Dispatch?
    ensures var chunks := [s[..4096], s[4096..]];
            Chunking(chunks, s) && Offered("", chunks) && Receive("", chunks) == Drop
    ensures e + 4 <= 8192 ==>
              var chunks := if e + 4 < |s| then [s[..e + 4], s[e + 4..]] else [s];
              Chunking(chunks, s) && Offered("", chunks) && Receive("", chunks) == Settled(s)
  {
    hide Decompose, FirstEnd, Receive, Concat, Offered, FindEnd;
    EndBounds(s, e);
    PrefixVerdict(s, e, MAX_HEADER_BYTES);
    PrefixVerdict(s, e, e + 4);
    PrefixVerdict(s, e, |s|);
    assert s[..|s|] == s;
    Halves(s, MAX_HEADER_BYTES);
    FirstChunk(s[..MAX_HEADER_BYTES], [s[MAX_HEADER_BYTES..]]);
    if e + 4 <= 2 * RECV_CHUNK {
      if e + 4 < |s| {
        Halves(s, e + 4);
        FirstChunk(s[..e + 4], [s[e + 4..]]);
      } else {
        ConcatOne(s);
        FirstChunk(s, []);
        assert [s] + [] == [s];
      }
    }
  }

  lemma Halves(s: string, k: nat)
    requires 0 < k < |s|
    ensures Chunking([s[..k], s[k..]], s) && [s[..k]] + [s[k..]] == [s[..k], s[k..]]
  {
    hide Concat;
    ConcatTwo(s[..k], s[k..]);
    assert s == s[..k] + s[k..];
  }

  /** A concrete stream on which chunking matters: GET with a path of 5000 letters. */
  lemma LongPathDependsOnChunking()
    ensures var s := Render(RawHead(Get, seq(5000, _ => 'a'), []));
            && |s| > 4096
            && Offered("", [s]) && Receive("", [s]).Dispatch?
            && var chunks := [s[..4096], s[4096..]];
               Offered("", chunks) && Receive("", chunks) == Drop
  {
    var h := RawHead(Get, seq(5000, _ => 'a'), []);
    var s := Render(h);
    assert |s| == 5000 + 17;
    assert ValidHead(h);
    DecomposeComplete(h, "");
    assert s + "" == s;
    var e := FindEnd(s, 0);
    assert FirstEnd(s, e);
    WholeHead(s, e, h);
    TwoChunks(s, e);
  }

  lemma WholeHead(s: string, e: nat, h: RawHead)
    requires FirstEnd(s, e) && Decompose(s) == Complete(|s|, h)
    ensures e + 4 == |s|
  {
    hide ParseHead, IsEnd, FirstEnd;
    EndBounds(s, e);
  }

  /** A first chunk that decides the matter. */
  lemma FirstChunk(a: string, chunks: seq<string>)
    requires a != "" && |a| <= 2 * RECV_CHUNK && !Decompose(a).Incomplete?
    ensures Offered("", [a] + chunks) && Receive("", [a] + chunks) == Settled(a)
  {
    hide Decompose;
    assert "" + a == a;
  }

  lemma ConcatOne(a: string)
    ensures Concat([a]) == a
  {
  }

  lemma ConcatTwo(a: string, b: string)
    ensures Concat([a, b]) == a + b
  {
    assert [a, b][1..] == [b];
    ConcatOne(b);
  }
}
