/**
 The fill/drain machine that moves a whole file to a socket through a pipe. The context keeps how
 much of the file is still to be read and how much is in the pipe; every completion switches sides.
 The file offset of a fill is never advanced: each fill reads from the start of the file.
 */
module SpliceAll {

  const SPLICE_MAX_SIZE := 65536
  const UINT := 0x1_0000_0000            // unsigned int: nbytes and the length given to the kernel
  const SIZE_T := 0x1_0000_0000_0000_0000 // size_t: in_pipe

  // The file descriptors are carried by the event loop; off_in is 0 throughout.
  datatype Context = Context(nbytes: nat, inPipe: nat, isDraining: bool)

  ghost predicate InRange(c: Context) {
    c.nbytes < UINT && c.inPipe < SIZE_T
  }

  function Start(size: nat): Context {
    Context(size % UINT, 0, false)
  }

  function Min(a: int, b: int): int {
    if a < b then a else b
  }

  /** How many bytes the kernel is asked to move. The fill length is computed in size_t and passed as
      an unsigned int, so a negative difference wraps around. */
  function Request(c: Context): nat {
    if c.isDraining then c.inPipe % UINT
    else ((Min(c.nbytes, SPLICE_MAX_SIZE) - c.inPipe) % SIZE_T) % UINT
  }

  /** What a completion with `res` bytes makes of the context, and whether it signals the end. */
  function Complete(c: Context, res: nat): (Context, bool) {
    if c.isDraining then
      var p := (c.inPipe - res) % SIZE_T;
      if p == 0 && c.nbytes == 0 then (c.(inPipe := p), true)
      else (c.(inPipe := p, isDraining := false), false)
    else
      (Context((c.nbytes - res) % UINT, (c.inPipe + res) % SIZE_T, true), false)
  }

  class SpliceAllContext {
    var nbytes: nat
    var inPipe: nat
    var isDraining: bool

    ghost function Value(): Context
      reads this
    {
      Context(nbytes, inPipe, isDraining)
    }

    constructor (size: nat)
      ensures Value() == Start(size)
    {
      nbytes, inPipe, isDraining := size % UINT, 0, false;
    }

    method OnCompletion(res: nat) returns (finished: bool)
      modifies this
      ensures (Value(), finished) == Complete(old(Value()), res)
    {
      if isDraining {
        inPipe := (inPipe - res) % SIZE_T;
        if inPipe == 0 && nbytes == 0 {
          return true;
        }
        isDraining := false;
        return false;
      }
      nbytes := (nbytes - res) % UINT;
      inPipe := (inPipe + res) % SIZE_T;
      isDraining := true;
      return false;
    }
  }

  // ---------- a whole transfer ----------

  // `inFlight` counts the splices submitted and not completed, `signals` how often the waiting routine
  // has been entered.
  datatype Transfer = Transfer(ctx: Context, pipe: string, delivered: string, inFlight: nat, signals: nat)

  function Begin(content: string): Transfer {
    Transfer(Start(|content|), "", "", 1, 0)
  }

  /** What the kernel may answer to a splice in flight: never more than it was asked for, than there is
      to take, or than the pipe has room for. */
  predicate KernelMay(t: Transfer, content: string, res: nat) {
    && t.inFlight > 0
    && res <= Request(t.ctx)
    && if t.ctx.isDraining then res <= |t.pipe| else res <= |content| && |t.pipe| + res <= SPLICE_MAX_SIZE
  }

  /** A completion takes its splice out of flight; it either signals or submits the next splice. */
  function Step(t: Transfer, content: string, res: nat): Transfer
    requires KernelMay(t, content, res)
  {
    var (c, finished) := Complete(t.ctx, res);
    var inFlight := t.inFlight - 1 + if finished then 0 else 1;
    var signals := t.signals + if finished then 1 else 0;
    if t.ctx.isDraining then Transfer(c, t.pipe[res..], t.delivered + t.pipe[..res], inFlight, signals)
    else Transfer(c, t.pipe + content[..res], t.delivered, inFlight, signals)
  }

  /** The fill in flight asks for a non-negative length. */
  predicate FillMakesSense(t: Transfer) {
    t.ctx.isDraining || t.inFlight == 0 || t.ctx.inPipe <= t.ctx.nbytes
  }

  /** The fill in flight cannot bring more than is left: its length makes sense, or the pipe has no room. */
  predicate FillFits(t: Transfer) {
    FillMakesSense(t) || t.ctx.inPipe + t.ctx.nbytes >= SPLICE_MAX_SIZE
  }

  ghost predicate Conserved(t: Transfer, content: string) {
    && InRange(t.ctx)
    && |t.pipe| == t.ctx.inPipe <= SPLICE_MAX_SIZE
    && |t.delivered| + t.ctx.inPipe + t.ctx.nbytes == |content|
    && t.inFlight + t.signals == 1
    && (t.signals == 1 ==> |t.delivered| == |content|)
  }

  lemma SmallMod(x: int, m: int)
    requires 0 <= x < m
    ensures x % m == x
  {
  }

  lemma NegativeMod(x: int, m: int)
    requires -m <= x < 0
    ensures x % m == x + m
  {
    assert x == (x + m) + m * (-1);
    assert (x + m) % m == x + m;
    var q := x / m;
    assert x == q * m + x % m;
    assert q >= 0 ==> q * m >= 0;
    assert q <= -2 ==> q * m <= -2 * m;
  }

  /** A step whose fill fits keeps every byte accounted for, lowers 2 * nbytes + inPipe by exactly the
      number of bytes moved, and signals the end exactly when a drain has delivered the last byte. */
  lemma StepConserves(t: Transfer, content: string, res: nat)
    requires |content| < UINT && Conserved(t, content) && FillFits(t) && KernelMay(t, content, res)
    ensures var t' := Step(t, content, res);
            && Conserved(t', content)
            && 2 * t'.ctx.nbytes + t'.ctx.inPipe == 2 * t.ctx.nbytes + t.ctx.inPipe - res
            && (t'.signals == 1 <==> t.ctx.isDraining && |t'.delivered| == |content|)
  {
    hide Complete, Request;
    if !t.ctx.isDraining {
      FillRequest(t.ctx);
    }
    CompleteIs(t.ctx, res);
  }

  /** Within their ranges the fields do not wrap around. */
  lemma CompleteIs(c: Context, res: nat)
    requires InRange(c) && c.inPipe <= SPLICE_MAX_SIZE
    requires if c.isDraining then res <= c.inPipe else res <= c.nbytes
    ensures Complete(c, res) == if !c.isDraining then (Context(c.nbytes - res, c.inPipe + res, true), false)
                                else if c.inPipe == res && c.nbytes == 0 then (c.(inPipe := 0), true)
                                else (c.(inPipe := c.inPipe - res, isDraining := false), false)
  {
    if c.isDraining {
      SmallMod(c.inPipe - res, SIZE_T);
    } else {
      SmallMod(c.nbytes - res, UINT);
      SmallMod(c.inPipe + res, SIZE_T);
    }
  }

  /** The next fill asks for no more than is left of the file exactly when what is in the pipe does
      not exceed it, that is, when the difference the code computes is not negative. */
  lemma FillRequest(c: Context)
    requires InRange(c) && !c.isDraining && c.inPipe <= 65536
    ensures c.inPipe <= c.nbytes <==> 0 <= Min(c.nbytes, 65536) - c.inPipe
    ensures c.inPipe <= c.nbytes <==> Request(c) <= c.nbytes
    ensures c.inPipe <= c.nbytes ==> Request(c) == Min(c.nbytes, 65536) - c.inPipe
  {
    var d := Min(c.nbytes, SPLICE_MAX_SIZE) - c.inPipe;
    if d >= 0 {
      SmallMod(d, SIZE_T);
      SmallMod(d, UINT);
    } else {
      NegativeMod(d, SIZE_T);
      assert SIZE_T == UINT * UINT;
      WrapTwice(d);
    }
  }

  /** A drain asks for all that is in the pipe. */
  lemma DrainRequest(c: Context)
    requires c.isDraining && c.inPipe <= 65536
    ensures Request(c) == c.inPipe
  {
    SmallMod(c.inPipe, UINT);
  }

  lemma WrapTwice(d: int)
    requires -SPLICE_MAX_SIZE <= d < 0
    ensures (d + SIZE_T) % UINT == d + UINT
  {
    assert d + SIZE_T == (UINT - 1) * UINT + (d + UINT);
    var q, r := (d + SIZE_T) / UINT, (d + SIZE_T) % UINT;
    assert d + SIZE_T == q * UINT + r;
  }

  // ---------- whole runs ----------

  /** The run through the answers `rs`, as long as the kernel may give them. */
  ghost predicate IsRun(content: string, rs: seq<nat>)
    decreases |rs|, 0
  {
    rs == [] || (IsRun(content, rs[..|rs| - 1]) && KernelMay(After(content, rs[..|rs| - 1]), content, rs[|rs| - 1]))
  }

  ghost function After(content: string, rs: seq<nat>): Transfer
    requires IsRun(content, rs)
    decreases |rs|, 1
  {
    if rs == [] then Begin(content)
    else Step(After(content, rs[..|rs| - 1]), content, rs[|rs| - 1])
  }

  ghost predicate FillsFit(content: string, rs: seq<nat>)
    requires IsRun(content, rs)
  {
    rs == [] || (FillsFit(content, rs[..|rs| - 1]) && FillFits(After(content, rs[..|rs| - 1])))
  }

  /** Sum of a run's answers. */
  function Sum(rs: seq<nat>): nat {
    if rs == [] then 0 else Sum(rs[..|rs| - 1]) + rs[|rs| - 1]
  }

  /** Every run in which each fill fits: delivered + in pipe + unread is the file size, the pipe never
      holds more than 64 KiB, the end is signalled only when everything is delivered, and the kernel
      has moved 2 * size - (2 * nbytes + inPipe) bytes in all. */
  lemma {:induction false} RunConserves(content: string, rs: seq<nat>)
    requires |content| < UINT && IsRun(content, rs) && FillsFit(content, rs)
    ensures Conserved(After(content, rs), content) && |After(content, rs).pipe| <= 65536
    ensures 2 * After(content, rs).ctx.nbytes + After(content, rs).ctx.inPipe + Sum(rs) == 2 * |content|
  {
    if rs == [] {
      SmallMod(|content|, UINT);
    } else {
      var before := rs[..|rs| - 1];
      RunConserves(content, before);
      StepConserves(After(content, before), content, rs[|rs| - 1]);
    }
  }

  /** In every run whatsoever there is one splice in flight until the end has been signalled once, and
      none from then on; so the end is never signalled twice, and never while a splice is in flight. */
  lemma {:induction false} SignalledOnce(content: string, rs: seq<nat>)
    requires IsRun(content, rs)
    ensures After(content, rs).inFlight + After(content, rs).signals == 1
    ensures After(content, rs).signals == 1 ==> After(content, rs).ctx.nbytes == 0 && After(content, rs).ctx.inPipe == 0
  {
    if rs != [] {
      SignalledOnce(content, rs[..|rs| - 1]);
    }
  }

  /** The condition on the fills is exact: the kernel has an answer after which the bytes are no longer
      accounted for if and only if the fill in flight does not fit. */
  lemma ShortDrainLosesCount(t: Transfer, content: string)
    requires |content| < UINT && Conserved(t, content)
    ensures (exists res :: KernelMay(t, content, res) && !Conserved(Step(t, content, res), content)) <==> !FillFits(t)
  {
    if FillFits(t) {
      forall res | KernelMay(t, content, res) ensures Conserved(Step(t, content, res), content) {
        StepConserves(t, content, res);
      }
    } else {
      FillThatLoses(t, content);
    }
  }

  lemma FillThatLoses(t: Transfer, content: string)
    requires |content| < UINT && Conserved(t, content) && !FillFits(t)
    ensures KernelMay(t, content, t.ctx.nbytes + 1)
    ensures !Conserved(Step(t, content, t.ctx.nbytes + 1), content)
  {
    var c := t.ctx;
    var d := Min(c.nbytes, SPLICE_MAX_SIZE) - c.inPipe;
    NegativeMod(d, SIZE_T);
    WrapTwice(d);
    assert Request(c) == d + UINT;
    NegativeMod(-1, UINT);
    assert Step(t, content, c.nbytes + 1).ctx.nbytes == UINT - 1;
  }

  /** The smallest instance: a two-byte file, one byte of which is drained first. */
  lemma ShortDrainWitness()
    ensures var t := Step(Step(Begin("ab"), "ab", 2), "ab", 1);
            t.delivered == "a" && !FillMakesSense(t) && Request(t.ctx) == 0xFFFF_FFFF
  {
    SmallMod(2, UINT);
    var t1 := Step(Begin("ab"), "ab", 2);
    assert t1.ctx == Context(0, 2, true) && t1.pipe == "ab";
    SmallMod(1, SIZE_T);
    var t2 := Step(t1, "ab", 1);
    assert t2.ctx == Context(0, 1, false);
    NegativeMod(-1, SIZE_T);
    WrapTwice(-1);
  }

  // ---------- what arrives ----------

  /** Every fill and every drain moves all it was asked to. */
  ghost predicate FullRun(content: string, rs: seq<nat>)
    requires IsRun(content, rs)
  {
    rs == [] || (FullRun(content, rs[..|rs| - 1]) && rs[|rs| - 1] == Request(After(content, rs[..|rs| - 1]).ctx))
  }

  /** The first n bytes of the file's first 64 KiB repeated over and over. */
  function Wrapped(content: string, n: nat): (s: string)
    requires n <= |content|
    ensures |s| == n && forall i :: 0 <= i < n ==> s[i] == content[i % SPLICE_MAX_SIZE]
  {
    seq(n, i requires 0 <= i < n => content[i % SPLICE_MAX_SIZE])
  }

  ghost predicate RunOfBlocks(t: Transfer, content: string) {
    && Conserved(t, content)
    && t.delivered + t.pipe == Wrapped(content, |t.delivered| + |t.pipe|)
    && (t.signals == 0 ==> |t.delivered| % SPLICE_MAX_SIZE == 0)
    && (!t.ctx.isDraining ==> t.ctx.inPipe == 0)
    && (t.ctx.isDraining && t.signals == 0 ==> t.ctx.inPipe == SPLICE_MAX_SIZE || t.ctx.nbytes == 0)
  }

  lemma BlockAppended(content: string, n: nat, k: nat)
    requires n % SPLICE_MAX_SIZE == 0 && k <= SPLICE_MAX_SIZE && n + k <= |content|
    ensures Wrapped(content, n) + content[..k] == Wrapped(content, n + k)
  {
    forall i | n <= i < n + k ensures content[i % SPLICE_MAX_SIZE] == content[i - n] {
      ModShift(n, i - n);
    }
  }

  lemma ModShift(n: nat, j: nat)
    requires n % SPLICE_MAX_SIZE == 0
    ensures (n + j) % SPLICE_MAX_SIZE == j % SPLICE_MAX_SIZE
  {
  }

  lemma FullStep(t: Transfer, content: string)
    requires |content| < UINT && RunOfBlocks(t, content) && KernelMay(t, content, Request(t.ctx))
    ensures FillFits(t) && RunOfBlocks(Step(t, content, Request(t.ctx)), content)
  {
    hide Complete, Request, Wrapped;
    var c := t.ctx;
    var res := Request(c);
    StepConserves(t, content, res);
    CompleteIs(c, res);
    if c.isDraining {
      DrainRequest(c);
      assert t.pipe[..res] == t.pipe && t.pipe[res..] == "";
      ModShift(|t.delivered|, c.inPipe);
    } else {
      FillRequest(c);
      assert t.delivered + t.pipe == t.delivered;
      BlockAppended(content, |t.delivered|, res);
    }
  }

  lemma {:induction false} FullRunOfBlocks(content: string, rs: seq<nat>)
    requires |content| < UINT && IsRun(content, rs) && FullRun(content, rs)
    ensures RunOfBlocks(After(content, rs), content) && FillsFit(content, rs)
  {
    if rs == [] {
      SmallMod(|content|, UINT);
    } else {
      var before := rs[..|rs| - 1];
      FullRunOfBlocks(content, before);
      FullStep(After(content, before), content);
    }
  }

  /** What the client gets when every splice moves all it was asked to: as many bytes as the file
      has, but always the file's first 64 KiB over again, since the offset is never advanced. It is
      the file if and only if the file itself repeats every 64 KiB; any file of up to 64 KiB does. */
  lemma DeliveredIsFile(content: string, rs: seq<nat>)
    requires |content| < UINT && IsRun(content, rs) && FullRun(content, rs)
    requires After(content, rs).signals == 1
    ensures |After(content, rs).delivered| == |content|
    ensures After(content, rs).delivered == content
            <==> forall i :: 0 <= i < |content| ==> content[i] == content[i % 65536]
  {
    FullRunOfBlocks(content, rs);
    var t := After(content, rs);
    assert t.delivered + t.pipe == t.delivered == Wrapped(content, |content|);
  }

  lemma SmallFileRepeats(content: string)
    requires |content| <= 65536
    ensures forall i :: 0 <= i < |content| ==> content[i] == content[i % 65536]
  {
    forall i | 0 <= i < |content| ensures content[i] == content[i % 65536] {
      SmallMod(i, SPLICE_MAX_SIZE);
    }
  }
}
