/** What the client promises against every server. */
module ModbusAnyServer {
  import opened ModbusServer
  import opened ModbusClient

  // ---------------------------------------------------------------------------------------------------------
  // The failure count is the number of lines logged, and is bounded

  function Max(a: nat, b: nat): nat {
    if a >= b then a else b
  }

  /** d has logged as many lines as it has counted failures, at most `most`, since c. */
  predicate Accounted(c: Client, d: Client, most: nat) {
    d.fails <= c.fails + most && Logged(c, d)
  }

  predicate Logged(c: Client, d: Client) {
    && |d.log| - |c.log| == d.fails - c.fails
    && c.fails <= d.fails
    && c.log <= d.log
  }

  /** Most failures of one iteration. */
  function IterationMost(nb: nat): nat {
    if nb == 0 then 5 else 1 + 5 * nb
  }

  lemma BitAccounted(c: Client, server: Server, addr: nat)
    requires Sized(c)
    ensures Accounted(c, BitTest(c, server, addr), 1)
  {}

  lemma MultipleBitsAccounted(c: Client, server: Server, addr: nat)
    requires Sized(c)
    ensures Accounted(c, MultipleBitsTest(c, server, addr), Max(1, c.inputs.nb))
  {}

  lemma SingleRegisterAccounted(c: Client, server: Server, addr: nat)
    requires Sized(c)
    ensures Accounted(c, SingleRegisterTest(c, server, addr), Max(1, c.inputs.nb))
  {}

  lemma MultipleRegistersAccounted(c: Client, server: Server, addr: nat)
    requires Sized(c)
    ensures Accounted(c, MultipleRegistersTest(c, server, addr), Max(1, c.inputs.nb))
  {}

  lemma ReadWriteAccounted(c: Client, server: Server, addr: nat)
    requires Sized(c)
    ensures Accounted(c, ReadWriteTest(c, server, addr), Max(1, 2 * c.inputs.nb))
  {}

  lemma IterationAccounted(c: Client, server: Server, addr: nat)
    requires Sized(c)
    ensures Accounted(c, Tests(c, server, addr), IterationMost(c.inputs.nb))
  {
    BitAccounted(c, server, addr);
    var c1 := BitTest(c, server, addr);
    MultipleBitsAccounted(c1, server, addr);
    var c2 := MultipleBitsTest(c1, server, addr);
    SingleRegisterAccounted(c2, server, addr);
    var c3 := SingleRegisterTest(c2, server, addr);
    MultipleRegistersAccounted(c3, server, addr);
    ReadWriteAccounted(MultipleRegistersTest(c3, server, addr), server, addr);
  }

  const MOST: nat := 24854

  /** Twice the most failures of the iterations below `end`: the sum of 1 + 5 * (99 - a) for a from 0, and 5 at
      address 99. */
  function TwiceMost(end: nat): int
    requires end <= ADDRESS_END + 1
  {
    if end == ADDRESS_END + 1 then 2 * MOST else 2 * end + 5 * end * (2 * ADDRESS_END + 1 - end)
  }

  lemma TwiceMostStep(end: nat)
    requires end <= ADDRESS_END
    ensures TwiceMost(end + 1) == TwiceMost(end) + 2 * IterationMost(ADDRESS_END - end)
  {}

  lemma BodyAccounted(c: Client, d: Client, server: Server, rand: Rand, addr: nat)
    requires addr <= ADDRESS_END && Sized(d) && Logged(c, d) && 2 * (d.fails - c.fails) <= TwiceMost(addr)
    ensures var e := IterationBody(server, rand)(d, addr);
            Sized(e) && Logged(c, e) && 2 * (e.fails - c.fails) <= TwiceMost(addr + 1)
  {
    IterationAccounted(d.(inputs := Prepare(d.inputs, rand, addr)), server, addr);
    TwiceMostStep(addr);
  }

  lemma PassAccounted(c: Client, d: Client, server: Server, rand: Rand, n: nat)
    requires Sized(d) && Accounted(c, d, MOST * n)
    ensures var e := Pass(d, IterationBody(server, rand), ADDRESS_END + 1);
            Sized(e) && Accounted(c, e, MOST * (n + 1))
  {
    var body := IterationBody(server, rand);
    var holds := (e: Client, addr: nat) =>
      addr <= ADDRESS_END + 1 && Sized(e) && Logged(d, e) && 2 * (e.fails - d.fails) <= TwiceMost(addr);
    forall e, addr: nat | addr <= ADDRESS_END && holds(e, addr) ensures holds(body(e, addr), addr + 1) {
      BodyAccounted(d, e, server, rand, addr);
    }
    assert TwiceMost(0) == 0 && Logged(d, d);
    PassInduction(d, body, holds, ADDRESS_END + 1);
  }

  /** For every server, every sequence of random numbers and every LOOP: a connected run returns exactly the number of
      lines it logs, at most 24854 for each pass, and only appends to the log. */
  lemma FailuresAreLogged(server: Server, rand: Rand, loops: nat, log: seq<string>)
    ensures var d := Run(server, rand, loops, log);
            d.fails == |d.log| - |log| && d.fails <= MOST * loops && log <= d.log
  {
    var c := Start(log);
    var holds := (d: Client, n: nat) => Sized(d) && Accounted(c, d, MOST * n);
    forall d, n: nat | holds(d, n) ensures holds(Pass(d, IterationBody(server, rand), ADDRESS_END + 1), n + 1) {
      PassAccounted(c, d, server, rand, n);
    }
    PassesInduction(c, IterationBody(server, rand), holds, loops);
  }

  // ---------------------------------------------------------------------------------------------------------
  // The bound is attained

  function Inverted(bits: seq<bool>): seq<bool> {
    seq(|bits|, i requires 0 <= i < |bits| => !bits[i])
  }

  function Shifted(values: seq<u16>): seq<u16> {
    seq(|values|, i requires 0 <= i < |values| => if values[i] == 0xFFFF then 0 else values[i] + 1)
  }

  /** Succeeds and returns wrong data wherever wrong data is worse than failing. */
  function WorstReply(previous: Request, request: Request): Reply {
    match request
    case WriteBit(_, _) => Done(1)
    case WriteBits(_, bits) => if bits == [] then FAULT else Done(|bits|)
    case WriteRegister(a, _) => if a == ADDRESS_END then FAULT else Done(1)
    case WriteRegisters(_, values) => if values == [] then FAULT else Done(|values|)
    case WriteReadRegisters(_, values, _, n) => if n == 0 then FAULT else Reply(n, [], Shifted(values))
    case ReadBits(_, n) => (
      match previous
      case WriteBit(_, b) => Reply(n, [!b], [])
      case WriteBits(_, bits) => Reply(n, Inverted(bits), [])
      case _ => FAULT)
    case ReadRegisters(_, n) =>
      Reply(n, [], if previous.WriteReadRegisters? then Shifted(previous.values) else [])
  }

  function WorstServer(): Server {
    (history: seq<Request>) =>
      if history == [] then FAULT
      else WorstReply(history[if |history| >= 2 then |history| - 2 else 0], history[|history| - 1])
  }

  lemma WorstHears(c: Client, first: Request, second: Request)
    ensures Heard(Send(c, first), WorstServer()) ==
            WorstReply((c.sent + [first])[if c.sent == [] then 0 else |c.sent| - 1], first)
    ensures Heard(Send(Send(c, first), second), WorstServer()) == WorstReply(first, second)
  {
    assert (c.sent + [first])[|c.sent|] == first;
    assert (c.sent + [first] + [second])[|c.sent|] == first;
    assert (c.sent + [first] + [second])[|c.sent| + 1] == second;
  }

  lemma {:induction false} AllDiffer<T>(xs: seq<T>, ys: seq<T>, n: nat)
    requires n <= |xs| && n <= |ys|
    requires forall i :: 0 <= i < n ==> xs[i] != ys[i]
    ensures Mismatches(xs, ys, n) == n
  {
    if n > 0 { AllDiffer(xs, ys, n - 1); }
  }

  /** The first nb bits read back are all wrong. */
  predicate BitsWrong(c: Client) {
    |c.rpBits| >= c.inputs.nb && |c.inputs.rqBits| >= c.inputs.nb
        && forall i :: 0 <= i < c.inputs.nb ==> c.rpBits[i] != c.inputs.rqBits[i]
  }

  lemma WorstBit(c: Client, addr: nat)
    requires Sized(c)
    ensures BitTest(c, WorstServer(), addr).fails == c.fails + 1
  {
    WorstHears(c, WriteBit(addr, c.inputs.rqBits[0]), ReadBits(addr, 1));
  }

  lemma WorstMultipleBits(c: Client, addr: nat)
    requires Sized(c)
    ensures var d := MultipleBitsTest(c, WorstServer(), addr);
            d.fails == c.fails + Max(1, c.inputs.nb) && BitsWrong(d)
  {
    var bits := c.inputs.rqBits[..c.inputs.nb];
    WorstHears(c, WriteBits(addr, bits), ReadBits(addr, c.inputs.nb));
    if c.inputs.nb > 0 {
      var c2 := Send(Send(c, WriteBits(addr, bits)), ReadBits(addr, c.inputs.nb));
      var c3 := HearBits(c2, WorstServer(), c.inputs.nb);
      assert c3.rpBits == Stored(c.rpBits, c.inputs.nb, Inverted(bits), false);
      AllDiffer(c3.rpBits, c3.inputs.rqBits, c.inputs.nb);
    }
  }

  lemma WorstSingleRegister(c: Client, addr: nat)
    requires Sized(c) && BitsWrong(c) && c.inputs.nb == ADDRESS_END - addr
    ensures var d := SingleRegisterTest(c, WorstServer(), addr);
            d.fails == c.fails + Max(1, c.inputs.nb) && BitsWrong(d)
  {
    WorstHears(c, WriteRegister(addr, c.inputs.rq[0]), ReadRegisters(addr, 1));
    AllDiffer(c.rpBits, c.inputs.rqBits, c.inputs.nb);
  }

  lemma WorstMultipleRegisters(c: Client, addr: nat)
    requires Sized(c) && BitsWrong(c)
    ensures MultipleRegistersTest(c, WorstServer(), addr).fails == c.fails + Max(1, c.inputs.nb)
  {
    var nb := c.inputs.nb;
    var first, second := WriteRegisters(addr, c.inputs.rq[..nb]), ReadRegisters(addr, nb);
    WorstHears(c, first, second);
    assert Heard(Send(c, first), WorstServer()).rc == if nb == 0 then -1 else nb;
    assert Heard(Send(Send(c, first), second), WorstServer()).rc == nb;
    if nb > 0 { AllDiffer(c.rpBits, c.inputs.rqBits, nb); }
  }

  lemma WorstReadWrite(c: Client, addr: nat)
    requires Sized(c)
    ensures ReadWriteTest(c, WorstServer(), addr).fails == c.fails + Max(1, 2 * c.inputs.nb)
  {
    var values := c.inputs.rw[..c.inputs.nb];
    var first, second := WriteReadRegisters(addr, values, addr, c.inputs.nb), ReadRegisters(addr, c.inputs.nb);
    WorstHears(c, first, second);
    if c.inputs.nb > 0 {
      var c2 := WorstRegisters(Send(c, first), values);
      var c3 := Fail(c2, "R/W MULTIPLE REGISTER TEST : compare error", c.inputs.nb);
      assert Send(c3, second).sent == Send(Send(c, first), second).sent;
      var c5 := WorstRegisters(Send(c3, second), values);
    }
  }

  lemma WorstRegisters(c: Client, values: seq<u16>) returns (d: Client)
    requires Sized(c) && values == c.inputs.rw[..c.inputs.nb]
        && Heard(c, WorstServer()) == Reply(c.inputs.nb, [], Shifted(values))
    ensures d == HearRegisters(c, WorstServer(), c.inputs.nb)
    ensures Mismatches(d.rp, d.inputs.rw, c.inputs.nb) == Mismatches(d.inputs.rw, d.rp, c.inputs.nb) == c.inputs.nb
  {
    d := HearRegisters(c, WorstServer(), c.inputs.nb);
    assert d.rp == Stored(c.rp, c.inputs.nb, Shifted(values), 0);
    AllDiffer(d.rp, d.inputs.rw, c.inputs.nb);
    AllDiffer(d.inputs.rw, d.rp, c.inputs.nb);
  }

  lemma WorstIteration(c: Client, addr: nat)
    requires Sized(c) && addr <= ADDRESS_END && c.inputs.nb == ADDRESS_END - addr
    ensures Tests(c, WorstServer(), addr).fails == c.fails + IterationMost(c.inputs.nb)
  {
    WorstBit(c, addr);
    var c1 := BitTest(c, WorstServer(), addr);
    WorstMultipleBits(c1, addr);
    var c2 := MultipleBitsTest(c1, WorstServer(), addr);
    WorstSingleRegister(c2, addr);
    var c3 := SingleRegisterTest(c2, WorstServer(), addr);
    WorstMultipleRegisters(c3, addr);
    WorstReadWrite(MultipleRegistersTest(c3, WorstServer(), addr), addr);
  }

  /** One more iteration, as seen from outside. */
  ghost predicate FailsMost(body: Body) {
    forall d, addr: nat :: Sized(d) && addr <= ADDRESS_END ==>
      Sized(body(d, addr)) && body(d, addr).fails == d.fails + IterationMost(ADDRESS_END - addr)
  }

  lemma WorstBody(rand: Rand)
    ensures FailsMost(IterationBody(WorstServer(), rand))
  {
    var body := IterationBody(WorstServer(), rand);
    forall d, addr: nat | Sized(d) && addr <= ADDRESS_END
      ensures Sized(body(d, addr)) && body(d, addr).fails == d.fails + IterationMost(ADDRESS_END - addr)
    {
      WorstPrepared(d, d.(inputs := Prepare(d.inputs, rand, addr)), addr);
    }
  }

  lemma WorstPrepared(d: Client, p: Client, addr: nat)
    requires addr <= ADDRESS_END && Sized(p) && p.inputs.nb == ADDRESS_END - addr && p.fails == d.fails
    ensures Sized(Tests(p, WorstServer(), addr))
    ensures Tests(p, WorstServer(), addr).fails == d.fails + IterationMost(ADDRESS_END - addr)
  {
    WorstIteration(p, addr);
  }

  lemma WorstPass(c: Client, body: Body)
    requires Sized(c) && FailsMost(body)
    ensures var d := Pass(c, body, ADDRESS_END + 1); Sized(d) && d.fails == c.fails + MOST
  {
    var holds := (d: Client, addr: nat) => addr <= ADDRESS_END + 1 && Sized(d)
        && 2 * (d.fails - c.fails) == TwiceMost(addr);
    forall d, addr: nat | addr <= ADDRESS_END && holds(d, addr) ensures holds(body(d, addr), addr + 1) {
      TwiceMostStep(addr);
    }
    PassInduction(c, body, holds, ADDRESS_END + 1);
  }

  lemma WorstPasses(c: Client, body: Body, loops: nat)
    requires Sized(c) && FailsMost(body)
    ensures Passes(c, body, loops).fails == c.fails + MOST * loops
  {
    var holds := (d: Client, n: nat) => Sized(d) && d.fails == c.fails + MOST * n;
    forall d, n: nat | holds(d, n) ensures holds(Pass(d, body, ADDRESS_END + 1), n + 1) {
      WorstPass(d, body);
    }
    PassesInduction(c, body, holds, loops);
  }

  /** The bound is attained, for every sequence of random numbers and every LOOP. */
  lemma BoundAttained(rand: Rand, loops: nat, log: seq<string>)
    ensures Run(WorstServer(), rand, loops, log).fails == MOST * loops
  {
    WorstBody(rand);
    WorstPasses(Start(log), IterationBody(WorstServer(), rand), loops);
  }

  // ---------------------------------------------------------------------------------------------------------
  // Which data can matter

  /** The registers of this reply are looked at: the two reads of the R/W test, not the reads of lines 125 and 147. */
  predicate RegistersMatter(history: seq<Request>) {
    |history| > 0 &&
    (history[|history| - 1].WriteReadRegisters? ||
     (|history| > 1 && history[|history| - 2].WriteReadRegisters?))
  }

  /** Two servers that agree on return codes, on coils, and on registers where they matter. */
  ghost predicate Agree(one: Server, two: Server) {
    forall history: seq<Request> ::
      && one(history).rc == two(history).rc && one(history).bits == two(history).bits
      && (RegistersMatter(history) ==> one(history).registers == two(history).registers)
  }

  /** The same but for the buffer of registers read. */
  predicate SameButRead(c: Client, d: Client) {
    d == c.(rp := d.rp)
  }

  lemma BitAgrees(c: Client, d: Client, one: Server, two: Server, addr: nat)
    requires Sized(c) && Sized(d) && SameButRead(c, d) && Agree(one, two)
    ensures SameButRead(BitTest(c, one, addr), BitTest(d, two, addr))
  {}

  lemma MultipleBitsAgrees(c: Client, d: Client, one: Server, two: Server, addr: nat)
    requires Sized(c) && Sized(d) && SameButRead(c, d) && Agree(one, two)
    ensures SameButRead(MultipleBitsTest(c, one, addr), MultipleBitsTest(d, two, addr))
  {}

  lemma SingleRegisterAgrees(c: Client, d: Client, one: Server, two: Server, addr: nat)
    requires Sized(c) && Sized(d) && SameButRead(c, d) && Agree(one, two)
    ensures SameButRead(SingleRegisterTest(c, one, addr), SingleRegisterTest(d, two, addr))
  {}

  lemma MultipleRegistersAgrees(c: Client, d: Client, one: Server, two: Server, addr: nat)
    requires Sized(c) && Sized(d) && SameButRead(c, d) && Agree(one, two)
    ensures SameButRead(MultipleRegistersTest(c, one, addr), MultipleRegistersTest(d, two, addr))
  {}

  lemma {:induction false} SameMismatches<T>(xs: seq<T>, ys: seq<T>, zs: seq<T>, n: nat)
    requires n <= |xs| && n <= |ys| && n <= |zs| && xs[..n] == ys[..n]
    ensures Mismatches(xs, zs, n) == Mismatches(ys, zs, n)
    ensures Mismatches(zs, xs, n) == Mismatches(zs, ys, n)
  {
    if n > 0 {
      assert xs[..n][..n - 1] == xs[..n - 1] && ys[..n][..n - 1] == ys[..n - 1];
      assert xs[..n][n - 1] == xs[n - 1] && ys[..n][n - 1] == ys[n - 1];
      SameMismatches(xs, ys, zs, n - 1);
    }
  }

  /** A read that matters makes the first n cells equal. */
  lemma HearAgrees(c: Client, d: Client, one: Server, two: Server, n: nat)
    requires Sized(c) && Sized(d) && SameButRead(c, d) && Agree(one, two) && RegistersMatter(c.sent) && n <= CELLS
    ensures SameButRead(HearRegisters(c, one, n), HearRegisters(d, two, n))
    ensures Heard(c, one).rc == Heard(d, two).rc
    ensures Heard(c, one).rc == n ==> HearRegisters(c, one, n).rp[..n] == HearRegisters(d, two, n).rp[..n]
  {
    assert c.sent == d.sent;
  }

  lemma ReadWriteAgrees(c: Client, d: Client, one: Server, two: Server, addr: nat)
    requires Sized(c) && Sized(d) && SameButRead(c, d) && Agree(one, two)
    ensures SameButRead(ReadWriteTest(c, one, addr), ReadWriteTest(d, two, addr))
  {
    var first := WriteReadRegisters(addr, c.inputs.rw[..c.inputs.nb], addr, c.inputs.nb);
    var c1, d1 := Send(c, first), Send(d, first);
    HearAgrees(c1, d1, one, two, c.inputs.nb);
    var c2, d2 := HearRegisters(c1, one, c.inputs.nb), HearRegisters(d1, two, c.inputs.nb);
    if Heard(c1, one).rc == c.inputs.nb {
      SameMismatches(c2.rp, d2.rp, c2.inputs.rw, c.inputs.nb);
      var line := "R/W MULTIPLE REGISTER TEST : compare error";
      var m := Mismatches(c2.rp, c2.inputs.rw, c.inputs.nb);
      var c4 := Send(Fail(c2, line, m), ReadRegisters(addr, c.inputs.nb));
      var d4 := Send(Fail(d2, line, m), ReadRegisters(addr, c.inputs.nb));
      assert c4.sent[|c4.sent| - 2] == first;
      HearAgrees(c4, d4, one, two, c.inputs.nb);
      var c5, d5 := HearRegisters(c4, one, c.inputs.nb), HearRegisters(d4, two, c.inputs.nb);
      if Heard(c4, one).rc == c.inputs.nb { SameMismatches(c5.rp, d5.rp, c5.inputs.rw, c.inputs.nb); }
    }
  }

  lemma IterationAgrees(c: Client, d: Client, one: Server, two: Server, rand: Rand, addr: nat)
    requires Sized(c) && Sized(d) && SameButRead(c, d) && Agree(one, two) && addr <= ADDRESS_END
    ensures SameButRead(Iteration(c, one, rand, addr), Iteration(d, two, rand, addr))
  {
    var c0, d0 := c.(inputs := Prepare(c.inputs, rand, addr)), d.(inputs := Prepare(d.inputs, rand, addr));
    BitAgrees(c0, d0, one, two, addr);
    var c1, d1 := BitTest(c0, one, addr), BitTest(d0, two, addr);
    MultipleBitsAgrees(c1, d1, one, two, addr);
    var c2, d2 := MultipleBitsTest(c1, one, addr), MultipleBitsTest(d1, two, addr);
    SingleRegisterAgrees(c2, d2, one, two, addr);
    var c3, d3 := SingleRegisterTest(c2, one, addr), SingleRegisterTest(d2, two, addr);
    MultipleRegistersAgrees(c3, d3, one, two, addr);
    ReadWriteAgrees(MultipleRegistersTest(c3, one, addr), MultipleRegistersTest(d3, two, addr), one, two, addr);
  }

  /** Two loop bodies that cannot be told apart by what they leave, but for the buffer of registers read. */
  ghost predicate BodiesAgree(f: Body, g: Body) {
    forall c, d, addr: nat :: Sized(c) && Sized(d) && SameButRead(c, d) && addr <= ADDRESS_END ==>
      Sized(f(c, addr)) && Sized(g(d, addr)) && SameButRead(f(c, addr), g(d, addr))
  }

  lemma IterationBodiesAgree(one: Server, two: Server, rand: Rand)
    requires Agree(one, two)
    ensures BodiesAgree(IterationBody(one, rand), IterationBody(two, rand))
  {
    var f, g := IterationBody(one, rand), IterationBody(two, rand);
    forall c, d, addr: nat | Sized(c) && Sized(d) && SameButRead(c, d) && addr <= ADDRESS_END
      ensures Sized(f(c, addr)) && Sized(g(d, addr)) && SameButRead(f(c, addr), g(d, addr))
    {
      IterationAgrees(c, d, one, two, rand, addr);
    }
  }

  lemma {:induction false} PassAgrees(c: Client, d: Client, f: Body, g: Body, end: nat)
    requires Sized(c) && Sized(d) && SameButRead(c, d) && BodiesAgree(f, g) && end <= ADDRESS_END + 1
    ensures Sized(Pass(c, f, end)) && Sized(Pass(d, g, end)) && SameButRead(Pass(c, f, end), Pass(d, g, end))
  {
    if end > 0 { PassAgrees(c, d, f, g, end - 1); }
  }

  lemma {:induction false} PassesAgree(c: Client, f: Body, g: Body, loops: nat)
    requires Sized(c) && BodiesAgree(f, g)
    ensures Sized(Passes(c, f, loops)) && Sized(Passes(c, g, loops))
    ensures SameButRead(Passes(c, f, loops), Passes(c, g, loops))
  {
    if loops > 0 {
      PassesAgree(c, f, g, loops - 1);
      PassAgrees(Passes(c, f, loops - 1), Passes(c, g, loops - 1), f, g, ADDRESS_END + 1);
    }
  }

  /** The values that the reads of lines 125 and 147 return cannot matter: servers that differ in nothing else give the
      same return value, log and requests. */
  lemma ReadValuesAreIgnored(one: Server, two: Server, rand: Rand, loops: nat, log: seq<string>)
    requires Agree(one, two)
    ensures var c, d := Run(one, rand, loops, log), Run(two, rand, loops, log);
            c.fails == d.fails && c.log == d.log && c.sent == d.sent && SameButRead(c, d)
  {
    IterationBodiesAgree(one, two, rand);
    PassesAgree(Start(log), IterationBody(one, rand), IterationBody(two, rand), loops);
  }
}
