/**
 What the self-test sends and what it is charged with, told from the requests and the replies alone, for every server.
 Five times an iteration a write is sent, and if its reply is in order, a read. An exchange whose reply code is not the
 quantity is charged one failure; one in order is charged one failure for each cell that is compared and differs.
*/
module ModbusVerdicts {
  import opened ModbusServer
  import opened ModbusClient
  import opened ModbusNumbers

  // ---------------------------------------------------------------------------------------------------------
  // The requests

  datatype Test = Test(write: Request, read: Request)

  /** The five tests of an iteration, with the three buffers and nb as they are after the fill. */
  function Script(i: Inputs, addr: nat): seq<Test>
    requires SizedInputs(i)
  {
    [Test(WriteBit(addr, i.rqBits[0]), ReadBits(addr, 1)),
     Test(WriteBits(addr, i.rqBits[..i.nb]), ReadBits(addr, i.nb)),
     Test(WriteRegister(addr, i.rq[0]), ReadRegisters(addr, 1)),
     Test(WriteRegisters(addr, i.rq[..i.nb]), ReadRegisters(addr, i.nb)),
     Test(WriteReadRegisters(addr, i.rw[..i.nb], addr, i.nb), ReadRegisters(addr, i.nb))]
  }

  /** The reply to the last request carries its quantity as the code. */
  predicate InOrder(server: Server, history: seq<Request>) {
    history != [] && server(history).rc == Quantity(history[|history| - 1])
  }

  function PlayedOne(server: Server, sent: seq<Request>, test: Test): seq<Request> {
    var written := sent + [test.write];
    if InOrder(server, written) then written + [test.read] else written
  }

  /** What has been sent after the tests of a script. */
  function Played(server: Server, sent: seq<Request>, script: seq<Test>): seq<Request>
    decreases |script|
  {
    if script == [] then sent else Played(server, PlayedOne(server, sent, script[0]), script[1..])
  }

  /** What has been sent before iteration addr of a pass, and after p passes. */
  function SentInPass(server: Server, rand: Rand, p: nat, start: seq<Request>, addr: nat): seq<Request>
    requires addr <= ADDRESS_END + 1
    decreases addr, start
  {
    if addr == 0 then start
    else Played(server, SentInPass(server, rand, p, start, addr - 1), Script(InputsSent(rand, p, addr - 1), addr - 1))
  }

  function SentInRun(server: Server, rand: Rand, p: nat): seq<Request> {
    if p == 0 then [] else SentInPass(server, rand, p - 1, SentInRun(server, rand, p - 1), ADDRESS_END + 1)
  }

  // ---------------------------------------------------------------------------------------------------------
  // The charges

  /** A successful read brings this into a cell. */
  function Cell<T>(values: seq<T>, i: nat, pad: T): T {
    if i < |values| then values[i] else pad
  }

  function Brought<T>(before: seq<T>, n: nat, values: seq<T>, pad: T): (after: seq<T>)
    ensures |after| == |before|
    ensures forall i :: 0 <= i < |before| ==> after[i] == if i < n then Cell(values, i, pad) else before[i]
  {
    seq(|before|, i requires 0 <= i < |before| => if i < n then Cell(values, i, pad) else before[i])
  }

  /** The cells in which two rows differ. */
  ghost function Differing<T(!new)>(xs: seq<T>, ys: seq<T>): set<nat> {
    set i: nat | i < |xs| && i < |ys| && xs[i] != ys[i]
  }

  function Row<T>(values: seq<T>, n: nat, pad: T): (row: seq<T>)
    ensures |row| == n && forall i: nat :: i < n ==> row[i] == Cell(values, i, pad)
  {
    seq(n, i requires 0 <= i < n => Cell(values, i, pad))
  }

  /** The cells that the client compares after the last exchange and finds different, with the bits it has heard and
      those it last asked to write. A read of registers is compared with what was written only in the read/write test;
      after the other two writes it is the bits that are compared. */
  ghost function Wrong(server: Server, history: seq<Request>, heard: seq<bool>, asked: seq<bool>): set<nat>
    requires history != []
  {
    var last, reply := history[|history| - 1], server(history);
    var previous := if |history| > 1 then history[|history| - 2] else last;
    match last
    case ReadBits(_, n) =>
      if previous.WriteBit? then Differing(Row(reply.bits, 1, false), [previous.bit])
      else if previous.WriteBits? then Differing(Row(reply.bits, n, false), previous.bits)
      else {}
    case ReadRegisters(_, n) =>
      if previous.WriteReadRegisters? then Differing(Row(reply.registers, n, 0), previous.values)
      else Differing(heard, asked)
    case WriteReadRegisters(_, values, _, n) => Differing(Row(reply.registers, n, 0), values)
    case _ => {}
  }

  /** The line that is logged for each failure of the last exchange. */
  function Line(server: Server, history: seq<Request>): string
    requires history != []
  {
    var last, fine := history[|history| - 1], InOrder(server, history);
    var previous := if |history| > 1 then history[|history| - 2] else last;
    match last
    case WriteBit(_, _) => "BIT TEST : write error"
    case WriteBits(_, _) => "MULTIPLE BITS TEST : write error"
    case WriteRegister(_, _) => "SINGLE REGISTER TEST : write error"
    case WriteRegisters(_, _) => "MULTIPLE REGISTER TEST : write error"
    case WriteReadRegisters(_, _, _, _) =>
      if fine then "R/W MULTIPLE REGISTER TEST : compare error" else "R/W MULTIPLE REGISTER TEST : write error"
    case ReadBits(_, _) =>
      if previous.WriteBit? then "BIT TEST : read error"
      else if fine then "MULTIPLE BITS TEST : compare error"
      else "MULTIPLE BITS TEST : read error"
    case ReadRegisters(_, _) =>
      if previous.WriteRegister? then
        if fine then "SINGLE REGISTER TEST : compare error" else "SINGLE REGISTER TEST : read error"
      else if previous.WriteRegisters? then
        if fine then "MULTIPLE REGISTER TEST : compare error" else "MULTIPLE REGISTER TEST : read error"
      else
        if fine then "R/W MULTIPLE REGISTER TEST : compare error" else "R/W MULTIPLE REGISTER TEST : read error"
  }

  /** What a history of exchanges comes to: the failures charged, the lines logged, what the two buffers that are read
      into hold, and the bits of the last request that wrote several. */
  datatype Verdict = Verdict(fails: nat, lines: seq<string>, heard: seq<bool>, asked: seq<bool>, registers: seq<u16>)

  /** Before the first exchange; the buffers hold zeros. */
  function NoVerdict(): Verdict {
    Verdict(0, [], seq(CELLS, _ => false), [], seq(CELLS, _ => 0))
  }

  /** The last exchange is added. */
  ghost function Judge(v: Verdict, server: Server, history: seq<Request>): Verdict
    requires history != []
  {
    var last, fine := history[|history| - 1], InOrder(server, history);
    var heard := if last.ReadBits? && fine then Brought(v.heard, last.count, server(history).bits, false)
                 else v.heard;
    var registers := if (last.ReadRegisters? || last.WriteReadRegisters?) && fine
                     then Brought(v.registers, last.count, server(history).registers, 0) else v.registers;
    var asked := if last.WriteBits? then last.bits else v.asked;
    var charge := if fine then |Wrong(server, history, heard, asked)| else 1;
    Verdict(v.fails + charge, v.lines + Lines(Line(server, history), charge), heard, asked, registers)
  }

  ghost function Judgement(server: Server, history: seq<Request>): Verdict {
    if history == [] then NoVerdict() else Judge(Judgement(server, history[..|history| - 1]), server, history)
  }

  // ---------------------------------------------------------------------------------------------------------
  // Every test is charged so

  /** Judgement as a value, so that the tests can be reasoned about without its recursion. */
  type Judgements = seq<Request> -> Verdict

  ghost predicate Entry(js: Judgements, server: Server, history: seq<Request>, req: Request) {
    js(history + [req]) == Judge(js(history), server, history + [req])
  }

  ghost predicate Just(js: Judgements, server: Server) {
    forall history, req :: Entry(js, server, history, req)
  }

  ghost function JudgementsOf(server: Server): Judgements {
    (history: seq<Request>) => Judgement(server, history)
  }

  lemma JudgementsAreJust(server: Server)
    ensures Just(JudgementsOf(server), server)
  {
    forall history: seq<Request>, req: Request ensures Entry(JudgementsOf(server), server, history, req) {
      assert (history + [req])[..|history|] == history;
    }
  }

  /** c has sent, counted, logged and read what its requests and their replies say. */
  ghost predicate Judged(c: Client, js: Judgements, log: seq<string>) {
    && Sized(c) && c.fails == js(c.sent).fails && c.log == log + js(c.sent).lines
    && c.rpBits == js(c.sent).heard && c.rp == js(c.sent).registers
  }

  lemma OneMoreCell<T(!new)>(xs: seq<T>, ys: seq<T>, n: nat)
    requires n < |xs| && n < |ys|
    ensures |Differing(xs[..n + 1], ys[..n + 1])|
            == |Differing(xs[..n], ys[..n])| + if xs[n] != ys[n] then 1 else 0
  {
    var less, more := Differing(xs[..n], ys[..n]), Differing(xs[..n + 1], ys[..n + 1]);
    if xs[n] != ys[n] {
      assert more == less + {n};
    } else {
      assert more == less;
    }
  }

  lemma {:induction false} MismatchesCount<T(!new)>(xs: seq<T>, ys: seq<T>, n: nat)
    requires n <= |xs| && n <= |ys|
    ensures Mismatches(xs, ys, n) == |Differing(xs[..n], ys[..n])|
  {
    if n > 0 {
      MismatchesCount(xs, ys, n - 1);
      OneMoreCell(xs, ys, n - 1);
    }
  }

  /** One more exchange, after which c has failed as often as it is charged. */
  lemma OneMoreVerdict(c: Client, js: Judgements, server: Server, log: seq<string>, d: Client, req: Request, m: nat)
    requires Just(js, server) && Judged(c, js, log) && Sized(d) && d.sent == c.sent + [req]
    requires d.fails == c.fails && d.log == c.log && d.rpBits == js(d.sent).heard && d.rp == js(d.sent).registers
    requires m == if InOrder(server, d.sent) then |Wrong(server, d.sent, d.rpBits, js(d.sent).asked)| else 1
    ensures Judged(Fail(d, Line(server, d.sent), m), js, log)
  {
    assert Entry(js, server, c.sent, req);
    LogAppends(log, js(c.sent).lines, Lines(Line(server, d.sent), m));
  }

  lemma LogAppends(a: seq<string>, b: seq<string>, c: seq<string>)
    ensures a + b + c == a + (b + c)
  {}

  lemma HeardAndAsked(js: Judgements, server: Server, history: seq<Request>, req: Request)
    requires Just(js, server)
    ensures var v, w, h := js(history), js(history + [req]), history + [req];
            && w.asked == (if req.WriteBits? then req.bits else v.asked)
            && w.heard == (if req.ReadBits? && InOrder(server, h)
                           then Brought(v.heard, req.count, server(h).bits, false) else v.heard)
            && w.registers == (if (req.ReadRegisters? || req.WriteReadRegisters?) && InOrder(server, h)
                               then Brought(v.registers, req.count, server(h).registers, 0) else v.registers)
  {
    assert Entry(js, server, history, req);
  }

  lemma NoFailure(d: Client, line: string)
    ensures Fail(d, line, 0) == d
  {
    assert d.log + Lines(line, 0) == d.log;
  }

  /** A write without a read half. */
  lemma WriteJudged(c: Client, js: Judgements, server: Server, log: seq<string>, req: Request)
    requires Just(js, server) && Judged(c, js, log)
    requires req.WriteBit? || req.WriteBits? || req.WriteRegister? || req.WriteRegisters?
    ensures var d := Send(c, req);
            if InOrder(server, d.sent) then Judged(d, js, log) else Judged(Fail(d, Line(server, d.sent), 1), js, log)
  {
    var d := Send(c, req);
    HeardAndAsked(js, server, c.sent, req);
    if InOrder(server, d.sent) {
      OneMoreVerdict(c, js, server, log, d, req, 0);
      NoFailure(d, Line(server, d.sent));
    } else {
      OneMoreVerdict(c, js, server, log, d, req, 1);
    }
  }

  /** An exchange that is not in order. */
  lemma RefusalJudged(c: Client, js: Judgements, server: Server, log: seq<string>, req: Request)
    requires Just(js, server) && Judged(c, js, log) && !InOrder(server, c.sent + [req])
    ensures var d := Send(c, req); Judged(Fail(d, Line(server, d.sent), 1), js, log)
  {
    HeardAndAsked(js, server, c.sent, req);
    OneMoreVerdict(c, js, server, log, Send(c, req), req, 1);
  }

  /** A read of bits in order: what the buffer holds. */
  lemma BitsRead(c: Client, js: Judgements, server: Server, log: seq<string>, addr: nat, n: nat)
    requires Just(js, server) && Judged(c, js, log) && InOrder(server, c.sent + [ReadBits(addr, n)])
    ensures var d := HearBits(Send(c, ReadBits(addr, n)), server, n);
            d.rpBits == js(d.sent).heard && d.rp == js(d.sent).registers
  {
    HeardAndAsked(js, server, c.sent, ReadBits(addr, n));
    var d := HearBits(Send(c, ReadBits(addr, n)), server, n);
    assert d.rpBits == Brought(c.rpBits, n, server(d.sent).bits, false);
  }

  /** The test, with what it has sent. */
  ghost predicate TestJudged(c: Client, d: Client, js: Judgements, server: Server, log: seq<string>, test: Test) {
    Judged(d, js, log) && d.inputs == c.inputs && d.sent == PlayedOne(server, c.sent, test)
  }

  lemma BitTestJudged(c: Client, js: Judgements, server: Server, log: seq<string>, addr: nat)
    requires Just(js, server) && Judged(c, js, log)
    ensures TestJudged(c, BitTest(c, server, addr), js, server, log,
                       Test(WriteBit(addr, c.inputs.rqBits[0]), ReadBits(addr, 1)))
  {
    var w, r := WriteBit(addr, c.inputs.rqBits[0]), ReadBits(addr, 1);
    WriteJudged(c, js, server, log, w);
    var c1 := Send(c, w);
    if InOrder(server, c1.sent) {
      var c2 := Send(c1, r);
      assert c2.sent[|c2.sent| - 2] == w;
      if InOrder(server, c2.sent) {
        var c3 := HearBits(c2, server, 1);
        BitsRead(c1, js, server, log, addr, 1);
        BitIsWrong(server(c2.sent).bits, w.bit);
        var m := if c3.inputs.rqBits[0] != c3.rpBits[0] then 1 else 0;
        assert c3.rpBits[0] == Cell(server(c2.sent).bits, 0, false);
        OneMoreVerdict(c1, js, server, log, c3, r, m);
        NoFailure(c3, Line(server, c3.sent));
      } else {
        RefusalJudged(c1, js, server, log, r);
      }
    }
  }

  lemma BitIsWrong(bits: seq<bool>, bit: bool)
    ensures |Differing(Row(bits, 1, false), [bit])| == if bit != Cell(bits, 0, false) then 1 else 0
  {
    var row := Row(bits, 1, false);
    assert Differing(row, [bit]) == if row[0] != bit then {0} else {};
  }

  lemma BitsReadJudged(c: Client, js: Judgements, server: Server, log: seq<string>, addr: nat, bits: seq<bool>)
    requires Just(js, server) && Judged(c, js, log) && c.inputs.nb <= CELLS && |c.inputs.rqBits| == CELLS
    requires bits == c.inputs.rqBits[..c.inputs.nb] && c.sent != [] && c.sent[|c.sent| - 1] == WriteBits(addr, bits)
    requires InOrder(server, c.sent + [ReadBits(addr, c.inputs.nb)])
    ensures var d := HearBits(Send(c, ReadBits(addr, c.inputs.nb)), server, c.inputs.nb);
            Judged(Fail(d, "MULTIPLE BITS TEST : compare error", Mismatches(d.rpBits, d.inputs.rqBits, c.inputs.nb)),
                   js, log)
  {
    var nb := c.inputs.nb;
    var r := ReadBits(addr, nb);
    var d := HearBits(Send(c, r), server, nb);
    BitsRead(c, js, server, log, addr, nb);
    MismatchesCount(d.rpBits, d.inputs.rqBits, nb);
    assert d.rpBits[..nb] == Row(server(d.sent).bits, nb, false);
    assert d.sent[|d.sent| - 2] == WriteBits(addr, bits);
    OneMoreVerdict(c, js, server, log, d, r, Mismatches(d.rpBits, d.inputs.rqBits, nb));
  }

  lemma BitsBackJudged(c: Client, js: Judgements, server: Server, log: seq<string>, addr: nat, w: Request)
    requires Just(js, server) && Judged(c, js, log) && SizedInputs(c.inputs)
    requires c.sent != [] && c.sent[|c.sent| - 1] == w
    requires w == WriteBits(addr, c.inputs.rqBits[..c.inputs.nb])
    ensures var c2 := Send(c, ReadBits(addr, c.inputs.nb));
            var c3 := HearBits(c2, server, c.inputs.nb);
            Judged(if Heard(c2, server).rc != c.inputs.nb then Fail(c3, "MULTIPLE BITS TEST : read error", 1)
                   else Fail(c3, "MULTIPLE BITS TEST : compare error",
                             Mismatches(c3.rpBits, c3.inputs.rqBits, c.inputs.nb)), js, log)
  {
    var r := ReadBits(addr, c.inputs.nb);
    assert (c.sent + [r])[|c.sent| - 1] == w;
    if InOrder(server, c.sent + [r]) {
      BitsReadJudged(c, js, server, log, addr, w.bits);
    } else {
      RefusalJudged(c, js, server, log, r);
    }
  }

  lemma MultipleBitsTestJudged(c: Client, js: Judgements, server: Server, log: seq<string>, addr: nat)
    requires Just(js, server) && Judged(c, js, log)
    ensures TestJudged(c, MultipleBitsTest(c, server, addr), js, server, log,
                       Test(WriteBits(addr, c.inputs.rqBits[..c.inputs.nb]), ReadBits(addr, c.inputs.nb)))
  {
    var w := WriteBits(addr, c.inputs.rqBits[..c.inputs.nb]);
    WriteJudged(c, js, server, log, w);
    if InOrder(server, Send(c, w).sent) { BitsBackJudged(Send(c, w), js, server, log, addr, w); }
  }

  // The tests that compare bits after a read of registers.

  /** The bits last written are those of this iteration. */
  ghost predicate Asked(c: Client, js: Judgements) {
    SizedInputs(c.inputs) && js(c.sent).asked == c.inputs.rqBits[..c.inputs.nb]
  }

  lemma PlayedAsks(js: Judgements, server: Server, sent: seq<Request>, test: Test)
    requires Just(js, server) && !test.read.WriteBits?
    ensures js(PlayedOne(server, sent, test)).asked
            == if test.write.WriteBits? then test.write.bits else js(sent).asked
  {
    HeardAndAsked(js, server, sent, test.write);
    HeardAndAsked(js, server, sent + [test.write], test.read);
  }

  lemma SameBits(xs: seq<bool>, ys: seq<bool>, n: nat)
    requires n <= |xs| && n <= |ys|
    ensures Differing(xs, ys[..n]) == Differing(xs[..n], ys[..n])
  {}

  lemma RegistersReadJudged(c: Client, js: Judgements, server: Server, log: seq<string>, addr: nat, n: nat,
                            line: string)
    requires Just(js, server) && Judged(c, js, log) && Asked(c, js)
    requires InOrder(server, c.sent + [ReadRegisters(addr, n)]) && c.sent != []
    requires c.sent[|c.sent| - 1].WriteRegister? || c.sent[|c.sent| - 1].WriteRegisters?
    requires line == Line(server, c.sent + [ReadRegisters(addr, n)])
    ensures var d := HearRegisters(Send(c, ReadRegisters(addr, n)), server, n);
            Judged(Fail(d, line, Mismatches(d.rpBits, d.inputs.rqBits, c.inputs.nb)), js, log)
  {
    var nb, r := c.inputs.nb, ReadRegisters(addr, n);
    var d := HearRegisters(Send(c, r), server, n);
    assert d.sent[..|d.sent| - 1] == c.sent && d.sent[|d.sent| - 2] == c.sent[|c.sent| - 1];
    MismatchesCount(d.rpBits, d.inputs.rqBits, nb);
    SameBits(d.rpBits, d.inputs.rqBits, nb);
    HeardAndAsked(js, server, c.sent, r);
    OneMoreVerdict(c, js, server, log, d, r, Mismatches(d.rpBits, d.inputs.rqBits, nb));
  }

  lemma SingleRegisterTestJudged(c: Client, js: Judgements, server: Server, log: seq<string>, addr: nat)
    requires Just(js, server) && Judged(c, js, log) && Asked(c, js)
    ensures TestJudged(c, SingleRegisterTest(c, server, addr), js, server, log,
                       Test(WriteRegister(addr, c.inputs.rq[0]), ReadRegisters(addr, 1)))
  {
    var w, r := WriteRegister(addr, c.inputs.rq[0]), ReadRegisters(addr, 1);
    WriteJudged(c, js, server, log, w);
    var c1 := Send(c, w);
    if InOrder(server, c1.sent) {
      HeardAndAsked(js, server, c.sent, w);
      assert (c1.sent + [r])[|c1.sent| - 1] == w;
      if InOrder(server, c1.sent + [r]) {
        RegistersReadJudged(c1, js, server, log, addr, 1, "SINGLE REGISTER TEST : compare error");
      } else {
        RefusalJudged(c1, js, server, log, r);
      }
    }
  }

  lemma MultipleRegistersTestJudged(c: Client, js: Judgements, server: Server, log: seq<string>, addr: nat)
    requires Just(js, server) && Judged(c, js, log) && Asked(c, js)
    ensures TestJudged(c, MultipleRegistersTest(c, server, addr), js, server, log,
                       Test(WriteRegisters(addr, c.inputs.rq[..c.inputs.nb]), ReadRegisters(addr, c.inputs.nb)))
  {
    var w, r := WriteRegisters(addr, c.inputs.rq[..c.inputs.nb]), ReadRegisters(addr, c.inputs.nb);
    WriteJudged(c, js, server, log, w);
    var c1 := Send(c, w);
    if InOrder(server, c1.sent) {
      HeardAndAsked(js, server, c.sent, w);
      assert (c1.sent + [r])[|c1.sent| - 1] == w;
      if InOrder(server, c1.sent + [r]) {
        RegistersReadJudged(c1, js, server, log, addr, c.inputs.nb, "MULTIPLE REGISTER TEST : compare error");
      } else {
        RefusalJudged(c1, js, server, log, r);
      }
    }
  }

  // The read/write test.

  lemma {:induction false} MismatchesCommute<T>(xs: seq<T>, ys: seq<T>, n: nat)
    requires n <= |xs| && n <= |ys|
    ensures Mismatches(xs, ys, n) == Mismatches(ys, xs, n)
  {
    if n > 0 { MismatchesCommute(xs, ys, n - 1); }
  }

  /** A reply that brings registers to be compared with what was written. */
  lemma RegistersJudged(c: Client, js: Judgements, server: Server, log: seq<string>, req: Request, values: seq<u16>)
    requires Just(js, server) && Judged(c, js, log) && SizedInputs(c.inputs) && values == c.inputs.rw[..c.inputs.nb]
    requires InOrder(server, c.sent + [req]) && Quantity(req) == c.inputs.nb
    requires req.ReadRegisters? || req.WriteReadRegisters?
    requires forall heard, asked ::
               Wrong(server, c.sent + [req], heard, asked)
               == Differing(Row(server(c.sent + [req]).registers, c.inputs.nb, 0), values)
    ensures var d := HearRegisters(Send(c, req), server, c.inputs.nb);
            Judged(Fail(d, Line(server, d.sent), Mismatches(d.rp, d.inputs.rw, c.inputs.nb)), js, log)
  {
    var nb := c.inputs.nb;
    var d := HearRegisters(Send(c, req), server, nb);
    HeardAndAsked(js, server, c.sent, req);
    assert d.rp == Brought(c.rp, nb, server(d.sent).registers, 0);
    MismatchesCount(d.rp, d.inputs.rw, nb);
    assert d.rp[..nb] == Row(server(d.sent).registers, nb, 0);
    OneMoreVerdict(c, js, server, log, d, req, Mismatches(d.rp, d.inputs.rw, nb));
  }

  /** How the read back of the read/write test is judged. */
  lemma ReadBackIs(server: Server, sent: seq<Request>, w: Request, r: Request, heard: seq<bool>, asked: seq<bool>)
    requires sent != [] && sent[|sent| - 1] == w && w.WriteReadRegisters? && r.ReadRegisters?
    ensures Wrong(server, sent + [r], heard, asked)
            == Differing(Row(server(sent + [r]).registers, r.count, 0), w.values)
    ensures Line(server, sent + [r]) == if InOrder(server, sent + [r]) then "R/W MULTIPLE REGISTER TEST : compare error"
                                        else "R/W MULTIPLE REGISTER TEST : read error"
  {
    assert (sent + [r])[|sent| - 1] == w;
  }

  lemma ReadBackJudged(c: Client, js: Judgements, server: Server, log: seq<string>, addr: nat, w: Request)
    requires Just(js, server) && Judged(c, js, log) && SizedInputs(c.inputs)
    requires c.sent != [] && c.sent[|c.sent| - 1] == w
    requires w == WriteReadRegisters(addr, c.inputs.rw[..c.inputs.nb], addr, c.inputs.nb)
    ensures var c4 := Send(c, ReadRegisters(addr, c.inputs.nb));
            var c5 := HearRegisters(c4, server, c.inputs.nb);
            Judged(if Heard(c4, server).rc != c.inputs.nb then Fail(c5, "R/W MULTIPLE REGISTER TEST : read error", 1)
                   else Fail(c5, "R/W MULTIPLE REGISTER TEST : compare error",
                             Mismatches(c5.inputs.rw, c5.rp, c.inputs.nb)), js, log)
  {
    var r := ReadRegisters(addr, c.inputs.nb);
    forall heard, asked { ReadBackIs(server, c.sent, w, r, heard, asked); }
    ReadBackIs(server, c.sent, w, r, [], []);
    if InOrder(server, c.sent + [r]) {
      RegistersJudged(c, js, server, log, r, w.values);
      var c5 := HearRegisters(Send(c, r), server, c.inputs.nb);
      MismatchesCommute(c5.rp, c5.inputs.rw, c.inputs.nb);
    } else {
      RefusalJudged(c, js, server, log, r);
    }
  }

  lemma ReadWriteTestJudged(c: Client, js: Judgements, server: Server, log: seq<string>, addr: nat)
    requires Just(js, server) && Judged(c, js, log)
    ensures TestJudged(c, ReadWriteTest(c, server, addr), js, server, log,
                       Test(WriteReadRegisters(addr, c.inputs.rw[..c.inputs.nb], addr, c.inputs.nb),
                            ReadRegisters(addr, c.inputs.nb)))
  {
    var nb := c.inputs.nb;
    var w := WriteReadRegisters(addr, c.inputs.rw[..nb], addr, nb);
    var c1 := Send(c, w);
    if InOrder(server, c1.sent) {
      RegistersJudged(c, js, server, log, w, w.values);
      var c2 := HearRegisters(c1, server, nb);
      var c3 := Fail(c2, "R/W MULTIPLE REGISTER TEST : compare error", Mismatches(c2.rp, c2.inputs.rw, nb));
      ReadBackJudged(c3, js, server, log, addr, w);
    } else {
      RefusalJudged(c, js, server, log, w);
    }
  }

  // ---------------------------------------------------------------------------------------------------------
  // Iterations, passes and runs

  lemma PlayedFive(server: Server, sent: seq<Request>, a: Test, b: Test, c: Test, d: Test, e: Test)
    ensures Played(server, sent, [a, b, c, d, e])
            == PlayedOne(server, PlayedOne(server, PlayedOne(server, PlayedOne(server,
                 PlayedOne(server, sent, a), b), c), d), e)
  {
    var s1 := PlayedOne(server, sent, a);
    var s2 := PlayedOne(server, s1, b);
    var s3 := PlayedOne(server, s2, c);
    var s4 := PlayedOne(server, s3, d);
    assert [a, b, c, d, e][1..] == [b, c, d, e] && [b, c, d, e][1..] == [c, d, e];
    assert [c, d, e][1..] == [d, e] && [d, e][1..] == [e];
    assert Played(server, s4, [e]) == PlayedOne(server, s4, e);
    assert Played(server, s3, [d, e]) == Played(server, s4, [e]);
    assert Played(server, s2, [c, d, e]) == Played(server, s3, [d, e]);
    assert Played(server, s1, [b, c, d, e]) == Played(server, s2, [c, d, e]);
  }

  lemma TestsJudged(c: Client, js: Judgements, server: Server, log: seq<string>, addr: nat)
    requires Just(js, server) && Judged(c, js, log)
    ensures Judged(Tests(c, server, addr), js, log)
    ensures Tests(c, server, addr).sent == Played(server, c.sent, Script(c.inputs, addr))
  {
    var script := Script(c.inputs, addr);
    var c1 := BitTest(c, server, addr);
    BitTestJudged(c, js, server, log, addr);
    var c2 := MultipleBitsTest(c1, server, addr);
    MultipleBitsTestJudged(c1, js, server, log, addr);
    PlayedAsks(js, server, c1.sent, script[1]);
    var c3 := SingleRegisterTest(c2, server, addr);
    SingleRegisterTestJudged(c2, js, server, log, addr);
    PlayedAsks(js, server, c2.sent, script[2]);
    var c4 := MultipleRegistersTest(c3, server, addr);
    MultipleRegistersTestJudged(c3, js, server, log, addr);
    ReadWriteTestJudged(c4, js, server, log, addr);
    PlayedFive(server, c.sent, script[0], script[1], script[2], script[3], script[4]);
  }

  /** The body of the address loop keeps to the requests and the charges. */
  ghost predicate KeepsTo(body: Body, js: Judgements, server: Server, log: seq<string>, rand: Rand) {
    forall c, addr: nat :: Judged(c, js, log) && addr <= ADDRESS_END ==> StepsTo(c, body, js, server, log, rand, addr)
  }

  ghost predicate StepsTo(c: Client, body: Body, js: Judgements, server: Server, log: seq<string>, rand: Rand,
                          addr: nat)
    requires Sized(c) && addr <= ADDRESS_END
  {
    && Judged(body(c, addr), js, log)
    && body(c, addr).sent == Played(server, c.sent, Script(Prepare(c.inputs, rand, addr), addr))
  }

  lemma IterationKeepsTo(js: Judgements, server: Server, log: seq<string>, rand: Rand)
    requires Just(js, server)
    ensures KeepsTo(IterationBody(server, rand), js, server, log, rand)
  {
    forall c, addr: nat | Judged(c, js, log) && addr <= ADDRESS_END
      ensures StepsTo(c, IterationBody(server, rand), js, server, log, rand, addr)
    {
      var p := c.(inputs := Prepare(c.inputs, rand, addr));
      TestsJudged(p, js, server, log, addr);
    }
  }

  /** What has been sent before each iteration of a pass, as a value. */
  ghost predicate Sends(sends: nat -> seq<Request>, server: Server, rand: Rand, p: nat) {
    forall addr: nat :: addr <= ADDRESS_END ==> SendsOne(sends, server, rand, p, addr)
  }

  ghost predicate SendsOne(sends: nat -> seq<Request>, server: Server, rand: Rand, p: nat, addr: nat)
    requires addr <= ADDRESS_END
  {
    sends(addr + 1) == Played(server, sends(addr), Script(InputsSent(rand, p, addr), addr))
  }

  /** Before iteration addr of a pass. */
  ghost predicate JudgedAt(d: Client, js: Judgements, log: seq<string>, sends: nat -> seq<Request>, addr: nat) {
    Judged(d, js, log) && d.sent == sends(addr)
  }

  lemma {:induction false} PassJudged(c: Client, body: Body, js: Judgements, server: Server, log: seq<string>,
                                      rand: Rand, p: nat, addr: nat, sends: nat -> seq<Request>)
    requires KeepsTo(body, js, server, log, rand) && Prepares(body, rand) && addr <= ADDRESS_END + 1
    requires JudgedAt(c, js, log, sends, 0) && c.inputs == StartInputs(rand, p) && Sends(sends, server, rand, p)
    ensures JudgedAt(Pass(c, body, addr), js, log, sends, addr)
    decreases addr
  {
    if addr > 0 {
      PassJudged(c, body, js, server, log, rand, p, addr - 1, sends);
      PassFollows(c, body, rand, addr - 1);
      NextJudged(Pass(c, body, addr - 1), body, js, server, log, rand, p, addr - 1, sends);
    }
  }

  lemma NextJudged(d: Client, body: Body, js: Judgements, server: Server, log: seq<string>, rand: Rand, p: nat,
                   addr: nat, sends: nat -> seq<Request>)
    requires KeepsTo(body, js, server, log, rand) && JudgedAt(d, js, log, sends, addr) && addr <= ADDRESS_END
    requires d.inputs == PassInputs(StartInputs(rand, p), rand, addr) && Sends(sends, server, rand, p)
    ensures JudgedAt(body(d, addr), js, log, sends, addr + 1)
  {
    assert StepsTo(d, body, js, server, log, rand, addr);
    assert SendsOne(sends, server, rand, p, addr);
  }

  ghost function SendsInPass(server: Server, rand: Rand, p: nat, start: seq<Request>): nat -> seq<Request> {
    (addr: nat) => if addr <= ADDRESS_END + 1 then SentInPass(server, rand, p, start, addr) else []
  }

  lemma SendsOfPass(server: Server, rand: Rand, p: nat, start: seq<Request>)
    ensures Sends(SendsInPass(server, rand, p, start), server, rand, p)
    ensures SendsInPass(server, rand, p, start)(0) == start
    ensures SendsInPass(server, rand, p, start)(ADDRESS_END + 1)
            == SentInPass(server, rand, p, start, ADDRESS_END + 1)
  {
    forall addr: nat | addr <= ADDRESS_END { SendsNext(server, rand, p, start, addr); }
  }

  lemma SendsNext(server: Server, rand: Rand, p: nat, start: seq<Request>, addr: nat)
    requires addr <= ADDRESS_END
    ensures SendsOne(SendsInPass(server, rand, p, start), server, rand, p, addr)
  {}

  /** After p passes of the run. */
  ghost predicate JudgedAfter(d: Client, js: Judgements, server: Server, log: seq<string>, rand: Rand, p: nat) {
    Judged(d, js, log) && d.sent == SentInRun(server, rand, p)
  }

  lemma WholePassJudged(c: Client, body: Body, js: Judgements, server: Server, log: seq<string>, rand: Rand, p: nat)
    requires KeepsTo(body, js, server, log, rand) && Prepares(body, rand)
    requires JudgedAfter(c, js, server, log, rand, p) && c.inputs == StartInputs(rand, p)
    ensures JudgedAfter(Pass(c, body, ADDRESS_END + 1), js, server, log, rand, p + 1)
  {
    SendsOfPass(server, rand, p, c.sent);
    PassJudged(c, body, js, server, log, rand, p, ADDRESS_END + 1, SendsInPass(server, rand, p, c.sent));
  }

  lemma StartJudged(js: Judgements, server: Server, log: seq<string>, rand: Rand)
    requires js([]) == NoVerdict()
    ensures JudgedAfter(Start(log), js, server, log, rand, 0)
  {
    assert log + [] == log;
  }

  lemma {:induction false} PassesJudged(body: Body, js: Judgements, server: Server, log: seq<string>, rand: Rand,
                                        p: nat)
    requires KeepsTo(body, js, server, log, rand) && Prepares(body, rand) && js([]) == NoVerdict()
    ensures JudgedAfter(Passes(Start(log), body, p), js, server, log, rand, p)
  {
    if p == 0 {
      StartJudged(js, server, log, rand);
    } else {
      PassesJudged(body, js, server, log, rand, p - 1);
      PassesFollow(body, rand, p - 1, log);
      WholePassJudged(Passes(Start(log), body, p - 1), body, js, server, log, rand, p - 1);
    }
  }

  /** For every server, every sequence of random numbers and every LOOP: what is sent are the five tests of every
      iteration, each read only after a write in order; and what is returned and logged is what the exchanges are
      charged with, one for each that is not in order and one for each compared cell that differs. */
  lemma RunIsJudged(server: Server, rand: Rand, loops: nat, log: seq<string>)
    ensures var d := Run(server, rand, loops, log);
            && d.sent == SentInRun(server, rand, loops)
            && d.fails == Judgement(server, d.sent).fails && d.log == log + Judgement(server, d.sent).lines
  {
    JudgementsAreJust(server);
    IterationKeepsTo(JudgementsOf(server), server, log, rand);
    IterationPrepares(server, rand);
    PassesJudged(IterationBody(server, rand), JudgementsOf(server), server, log, rand, loops);
  }

  /** Exchange k of a history is in order and brings nothing wrong. */
  ghost predicate Right(server: Server, history: seq<Request>, k: nat)
    requires k < |history|
  {
    var upTo := history[..k + 1];
    InOrder(server, upTo) && Wrong(server, upTo, Judgement(server, upTo).heard, Judgement(server, upTo).asked) == {}
  }

  lemma OneChargeExactly(v: Verdict, server: Server, history: seq<Request>)
    requires history != []
    ensures var w := Judge(v, server, history);
            && v.fails <= w.fails
            && (w.fails == v.fails <==> InOrder(server, history) && Wrong(server, history, w.heard, w.asked) == {})
  {}

  ghost predicate AllRight(server: Server, history: seq<Request>, n: nat)
    requires n <= |history|
  {
    forall k: nat :: k < n ==> Right(server, history, k)
  }

  lemma RightInFront(server: Server, history: seq<Request>, n: nat)
    requires n < |history|
    ensures AllRight(server, history[..n], n) == AllRight(server, history, n)
    ensures AllRight(server, history, n + 1) == (AllRight(server, history, n) && Right(server, history, n))
  {
    forall k: nat | k < n ensures Right(server, history[..n], k) == Right(server, history, k) {
      assert history[..n][..k + 1] == history[..k + 1];
    }
  }

  lemma LastIsRight(server: Server, history: seq<Request>)
    requires history != []
    ensures (Judgement(server, history).fails == 0)
            == (Judgement(server, history[..|history| - 1]).fails == 0 && Right(server, history, |history| - 1))
  {
    assert history[..|history|] == history;
    OneChargeExactly(Judgement(server, history[..|history| - 1]), server, history);
  }

  lemma {:induction false} NoChargeExactly(server: Server, history: seq<Request>)
    ensures Judgement(server, history).fails == 0 <==> AllRight(server, history, |history|)
  {
    if history != [] {
      NoChargeExactly(server, history[..|history| - 1]);
      RightInFront(server, history, |history| - 1);
      LastIsRight(server, history);
    }
  }

  /** The client returns 0 if and only if every reply was in order and no compared cell differed. */
  lemma ReturnsZeroExactly(server: Server, rand: Rand, loops: nat, log: seq<string>)
    ensures var d := Run(server, rand, loops, log);
            d.fails == 0 <==> forall k: nat :: k < |d.sent| ==> Right(server, d.sent, k)
  {
    RunIsJudged(server, rand, loops, log);
    NoChargeExactly(server, Run(server, rand, loops, log).sent);
  }
}
