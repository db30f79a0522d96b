/** The client against the 500-entry table server: failure counts and final tables in closed form. */
module ModbusTableRun {
  import opened ModbusServer
  import opened ModbusClient
  import opened ModbusAnyServer
  import opened ModbusNumbers

  type Held = t: Tables | |t.coils| == SIZE && |t.registers| == SIZE
    witness Tables(seq(SIZE, _ => false), seq(SIZE, _ => 0))

  /** The tables after every history of requests. */
  type State = seq<Request> -> Held

  /** The tables once c has sent what it has sent. */
  ghost function TablesOf(state: State, c: Client): Held {
    state(c.sent)
  }

  /** One exchange: the answer and the tables after it are those of Serve. */
  ghost predicate Exchange(server: Server, state: State, mode: Mode, history: seq<Request>, req: Request) {
    (state(history + [req]), server(history + [req])) == Serve(state(history), req, mode)
  }

  ghost predicate IsTable(server: Server, state: State, mode: Mode) {
    forall history, req :: Exchange(server, state, mode, history, req)
  }

  ghost function States(t: Tables, mode: Mode): State
    requires ValidTables(t)
  {
    (history: seq<Request>) => Replay(t, history, mode)
  }

  lemma TableServerIsTable(t: Tables, mode: Mode)
    requires ValidTables(t)
    ensures IsTable(TableServer(t, mode), States(t, mode), mode)
  {
    forall history, req ensures Exchange(TableServer(t, mode), States(t, mode), mode, history, req) {
      OneMoreRequest(t, mode, history, req);
    }
  }

  lemma Asked(server: Server, state: State, mode: Mode, c: Client, req: Request)
    requires IsTable(server, state, mode)
    ensures (TablesOf(state, Send(c, req)), Heard(Send(c, req), server)) == Serve(TablesOf(state, c), req, mode)
  {
    assert Exchange(server, state, mode, c.sent, req);
  }

  /** Does the server take a request with quantity nb? */
  predicate Taken(mode: Mode, nb: nat) {
    nb > 0 || !mode.strict
  }

  lemma {:induction false} NoneDiffer<T>(xs: seq<T>, ys: seq<T>, n: nat)
    requires n <= |xs| && n <= |ys|
    requires forall i :: 0 <= i < n ==> xs[i] == ys[i]
    ensures Mismatches(xs, ys, n) == 0
  {
    if n > 0 { NoneDiffer(xs, ys, n - 1); }
  }

  predicate BitsRight(c: Client) {
    |c.rpBits| >= c.inputs.nb && |c.inputs.rqBits| >= c.inputs.nb
    && forall i :: 0 <= i < c.inputs.nb ==> c.rpBits[i] == c.inputs.rqBits[i]
  }

  /** The bit test when both requests succeed and bring back what was sent. */
  lemma BitRight(server: Server, c: Client, addr: nat)
    requires Sized(c) && Heard(Send(c, WriteBit(addr, c.inputs.rqBits[0])), server).rc == 1
    requires Heard(Send(Send(c, WriteBit(addr, c.inputs.rqBits[0])), ReadBits(addr, 1)), server)
             == Reply(1, [c.inputs.rqBits[0]], [])
    ensures BitTest(c, server, addr).fails == c.fails
    ensures BitTest(c, server, addr).sent
            == Send(Send(c, WriteBit(addr, c.inputs.rqBits[0])), ReadBits(addr, 1)).sent
  {}

  lemma TableBit(server: Server, state: State, mode: Mode, c: Client, addr: nat)
    requires IsTable(server, state, mode) && Sized(c) && addr <= ADDRESS_END
    ensures BitTest(c, server, addr).fails == c.fails
    ensures var u := TablesOf(state, c);
            TablesOf(state, BitTest(c, server, addr)) == u.(coils := u.coils[addr := c.inputs.rqBits[0]])
  {
    var first := WriteBit(addr, c.inputs.rqBits[0]);
    Asked(server, state, mode, c, first);
    Asked(server, state, mode, Send(c, first), ReadBits(addr, 1));
    BitRight(server, c, addr);
  }

  /** The multiple bits test when both requests succeed and bring back what was sent. */
  lemma MultipleBitsRight(server: Server, c: Client, addr: nat, bits: seq<bool>)
    requires Sized(c) && bits == c.inputs.rqBits[..c.inputs.nb]
    requires Heard(Send(c, WriteBits(addr, bits)), server) == Done(c.inputs.nb)
    requires Heard(Send(Send(c, WriteBits(addr, bits)), ReadBits(addr, c.inputs.nb)), server)
        == Reply(c.inputs.nb, bits, [])
    ensures var d := MultipleBitsTest(c, server, addr);
            && d.fails == c.fails && BitsRight(d)
            && d.sent == Send(Send(c, WriteBits(addr, bits)), ReadBits(addr, c.inputs.nb)).sent
  {
    var nb := c.inputs.nb;
    var d := HearBits(Send(Send(c, WriteBits(addr, bits)), ReadBits(addr, nb)), server, nb);
    assert d.rpBits == Stored(c.rpBits, nb, bits, false);
    NoneDiffer(d.rpBits, d.inputs.rqBits, nb);
  }

  lemma MultipleBitsTaken(server: Server, state: State, mode: Mode, c: Client, addr: nat)
    requires IsTable(server, state, mode) && Sized(c) && addr + c.inputs.nb <= ADDRESS_END
    requires Taken(mode, c.inputs.nb)
    ensures MultipleBitsTest(c, server, addr).fails == c.fails && BitsRight(MultipleBitsTest(c, server, addr))
    ensures var u := TablesOf(state, c);
            TablesOf(state, MultipleBitsTest(c, server, addr))
            == u.(coils := Put(u.coils, addr, c.inputs.rqBits[..c.inputs.nb]))
  {
    var nb := c.inputs.nb;
    var bits := c.inputs.rqBits[..nb];
    Asked(server, state, mode, c, WriteBits(addr, bits));
    PutThenRead(TablesOf(state, c).coils, addr, bits);
    Asked(server, state, mode, Send(c, WriteBits(addr, bits)), ReadBits(addr, nb));
    MultipleBitsRight(server, c, addr, bits);
  }

  lemma MultipleBitsRejected(server: Server, state: State, mode: Mode, c: Client, addr: nat)
    requires IsTable(server, state, mode) && Sized(c) && !Taken(mode, c.inputs.nb)
    ensures MultipleBitsTest(c, server, addr).fails == c.fails + 1 && BitsRight(MultipleBitsTest(c, server, addr))
    ensures TablesOf(state, MultipleBitsTest(c, server, addr)) == TablesOf(state, c)
  {
    var req := WriteBits(addr, c.inputs.rqBits[..c.inputs.nb]);
    assert !Accepted(req, mode);
    Asked(server, state, mode, c, req);
    assert Heard(Send(c, req), server).rc == -1;
  }

  lemma TableMultipleBits(server: Server, state: State, mode: Mode, c: Client, addr: nat)
    requires IsTable(server, state, mode) && Sized(c) && addr + c.inputs.nb <= ADDRESS_END
    ensures MultipleBitsTest(c, server, addr).fails == c.fails + (if Taken(mode, c.inputs.nb) then 0 else 1)
    ensures BitsRight(MultipleBitsTest(c, server, addr))
    ensures var u := TablesOf(state, c);
            TablesOf(state, MultipleBitsTest(c, server, addr))
            == u.(coils := Put(u.coils, addr, c.inputs.rqBits[..c.inputs.nb]))
  {
    if Taken(mode, c.inputs.nb) {
      MultipleBitsTaken(server, state, mode, c, addr);
    } else {
      MultipleBitsRejected(server, state, mode, c, addr);
      PutNothing(TablesOf(state, c).coils, addr, c.inputs.rqBits[..c.inputs.nb]);
    }
  }

  lemma PutThenRead<T>(table: seq<T>, addr: nat, values: seq<T>)
    requires addr + |values| <= |table|
    ensures Put(table, addr, values)[addr..addr + |values|] == values
  {}

  lemma PutNothing<T>(table: seq<T>, addr: nat, values: seq<T>)
    requires addr <= |table| && values == []
    ensures Put(table, addr, values) == table
  {}

  lemma SingleRegisterRight(server: Server, c: Client, addr: nat)
    requires Sized(c) && BitsRight(c) && Heard(Send(c, WriteRegister(addr, c.inputs.rq[0])), server).rc == 1
    requires Heard(Send(Send(c, WriteRegister(addr, c.inputs.rq[0])), ReadRegisters(addr, 1)), server).rc == 1
    ensures SingleRegisterTest(c, server, addr).fails == c.fails && BitsRight(SingleRegisterTest(c, server, addr))
    ensures SingleRegisterTest(c, server, addr).sent
            == Send(Send(c, WriteRegister(addr, c.inputs.rq[0])), ReadRegisters(addr, 1)).sent
  {
    NoneDiffer(c.rpBits, c.inputs.rqBits, c.inputs.nb);
  }

  lemma TableSingleRegister(server: Server, state: State, mode: Mode, c: Client, addr: nat)
    requires IsTable(server, state, mode) && Sized(c) && addr <= ADDRESS_END && BitsRight(c)
    ensures SingleRegisterTest(c, server, addr).fails == c.fails && BitsRight(SingleRegisterTest(c, server, addr))
    ensures var u := TablesOf(state, c);
            TablesOf(state, SingleRegisterTest(c, server, addr))
            == u.(registers := u.registers[addr := c.inputs.rq[0]])
  {
    var first := WriteRegister(addr, c.inputs.rq[0]);
    Asked(server, state, mode, c, first);
    Asked(server, state, mode, Send(c, first), ReadRegisters(addr, 1));
    SingleRegisterRight(server, c, addr);
  }

  lemma MultipleRegistersRight(server: Server, c: Client, addr: nat, values: seq<u16>, read: Reply)
    requires Sized(c) && BitsRight(c) && values == c.inputs.rq[..c.inputs.nb] && read.rc == c.inputs.nb
    requires Heard(Send(c, WriteRegisters(addr, values)), server) == Done(c.inputs.nb)
    requires Heard(Send(Send(c, WriteRegisters(addr, values)), ReadRegisters(addr, c.inputs.nb)), server) == read
    ensures var d := MultipleRegistersTest(c, server, addr);
            && d.fails == c.fails
            && d.sent == Send(Send(c, WriteRegisters(addr, values)), ReadRegisters(addr, c.inputs.nb)).sent
  {
    NoneDiffer(c.rpBits, c.inputs.rqBits, c.inputs.nb);
  }

  lemma MultipleRegistersTaken(server: Server, state: State, mode: Mode, c: Client, addr: nat)
    requires IsTable(server, state, mode) && Sized(c) && addr + c.inputs.nb <= ADDRESS_END && BitsRight(c)
    requires Taken(mode, c.inputs.nb)
    ensures MultipleRegistersTest(c, server, addr).fails == c.fails
    ensures var u := TablesOf(state, c);
            TablesOf(state, MultipleRegistersTest(c, server, addr))
            == u.(registers := Put(u.registers, addr, c.inputs.rq[..c.inputs.nb]))
  {
    var nb := c.inputs.nb;
    var values := c.inputs.rq[..nb];
    var c1 := Send(c, WriteRegisters(addr, values));
    Asked(server, state, mode, c, WriteRegisters(addr, values));
    Asked(server, state, mode, c1, ReadRegisters(addr, nb));
    MultipleRegistersRight(server, c, addr, values, Heard(Send(c1, ReadRegisters(addr, nb)), server));
  }

  lemma MultipleRegistersRejected(server: Server, state: State, mode: Mode, c: Client, addr: nat)
    requires IsTable(server, state, mode) && Sized(c) && !Taken(mode, c.inputs.nb)
    ensures MultipleRegistersTest(c, server, addr).fails == c.fails + 1
    ensures TablesOf(state, MultipleRegistersTest(c, server, addr)) == TablesOf(state, c)
  {
    var req := WriteRegisters(addr, c.inputs.rq[..c.inputs.nb]);
    assert !Accepted(req, mode);
    Asked(server, state, mode, c, req);
    assert Heard(Send(c, req), server).rc == -1;
  }

  lemma TableMultipleRegisters(server: Server, state: State, mode: Mode, c: Client, addr: nat)
    requires IsTable(server, state, mode) && Sized(c) && addr + c.inputs.nb <= ADDRESS_END && BitsRight(c)
    ensures MultipleRegistersTest(c, server, addr).fails == c.fails + (if Taken(mode, c.inputs.nb) then 0 else 1)
    ensures var u := TablesOf(state, c);
            TablesOf(state, MultipleRegistersTest(c, server, addr))
            == u.(registers := Put(u.registers, addr, c.inputs.rq[..c.inputs.nb]))
  {
    if Taken(mode, c.inputs.nb) {
      MultipleRegistersTaken(server, state, mode, c, addr);
    } else {
      MultipleRegistersRejected(server, state, mode, c, addr);
      PutNothing(TablesOf(state, c).registers, addr, c.inputs.rq[..c.inputs.nb]);
    }
  }

  /** The complements are in the buffer for the R/W test. */
  predicate Paired(i: Inputs) {
    SizedInputs(i) && forall k :: 0 <= k < CELLS ==> i.rw[k] == Complement(i.rq[k])
  }

  /** What the read half brings, and what the next read brings. */
  lemma TableReads(server: Server, state: State, mode: Mode, c: Client, addr: nat, values: seq<u16>)
    requires IsTable(server, state, mode) && Sized(c) && addr + c.inputs.nb <= ADDRESS_END
        && |values| == c.inputs.nb
    requires Heard(c, server) == Reply(c.inputs.nb, [], values)
    requires if mode.dropsWrite then Paired(c.inputs) && values == c.inputs.rq[..c.inputs.nb]
             else values == c.inputs.rw[..c.inputs.nb]
    ensures var d := HearRegisters(c, server, c.inputs.nb);
            && Mismatches(d.rp, d.inputs.rw, c.inputs.nb) == (if mode.dropsWrite then c.inputs.nb else 0)
            && Mismatches(d.inputs.rw, d.rp, c.inputs.nb) == (if mode.dropsWrite then c.inputs.nb else 0)
  {
    var d := HearRegisters(c, server, c.inputs.nb);
    assert d.rp == Stored(c.rp, c.inputs.nb, values, 0);
    if mode.dropsWrite {
      AllDiffer(d.rp, d.inputs.rw, c.inputs.nb);
      AllDiffer(d.inputs.rw, d.rp, c.inputs.nb);
    } else {
      NoneDiffer(d.rp, d.inputs.rw, c.inputs.nb);
      NoneDiffer(d.inputs.rw, d.rp, c.inputs.nb);
    }
  }

  /** What the R/W test leaves in the registers. */
  function Rewritten(registers: seq<u16>, mode: Mode, i: Inputs, addr: nat): seq<u16>
    requires SizedInputs(i) && addr + i.nb <= |registers|
  {
    if mode.dropsWrite then registers else Put(registers, addr, i.rw[..i.nb])
  }

  /** The two requests of the R/W test, as one exchange after the other. */
  lemma ReadWriteExchanges(server: Server, state: State, mode: Mode, c: Client, d: Client, addr: nat, read: seq<u16>)
    requires IsTable(server, state, mode) && Sized(c) && addr + c.inputs.nb <= ADDRESS_END
    requires Taken(mode, c.inputs.nb)
    requires read == Rewritten(TablesOf(state, c).registers, mode, c.inputs, addr)[addr..addr + c.inputs.nb]
    requires d.sent == c.sent + [WriteReadRegisters(addr, c.inputs.rw[..c.inputs.nb], addr, c.inputs.nb)]
    ensures Heard(d, server) == Reply(c.inputs.nb, [], read)
    ensures Heard(Send(d, ReadRegisters(addr, c.inputs.nb)), server) == Reply(c.inputs.nb, [], read)
    ensures var u := TablesOf(state, c);
            TablesOf(state, Send(d, ReadRegisters(addr, c.inputs.nb)))
            == u.(registers := Rewritten(u.registers, mode, c.inputs, addr))
  {
    Asked(server, state, mode, c, WriteReadRegisters(addr, c.inputs.rw[..c.inputs.nb], addr, c.inputs.nb));
    Asked(server, state, mode, d, ReadRegisters(addr, c.inputs.nb));
  }

  lemma TableReadWrite(server: Server, state: State, mode: Mode, c: Client, addr: nat)
    requires IsTable(server, state, mode) && Sized(c) && addr + c.inputs.nb <= ADDRESS_END
        && Paired(c.inputs)
    requires TablesOf(state, c).registers[addr..addr + c.inputs.nb] == c.inputs.rq[..c.inputs.nb]
    ensures var d := ReadWriteTest(c, server, addr); var u := TablesOf(state, c);
            && d.fails == c.fails + (if Taken(mode, c.inputs.nb) then 0 else 1)
                          + (if mode.dropsWrite then 2 * c.inputs.nb else 0)
            && TablesOf(state, d) == u.(registers := Rewritten(u.registers, mode, c.inputs, addr))
  {
    var nb, u := c.inputs.nb, TablesOf(state, c);
    var values := c.inputs.rw[..nb];
    if Taken(mode, nb) {
      ReadWriteTaken(server, state, mode, c, addr);
    } else {
      ReadWriteRejected(server, state, mode, c, addr);
      PutNothing(u.registers, addr, values);
    }
  }

  lemma ReadWriteRefused(server: Server, c: Client, addr: nat, req: Request)
    requires Sized(c) && req == WriteReadRegisters(addr, c.inputs.rw[..c.inputs.nb], addr, c.inputs.nb)
    requires Heard(Send(c, req), server).rc == -1
    ensures ReadWriteTest(c, server, addr).fails == c.fails + 1
    ensures ReadWriteTest(c, server, addr).sent == Send(c, req).sent
  {}

  lemma ReadWriteRejected(server: Server, state: State, mode: Mode, c: Client, addr: nat)
    requires IsTable(server, state, mode) && Sized(c) && addr <= ADDRESS_END && !Taken(mode, c.inputs.nb)
    ensures ReadWriteTest(c, server, addr).fails == c.fails + 1
    ensures TablesOf(state, ReadWriteTest(c, server, addr)) == TablesOf(state, c)
  {
    var req := WriteReadRegisters(addr, c.inputs.rw[..c.inputs.nb], addr, c.inputs.nb);
    assert !Accepted(req, mode);
    Asked(server, state, mode, c, req);
    ReadWriteRefused(server, c, addr, req);
  }

  lemma ReadWriteTaken(server: Server, state: State, mode: Mode, c: Client, addr: nat)
    requires IsTable(server, state, mode) && Sized(c) && addr + c.inputs.nb <= ADDRESS_END
        && Paired(c.inputs)
    requires TablesOf(state, c).registers[addr..addr + c.inputs.nb] == c.inputs.rq[..c.inputs.nb]
    requires Taken(mode, c.inputs.nb)
    ensures var d := ReadWriteTest(c, server, addr); var u := TablesOf(state, c);
            && d.fails == c.fails + (if mode.dropsWrite then 2 * c.inputs.nb else 0)
            && TablesOf(state, d) == u.(registers := Rewritten(u.registers, mode, c.inputs, addr))
  {
    var nb := c.inputs.nb;
    var values := c.inputs.rw[..nb];
    var read := if mode.dropsWrite then c.inputs.rq[..nb] else values;
    PutThenRead(TablesOf(state, c).registers, addr, values);
    var c1 := Send(c, WriteReadRegisters(addr, values, addr, nb));
    var c3 := Fail(HearRegisters(c1, server, nb), "R/W MULTIPLE REGISTER TEST : compare error",
                   if mode.dropsWrite then nb else 0);
    ReadWriteExchanges(server, state, mode, c, c1, addr, read);
    ReadWriteExchanges(server, state, mode, c, c3, addr, read);
    TableReads(server, state, mode, c1, addr, read);
    TableReads(server, state, mode, Send(c3, ReadRegisters(addr, nb)), addr, read);
  }

  // ---------------------------------------------------------------------------------------------------------
  // One iteration

  /** The tables after iteration addr with inputs i. */
  function Written(u: Tables, mode: Mode, i: Inputs, addr: nat): (v: Tables)
    requires ValidTables(u) && SizedInputs(i) && addr + i.nb <= ADDRESS_END
    ensures ValidTables(v)
  {
    var coils := Put(u.coils[addr := i.rqBits[0]], addr, i.rqBits[..i.nb]);
    var registers := Put(u.registers[addr := i.rq[0]], addr, i.rq[..i.nb]);
    Tables(coils, Rewritten(registers, mode, i, addr))
  }

  /** Failures charged for one iteration. */
  function Charge(mode: Mode, nb: nat): nat {
    (if Taken(mode, nb) then 0 else 3) + (if mode.dropsWrite then 2 * nb else 0)
  }

  lemma TableIteration(server: Server, state: State, mode: Mode, c: Client, addr: nat)
    requires IsTable(server, state, mode) && Sized(c) && addr + c.inputs.nb <= ADDRESS_END
        && Paired(c.inputs)
    ensures var d := Tests(c, server, addr);
            && d.fails == c.fails + Charge(mode, c.inputs.nb)
            && TablesOf(state, d) == Written(TablesOf(state, c), mode, c.inputs, addr)
  {
    TableBit(server, state, mode, c, addr);
    var c1 := BitTest(c, server, addr);
    TableMultipleBits(server, state, mode, c1, addr);
    var c2 := MultipleBitsTest(c1, server, addr);
    TableSingleRegister(server, state, mode, c2, addr);
    var c3 := SingleRegisterTest(c2, server, addr);
    TableMultipleRegisters(server, state, mode, c3, addr);
    var c4 := MultipleRegistersTest(c3, server, addr);
    PutThenRead(TablesOf(state, c3).registers, addr, c.inputs.rq[..c.inputs.nb]);
    TableReadWrite(server, state, mode, c4, addr);
  }

  // ---------------------------------------------------------------------------------------------------------
  // Whole runs

  /** Before the first fill, or with every complement in place. */
  predicate Ready(i: Inputs) {
    SizedInputs(i) && (i.nb == CELLS || Paired(i))
  }

  lemma PrepareReady(i: Inputs, rand: Rand, addr: nat)
    requires Ready(i) && addr <= ADDRESS_END
    ensures Paired(Prepare(i, rand, addr))
  {}

  /** What the loop body does against the table server, seen from outside. */
  ghost predicate TableBody(body: Body, rand: Rand, state: State, mode: Mode)
  {
    forall c, addr: nat :: Sized(c) && Ready(c.inputs) && addr <= ADDRESS_END ==>
      TableStep(c, body(c, addr), rand, state, mode, addr)
  }

  ghost predicate TableStep(c: Client, d: Client, rand: Rand, state: State, mode: Mode, addr: nat)
    requires Sized(c) && addr <= ADDRESS_END
  {
    var i := Prepare(c.inputs, rand, addr);
    && Sized(d) && d.inputs == i && Paired(i)
    && d.fails == c.fails + Charge(mode, ADDRESS_END - addr)
    && TablesOf(state, d) == Written(TablesOf(state, c), mode, i, addr)
  }

  lemma IterationOnTables(server: Server, rand: Rand, state: State, mode: Mode, c: Client, addr: nat)
    requires IsTable(server, state, mode)
    requires Sized(c) && Ready(c.inputs) && addr <= ADDRESS_END
    ensures TableStep(c, IterationBody(server, rand)(c, addr), rand, state, mode, addr)
  {
    PrepareReady(c.inputs, rand, addr);
    var p := c.(inputs := Prepare(c.inputs, rand, addr));
    TableIteration(server, state, mode, p, addr);
    assert TablesOf(state, p) == TablesOf(state, c);
  }

  lemma IterationIsTableBody(server: Server, rand: Rand, state: State, mode: Mode)
    requires IsTable(server, state, mode)
    ensures TableBody(IterationBody(server, rand), rand, state, mode)
  {
    forall c, addr: nat | Sized(c) && Ready(c.inputs) && addr <= ADDRESS_END
      ensures TableStep(c, IterationBody(server, rand)(c, addr), rand, state, mode, addr)
    {
      IterationOnTables(server, rand, state, mode, c, addr);
    }
  }

  /** Failures charged for the iterations below addr. */
  function Charged(mode: Mode, addr: nat): nat
    requires addr <= ADDRESS_END + 1
  {
    (if mode.dropsWrite then addr * (2 * ADDRESS_END + 1 - addr) else 0) +
    (if mode.strict && addr == ADDRESS_END + 1 then 3 else 0)
  }

  function PassCharge(mode: Mode): nat {
    (if mode.strict then 3 else 0) + (if mode.dropsWrite then 9900 else 0)
  }

  lemma ChargedStep(mode: Mode, addr: nat)
    requires addr <= ADDRESS_END
    ensures Charged(mode, addr + 1) == Charged(mode, addr) + Charge(mode, ADDRESS_END - addr)
  {}

  lemma TablePass(c: Client, body: Body, rand: Rand, state: State, mode: Mode)
    requires TableBody(body, rand, state, mode) && Sized(c) && Ready(c.inputs)
    ensures var d := Pass(c, body, ADDRESS_END + 1);
            Sized(d) && Ready(d.inputs) && d.fails == c.fails + PassCharge(mode)
  {
    var holds := (d: Client, addr: nat) =>
      addr <= ADDRESS_END + 1 && Sized(d) && Ready(d.inputs) && d.fails == c.fails + Charged(mode, addr);
    forall d, addr: nat | addr <= ADDRESS_END && holds(d, addr) ensures holds(body(d, addr), addr + 1) {
      assert TableStep(d, body(d, addr), rand, state, mode, addr);
      ChargedStep(mode, addr);
    }
    PassInduction(c, body, holds, ADDRESS_END + 1);
  }

  lemma {:induction false} TablePasses(c: Client, body: Body, rand: Rand, state: State, mode: Mode, loops: nat)
    requires TableBody(body, rand, state, mode) && Sized(c) && Ready(c.inputs)
    ensures var d := Passes(c, body, loops);
            Sized(d) && Ready(d.inputs) && d.fails == c.fails + loops * PassCharge(mode)
  {
    if loops > 0 {
      TablePasses(c, body, rand, state, mode, loops - 1);
      TablePass(Passes(c, body, loops - 1), body, rand, state, mode);
    }
  }

  /** The failure count against a table server, for every sequence of random numbers, every LOOP and any tables at the
      start. A faithful server is charged nothing if it accepts quantity 0 and exactly 3 a pass if it rejects it; one
      that drops the write half of Read/Write Multiple Registers is charged 9900 a pass more. */
  lemma FailureCount(server: Server, state: State, mode: Mode, rand: Rand, loops: nat, log: seq<string>)
    requires IsTable(server, state, mode)
    ensures Run(server, rand, loops, log).fails == loops * PassCharge(mode)
  {
    IterationIsTableBody(server, rand, state, mode);
    TablePasses(Start(log), IterationBody(server, rand), rand, state, mode, loops);
  }

  // ---------------------------------------------------------------------------------------------------------
  // The final tables

  /** Entry k as iteration k of pass p leaves it. */
  ghost predicate Settled(u: Tables, mode: Mode, rand: Rand, p: nat, k: nat)
    requires ValidTables(u) && k <= ADDRESS_END
  {
    var i := InputsSent(rand, p, k);
    u.coils[k] == i.rqBits[0] && u.registers[k] == if k == ADDRESS_END || mode.dropsWrite then i.rq[0] else i.rw[0]
  }

  ghost predicate AllSettled(u: Tables, mode: Mode, rand: Rand, p: nat)
    requires ValidTables(u)
  {
    forall k: nat :: k <= ADDRESS_END ==> Settled(u, mode, rand, p, k)
  }

  lemma SettledStep(u: Tables, mode: Mode, rand: Rand, p: nat, addr: nat, k: nat)
    requires ValidTables(u) && addr <= ADDRESS_END
    ensures var v := Written(u, mode, InputsSent(rand, p, addr), addr);
            && (k == addr ==> Settled(v, mode, rand, p, k))
            && (k < addr && Settled(u, mode, rand, p, k) ==> Settled(v, mode, rand, p, k))
            && (ADDRESS_END < k < SIZE ==> v.coils[k] == u.coils[k] && v.registers[k] == u.registers[k])
  {}

  /** The rest of the tables is as at the start. */
  ghost predicate RestKept(u: Tables, t: Tables)
    requires ValidTables(u) && ValidTables(t)
  {
    forall k :: ADDRESS_END < k < SIZE ==> u.coils[k] == t.coils[k] && u.registers[k] == t.registers[k]
  }

  /** Within pass p: the entries below addr are settled. */
  ghost predicate SettledBelow(u: Tables, t: Tables, mode: Mode, rand: Rand, p: nat, addr: nat)
    requires ValidTables(u) && ValidTables(t) && addr <= ADDRESS_END + 1
  {
    RestKept(u, t) && forall k: nat :: k < addr ==> Settled(u, mode, rand, p, k)
  }

  lemma {:induction false} PassIsReady(c: Client, body: Body, rand: Rand, state: State, mode: Mode, addr: nat)
    requires TableBody(body, rand, state, mode) && Sized(c) && Ready(c.inputs) && addr <= ADDRESS_END + 1
    ensures Sized(Pass(c, body, addr)) && Ready(Pass(c, body, addr).inputs)
  {
    if addr > 0 {
      PassIsReady(c, body, rand, state, mode, addr - 1);
      var d := Pass(c, body, addr - 1);
      assert TableStep(d, body(d, addr - 1), rand, state, mode, addr - 1);
    }
  }

  lemma {:induction false} FinalPass(c: Client, body: Body, rand: Rand, state: State, mode: Mode, p: nat, addr: nat)
    requires TableBody(body, rand, state, mode) && Prepares(body, rand) && Sized(c) && Ready(c.inputs)
    requires addr <= ADDRESS_END + 1 && c.inputs == StartInputs(rand, p) && RestKept(TablesOf(state, c), state([]))
    ensures SettledBelow(TablesOf(state, Pass(c, body, addr)), state([]), mode, rand, p, addr)
  {
    if addr > 0 {
      FinalPass(c, body, rand, state, mode, p, addr - 1);
      PassIsReady(c, body, rand, state, mode, addr - 1);
      PassFollows(c, body, rand, addr - 1);
      FinalBody(Pass(c, body, addr - 1), body, rand, state, mode, p, addr - 1);
    }
  }

  lemma FinalBody(d: Client, body: Body, rand: Rand, state: State, mode: Mode, p: nat, addr: nat)
    requires TableBody(body, rand, state, mode) && Sized(d) && Ready(d.inputs)
    requires addr <= ADDRESS_END && d.inputs == InputsBefore(rand, p, addr)
    requires SettledBelow(TablesOf(state, d), state([]), mode, rand, p, addr)
    ensures SettledBelow(TablesOf(state, body(d, addr)), state([]), mode, rand, p, addr + 1)
  {
    assert TableStep(d, body(d, addr), rand, state, mode, addr);
    FinalStep(d, body(d, addr), rand, state, mode, p, addr);
  }

  lemma FinalStep(c: Client, d: Client, rand: Rand, state: State, mode: Mode, p: nat, addr: nat)
    requires Sized(c) && addr <= ADDRESS_END && TableStep(c, d, rand, state, mode, addr)
    requires c.inputs == InputsBefore(rand, p, addr)
    requires SettledBelow(TablesOf(state, c), state([]), mode, rand, p, addr)
    ensures SettledBelow(TablesOf(state, d), state([]), mode, rand, p, addr + 1)
  {
    forall k: nat
      ensures k < addr + 1 ==> Settled(TablesOf(state, d), mode, rand, p, k)
      ensures ADDRESS_END < k < SIZE ==>
                TablesOf(state, d).coils[k] == state([]).coils[k]
                && TablesOf(state, d).registers[k] == state([]).registers[k]
    {
      SettledStep(TablesOf(state, c), mode, rand, p, addr, k);
    }
  }

  lemma {:induction false} FinalPasses(body: Body, rand: Rand, state: State, mode: Mode, p: nat, log: seq<string>)
    requires TableBody(body, rand, state, mode) && Prepares(body, rand)
    ensures var d := Passes(Start(log), body, p); var u := TablesOf(state, d);
            && Sized(d) && Ready(d.inputs) && d.inputs == StartInputs(rand, p) && RestKept(u, state([]))
            && (p > 0 ==> AllSettled(u, mode, rand, p - 1))
  {
    TablePasses(Start(log), body, rand, state, mode, p);
    PassesFollow(body, rand, p, log);
    if p > 0 {
      FinalPasses(body, rand, state, mode, p - 1, log);
      FinalPass(Passes(Start(log), body, p - 1), body, rand, state, mode, p - 1, ADDRESS_END + 1);
    }
  }

  /** Entry k of the final tables: v is the number that cell 0 held in iteration k of the last pass, the whole part of
      65535 times its draw over 2^31. */
  ghost predicate FinalEntry(u: Tables, t: Tables, mode: Mode, rand: Rand, p: nat, k: nat)
    requires ValidTables(u) && ValidTables(t) && k < SIZE
  {
    if k > ADDRESS_END then u.coils[k] == t.coils[k] && u.registers[k] == t.registers[k]
    else
      var r, register := rand(HeadDraw(p, k)), u.registers[k];
      var v: int := if k == ADDRESS_END || mode.dropsWrite then register else 65535 - register;
      && v * 0x8000_0000 <= 65535 * r < (v + 1) * 0x8000_0000
      && (u.coils[k] <==> exists h :: v == Twice(h) + 1)
  }

  lemma SettledEntry(u: Tables, t: Tables, mode: Mode, rand: Rand, p: nat, k: nat)
    requires ValidTables(u) && ValidTables(t) && k < SIZE && RestKept(u, t) && AllSettled(u, mode, rand, p)
    ensures FinalEntry(u, t, mode, rand, p, k)
  {
    if k <= ADDRESS_END {
      Head(rand, p, k);
      OddExactly(Scale(rand(HeadDraw(p, k))));
      assert Settled(u, mode, rand, p, k);
    }
  }

  /** All 500 entries of the final tables. */
  ghost predicate Final(u: Tables, t: Tables, mode: Mode, rand: Rand, p: nat)
    requires ValidTables(u) && ValidTables(t)
  {
    forall k: nat :: k < SIZE ==> FinalEntry(u, t, mode, rand, p, k)
  }

  lemma EntriesAreFinal(u: Tables, t: Tables, mode: Mode, rand: Rand, p: nat)
    requires ValidTables(u) && ValidTables(t) && RestKept(u, t) && AllSettled(u, mode, rand, p)
    ensures Final(u, t, mode, rand, p)
  {
    forall k: nat | k < SIZE ensures FinalEntry(u, t, mode, rand, p, k) {
      SettledEntry(u, t, mode, rand, p, k);
    }
  }

  lemma FinalPassesAreFinal(body: Body, rand: Rand, state: State, mode: Mode, loops: nat, log: seq<string>)
    requires TableBody(body, rand, state, mode) && Prepares(body, rand) && loops > 0
    ensures Final(TablesOf(state, Passes(Start(log), body, loops)), state([]), mode, rand, loops - 1)
  {
    FinalPasses(body, rand, state, mode, loops, log);
    EntriesAreFinal(TablesOf(state, Passes(Start(log), body, loops)), state([]), mode, rand, loops - 1);
  }

  /** After a run with LOOP at least 1: coil k is the bit, and register k below 99 the 16-bit complement, of the number
      that cell 0 held in iteration k of the last pass; register 99 holds that number itself. Nothing else in the
      tables has changed. (A server that drops the write half keeps the number itself in every register.) */
  lemma FinalTables(server: Server, state: State, mode: Mode, rand: Rand, loops: nat, log: seq<string>)
    requires IsTable(server, state, mode) && loops > 0
    ensures Final(TablesOf(state, Run(server, rand, loops, log)), state([]), mode, rand, loops - 1)
  {
    IterationIsTableBody(server, rand, state, mode);
    IterationPrepares(server, rand);
    FinalPassesAreFinal(IterationBody(server, rand), rand, state, mode, loops, log);
  }
}
