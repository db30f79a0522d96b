/**
 modbus_tcp_client_fun in the form of the source: five buffers filled in place, a log that only grows, a counter. Every
 method is proved to do what the functions of ModbusClient say.
*/
module ModbusRun {
  import opened ModbusServer
  import opened ModbusClient
  import opened ModbusAnyServer
  import V = ModbusVerdicts

  /** modbus_logger */
  class Logger {
    var lines: seq<string>

    constructor ()
      ensures lines == []
    {
      lines := [];
    }

    method Log(line: string)
      modifies this
      ensures lines == old(lines) + [line]
    {
      lines := lines + [line];
    }

    method GetLog() returns (log: seq<string>)
      ensures log == lines
    {
      log := lines;
    }
  }

  /** A connected modbus_t: whatever is at the other end answers to all that was sent. */
  class Connection {
    const server: Server
    var sent: seq<Request>

    constructor (server: Server)
      ensures this.server == server && sent == []
    {
      this.server := server;
      sent := [];
    }

    method Ask(req: Request) returns (reply: Reply)
      modifies this
      ensures sent == old(sent) + [req] && reply == server(sent)
    {
      sent := sent + [req];
      reply := server(sent);
    }
  }

  lemma OneMoreLine(c: Client, line: string, n: nat)
    ensures Fail(Fail(c, line, n), line, 1) == Fail(c, line, n + 1)
  {
    assert c.log + Lines(line, n) + Lines(line, 1) == c.log + Lines(line, n + 1);
  }

  lemma NoLine(c: Client, line: string)
    ensures Fail(c, line, 0) == c
  {
    assert c.log + Lines(line, 0) == c.log;
  }

  lemma BodyIs(server: Server, rand: Rand, c: Client, p: Client, addr: nat)
    requires Sized(c) && addr <= ADDRESS_END && p == c.(inputs := Prepare(c.inputs, rand, addr))
    ensures IterationBody(server, rand)(c, addr) == Tests(p, server, addr)
  {}

  /** One cell filled with the next number, its complement and its parity. */
  ghost function CellFilled(i: Inputs, rand: Rand, k: nat): (j: Inputs)
    requires SizedInputs(i) && k < CELLS
    ensures SizedInputs(j) && j.nb == i.nb
  {
    var v := Scale(rand(i.drawn));
    Inputs(i.rqBits[k := Odd(v)], i.rq[k := v], i.rw[k := Complement(v)], i.nb, i.drawn + 1)
  }

  ghost function CellsFilled(i: Inputs, rand: Rand, k: nat): (j: Inputs)
    requires SizedInputs(i) && k <= CELLS
    ensures SizedInputs(j) && j.nb == i.nb
  {
    if k == 0 then i else CellFilled(CellsFilled(i, rand, k - 1), rand, k - 1)
  }

  lemma {:induction false} CellsDrawn(i: Inputs, rand: Rand, k: nat)
    requires SizedInputs(i) && k <= i.nb
    ensures CellsFilled(i, rand, k).drawn == i.drawn + k
  {
    if k > 0 { CellsDrawn(i, rand, k - 1); }
  }

  lemma {:induction false} CellsOf(i: Inputs, rand: Rand, k: nat)
    requires SizedInputs(i) && k <= i.nb
    ensures var j, after := CellsFilled(i, rand, k), Fill(i, rand);
            forall c :: 0 <= c < CELLS ==>
              && j.rq[c] == (if c < k then after.rq[c] else i.rq[c])
              && j.rw[c] == (if c < k then after.rw[c] else i.rw[c])
              && j.rqBits[c] == (if c < k then after.rqBits[c] else i.rqBits[c])
  {
    if k > 0 {
      CellsOf(i, rand, k - 1);
      CellsDrawn(i, rand, k - 1);
    }
  }

  lemma CellsAreFill(i: Inputs, rand: Rand)
    requires SizedInputs(i)
    ensures CellsFilled(i, rand, i.nb) == Fill(i, rand)
  {
    CellsOf(i, rand, i.nb);
    CellsDrawn(i, rand, i.nb);
    var j, after := CellsFilled(i, rand, i.nb), Fill(i, rand);
    assert j.rq == after.rq && j.rw == after.rw && j.rqBits == after.rqBits;
  }

  class TestClient {
    const rqBits: array<bool>
    const rpBits: array<bool>
    const rq: array<u16>
    const rp: array<u16>
    const rw: array<u16>
    const connection: Connection
    const logger: Logger
    const rand: Rand
    var nb: nat
    var drawn: nat
    var fails: nat

    ghost predicate Valid()
      reads this
    {
      && rqBits.Length == rpBits.Length == rq.Length == rp.Length == rw.Length == CELLS && nb <= CELLS
      && rqBits != rpBits && rq != rp && rp != rw && rw != rq
    }

    ghost function Objects(): set<object>
    {
      {this, rqBits, rpBits, rq, rp, rw, connection, logger}
    }

    ghost function Buffers(): Inputs
      reads this, rqBits, rq, rw
    {
      Inputs(rqBits[..], rq[..], rw[..], nb, drawn)
    }

    ghost function State(): Client
      reads Objects()
    {
      Client(Buffers(), rpBits[..], rp[..], connection.sent, logger.lines, fails)
    }

    /** Lines 49 to 69. */
    constructor (connection: Connection, logger: Logger, rand: Rand)
      requires connection.sent == []
      ensures Valid() && this.connection == connection && this.logger == logger && this.rand == rand
      ensures fresh(Objects() - {connection, logger})
      ensures State() == Start(logger.lines)
    {
      this.connection := connection;
      this.logger := logger;
      this.rand := rand;
      nb, drawn, fails := CELLS, 0, 0;
      rqBits := new bool[CELLS](_ => false);
      rpBits := new bool[CELLS](_ => false);
      rq := new u16[CELLS](_ => 0);
      rp := new u16[CELLS](_ => 0);
      rw := new u16[CELLS](_ => 0);
      new;
      assert rqBits[..] == rpBits[..] == seq(CELLS, _ => false);
      assert rq[..] == rp[..] == rw[..] == seq<u16>(CELLS, _ => 0);
    }

    /** The body of the fill loop: one number, its complement and its parity. */
    method FillCell(k: nat)
      requires Valid() && k < CELLS
      modifies this`drawn, rqBits, rq, rw
      ensures Buffers() == CellFilled(old(Buffers()), rand, k)
    {
      rq[k] := Scale(rand(drawn));
      rw[k] := Complement(rq[k]);
      rqBits[k] := Odd(rq[k]);
      drawn := drawn + 1;
    }

    /** Lines 74 to 78. */
    method FillBuffers()
      requires Valid()
      modifies this`drawn, rqBits, rq, rw
      ensures Valid() && Buffers() == Fill(old(Buffers()), rand)
    {
      ghost var i := Buffers();
      for k := 0 to nb
        invariant Buffers() == CellsFilled(i, rand, k)
      {
        FillCell(k);
      }
      CellsAreFill(i, rand);
    }

    method Note(line: string)
      requires Valid()
      modifies this`fails, logger
      ensures State() == Fail(old(State()), line, 1)
    {
      logger.Log(line);
      fails := fails + 1;
    }

    method Send(req: Request) returns (rc: int)
      requires Valid()
      modifies connection
      ensures State() == ModbusClient.Send(old(State()), req) && rc == Heard(State(), connection.server).rc
    {
      var reply := connection.Ask(req);
      rc := reply.rc;
    }

    method ReceiveBits(addr: nat, n: nat) returns (rc: int)
      requires Valid()
      modifies connection, rpBits
      ensures var c := ModbusClient.Send(old(State()), ReadBits(addr, n));
              State() == HearBits(c, connection.server, n) && rc == Heard(c, connection.server).rc
    {
      var reply := connection.Ask(ReadBits(addr, n));
      rc := reply.rc;
      ghost var c := ModbusClient.Send(old(State()), ReadBits(addr, n));
      assert State() == c && reply == Heard(c, connection.server);
      if rc == n {
        ghost var before := rpBits[..];
        ghost var after := Stored(before, n, reply.bits, false);
        for k := 0 to CELLS
          invariant forall j :: 0 <= j < CELLS ==> rpBits[j] == if j < k then after[j] else before[j]
          modifies rpBits
        {
          if k < n { rpBits[k] := if k < |reply.bits| then reply.bits[k] else false; }
        }
        assert rpBits[..] == after;
        assert State() == c.(rpBits := after);
      }
    }

    /** A read of registers, or the read half of a Read/Write. */
    method ReceiveRegisters(req: Request, n: nat) returns (rc: int)
      requires Valid()
      modifies connection, rp
      ensures var c := ModbusClient.Send(old(State()), req);
              State() == HearRegisters(c, connection.server, n) && rc == Heard(c, connection.server).rc
    {
      var reply := connection.Ask(req);
      rc := reply.rc;
      ghost var c := ModbusClient.Send(old(State()), req);
      assert State() == c && reply == Heard(c, connection.server);
      if rc == n {
        ghost var before := rp[..];
        ghost var after := Stored(before, n, reply.registers, 0);
        for k := 0 to CELLS
          invariant forall j :: 0 <= j < CELLS ==> rp[j] == if j < k then after[j] else before[j]
          modifies rp
        {
          if k < n { rp[k] := if k < |reply.registers| then reply.registers[k] else 0; }
        }
        assert rp[..] == after;
        assert State() == c.(rp := after);
      }
    }

    /** The comparison loops of lines 109, 131 and 153. */
    method CompareBits(line: string)
      requires Valid()
      modifies this`fails, logger
      ensures State() == Fail(old(State()), line, Mismatches(rpBits[..], rqBits[..], nb))
    {
      ghost var c := State();
      NoLine(c, line);
      for i := 0 to nb
        invariant State() == Fail(c, line, Mismatches(rpBits[..], rqBits[..], i))
      {
        OneMoreLine(c, line, Mismatches(rpBits[..], rqBits[..], i));
        if rpBits[i] != rqBits[i] { Note(line); }
      }
    }

    /** The comparison loops of lines 171 and 184. */
    method CompareRegisters(xs: array<u16>, ys: array<u16>, line: string)
      requires Valid() && xs.Length == ys.Length == CELLS
      modifies this`fails, logger
      ensures State() == Fail(old(State()), line, Mismatches(xs[..], ys[..], nb))
    {
      ghost var c := State();
      NoLine(c, line);
      for i := 0 to nb
        invariant State() == Fail(c, line, Mismatches(xs[..], ys[..], i))
      {
        OneMoreLine(c, line, Mismatches(xs[..], ys[..], i));
        if xs[i] != ys[i] { Note(line); }
      }
    }

    method TestBit(addr: nat)
      requires Valid()
      modifies this`fails, rpBits, connection, logger
      ensures State() == BitTest(old(State()), connection.server, addr)
    {
      var rc := Send(WriteBit(addr, rqBits[0]));
      if rc != 1 {
        Note("BIT TEST : write error");
      } else {
        rc := ReceiveBits(addr, 1);
        if rc != 1 || rqBits[0] != rpBits[0] { Note("BIT TEST : read error"); }
      }
    }

    method TestMultipleBits(addr: nat)
      requires Valid()
      modifies this`fails, rpBits, connection, logger
      ensures State() == MultipleBitsTest(old(State()), connection.server, addr)
    {
      assert rqBits[..][..nb] == rqBits[..nb];
      var rc := Send(WriteBits(addr, rqBits[..nb]));
      if rc != nb {
        Note("MULTIPLE BITS TEST : write error");
      } else {
        rc := ReceiveBits(addr, nb);
        if rc != nb {
          Note("MULTIPLE BITS TEST : read error");
        } else {
          CompareBits("MULTIPLE BITS TEST : compare error");
        }
      }
    }

    method TestSingleRegister(addr: nat)
      requires Valid()
      modifies this`fails, rp, connection, logger
      ensures State() == SingleRegisterTest(old(State()), connection.server, addr)
    {
      var rc := Send(WriteRegister(addr, rq[0]));
      if rc != 1 {
        Note("SINGLE REGISTER TEST : write error");
      } else {
        rc := ReceiveRegisters(ReadRegisters(addr, 1), 1);
        if rc != 1 {
          Note("SINGLE REGISTER TEST : read error");
        } else {
          CompareBits("SINGLE REGISTER TEST : compare error");
        }
      }
    }

    method TestMultipleRegisters(addr: nat)
      requires Valid()
      modifies this`fails, rp, connection, logger
      ensures State() == MultipleRegistersTest(old(State()), connection.server, addr)
    {
      assert rq[..][..nb] == rq[..nb];
      var rc := Send(WriteRegisters(addr, rq[..nb]));
      if rc != nb {
        Note("MULTIPLE REGISTER TEST : write error");
      } else {
        rc := ReceiveRegisters(ReadRegisters(addr, nb), nb);
        if rc != nb {
          Note("MULTIPLE REGISTER TEST : read error");
        } else {
          CompareBits("MULTIPLE REGISTER TEST : compare error");
        }
      }
    }

    method TestReadWrite(addr: nat)
      requires Valid()
      modifies this`fails, rp, connection, logger
      ensures State() == ReadWriteTest(old(State()), connection.server, addr)
    {
      assert rw[..][..nb] == rw[..nb];
      var rc := ReceiveRegisters(WriteReadRegisters(addr, rw[..nb], addr, nb), nb);
      if rc != nb {
        Note("R/W MULTIPLE REGISTER TEST : write error");
      } else {
        CompareRegisters(rp, rw, "R/W MULTIPLE REGISTER TEST : compare error");
        rc := ReceiveRegisters(ReadRegisters(addr, nb), nb);
        if rc != nb {
          Note("R/W MULTIPLE REGISTER TEST : read error");
        } else {
          CompareRegisters(rw, rp, "R/W MULTIPLE REGISTER TEST : compare error");
        }
      }
    }

    method RunTests(addr: nat)
      requires Valid()
      modifies this`fails, rpBits, rp, connection, logger
      ensures State() == Tests(old(State()), connection.server, addr)
    {
      TestBit(addr);
      TestMultipleBits(addr);
      TestSingleRegister(addr);
      TestMultipleRegisters(addr);
      TestReadWrite(addr);
    }

    /** The body of the address loop, lines 74 to 191. */
    method Iterate(addr: nat)
      requires Valid() && addr <= ADDRESS_END
      modifies Objects()
      ensures Valid() && State() == IterationBody(connection.server, rand)(old(State()), addr)
    {
      FillBuffers();
      nb := ADDRESS_END - addr;
      ghost var p := State();
      BodyIs(connection.server, rand, old(State()), p, addr);
      RunTests(addr);
    }

    /** The address loop of line 72. */
    method OnePass()
      requires Valid()
      modifies Objects()
      ensures Valid() && State() == Pass(old(State()), IterationBody(connection.server, rand), ADDRESS_END + 1)
    {
      ghost var p := State();
      for addr := ADDRESS_START to ADDRESS_END + 1
        invariant Valid() && State() == Pass(p, IterationBody(connection.server, rand), addr)
      {
        Iterate(addr);
      }
    }

    /** The loop of line 71. */
    method Loops(loops: nat)
      requires Valid()
      modifies Objects()
      ensures Valid() && State() == Passes(old(State()), IterationBody(connection.server, rand), loops)
    {
      ghost var c := State();
      var loop := 0;
      while loop < loops
        invariant loop <= loops && Valid()
        invariant State() == Passes(c, IterationBody(connection.server, rand), loop)
      {
        loop := loop + 1;
        OnePass();
      }
    }
  }

  /** modbus_tcp_client_fun; `connected` is whether modbus_connect succeeds, `reason` what modbus_strerror says
      otherwise. A failed connect returns -1 and logs one line; a connected run sends the tests of the run, returns and
      logs what its exchanges are charged with, and returns the number of lines it logs. */
  method ModbusTcpClientFun(connected: bool, reason: string, server: Server, rand: Rand, loops: nat, logger: Logger)
    returns (code: int)
    modifies logger
    ensures !connected ==> code == -1 && logger.lines == old(logger.lines) + ["Connection failed :" + reason]
    ensures connected ==>
              var d := Run(server, rand, loops, old(logger.lines));
              && code == d.fails && logger.lines == d.log
              && d.sent == V.SentInRun(server, rand, loops)
              && code == V.Judgement(server, d.sent).fails
              && logger.lines == old(logger.lines) + V.Judgement(server, d.sent).lines
    ensures connected ==> 0 <= code == |logger.lines| - |old(logger.lines)| && code <= MOST * loops
    ensures old(logger.lines) <= logger.lines
  {
    if !connected {
      logger.Log("Connection failed :" + reason);
      return -1;
    }
    var connection := new Connection(server);
    var client := new TestClient(connection, logger, rand);
    client.Loops(loops);
    code := client.fails;
    FailuresAreLogged(server, rand, loops, old(logger.lines));
    V.RunIsJudged(server, rand, loops, old(logger.lines));
  }
}
