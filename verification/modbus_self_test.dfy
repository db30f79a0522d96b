/** The client and the table server of the repository together. */
module ModbusSelfTest {
  import opened ModbusServer
  import opened ModbusClient
  import opened ModbusTableRun
  import opened ModbusRun

  /** The client in place, connected to a table server: what it returns, and that it logs one line for each failure. */
  method SelfTest(t: Tables, mode: Mode, rand: Rand, loops: nat, logger: Logger) returns (code: int)
    requires ValidTables(t)
    modifies logger
    ensures code == loops * PassCharge(mode) == |logger.lines| - |old(logger.lines)|
  {
    TableServerIsTable(t, mode);
    FailureCount(TableServer(t, mode), States(t, mode), mode, rand, loops, logger.lines);
    code := ModbusTcpClientFun(true, "", TableServer(t, mode), rand, loops, logger);
  }

  /** What a run against the table server sends. */
  ghost function Sent(t: Tables, mode: Mode, rand: Rand, loops: nat, log: seq<string>): seq<Request>
    requires ValidTables(t)
  {
    Run(TableServer(t, mode), rand, loops, log).sent
  }

  lemma SentLeaves(t: Tables, mode: Mode, rand: Rand, loops: nat, log: seq<string>)
    requires ValidTables(t) && loops > 0
    ensures Final(Replay(t, Sent(t, mode, rand, loops, log), mode), t, mode, rand, loops - 1)
  {
    TableServerIsTable(t, mode);
    FinalTables(TableServer(t, mode), States(t, mode), mode, rand, loops, log);
  }

  /** The receive loop in place: every reply is the one that the client reckons with, and if the queries are those of a
      whole run, the arrays end as its last pass leaves them. */
  method ServeRun(mapping: Mapping, received: seq<Received>, rand: Rand, loops: nat, log: seq<string>)
    returns (replies: seq<Reply>)
    requires mapping.Valid()
    modifies mapping.coils, mapping.registers
    ensures ValidTables(old(mapping.State())) && ValidTables(mapping.State())
    ensures |replies| == |Served(received)|
    ensures forall i :: 0 <= i < |replies| ==>
              replies[i] == TableServer(old(mapping.State()), mapping.mode)(Served(received)[..i + 1])
    ensures loops > 0 && Served(received) == Sent(old(mapping.State()), mapping.mode, rand, loops, log) ==>
              Final(mapping.State(), old(mapping.State()), mapping.mode, rand, loops - 1)
  {
    ghost var t := mapping.State();
    replies := mapping.Loop(received);
    forall i | 0 <= i < |replies|
      ensures replies[i] == TableServer(t, mapping.mode)(Served(received)[..i + 1])
    {
      AnswerAt(t, Served(received), mapping.mode, i);
    }
    if loops > 0 { SentLeaves(t, mapping.mode, rand, loops, log); }
  }
}
