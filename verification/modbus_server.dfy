/**
 The table server (modbus_tcp_server.h): 500 coils and 500 holding registers behind the seven functions that the client
 uses, as the MODBUS Application Protocol Specification V1.1b3 defines them.
*/
module ModbusServer {
  import opened Common

  type u16 = x: int | 0 <= x < 0x1_0000

  /** Requests as libmodbus sends them; the quantity of a write is the number of values. */
  datatype Request =
    | ReadBits(addr: nat, count: nat)
    | ReadRegisters(addr: nat, count: nat)
    | WriteBit(addr: nat, bit: bool)
    | WriteRegister(addr: nat, value: u16)
    | WriteBits(addr: nat, bits: seq<bool>)
    | WriteRegisters(addr: nat, values: seq<u16>)
    | WriteReadRegisters(addr: nat, values: seq<u16>, readAddr: nat, count: nat)

  /** What a libmodbus call returns: the return code, and the values that a read brings. */
  datatype Reply = Reply(rc: int, bits: seq<bool>, registers: seq<u16>)

  datatype Tables = Tables(coils: seq<bool>, registers: seq<u16>)

  /** modbus_mapping_new(500, 500, 500, 500), line 42. */
  const SIZE: nat := 500

  ghost predicate ValidTables(t: Tables) {
    |t.coils| == SIZE && |t.registers| == SIZE
  }

  /** Two ways of being a server: does it reject quantity 0, and does it carry out the write half of Read/Write
      Multiple Registers. */
  datatype Mode = Mode(strict: bool, dropsWrite: bool)

  const FAULT := Reply(-1, [], [])

  function Done(rc: int): Reply {
    Reply(rc, [], [])
  }

  /** Quantities are 1 to the limit of the function; a lenient server lets 0 pass. */
  predicate QuantityOk(mode: Mode, count: nat, limit: nat) {
    count <= limit && (count > 0 || !mode.strict)
  }

  predicate RangeOk(addr: nat, count: nat) {
    addr + count <= SIZE
  }

  /** table with the values from addr on. */
  function Put<T>(table: seq<T>, addr: nat, values: seq<T>): (r: seq<T>)
    requires addr + |values| <= |table|
    ensures |r| == |table|
    ensures forall i :: 0 <= i < |table| ==> r[i] == if addr <= i < addr + |values| then values[i - addr] else table[i]
  {
    table[..addr] + values + table[addr + |values|..]
  }

  /** Sections 6.1, 6.3, 6.5, 6.6, 6.11, 6.12 and 6.17: the quantities (else exception 03) and the addresses (else
      exception 02) are in order. */
  predicate Accepted(req: Request, mode: Mode) {
    match req
    case ReadBits(a, n) => QuantityOk(mode, n, 2000) && RangeOk(a, n)
    case ReadRegisters(a, n) => QuantityOk(mode, n, 125) && RangeOk(a, n)
    case WriteBit(a, _) => a < SIZE
    case WriteRegister(a, _) => a < SIZE
    case WriteBits(a, bits) => QuantityOk(mode, |bits|, 1968) && RangeOk(a, |bits|)
    case WriteRegisters(a, values) => QuantityOk(mode, |values|, 123) && RangeOk(a, |values|)
    case WriteReadRegisters(a, values, ra, n) =>
      QuantityOk(mode, n, 125) && QuantityOk(mode, |values|, 121) && RangeOk(a, |values|) && RangeOk(ra, n)
  }

  /** The return code of an accepted request. */
  function Quantity(req: Request): nat {
    match req
    case ReadBits(_, n) => n
    case ReadRegisters(_, n) => n
    case WriteBit(_, _) => 1
    case WriteRegister(_, _) => 1
    case WriteBits(_, bits) => |bits|
    case WriteRegisters(_, values) => |values|
    case WriteReadRegisters(_, _, _, n) => n
  }

  /** Function 6.17 writes before it reads. An exception reaches the caller as -1. */
  function Serve(t: Tables, req: Request, mode: Mode): (r: (Tables, Reply))
    requires ValidTables(t)
    ensures ValidTables(r.0)
  {
    if !Accepted(req, mode) then (t, FAULT) else
      match req
      case ReadBits(a, n) => (t, Reply(n, t.coils[a..a + n], []))
      case ReadRegisters(a, n) => (t, Reply(n, [], t.registers[a..a + n]))
      case WriteBit(a, b) => (t.(coils := t.coils[a := b]), Done(1))
      case WriteRegister(a, v) => (t.(registers := t.registers[a := v]), Done(1))
      case WriteBits(a, bits) => (t.(coils := Put(t.coils, a, bits)), Done(|bits|))
      case WriteRegisters(a, values) => (t.(registers := Put(t.registers, a, values)), Done(|values|))
      case WriteReadRegisters(a, values, ra, n) =>
        var u := if mode.dropsWrite then t else t.(registers := Put(t.registers, a, values));
        (u, Reply(n, [], u.registers[ra..ra + n]))
  }

  /** The tables after a history of requests. */
  function Replay(t: Tables, history: seq<Request>, mode: Mode): (r: Tables)
    requires ValidTables(t)
    ensures ValidTables(r)
  {
    if history == [] then t
    else Serve(Replay(t, history[..|history| - 1], mode), history[|history| - 1], mode).0
  }

  /** The answer to the last request of a history. */
  function LastReply(t: Tables, history: seq<Request>, mode: Mode): Reply
    requires ValidTables(t)
  {
    if history == [] then FAULT
    else Serve(Replay(t, history[..|history| - 1], mode), history[|history| - 1], mode).1
  }

  /** What the client makes of a connection: an answer to each request, given all requests so far. Any server is one. */
  type Server = seq<Request> -> Reply

  function TableServer(t: Tables, mode: Mode): Server
    requires ValidTables(t)
  {
    (history: seq<Request>) => LastReply(t, history, mode)
  }

  /** One more request. */
  lemma OneMoreRequest(t: Tables, mode: Mode, history: seq<Request>, req: Request)
    requires ValidTables(t)
    ensures Replay(t, history + [req], mode) == Serve(Replay(t, history, mode), req, mode).0
    ensures TableServer(t, mode)(history + [req]) == Serve(Replay(t, history, mode), req, mode).1
  {
    assert (history + [req])[..|history|] == history;
  }

  // ---------------------------------------------------------------------------------------------------------
  // What is accepted

  /** 1 to the most of its function, or 0 where the server is lenient. */
  predicate Counted(n: nat, most: nat, lenient: bool) {
    1 <= n <= most || (n == 0 && lenient)
  }

  predicate Place(k: nat) {
    k < 500
  }

  /** Every place exists: entries are numbered 0 to 499. */
  predicate Exist(addr: nat, n: nat) {
    forall k :: addr <= k < addr + n ==> Place(k)
  }

  /** The requests carried out: with a quantity in order, at places that exist. (Nothing is read or written at quantity
      0, but the address is checked all the same; it may be 500.) */
  lemma AcceptedExactly(req: Request, mode: Mode)
    ensures Accepted(req, mode) <==>
            match req
            case ReadBits(a, n) => Counted(n, 2000, !mode.strict) && a <= 500 && Exist(a, n)
            case ReadRegisters(a, n) => Counted(n, 125, !mode.strict) && a <= 500 && Exist(a, n)
            case WriteBit(a, _) => Exist(a, 1)
            case WriteRegister(a, _) => Exist(a, 1)
            case WriteBits(a, bits) => Counted(|bits|, 1968, !mode.strict) && a <= 500 && Exist(a, |bits|)
            case WriteRegisters(a, values) => Counted(|values|, 123, !mode.strict) && a <= 500 && Exist(a, |values|)
            case WriteReadRegisters(a, values, ra, n) =>
              && Counted(|values|, 121, !mode.strict) && a <= 500 && Exist(a, |values|)
              && Counted(n, 125, !mode.strict) && ra <= 500 && Exist(ra, n)
  {
    match req
    case ReadBits(a, n) => ExistExactly(a, n);
    case ReadRegisters(a, n) => ExistExactly(a, n);
    case WriteBit(a, _) => ExistExactly(a, 1);
    case WriteRegister(a, _) => ExistExactly(a, 1);
    case WriteBits(a, bits) => ExistExactly(a, |bits|);
    case WriteRegisters(a, values) => ExistExactly(a, |values|);
    case WriteReadRegisters(a, values, ra, n) => ExistExactly(a, |values|); ExistExactly(ra, n);
  }

  lemma ExistExactly(addr: nat, n: nat)
    ensures Exist(addr, n) <==> n == 0 || addr + n <= 500
  {
    if Exist(addr, n) && n > 0 { assert Place(addr + n - 1); }
  }

  /** Whatever the tables hold, a value written at any of the 500 places is read back from it, alone or with its
      neighbours; at place 500 both are refused. */
  lemma ReadBack(t: Tables, mode: Mode, k: nat, a: nat, n: nat, bit: bool, value: u16)
    requires ValidTables(t) && a <= k < a + n && a + n <= 500 && n <= 125
    ensures var (u, r) := Serve(t, WriteBit(k, bit), mode);
            r.rc == 1 && Serve(u, ReadBits(a, n), mode).1.rc == n && Serve(u, ReadBits(a, n), mode).1.bits[k - a] == bit
    ensures var (u, r) := Serve(t, WriteRegister(k, value), mode);
            && r.rc == 1 && Serve(u, ReadRegisters(a, n), mode).1.rc == n
            && Serve(u, ReadRegisters(a, n), mode).1.registers[k - a] == value
    ensures Serve(t, WriteBit(500, bit), mode) == Serve(t, ReadBits(500, 1), mode) == (t, Reply(-1, [], []))
    ensures Serve(t, WriteRegister(500, value), mode) == Serve(t, ReadRegisters(500, 1), mode) == (t, Reply(-1, [], []))
  {}

  /** The same for several values, with the limits of the five functions; a server that drops the write half of
      read/write answers with what was there. */
  lemma SeveralReadBack(t: Tables, mode: Mode, a: nat, bits: seq<bool>, values: seq<u16>)
    requires ValidTables(t) && a + |bits| <= 500 && a + |values| <= 500
    ensures 1 <= |bits| <= 1968 ==>
              var (u, r) := Serve(t, WriteBits(a, bits), mode);
              r == Done(|bits|) && Serve(u, ReadBits(a, |bits|), mode) == (u, Reply(|bits|, bits, []))
    ensures 1 <= |values| <= 123 ==>
              var (u, r) := Serve(t, WriteRegisters(a, values), mode);
              r == Done(|values|) && Serve(u, ReadRegisters(a, |values|), mode) == (u, Reply(|values|, [], values))
    ensures 1 <= |values| <= 121 ==>
              var there := if mode.dropsWrite then t.registers[a..a + |values|] else values;
              var (u, r) := Serve(t, WriteReadRegisters(a, values, a, |values|), mode);
              r == Reply(|values|, [], there) && Serve(u, ReadRegisters(a, |values|), mode) == (u, r)
  {
    assert Put(t.coils, a, bits)[a..a + |bits|] == bits;
    assert Put(t.registers, a, values)[a..a + |values|] == values;
  }

  // ---------------------------------------------------------------------------------------------------------
  // What a client can tell: a read brings, entry by entry, what was written there last

  function At<T>(addr: nat, values: seq<T>, k: nat): Option<T> {
    if addr <= k < addr + |values| then Some(values[k - addr]) else None
  }

  /** What a request puts into coil k, if anything. */
  function CoilWritten(req: Request, mode: Mode, k: nat): Option<bool> {
    if !Accepted(req, mode) then None
    else if req.WriteBit? then At(req.addr, [req.bit], k)
    else if req.WriteBits? then At(req.addr, req.bits, k)
    else None
  }

  function RegisterWritten(req: Request, mode: Mode, k: nat): Option<u16> {
    if !Accepted(req, mode) then None
    else if req.WriteRegister? then At(req.addr, [req.value], k)
    else if req.WriteRegisters? then At(req.addr, req.values, k)
    else if req.WriteReadRegisters? && !mode.dropsWrite then At(req.addr, req.values, k)
    else None
  }

  function Or<T>(later: Option<T>, earlier: T): T {
    if later.Some? then later.value else earlier
  }

  /** The whole effect of a request, entry by entry; a refused one has none. */
  lemma ServeAt(t: Tables, req: Request, mode: Mode, k: nat)
    requires ValidTables(t) && k < SIZE
    ensures Serve(t, req, mode).0.coils[k] == Or(CoilWritten(req, mode, k), t.coils[k])
    ensures Serve(t, req, mode).0.registers[k] == Or(RegisterWritten(req, mode, k), t.registers[k])
    ensures Serve(t, req, mode).1.rc == if Accepted(req, mode) then Quantity(req) else -1
  {
    match req
    case WriteBits(a, bits) => if Accepted(req, mode) { assert |Put(t.coils, a, bits)| == SIZE; }
    case WriteRegisters(a, values) => if Accepted(req, mode) { assert |Put(t.registers, a, values)| == SIZE; }
    case _ =>
  }

  /** What the last request of a history that wrote coil k put there, or what was there at the start. */
  function LastCoil(t: Tables, history: seq<Request>, mode: Mode, k: nat): bool
    requires ValidTables(t) && k < SIZE
  {
    if history == [] then t.coils[k]
    else Or(CoilWritten(history[|history| - 1], mode, k), LastCoil(t, history[..|history| - 1], mode, k))
  }

  function LastRegister(t: Tables, history: seq<Request>, mode: Mode, k: nat): u16
    requires ValidTables(t) && k < SIZE
  {
    if history == [] then t.registers[k]
    else Or(RegisterWritten(history[|history| - 1], mode, k), LastRegister(t, history[..|history| - 1], mode, k))
  }

  lemma {:induction false} TablesAreLastWrites(t: Tables, history: seq<Request>, mode: Mode, k: nat)
    requires ValidTables(t) && k < SIZE
    ensures Replay(t, history, mode).coils[k] == LastCoil(t, history, mode, k)
    ensures Replay(t, history, mode).registers[k] == LastRegister(t, history, mode, k)
  {
    if history != [] {
      TablesAreLastWrites(t, history[..|history| - 1], mode, k);
      ServeAt(Replay(t, history[..|history| - 1], mode), history[|history| - 1], mode, k);
    }
  }

  /** The table server as a function of the history: a refused request answers -1, an accepted one its quantity, and a
      read brings at every place what was written there last, by the read/write request itself included. */
  lemma AnswersAreLastWrites(t: Tables, mode: Mode, history: seq<Request>, j: nat)
    requires ValidTables(t) && history != []
    ensures var req, reply := history[|history| - 1], TableServer(t, mode)(history);
            && reply.rc == (if Accepted(req, mode) then Quantity(req) else -1)
            && (Accepted(req, mode) && req.ReadBits? && j < req.count ==>
                 |reply.bits| == req.count && reply.bits[j] == LastCoil(t, history, mode, req.addr + j))
            && (Accepted(req, mode) && req.ReadRegisters? && j < req.count ==>
                 |reply.registers| == req.count
                 && reply.registers[j] == LastRegister(t, history, mode, req.addr + j))
            && (Accepted(req, mode) && req.WriteReadRegisters? && j < req.count ==>
                 |reply.registers| == req.count
                 && reply.registers[j] == LastRegister(t, history, mode, req.readAddr + j))
  {
    var req := history[|history| - 1];
    var u := Replay(t, history[..|history| - 1], mode);
    ServeAt(u, req, mode, 0);
    if Accepted(req, mode) && j < Quantity(req) {
      if req.ReadBits? { TablesAreLastWrites(t, history, mode, req.addr + j); }
      if req.ReadRegisters? { TablesAreLastWrites(t, history, mode, req.addr + j); }
      if req.WriteReadRegisters? { TablesAreLastWrites(t, history, mode, req.readAddr + j); }
    }
  }

  // ---------------------------------------------------------------------------------------------------------
  // modbus_tcp_server_fun

  /** modbus_receive: a query, nothing for us (0 or another negative code), or -1. */
  datatype Received = Query(request: Request) | Ignored | Closed

  /** The first -1 from i on, or the end. */
  function FirstClosed(received: seq<Received>, i: nat): (n: nat)
    requires i <= |received|
    ensures i <= n <= |received|
    decreases |received| - i
  {
    if i == |received| || received[i].Closed? then i else FirstClosed(received, i + 1)
  }

  /** The queries among the first n receives. */
  function Queries(received: seq<Received>, n: nat): seq<Request>
    requires n <= |received|
  {
    if n == 0 then []
    else if received[n - 1].Query? then Queries(received, n - 1) + [received[n - 1].request]
    else Queries(received, n - 1)
  }

  /** The queries up to the first -1. */
  function Served(received: seq<Received>): seq<Request> {
    Queries(received, FirstClosed(received, 0))
  }

  /** The connection stays up. */
  predicate Open(received: seq<Received>) {
    forall i :: 0 <= i < |received| ==> !received[i].Closed?
  }

  lemma {:induction false} FirstClosedIs(received: seq<Received>, i: nat, n: nat)
    requires i <= n <= |received| && (n == |received| || received[n].Closed?)
    requires forall k :: i <= k < n ==> !received[k].Closed?
    ensures FirstClosed(received, i) == n
    decreases n - i
  {
    if i < n { FirstClosedIs(received, i + 1, n); }
  }

  lemma {:induction false} QueriesAppend(a: seq<Received>, b: seq<Received>, n: nat)
    requires n <= |b|
    ensures Queries(a + b, |a| + n) == Queries(a, |a|) + Queries(b, n)
    decreases |a| + n
  {
    if n > 0 {
      QueriesAppend(a, b, n - 1);
      assert (a + b)[|a| + n - 1] == b[n - 1];
    } else if a != [] {
      var front := a[..|a| - 1];
      QueriesAppend(front, [a[|a| - 1]], 0);
      QueriesAppend(front, [a[|a| - 1]] + b, 0);
      assert front + [a[|a| - 1]] == a && front + ([a[|a| - 1]] + b) == a + b;
    }
  }

  /** What is received until the connection closes is served, and nothing after. */
  lemma {:induction false} ServedAppends(a: seq<Received>, b: seq<Received>)
    ensures Served(a + b) == Served(a) + if Open(a) then Served(b) else []
  {
    if Open(a) {
      FirstClosedIs(a, 0, |a|);
      var n := FirstClosed(b, 0);
      FirstClosedFound(b, 0);
      FirstClosedIs(a + b, 0, |a| + n);
      QueriesAppend(a, b, n);
    } else {
      var n := FirstClosed(a, 0);
      FirstClosedFound(a, 0);
      FirstClosedIs(a + b, 0, n);
      QueriesAppend(a[..n], a[n..], 0);
      QueriesAppend(a[..n], a[n..] + b, 0);
      assert a[..n] + a[n..] == a && a[..n] + (a[n..] + b) == a + b;
    }
  }

  lemma {:induction false} FirstClosedFound(received: seq<Received>, i: nat)
    requires i <= |received|
    ensures var n := FirstClosed(received, i);
            && (forall k :: i <= k < n ==> !received[k].Closed?) && (n == |received| || received[n].Closed?)
    decreases |received| - i
  {
    if i < |received| && !received[i].Closed? { FirstClosedFound(received, i + 1); }
  }

  /** The last receive decides alone: a query on an open connection is served last, anything else adds nothing. */
  lemma OneMoreReceived(a: seq<Received>, q: Request)
    ensures Served([]) == []
    ensures Served(a + [Query(q)]) == Served(a) + if Open(a) then [q] else []
    ensures Served(a + [Ignored]) == Served(a) && Served(a + [Closed]) == Served(a)
  {
    ServedAppends(a, [Query(q)]);
    ServedAppends(a, [Ignored]);
    ServedAppends(a, [Closed]);
    assert [Query(q)][0].Query? && Queries([Query(q)], 0) == [];
  }

  lemma IgnoredIsNothing(a: seq<Received>, b: seq<Received>)
    ensures Served(a + [Ignored] + b) == Served(a + b)
  {
    ServedAppends(a, b);
    ServedAppends(a + [Ignored], b);
    OneMoreReceived(a, WriteBit(0, false));
    forall i | 0 <= i < |a| ensures a[i] == (a + [Ignored])[i] {}
  }

  lemma ClosedIsTheEnd(a: seq<Received>, b: seq<Received>)
    ensures Served(a + [Closed] + b) == Served(a)
  {
    ServedAppends(a + [Closed], b);
    OneMoreReceived(a, WriteBit(0, false));
    assert (a + [Closed])[|a|].Closed?;
  }

  /** The answers to a history of requests, in order. */
  function Answers(t: Tables, history: seq<Request>, mode: Mode): (r: seq<Reply>)
    requires ValidTables(t)
    ensures |r| == |history|
  {
    if history == [] then []
    else Answers(t, history[..|history| - 1], mode) + [LastReply(t, history, mode)]
  }

  lemma {:induction false} AnswerAt(t: Tables, history: seq<Request>, mode: Mode, i: nat)
    requires ValidTables(t) && i < |history|
    ensures Answers(t, history, mode)[i] == LastReply(t, history[..i + 1], mode)
  {
    if i == |history| - 1 {
      assert history[..i + 1] == history;
    } else {
      var h := history[..|history| - 1];
      AnswerAt(t, h, mode, i);
      assert h[..i + 1] == history[..i + 1];
    }
  }

  lemma OneMoreAnswer(t: Tables, mode: Mode, history: seq<Request>, req: Request)
    requires ValidTables(t)
    ensures Answers(t, history + [req], mode)
            == Answers(t, history, mode) + [Serve(Replay(t, history, mode), req, mode).1]
  {
    assert (history + [req])[..|history|] == history;
    OneMoreRequest(t, mode, history, req);
  }

  /** Some queries are done: the tables and the answers they make. */
  ghost predicate UpTo(done: seq<Request>, start: Tables, mode: Mode, now: Tables, replies: seq<Reply>)
    requires ValidTables(start)
  {
    now == Replay(start, done, mode) && replies == Answers(start, done, mode)
  }

  lemma UpToNext(done: seq<Request>, start: Tables, mode: Mode, now: Tables, replies: seq<Reply>, request: Request)
    requires ValidTables(start) && ValidTables(now) && UpTo(done, start, mode, now, replies)
    ensures var (u, reply) := Serve(now, request, mode);
            UpTo(done + [request], start, mode, u, replies + [reply])
  {
    OneMoreRequest(start, mode, done, request);
    OneMoreAnswer(start, mode, done, request);
  }

  class Mapping {
    const coils: array<bool>
    const registers: array<u16>
    // never touched by the functions that the client uses
    const inputs: array<bool>
    const inputRegisters: array<u16>
    const mode: Mode

    ghost predicate Valid()
      reads this
    {
      && coils.Length == SIZE && registers.Length == SIZE
      && inputs.Length == SIZE && inputRegisters.Length == SIZE && inputs != coils && inputRegisters != registers
    }

    ghost function State(): Tables
      reads this, coils, registers
    {
      Tables(coils[..], registers[..])
    }

    constructor (mode: Mode)
      ensures Valid() && fresh(coils) && fresh(registers) && this.mode == mode
      ensures ValidTables(State())
      ensures State() == Tables(seq(SIZE, i => false), seq(SIZE, i => 0))
      ensures inputs[..] == seq(SIZE, i => false) && inputRegisters[..] == seq(SIZE, i => 0)
    {
      this.mode := mode;
      inputs := new bool[SIZE](i => false);
      inputRegisters := new u16[SIZE](i => 0);
      coils := new bool[SIZE](i => false);
      registers := new u16[SIZE](i => 0);
    }

    method PutBits(addr: nat, values: seq<bool>)
      requires Valid() && addr + |values| <= SIZE
      modifies coils
      ensures coils[..] == Put(old(coils[..]), addr, values)
    {
      for i := 0 to |values|
        invariant forall k :: 0 <= k < SIZE ==>
            coils[k] == if addr <= k < addr + i then values[k - addr] else old(coils[k])
      {
        coils[addr + i] := values[i];
      }
    }

    method PutRegisters(addr: nat, values: seq<u16>)
      requires Valid() && addr + |values| <= SIZE
      modifies registers
      ensures registers[..] == Put(old(registers[..]), addr, values)
    {
      for i := 0 to |values|
        invariant forall k :: 0 <= k < SIZE ==>
                    registers[k] == if addr <= k < addr + i then values[k - addr] else old(registers[k])
      {
        registers[addr + i] := values[i];
      }
    }

    /** modbus_reply: the tables change in place as Serve says. */
    method Answer(req: Request) returns (reply: Reply)
      requires Valid()
      modifies coils, registers
      ensures (State(), reply) == Serve(old(State()), req, mode)
    {
      if !Accepted(req, mode) { return FAULT; }
      match req
      case ReadBits(a, n) => reply := Reply(n, coils[a..a + n], []);
      case ReadRegisters(a, n) => reply := Reply(n, [], registers[a..a + n]);
      case WriteBit(a, b) => coils[a] := b; reply := Done(1);
      case WriteRegister(a, v) => registers[a] := v; reply := Done(1);
      case WriteBits(a, bits) => PutBits(a, bits); reply := Done(|bits|);
      case WriteRegisters(a, values) => PutRegisters(a, values); reply := Done(|values|);
      case WriteReadRegisters(a, values, ra, n) =>
        if !mode.dropsWrite { PutRegisters(a, values); }
        reply := Reply(n, [], registers[ra..ra + n]);
    }

    /** One turn of the receive loop. */
    method AnswerNext(request: Request, replies: seq<Reply>, ghost done: seq<Request>, ghost start: Tables)
      returns (more: seq<Reply>)
      requires Valid() && ValidTables(start) && UpTo(done, start, mode, State(), replies)
      modifies coils, registers
      ensures UpTo(done + [request], start, mode, State(), more)
    {
      UpToNext(done, start, mode, State(), replies, request);
      var reply := Answer(request);
      more := replies + [reply];
    }

    /** The receive loop: every query up to the first -1 is answered, in order, and its answer is the one that the
        history of queries calls for. */
    method Loop(received: seq<Received>) returns (replies: seq<Reply>)
      requires Valid()
      modifies coils, registers
      ensures ValidTables(old(State()))
      ensures State() == Replay(old(State()), Served(received), mode)
      ensures replies == Answers(old(State()), Served(received), mode)
    {
      replies := [];
      ghost var start := State();
      ghost var done: seq<Request> := [];
      var i := 0;
      while i < |received| && !received[i].Closed?
        invariant 0 <= i <= |received|
        invariant FirstClosed(received, i) == FirstClosed(received, 0)
        invariant done == Queries(received, i)
        invariant UpTo(done, start, mode, State(), replies)
        decreases |received| - i
      {
        if received[i].Query? {
          replies := AnswerNext(received[i].request, replies, done, start);
          done := done + [received[i].request];
        }
        i := i + 1;
      }
      assert done == Served(received);
    }
  }
}
