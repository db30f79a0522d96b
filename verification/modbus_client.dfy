/**
 The self-test client (modbus_tcp_client.h): what it sends, logs and counts, for any server and any random numbers.
*/
module ModbusClient {
  import opened ModbusServer

  const ADDRESS_START: nat := 0
  const ADDRESS_END: nat := 99
  /** Cells of each of the five buffers. */
  const CELLS: nat := ADDRESS_END - ADDRESS_START

  /** rand() with RAND_MAX == 2^31 - 1; the k-th call of the run gives rand(k). */
  type Draw = r: int | 0 <= r < 0x8000_0000
  type Rand = nat -> Draw

  /** (uint16_t) (65535.0 * rand() / (RAND_MAX + 1.0)): product and quotient are exact in a double. */
  function Scale(r: Draw): (v: u16)
    ensures v < 65535 && v * 0x8000_0000 <= 65535 * r < (v + 1) * 0x8000_0000
  {
    65535 * r / 0x8000_0000
  }

  /** ~v in 16 bits */
  function Complement(v: u16): (w: u16)
    ensures v + w == 65535
  {
    65535 - v
  }

  predicate Odd(v: u16) {
    v % 2 == 1
  }

  function Twice(h: nat): nat {
    h + h
  }

  lemma OddExactly(v: u16)
    ensures Odd(v) <==> exists h :: v == Twice(h) + 1
  {
    if Odd(v) { assert v == Twice(v / 2) + 1; }
  }

  /** What an iteration works with: the three request buffers, nb, and how many numbers were drawn so far. */
  datatype Inputs = Inputs(rqBits: seq<bool>, rq: seq<u16>, rw: seq<u16>, nb: nat, drawn: nat)

  /** With them the buffers that are read into, the requests sent, the log and nb_fail. */
  datatype Client = Client(inputs: Inputs, rpBits: seq<bool>, rp: seq<u16>, sent: seq<Request>, log: seq<string>,
                           fails: nat)

  predicate SizedInputs(i: Inputs) {
    |i.rqBits| == |i.rq| == |i.rw| == CELLS && i.nb <= CELLS
  }

  predicate Sized(c: Client) {
    SizedInputs(c.inputs) && |c.rpBits| == |c.rp| == CELLS
  }

  /** Lines 49 to 69. */
  function Start(log: seq<string>): (c: Client)
    ensures Sized(c)
  {
    var bits := seq(CELLS, _ => false);
    var registers: seq<u16> := seq(CELLS, _ => 0);
    Client(Inputs(bits, registers, registers, CELLS, 0), bits, registers, [], log, 0)
  }

  /** The first n cells replaced. */
  function Filled<T>(cells: seq<T>, n: nat, f: nat -> T): (r: seq<T>)
    ensures |r| == |cells|
    ensures forall i :: 0 <= i < |cells| ==> r[i] == if i < n then f(i) else cells[i]
  {
    seq(|cells|, i requires 0 <= i < |cells| => if i < n then f(i) else cells[i])
  }

  /** A successful read of n values stores n cells. (A server that brings fewer values brings `pad` for the others.) */
  function Stored<T>(cells: seq<T>, n: nat, values: seq<T>, pad: T): (r: seq<T>)
    ensures |r| == |cells|
    ensures forall i :: 0 <= i < |cells| ==>
              r[i] == if i < n then (if i < |values| then values[i] else pad) else cells[i]
  {
    Filled(cells, n, i => if 0 <= i < |values| then values[i] else pad)
  }

  /** Lines 74 to 78, with the nb of the previous iteration. */
  function Fill(i: Inputs, rand: Rand): (j: Inputs)
    requires SizedInputs(i)
    ensures SizedInputs(j)
  {
    i.(rq := Filled(i.rq, i.nb, k => Scale(rand(i.drawn + k))),
       rw := Filled(i.rw, i.nb, k => Complement(Scale(rand(i.drawn + k)))),
       rqBits := Filled(i.rqBits, i.nb, k => Odd(Scale(rand(i.drawn + k)))),
       drawn := i.drawn + i.nb)
  }

  /** The fill of one iteration and the assignment of nb after it, line 80. */
  function Prepare(i: Inputs, rand: Rand, addr: nat): (j: Inputs)
    requires SizedInputs(i) && addr <= ADDRESS_END
    ensures SizedInputs(j)
  {
    Fill(i, rand).(nb := ADDRESS_END - addr)
  }

  function Lines(line: string, n: nat): (r: seq<string>)
    ensures |r| == n
  {
    seq(n, _ => line)
  }

  /** logger.log(line); nb_fail++;  n times. */
  function Fail(c: Client, line: string, n: nat): Client {
    c.(log := c.log + Lines(line, n), fails := c.fails + n)
  }

  /** At how many of the first n places two buffers differ. */
  function Mismatches<T(==)>(xs: seq<T>, ys: seq<T>, n: nat): (m: nat)
    requires n <= |xs| && n <= |ys|
    ensures m <= n
  {
    if n == 0 then 0 else Mismatches(xs, ys, n - 1) + if xs[n - 1] != ys[n - 1] then 1 else 0
  }

  function Send(c: Client, req: Request): Client {
    c.(sent := c.sent + [req])
  }

  /** The reply to the request that was sent last. */
  function Heard(c: Client, server: Server): Reply {
    server(c.sent)
  }

  function HearBits(c: Client, server: Server, n: nat): (d: Client)
    requires Sized(c)
    ensures Sized(d) && d.inputs == c.inputs
  {
    var r := Heard(c, server);
    if r.rc == n then c.(rpBits := Stored(c.rpBits, n, r.bits, false)) else c
  }

  function HearRegisters(c: Client, server: Server, n: nat): (d: Client)
    requires Sized(c)
    ensures Sized(d) && d.inputs == c.inputs
  {
    var r := Heard(c, server);
    if r.rc == n then c.(rp := Stored(c.rp, n, r.registers, 0)) else c
  }

  /** Lines 82 to 94. */
  function BitTest(c: Client, server: Server, addr: nat): (d: Client)
    requires Sized(c)
    ensures Sized(d) && d.inputs == c.inputs
  {
    var c1 := Send(c, WriteBit(addr, c.inputs.rqBits[0]));
    if Heard(c1, server).rc != 1 then Fail(c1, "BIT TEST : write error", 1)
    else
      var c2 := Send(c1, ReadBits(addr, 1));
      var c3 := HearBits(c2, server, 1);
      if Heard(c2, server).rc != 1 || c3.inputs.rqBits[0] != c3.rpBits[0] then Fail(c3, "BIT TEST : read error", 1)
      else c3
  }

  /** Lines 96 to 116. */
  function MultipleBitsTest(c: Client, server: Server, addr: nat): (d: Client)
    requires Sized(c)
    ensures Sized(d) && d.inputs == c.inputs
  {
    var c1 := Send(c, WriteBits(addr, c.inputs.rqBits[..c.inputs.nb]));
    if Heard(c1, server).rc != c.inputs.nb then Fail(c1, "MULTIPLE BITS TEST : write error", 1)
    else
      var c2 := Send(c1, ReadBits(addr, c.inputs.nb));
      var c3 := HearBits(c2, server, c.inputs.nb);
      if Heard(c2, server).rc != c.inputs.nb then Fail(c3, "MULTIPLE BITS TEST : read error", 1)
      else Fail(c3, "MULTIPLE BITS TEST : compare error", Mismatches(c3.rpBits, c3.inputs.rqBits, c.inputs.nb))
  }

  /** Lines 118 to 138; what is compared are the bit buffers. */
  function SingleRegisterTest(c: Client, server: Server, addr: nat): (d: Client)
    requires Sized(c)
    ensures Sized(d) && d.inputs == c.inputs
  {
    var c1 := Send(c, WriteRegister(addr, c.inputs.rq[0]));
    if Heard(c1, server).rc != 1 then Fail(c1, "SINGLE REGISTER TEST : write error", 1)
    else
      var c2 := Send(c1, ReadRegisters(addr, 1));
      var c3 := HearRegisters(c2, server, 1);
      if Heard(c2, server).rc != 1 then Fail(c3, "SINGLE REGISTER TEST : read error", 1)
      else Fail(c3, "SINGLE REGISTER TEST : compare error", Mismatches(c3.rpBits, c3.inputs.rqBits, c.inputs.nb))
  }

  /** Lines 140 to 160; what is compared are the bit buffers. */
  function MultipleRegistersTest(c: Client, server: Server, addr: nat): (d: Client)
    requires Sized(c)
    ensures Sized(d) && d.inputs == c.inputs
  {
    var c1 := Send(c, WriteRegisters(addr, c.inputs.rq[..c.inputs.nb]));
    if Heard(c1, server).rc != c.inputs.nb then Fail(c1, "MULTIPLE REGISTER TEST : write error", 1)
    else
      var c2 := Send(c1, ReadRegisters(addr, c.inputs.nb));
      var c3 := HearRegisters(c2, server, c.inputs.nb);
      if Heard(c2, server).rc != c.inputs.nb then Fail(c3, "MULTIPLE REGISTER TEST : read error", 1)
      else Fail(c3, "MULTIPLE REGISTER TEST : compare error", Mismatches(c3.rpBits, c3.inputs.rqBits, c.inputs.nb))
  }

  /** Lines 162 to 191. */
  function ReadWriteTest(c: Client, server: Server, addr: nat): (d: Client)
    requires Sized(c)
    ensures Sized(d) && d.inputs == c.inputs
  {
    var c1 := Send(c, WriteReadRegisters(addr, c.inputs.rw[..c.inputs.nb], addr, c.inputs.nb));
    var c2 := HearRegisters(c1, server, c.inputs.nb);
    if Heard(c1, server).rc != c.inputs.nb then Fail(c2, "R/W MULTIPLE REGISTER TEST : write error", 1)
    else
      var c3 := Fail(c2, "R/W MULTIPLE REGISTER TEST : compare error", Mismatches(c2.rp, c2.inputs.rw, c.inputs.nb));
      var c4 := Send(c3, ReadRegisters(addr, c.inputs.nb));
      var c5 := HearRegisters(c4, server, c.inputs.nb);
      if Heard(c4, server).rc != c.inputs.nb then Fail(c5, "R/W MULTIPLE REGISTER TEST : read error", 1)
      else Fail(c5, "R/W MULTIPLE REGISTER TEST : compare error", Mismatches(c5.inputs.rw, c5.rp, c.inputs.nb))
  }

  /** The five tests of one iteration. */
  function Tests(c: Client, server: Server, addr: nat): (d: Client)
    requires Sized(c)
    ensures Sized(d) && d.inputs == c.inputs
  {
    var c1 := BitTest(c, server, addr);
    var c2 := MultipleBitsTest(c1, server, addr);
    var c3 := SingleRegisterTest(c2, server, addr);
    var c4 := MultipleRegistersTest(c3, server, addr);
    ReadWriteTest(c4, server, addr)
  }

  function Iteration(c: Client, server: Server, rand: Rand, addr: nat): (d: Client)
    requires Sized(c) && addr <= ADDRESS_END
    ensures Sized(d)
  {
    Tests(c.(inputs := Prepare(c.inputs, rand, addr)), server, addr)
  }

  /** The body of the address loop as a value, so that the loops can be reasoned about for any body. */
  type Body = (Client, nat) -> Client

  function IterationBody(server: Server, rand: Rand): Body {
    (c: Client, addr: nat) => if Sized(c) && addr <= ADDRESS_END then Iteration(c, server, rand, addr) else c
  }

  /** The iterations with address below `end`. */
  function Pass(c: Client, body: Body, end: nat): Client
    decreases end, c.fails
  {
    if end == 0 then c else body(Pass(c, body, end - 1), end - 1)
  }

  function Passes(c: Client, body: Body, loops: nat): Client {
    if loops == 0 then c else Pass(Passes(c, body, loops - 1), body, ADDRESS_END + 1)
  }

  /** A connected run. */
  function Run(server: Server, rand: Rand, loops: nat, log: seq<string>): Client {
    Passes(Start(log), IterationBody(server, rand), loops)
  }

  /** What every iteration keeps up holds at the end of a pass. */
  lemma {:induction false} PassInduction(c: Client, body: Body, holds: (Client, nat) -> bool, end: nat)
    requires end <= ADDRESS_END + 1 && holds(c, 0)
    requires forall d, addr: nat :: addr <= ADDRESS_END && holds(d, addr) ==> holds(body(d, addr), addr + 1)
    ensures holds(Pass(c, body, end), end)
  {
    if end > 0 { PassInduction(c, body, holds, end - 1); }
  }

  /** What every pass keeps up holds at the end of the run. */
  lemma {:induction false} PassesInduction(c: Client, body: Body, holds: (Client, nat) -> bool, loops: nat)
    requires holds(c, 0)
    requires forall d, n: nat :: holds(d, n) ==> holds(Pass(d, body, ADDRESS_END + 1), n + 1)
    ensures holds(Passes(c, body, loops), loops)
  {
    if loops > 0 { PassesInduction(c, body, holds, loops - 1); }
  }
}
