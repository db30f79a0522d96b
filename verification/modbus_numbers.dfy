/** Which random numbers the client sends: the same for every server. */
module ModbusNumbers {
  import opened ModbusServer
  import opened ModbusClient

  /** The inputs before the iteration with address addr, when the pass began with i. */
  function PassInputs(i: Inputs, rand: Rand, addr: nat): (j: Inputs)
    requires SizedInputs(i) && addr <= ADDRESS_END + 1
    ensures SizedInputs(j)
    decreases addr, i.nb
  {
    if addr == 0 then i else Prepare(PassInputs(i, rand, addr - 1), rand, addr - 1)
  }

  /** The inputs at the start of pass p (from 0). */
  function StartInputs(rand: Rand, p: nat): (i: Inputs)
    ensures SizedInputs(i)
  {
    if p == 0 then Start([]).inputs else PassInputs(StartInputs(rand, p - 1), rand, ADDRESS_END + 1)
  }

  /** The inputs before iteration addr of pass p, and those the tests of that iteration send. */
  function InputsBefore(rand: Rand, p: nat, addr: nat): (i: Inputs)
    requires addr <= ADDRESS_END + 1
    ensures SizedInputs(i)
  {
    PassInputs(StartInputs(rand, p), rand, addr)
  }

  function InputsSent(rand: Rand, p: nat, addr: nat): (i: Inputs)
    requires addr <= ADDRESS_END
    ensures SizedInputs(i)
  {
    Prepare(InputsBefore(rand, p, addr), rand, addr)
  }

  // ---------------------------------------------------------------------------------------------------------
  // They are the inputs of every run

  ghost predicate Prepares(body: Body, rand: Rand) {
    forall c, addr: nat :: Sized(c) && addr <= ADDRESS_END ==>
      Sized(body(c, addr)) && body(c, addr).inputs == Prepare(c.inputs, rand, addr)
  }

  lemma IterationPrepares(server: Server, rand: Rand)
    ensures Prepares(IterationBody(server, rand), rand)
  {}

  lemma {:induction false} PassFollows(c: Client, body: Body, rand: Rand, end: nat)
    requires Sized(c) && Prepares(body, rand) && end <= ADDRESS_END + 1
    ensures Sized(Pass(c, body, end)) && Pass(c, body, end).inputs == PassInputs(c.inputs, rand, end)
  {
    if end > 0 {
      PassFollows(c, body, rand, end - 1);
      var d := Pass(c, body, end - 1);
      assert body(d, end - 1).inputs == Prepare(d.inputs, rand, end - 1);
    }
  }

  lemma {:induction false} PassesFollow(body: Body, rand: Rand, p: nat, log: seq<string>)
    requires Prepares(body, rand)
    ensures var d := Passes(Start(log), body, p); Sized(d) && d.inputs == StartInputs(rand, p)
  {
    if p > 0 {
      PassesFollow(body, rand, p - 1, log);
      PassFollows(Passes(Start(log), body, p - 1), body, rand, ADDRESS_END + 1);
    }
  }

  /** Whatever the server answers, iteration addr of pass p sends InputsSent(rand, p, addr). */
  lemma InputsOfRun(server: Server, rand: Rand, p: nat, addr: nat, log: seq<string>)
    requires addr <= ADDRESS_END
    ensures var body := IterationBody(server, rand);
            var d := Pass(Passes(Start(log), body, p), body, addr);
            Sized(d) && d.inputs == InputsBefore(rand, p, addr) && body(d, addr).inputs == InputsSent(rand, p, addr)
  {
    var body := IterationBody(server, rand);
    IterationPrepares(server, rand);
    PassesFollow(body, rand, p, log);
    PassFollows(Passes(Start(log), body, p), body, rand, addr);
  }

  // ---------------------------------------------------------------------------------------------------------
  // Where the numbers come from

  /** How many numbers are drawn before iteration addr of pass p: 99 at the start, then 99, 98, .. 1 in every pass. */
  function DrawnBefore(p: nat, addr: nat): nat
    requires addr <= ADDRESS_END + 1
  {
    if p == 0 && addr == 0 then 0
    else 99 + 4950 * p + if addr == 0 then 0 else (addr - 1) * (200 - addr) / 2
  }

  /** nb before iteration addr of pass p, with which the fill loop works. */
  function OldNb(p: nat, addr: nat): nat
    requires addr <= ADDRESS_END + 1
  {
    if addr == 0 then (if p == 0 then 99 else 0) else 100 - addr
  }

  lemma DrawnStep(p: nat, addr: nat)
    requires addr <= ADDRESS_END
    ensures DrawnBefore(p, addr) + OldNb(p, addr) == DrawnBefore(p, addr + 1)
  {
    if addr > 0 {
      assert addr * (199 - addr) == (addr - 1) * (200 - addr) + 2 * (100 - addr);
    }
  }

  lemma {:induction false} CountsInPass(i: Inputs, rand: Rand, p: nat, addr: nat)
    requires SizedInputs(i) && addr <= ADDRESS_END + 1
    requires i.nb == OldNb(p, 0) && i.drawn == DrawnBefore(p, 0)
    ensures var j := PassInputs(i, rand, addr); j.nb == OldNb(p, addr) && j.drawn == DrawnBefore(p, addr)
  {
    if addr > 0 {
      CountsInPass(i, rand, p, addr - 1);
      DrawnStep(p, addr - 1);
    }
  }

  lemma {:induction false} Counts(rand: Rand, p: nat, addr: nat)
    requires addr <= ADDRESS_END + 1
    ensures var j := InputsBefore(rand, p, addr); j.nb == OldNb(p, addr) && j.drawn == DrawnBefore(p, addr)
    decreases p
  {
    if p > 0 { Counts(rand, p - 1, ADDRESS_END + 1); }
    CountsInPass(StartInputs(rand, p), rand, p, addr);
  }

  /** Cell k holds draw n in all three request buffers. */
  predicate Holds(i: Inputs, rand: Rand, k: nat, n: nat)
    requires SizedInputs(i) && k < CELLS
  {
    var v := Scale(rand(n));
    i.rq[k] == v && i.rw[k] == Complement(v) && i.rqBits[k] == Odd(v)
  }

  /** Told from the draw alone: the number is the whole part of 65535 times the draw over 2^31, next to it stand what it
      leaves to 65535 and whether it is odd. */
  lemma HeldNumber(i: Inputs, rand: Rand, k: nat, n: nat)
    requires SizedInputs(i) && k < CELLS && Holds(i, rand, k, n)
    ensures var v: int := i.rq[k];
            && v * 0x8000_0000 <= 65535 * rand(n) < (v + 1) * 0x8000_0000
            && i.rw[k] == 65535 - v
            && (i.rqBits[k] <==> exists h :: v == Twice(h) + 1)
  {
    OddExactly(i.rq[k]);
  }

  /** The fill loop reaches every cell that the iteration sends, except at address 0 of a later pass: what is sent was
      drawn in this very iteration, although the loop runs with the nb of the previous one. */
  lemma SentIsFresh(rand: Rand, p: nat, addr: nat, k: nat)
    requires addr <= ADDRESS_END && (p == 0 || addr > 0)
    requires k < ADDRESS_END - addr || k == 0
    ensures Holds(InputsSent(rand, p, addr), rand, k, InputsBefore(rand, p, addr).drawn + k)
    ensures InputsBefore(rand, p, addr).drawn + k < InputsSent(rand, p, addr).drawn
  {
    Counts(rand, p, addr);
  }

  /** Before iteration addr the cells from 100 - addr on have had their last fill of this pass. */
  lemma {:induction false} LastFill(rand: Rand, p: nat, addr: nat, k: nat)
    requires addr <= ADDRESS_END + 1 && k < CELLS && 100 - addr <= k
    ensures Holds(InputsBefore(rand, p, addr), rand, k, DrawnBefore(p, 99 - k) + k)
    decreases addr
  {
    Counts(rand, p, addr - 1);
    if k != 100 - addr {
      LastFill(rand, p, addr - 1, k);
    }
  }

  /** What cell k got last in the previous pass was drawn before this one. */
  lemma StaleIsEarlier(p: nat, k: nat)
    requires p > 0 && k < CELLS
    ensures DrawnBefore(p - 1, 99 - k) + k < DrawnBefore(p, 0)
  {
    DrawnStep(p - 1, 99 - k);
    DrawnMonotone(p - 1, 100 - k);
  }

  /** From the second pass on, address 0 draws nothing and resends cell k as iteration 99 - k of the previous pass
      left it. */
  lemma SentIsStale(rand: Rand, p: nat, k: nat)
    requires p > 0 && k < CELLS
    ensures InputsSent(rand, p, 0).drawn == InputsBefore(rand, p, 0).drawn
    ensures Holds(InputsSent(rand, p, 0), rand, k, DrawnBefore(p - 1, 99 - k) + k)
    ensures DrawnBefore(p - 1, 99 - k) + k < InputsBefore(rand, p, 0).drawn
  {
    Counts(rand, p, 0);
    LastFill(rand, p - 1, ADDRESS_END + 1, k);
    StaleIsEarlier(p, k);
    NothingFilled(InputsBefore(rand, p, 0), rand, k, DrawnBefore(p - 1, 99 - k) + k);
  }

  /** With nb 0 the fill loop changes nothing. */
  lemma NothingFilled(i: Inputs, rand: Rand, k: nat, n: nat)
    requires SizedInputs(i) && i.nb == 0 && k < CELLS && Holds(i, rand, k, n)
    ensures Holds(Prepare(i, rand, 0), rand, k, n) && Prepare(i, rand, 0).drawn == i.drawn
  {}

  lemma {:induction false} DrawnMonotone(p: nat, addr: nat)
    requires addr <= ADDRESS_END + 1
    ensures DrawnBefore(p, addr) <= DrawnBefore(p + 1, 0)
    decreases ADDRESS_END + 1 - addr
  {
    if addr <= ADDRESS_END {
      DrawnStep(p, addr);
      DrawnMonotone(p, addr + 1);
    }
  }

  /** The number that cell 0 holds in iteration addr of pass p. */
  function HeadDraw(p: nat, addr: nat): nat
    requires addr <= ADDRESS_END
  {
    if addr == 0 && p > 0 then DrawnBefore(p - 1, 99) else DrawnBefore(p, addr)
  }

  lemma Head(rand: Rand, p: nat, addr: nat)
    requires addr <= ADDRESS_END
    ensures Holds(InputsSent(rand, p, addr), rand, 0, HeadDraw(p, addr))
  {
    Counts(rand, p, addr);
    if addr == 0 && p > 0 { SentIsStale(rand, p, 0); } else { SentIsFresh(rand, p, addr, 0); }
  }
}
