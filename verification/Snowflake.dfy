/** The id generator: a millisecond clock, a node number and a sequence number packed into 63 bits.

    The readings of the system clock are parameters, in the order they are taken; they may run
    backwards. A call reads the clock once and, when the numbers of its millisecond are used up,
    again until it sees a later one. Shifting into 64 bits wraps. */
module SnowflakeIds {
  const EPOCH := 1704067200000
  const MAX_NODE := 1023
  const SEQS := 4096
  const NODE_SHIFT := 4096
  const TIME_SHIFT := 4194304
  const TWO_41 := 0x200_0000_0000
  const TWO_63 := 0x8000_0000_0000_0000
  const TWO_64 := 0x1_0000_0000_0000_0000

  datatype Generator = Generator(node: int, lastTS: int, seqNo: int)

  predicate Valid(g: Generator) {
    0 <= g.node <= MAX_NODE && 0 <= g.seqNo < SEQS
  }

  /** A signed 64-bit integer. */
  function Wrap(x: int): (w: int)
    ensures -TWO_63 <= w < TWO_63
  {
    (x + TWO_63) % TWO_64 - TWO_63
  }

  function Pack(ts: int, node: int, seqNo: int): int {
    Wrap((ts - EPOCH) * TIME_SHIFT) + node * NODE_SHIFT + seqNo
  }

  /** The first reading later than `last`, if there is one. */
  function FirstAfter(clock: seq<int>, last: int): (r: seq<int>)
    ensures r == [] || r[0] > last
    ensures r == [] <==> forall k :: 0 <= k < |clock| ==> clock[k] <= last
  {
    if clock == [] then []
    else if clock[0] > last then clock
    else FirstAfter(clock[1..], last)
  }

  predicate MustWait(g: Generator, reading: int) {
    reading <= g.lastTS && (g.seqNo + 1) % SEQS == 0
  }

  /** The readings let the call return: there is a first one, and a later one when it has to wait. */
  predicate Returns(g: Generator, clock: seq<int>) {
    clock != [] && (MustWait(g, clock[0]) ==> FirstAfter(clock[1..], g.lastTS) != [])
  }

  function Next(g: Generator, clock: seq<int>): Generator
    requires Returns(g, clock)
  {
    var ts := if clock[0] < g.lastTS then g.lastTS else clock[0];
    if ts != g.lastTS then g.(lastTS := ts, seqNo := 0)
    else if (g.seqNo + 1) % SEQS != 0 then g.(seqNo := (g.seqNo + 1) % SEQS)
    else g.(lastTS := FirstAfter(clock[1..], g.lastTS)[0], seqNo := 0)
  }

  function Id(g: Generator): int {
    Pack(g.lastTS, g.node, g.seqNo)
  }

  class Snowflake {
    const nodeID: int
    var lastTS: int
    var seqNo: int

    function State(): Generator
      reads this
    {
      Generator(nodeID, lastTS, seqNo)
    }

    constructor (node: int)
      requires 0 <= node <= MAX_NODE
      ensures State() == Generator(node, 0, 0)
    {
      nodeID, lastTS, seqNo := node, 0, 0;
    }

    method NextID(clock: seq<int>) returns (id: int)
      requires Valid(State()) && Returns(State(), clock)
      modifies this
      ensures State() == Next(old(State()), clock) && Valid(State()) && id == Id(State())
    {
      var ts := clock[0];
      if ts < lastTS {
        ts := lastTS;
      }
      if ts == lastTS {
        seqNo := (seqNo + 1) % SEQS;
        if seqNo == 0 {
          ts := WaitNextMillisecond(clock[1..], lastTS);
        }
      } else {
        seqNo := 0;
      }
      lastTS := ts;
      id := Wrap((ts - EPOCH) * TIME_SHIFT) + nodeID * NODE_SHIFT + seqNo;
    }

    method WaitNextMillisecond(clock: seq<int>, last: int) returns (ts: int)
      requires FirstAfter(clock, last) != []
      ensures ts == FirstAfter(clock, last)[0]
    {
      var k := 0;
      ts := clock[0];
      while ts <= last
        invariant k < |clock| && ts == clock[k]
        invariant FirstAfter(clock[k..], last) == FirstAfter(clock, last)
        decreases |clock| - k
      {
        k := k + 1;
        assert clock[k - 1..][1..] == clock[k..];
        ts := clock[k];
      }
    }
  }

  // ---------- What the ids promise ----------

  predicate Earlier(g: Generator, h: Generator) {
    g.lastTS < h.lastTS || (g.lastTS == h.lastTS && g.seqNo < h.seqNo)
  }

  lemma NextIsLater(g: Generator, clock: seq<int>)
    requires Valid(g) && Returns(g, clock)
    ensures Valid(Next(g, clock)) && Next(g, clock).node == g.node && Earlier(g, Next(g, clock))
  {
  }

  /** Times for which the shift into 64 bits loses nothing. */
  predicate InRange(ts: int) {
    -TWO_41 <= ts - EPOCH < TWO_41
  }

  lemma PackExact(ts: int, node: int, seqNo: int)
    requires InRange(ts)
    ensures Pack(ts, node, seqNo) == (ts - EPOCH) * TIME_SHIFT + node * NODE_SHIFT + seqNo
  {
  }

  /** The order of two generators' ids with the same node is the order of their time and sequence. */
  lemma LaterIsGreater(g: Generator, h: Generator)
    requires Valid(g) && Valid(h) && g.node == h.node && Earlier(g, h)
    requires InRange(g.lastTS) && InRange(h.lastTS)
    ensures Id(g) < Id(h)
  {
    PackExact(g.lastTS, g.node, g.seqNo);
    PackExact(h.lastTS, h.node, h.seqNo);
  }

  function TimeOf(id: int): int {
    id / TIME_SHIFT + EPOCH
  }

  function NodeOf(id: int): int {
    id % TIME_SHIFT / NODE_SHIFT
  }

  function SeqOf(id: int): int {
    id % NODE_SHIFT
  }

  /** Every id gives its node and sequence number back whatever the time, and the time while it is in range. */
  lemma Decodes(g: Generator)
    requires Valid(g)
    ensures NodeOf(Id(g)) == g.node && SeqOf(Id(g)) == g.seqNo
    ensures InRange(g.lastTS) ==> TimeOf(Id(g)) == g.lastTS
  {
    var t := g.lastTS - EPOCH;
    WrapKeepsShift(t);
    var q :| Wrap(t * TIME_SHIFT) == q * TIME_SHIFT;
    var low := g.node * NODE_SHIFT + g.seqNo;
    assert 0 <= low < TIME_SHIFT;
    assert Id(g) == q * TIME_SHIFT + low;
    assert Id(g) % TIME_SHIFT == low;
    assert Id(g) / TIME_SHIFT == q;
    assert Id(g) == (q * 1024 + g.node) * NODE_SHIFT + g.seqNo;
  }

  lemma WrapKeepsShift(t: int)
    ensures exists q :: Wrap(t * TIME_SHIFT) == q * TIME_SHIFT
  {
    var n := (t * TIME_SHIFT + TWO_63) / TWO_64;
    assert Wrap(t * TIME_SHIFT) == t * TIME_SHIFT - n * TWO_64;
    assert TWO_64 == 0x400_0000_0000 * TIME_SHIFT;
    assert Wrap(t * TIME_SHIFT) == (t - n * 0x400_0000_0000) * TIME_SHIFT;
  }

  /** An id is a non-negative 63-bit number for every time from the epoch up to 2^41 ms after it, and
      for the very next millisecond it is negative. */
  lemma Fits(g: Generator)
    requires Valid(g) && 0 <= g.lastTS - EPOCH <= TWO_41
    ensures 0 <= Id(g) < TWO_63 <==> g.lastTS - EPOCH < TWO_41
  {
    if g.lastTS - EPOCH < TWO_41 {
      PackExact(g.lastTS, g.node, g.seqNo);
    } else {
      assert Wrap(TWO_41 * TIME_SHIFT) == -TWO_63;
    }
  }

  /** The ids of a run of calls. */
  function Ids(g: Generator, calls: seq<seq<int>>): seq<int>
    requires AllReturn(g, calls)
    decreases |calls|
  {
    if calls == [] then [] else [Id(Next(g, calls[0]))] + Ids(Next(g, calls[0]), calls[1..])
  }

  predicate AllReturn(g: Generator, calls: seq<seq<int>>)
    decreases |calls|
  {
    calls != [] ==> Returns(g, calls[0]) && AllReturn(Next(g, calls[0]), calls[1..])
  }

  function Final(g: Generator, calls: seq<seq<int>>): Generator
    requires AllReturn(g, calls)
    decreases |calls|
  {
    if calls == [] then g else Final(Next(g, calls[0]), calls[1..])
  }

  lemma {:induction false} TimeGrows(g: Generator, calls: seq<seq<int>>)
    requires Valid(g) && AllReturn(g, calls)
    ensures g.lastTS <= Final(g, calls).lastTS
    decreases |calls|
  {
    if calls != [] {
      NextIsLater(g, calls[0]);
      TimeGrows(Next(g, calls[0]), calls[1..]);
    }
  }

  /** Whatever the clock reads, rollbacks and exhausted milliseconds included, successive ids grow
      strictly until the time leaves its range. */
  lemma {:induction false} IdsIncrease(g: Generator, calls: seq<seq<int>>)
    requires Valid(g) && AllReturn(g, calls)
    requires InRange(g.lastTS) && InRange(Final(g, calls).lastTS)
    ensures forall i :: 0 <= i < |Ids(g, calls)| ==> Id(g) < Ids(g, calls)[i]
    ensures forall i, j :: 0 <= i < j < |Ids(g, calls)| ==> Ids(g, calls)[i] < Ids(g, calls)[j]
    decreases |calls|
  {
    if calls != [] {
      var h := Next(g, calls[0]);
      NextIsLater(g, calls[0]);
      TimeGrows(h, calls[1..]);
      LaterIsGreater(g, h);
      IdsIncrease(h, calls[1..]);
    }
  }

  /** The readings a call makes use of say what the id's time is: a first reading later than the last time starts
      that millisecond; otherwise the last time goes on with the next number, and after the last number comes the
      first later millisecond read. */
  lemma TimeIsAReading(g: Generator, clock: seq<int>)
    requires Valid(g) && Returns(g, clock)
    ensures var h := Next(g, clock);
      && (clock[0] > g.lastTS ==> h.lastTS == clock[0] && h.seqNo == 0)
      && (clock[0] <= g.lastTS && g.seqNo < 4095 ==> h.lastTS == g.lastTS && h.seqNo == g.seqNo + 1)
      && (clock[0] <= g.lastTS && g.seqNo == 4095 ==>
            && h.seqNo == 0 && g.lastTS < h.lastTS
            && exists k :: 0 < k < |clock| && clock[k] == h.lastTS && forall j :: 0 <= j < k ==> clock[j] <= g.lastTS)
  {
    if clock[0] <= g.lastTS && g.seqNo == 4095 {
      var k := FirstAfterAt(clock[1..], g.lastTS);
      assert forall j :: 0 < j < k + 1 ==> clock[j] == clock[1..][j - 1];
      assert clock[k + 1] == Next(g, clock).lastTS;
    }
  }

  lemma {:induction false} FirstAfterAt(clock: seq<int>, last: int) returns (k: nat)
    requires FirstAfter(clock, last) != []
    ensures k < |clock| && clock[k] == FirstAfter(clock, last)[0] && forall j :: 0 <= j < k ==> clock[j] <= last
    decreases |clock|
  {
    if clock[0] > last {
      k := 0;
    } else {
      var m := FirstAfterAt(clock[1..], last);
      k := m + 1;
      assert forall j :: 0 < j < k ==> clock[j] == clock[1..][j - 1];
    }
  }

  predicate Read(calls: seq<seq<int>>, ts: int) {
    exists i :: 0 <= i < |calls| && ts in calls[i]
  }

  /** Over any run the time of the last id is one that was read, unless the clock never got beyond the time the
      generator started with, and it is not behind the first reading of any call. */
  lemma {:induction false} TimesAreRead(g: Generator, calls: seq<seq<int>>)
    requires Valid(g) && AllReturn(g, calls)
    ensures Final(g, calls).lastTS == g.lastTS || Read(calls, Final(g, calls).lastTS)
    ensures forall i :: 0 <= i < |calls| ==> calls[i] != [] && calls[i][0] <= Final(g, calls).lastTS
    ensures g.lastTS <= Final(g, calls).lastTS
    decreases |calls|
  {
    if calls != [] {
      var h := Next(g, calls[0]);
      NextIsLater(g, calls[0]);
      TimeIsAReading(g, calls[0]);
      TimesAreRead(h, calls[1..]);
      assert forall i :: 0 < i < |calls| ==> calls[i] == calls[1..][i - 1];
      if Read(calls[1..], Final(g, calls).lastTS) {
        var i :| 0 <= i < |calls[1..]| && Final(g, calls).lastTS in calls[1..][i];
        assert Final(g, calls).lastTS in calls[i + 1];
      } else if h.lastTS != g.lastTS {
        assert h.lastTS in calls[0];
      }
    }
  }

  /** A fresh generator counts from time zero, long before the epoch: its first id is already later. */
  lemma FirstCall(node: int, clock: seq<int>)
    requires 0 <= node <= MAX_NODE && clock != [] && clock[0] > 0
    ensures Returns(Generator(node, 0, 0), clock)
    ensures Next(Generator(node, 0, 0), clock) == Generator(node, clock[0], 0)
  {
  }

  /** A new generator: once the clock is positive, the first id is that of the first reading with
      sequence number zero, and the ids grow from there whatever the clock reads later. */
  lemma NewGeneratorIncreases(node: int, calls: seq<seq<int>>)
    requires 0 <= node <= MAX_NODE && calls != [] && calls[0] != [] && calls[0][0] > 0
    requires AllReturn(Generator(node, 0, 0), calls) && InRange(Final(Generator(node, 0, 0), calls).lastTS)
    ensures var ids := Ids(Generator(node, 0, 0), calls);
      && |ids| > 0 && ids[0] == Pack(calls[0][0], node, 0)
      && forall i, j :: 0 <= i < j < |ids| ==> ids[i] < ids[j]
  {
    FirstCall(node, calls[0]);
    IdsIncrease(Generator(node, 0, 0), calls);
  }

  lemma {:induction false} IdsOfNode(g: Generator, calls: seq<seq<int>>)
    requires Valid(g) && AllReturn(g, calls)
    ensures forall i :: 0 <= i < |Ids(g, calls)| ==> NodeOf(Ids(g, calls)[i]) == g.node
    decreases |calls|
  {
    if calls != [] {
      NextIsLater(g, calls[0]);
      Decodes(Next(g, calls[0]));
      IdsOfNode(Next(g, calls[0]), calls[1..]);
    }
  }

  /** Two nodes never produce the same id, whatever their clocks read. */
  lemma NodesNeverCollide(g: Generator, calls: seq<seq<int>>, h: Generator, calls': seq<seq<int>>, i: nat, j: nat)
    requires Valid(g) && Valid(h) && g.node != h.node
    requires AllReturn(g, calls) && AllReturn(h, calls')
    requires i < |Ids(g, calls)| && j < |Ids(h, calls')|
    ensures Ids(g, calls)[i] != Ids(h, calls')[j]
  {
    IdsOfNode(g, calls);
    IdsOfNode(h, calls');
  }
}
