/** Commands and waiting transactions of one queue, seen as a single line. */
module Lines {
  import opened Common
  import opened Configuration
  import opened Channel
  import opened ChannelInv

  /** The commands that waiting transactions will become. */
  function Waiting(p: Config, ts: seq<Transaction>): (cs: seq<Command>)
    ensures |cs| == |ts| && forall i | 0 <= i < |ts| :: cs[i] == TransToCommand(p, ts[i].addr, ts[i].isWrite)
  {
    seq(|ts|, i requires 0 <= i < |ts| => TransToCommand(p, ts[i].addr, ts[i].isWrite))
  }

  /** The line `address a` stands in: its command queue, then the transactions waiting behind it. */
  function Line(p: Config, queues: seq<seq<Command>>, ts: seq<Transaction>, q: int): seq<Command>
    requires 0 <= q < |queues|
  {
    queues[q] + Waiting(p, ts)
  }

  /** Every pending address has exactly one entry in its line, and no other address has any. */
  ghost predicate Indexed(p: Config, queues: seq<seq<Command>>, ts: seq<Transaction>, pending: set<int>, isWrite: bool) {
    forall a: nat | 0 <= Home(p, a) < |queues| ::
      multiset(Line(p, queues, ts, Home(p, a)))[TransToCommand(p, a, isWrite)] == if a in pending then 1 else 0
  }

  lemma WithoutMultiset<T>(q: seq<T>, i: nat)
    requires i < |q|
    ensures multiset(q) == multiset(Without(q, i)) + multiset{q[i]}
  {
    assert q == q[..i] + [q[i]] + q[i + 1..];
  }

  lemma CommandsDistinct(p: Config, a: nat, v: bool, b: nat, w: bool)
    ensures TransToCommand(p, a, v) == TransToCommand(p, b, w) <==> a == b && v == w
  {
  }

  /** The line of a queue that lost entry `i`. */
  lemma LineAfterErase(p: Config, queues: seq<seq<Command>>, ts: seq<Transaction>, q: nat, i: nat, h: nat)
    requires q < |queues| && i < |queues[q]| && h < |queues|
    ensures var now := queues[q := Without(queues[q], i)];
            multiset(Line(p, queues, ts, h)) ==
            multiset(Line(p, now, ts, h)) + (if h == q then multiset{queues[q][i]} else multiset{})
  {
    WithoutMultiset(queues[q], i);
  }

  /** Taking a command out of its queue while its address stops being pending. */
  lemma IndexedAfterErase(p: Config, queues: seq<seq<Command>>, ts: seq<Transaction>, pending: set<int>, isWrite: bool, q: nat, i: nat)
    requires QueuesOk(p, queues) && Indexed(p, queues, ts, pending, isWrite)
    requires q < |queues| && i < |queues[q]|
    ensures var c, now := queues[q][i], queues[q := Without(queues[q], i)];
            if c.kind.IsWrite() == isWrite then c.hexAddr in pending && Indexed(p, now, ts, pending - {c.hexAddr}, isWrite)
            else Indexed(p, now, ts, pending, isWrite)
  {
    var c, now := queues[q][i], queues[q := Without(queues[q], i)];
    assert QueueOk(p, queues[q], q) && c in queues[q];
    var left := if c.kind.IsWrite() == isWrite then pending - {c.hexAddr} else pending;
    forall a: nat | 0 <= Home(p, a) < |now|
      ensures multiset(Line(p, now, ts, Home(p, a)))[TransToCommand(p, a, isWrite)] == if a in left then 1 else 0
    {
      LineAfterErase(p, queues, ts, q, i, Home(p, a));
      CommandsDistinct(p, a, isWrite, c.hexAddr, c.kind.IsWrite());
    }
    LineAfterErase(p, queues, ts, q, i, q);
  }

  /** A new transaction at the end of the line of an address that was not pending. */
  lemma IndexedAfterArrival(p: Config, queues: seq<seq<Command>>, ts: seq<Transaction>, t: Transaction, pending: set<int>, isWrite: bool)
    requires Indexed(p, queues, ts, pending, isWrite) && (t.isWrite == isWrite ==> t.addr !in pending)
    ensures Indexed(p, queues, ts + [t], if t.isWrite == isWrite then pending + {t.addr} else pending, isWrite)
  {
    var now := if t.isWrite == isWrite then pending + {t.addr} else pending;
    assert Waiting(p, ts + [t]) == Waiting(p, ts) + [TransToCommand(p, t.addr, t.isWrite)];
    forall a: nat | 0 <= Home(p, a) < |queues|
      ensures multiset(Line(p, queues, ts + [t], Home(p, a)))[TransToCommand(p, a, isWrite)] == if a in now then 1 else 0
    {
      CommandsDistinct(p, a, isWrite, t.addr, t.isWrite);
      assert Line(p, queues, ts + [t], Home(p, a)) == Line(p, queues, ts, Home(p, a)) + [TransToCommand(p, t.addr, t.isWrite)];
    }
  }

  /** An address that is not pending has no entry anywhere in its line. */
  lemma NotInLine(p: Config, queues: seq<seq<Command>>, ts: seq<Transaction>, pending: set<int>, isWrite: bool, a: nat)
    requires Indexed(p, queues, ts, pending, isWrite) && a !in pending && 0 <= Home(p, a) < |queues|
    ensures TransToCommand(p, a, isWrite) !in Line(p, queues, ts, Home(p, a))
    ensures forall i | 0 <= i < |ts| && ts[i].addr == a :: ts[i].isWrite != isWrite
  {
    var line := Line(p, queues, ts, Home(p, a));
    assert TransToCommand(p, a, isWrite) !in multiset(line);
    forall i | 0 <= i < |ts| && ts[i].addr == a
      ensures ts[i].isWrite != isWrite
    {
      assert line[|queues[Home(p, a)]| + i] in line;
    }
  }

  /** Queue `h` received the command that the transaction at `i` turns into. */
  function Moved(p: Config, queues: seq<seq<Command>>, t: Transaction): seq<seq<Command>>
    requires 0 <= Home(p, t.addr) < |queues|
  {
    queues[Home(p, t.addr) := queues[Home(p, t.addr)] + [TransToCommand(p, t.addr, t.isWrite)]]
  }

  lemma LineAfterMove(p: Config, queues: seq<seq<Command>>, ts: seq<Transaction>, i: nat, h: nat)
    requires i < |ts| && 0 <= Home(p, ts[i].addr) < |queues| && h < |queues|
    ensures var line := Line(p, queues, ts, h);
            var now, cmd := Line(p, Moved(p, queues, ts[i]), Without(ts, i), h), TransToCommand(p, ts[i].addr, ts[i].isWrite);
            if h == Home(p, ts[i].addr) then
              now == queues[h] + [cmd] + Without(Waiting(p, ts), i) && multiset(now) == multiset(line)
            else now == queues[h] + Without(Waiting(p, ts), i) && multiset(now) + multiset{cmd} == multiset(line)
  {
    assert Waiting(p, Without(ts, i)) == Without(Waiting(p, ts), i);
    WithoutMultiset(Waiting(p, ts), i);
  }

  /** Moving a transaction to its command queue keeps its line's population. */
  lemma IndexedAfterMove(p: Config, queues: seq<seq<Command>>, ts: seq<Transaction>, i: nat, pending: set<int>, isWrite: bool)
    requires Indexed(p, queues, ts, pending, isWrite) && i < |ts| && 0 <= Home(p, ts[i].addr) < |queues|
    ensures Indexed(p, Moved(p, queues, ts[i]), Without(ts, i), pending, isWrite)
  {
    forall a: nat | 0 <= Home(p, a) < |queues|
      ensures multiset(Line(p, Moved(p, queues, ts[i]), Without(ts, i), Home(p, a)))[TransToCommand(p, a, isWrite)] ==
              if a in pending then 1 else 0
    {
      LineAfterMove(p, queues, ts, i, Home(p, a));
      CommandsDistinct(p, a, isWrite, ts[i].addr, ts[i].isWrite);
    }
  }

  /** The move of a write leaves the lines of reads alone, and the other way round. */
  lemma IndexedAfterForeignMove(p: Config, queues: seq<seq<Command>>, ts: seq<Transaction>, t: Transaction, pending: set<int>, isWrite: bool)
    requires Indexed(p, queues, ts, pending, isWrite) && 0 <= Home(p, t.addr) < |queues| && t.isWrite != isWrite
    ensures Indexed(p, Moved(p, queues, t), ts, pending, isWrite)
  {
    forall a: nat | 0 <= Home(p, a) < |queues|
      ensures multiset(Line(p, Moved(p, queues, t), ts, Home(p, a)))[TransToCommand(p, a, isWrite)] ==
              if a in pending then 1 else 0
    {
      CommandsDistinct(p, a, isWrite, t.addr, t.isWrite);
      assert multiset(Line(p, queues, ts, Home(p, a)))[TransToCommand(p, a, isWrite)] == if a in pending then 1 else 0;
    }
  }

  // ----- order along a line

  /** `x` stands before `y` against the order of arrival: a write before a read of its address, or reads of one bank swapped. */
  predicate OutOfOrder(pendingRd: map<int, seq<Transaction>>, x: Command, y: Command) {
    (x.kind.IsWrite() && y.kind.IsRead() && x.hexAddr == y.hexAddr) ||
    (x.kind.IsRead() && y.kind.IsRead() && x.Place() == y.Place() &&
     FirstId(pendingRd, x.hexAddr).Some? && FirstId(pendingRd, y.hexAddr).Some? &&
     FirstId(pendingRd, x.hexAddr).value >= FirstId(pendingRd, y.hexAddr).value)
  }

  /** The earliest of the reads that a queued read answers. */
  function FirstId(pendingRd: map<int, seq<Transaction>>, a: int): Option<nat> {
    if a in pendingRd && pendingRd[a] != [] then Some(pendingRd[a][0].id) else None
  }

  ghost predicate InOrder(pendingRd: map<int, seq<Transaction>>, line: seq<Command>) {
    forall i, j | 0 <= i < j < |line| :: !OutOfOrder(pendingRd, line[i], line[j])
  }

  ghost predicate Ordered(p: Config, queues: seq<seq<Command>>, ts: seq<Transaction>, pendingRd: map<int, seq<Transaction>>) {
    forall q | 0 <= q < |queues| :: InOrder(pendingRd, Line(p, queues, ts, q))
  }

  lemma InOrderWithout(rd: map<int, seq<Transaction>>, line: seq<Command>, i: nat)
    requires InOrder(rd, line) && i < |line|
    ensures InOrder(rd, Without(line, i))
  {
    var now := Without(line, i);
    assert forall x | 0 <= x < |now| :: now[x] == line[if x < i then x else x + 1];
  }

  lemma OrderedAfterErase(p: Config, queues: seq<seq<Command>>, ts: seq<Transaction>, rd: map<int, seq<Transaction>>, q: nat, i: nat, a: int)
    requires Ordered(p, queues, ts, rd) && q < |queues| && i < |queues[q]|
    ensures Ordered(p, queues[q := Without(queues[q], i)], ts, rd)
    ensures Ordered(p, queues[q := Without(queues[q], i)], ts, rd - {a})
  {
    var now := queues[q := Without(queues[q], i)];
    forall h | 0 <= h < |now|
      ensures InOrder(rd, Line(p, now, ts, h))
    {
      if h == q {
        InOrderWithout(rd, Line(p, queues, ts, q), i);
        assert Without(Line(p, queues, ts, q), i) == Line(p, now, ts, q);
      }
      assert InOrder(rd, Line(p, queues, ts, h));
    }
    assert forall x, y :: OutOfOrder(rd - {a}, x, y) ==> OutOfOrder(rd, x, y);
  }

  lemma OrderedAfterArrival(p: Config, queues: seq<seq<Command>>, ts: seq<Transaction>, rd: map<int, seq<Transaction>>, t: Transaction)
    requires Ordered(p, queues, ts, rd)
    requires !t.isWrite ==> FirstId(rd, t.addr) == Some(t.id)
    requires !t.isWrite ==> forall a | FirstId(rd, a).Some? && a != t.addr :: FirstId(rd, a).value < t.id
    requires !t.isWrite ==> forall q, i | 0 <= q < |queues| && 0 <= i < |Line(p, queues, ts, q)| :: Line(p, queues, ts, q)[i].hexAddr != t.addr
    ensures Ordered(p, queues, ts + [t], rd)
  {
    assert Waiting(p, ts + [t]) == Waiting(p, ts) + [TransToCommand(p, t.addr, t.isWrite)];
    forall q | 0 <= q < |queues|
      ensures InOrder(rd, Line(p, queues, ts + [t], q))
    {
      assert InOrder(rd, Line(p, queues, ts, q));
      assert Line(p, queues, ts + [t], q) == Line(p, queues, ts, q) + [TransToCommand(p, t.addr, t.isWrite)];
    }
  }

  /** An entry that jumps ahead of entries it is not ordered against. */
  lemma InOrderAfterJump(rd: map<int, seq<Transaction>>, front: seq<Command>, rest: seq<Command>, i: nat)
    requires InOrder(rd, front + rest) && i < |rest|
    requires forall k | 0 <= k < i :: !OutOfOrder(rd, rest[i], rest[k])
    ensures InOrder(rd, front + [rest[i]] + Without(rest, i))
  {
    var line, now, f := front + rest, front + [rest[i]] + Without(rest, i), |front|;
    assert forall x | 0 <= x < |now| ::
      now[x] == line[if x < f then x else if x == f then f + i else if x <= f + i then x - 1 else x];
  }

  lemma OrderedAfterMove(p: Config, queues: seq<seq<Command>>, ts: seq<Transaction>, rd: map<int, seq<Transaction>>, i: nat)
    requires Ordered(p, queues, ts, rd) && i < |ts| && 0 <= Home(p, ts[i].addr) < |queues|
    requires forall k | 0 <= k < i :: Waiting(p, ts)[k].Place() != Waiting(p, ts)[i].Place()
    ensures Ordered(p, Moved(p, queues, ts[i]), Without(ts, i), rd)
  {
    forall h | 0 <= h < |queues|
      ensures InOrder(rd, Line(p, Moved(p, queues, ts[i]), Without(ts, i), h))
    {
      LineAfterMove(p, queues, ts, i, h);
      assert InOrder(rd, Line(p, queues, ts, h));
      if h == Home(p, ts[i].addr) {
        InOrderAfterJump(rd, queues[h], Waiting(p, ts), i);
      } else {
        InOrderWithout(rd, Line(p, queues, ts, h), |queues[h]| + i);
        assert Without(Line(p, queues, ts, h), |queues[h]| + i) == queues[h] + Without(Waiting(p, ts), i);
      }
    }
  }

  lemma InOrderInsert(rd: map<int, seq<Transaction>>, front: seq<Command>, cmd: Command, rest: seq<Command>)
    requires InOrder(rd, front + rest) && cmd.kind.IsWrite()
    requires forall c | c in rest :: c.hexAddr != cmd.hexAddr
    ensures InOrder(rd, front + [cmd] + rest)
  {
    var line, now, f := front + rest, front + [cmd] + rest, |front|;
    assert forall x | 0 <= x < |now| && x != f :: now[x] == line[if x < f then x else x - 1];
    assert forall x | f < x < |now| :: now[x] == rest[x - f - 1];
  }

  /** A write entering its command queue ahead of waiting reads, none of which is for its address. */
  lemma OrderedAfterForeignMove(p: Config, queues: seq<seq<Command>>, ts: seq<Transaction>, rd: map<int, seq<Transaction>>, t: Transaction)
    requires Ordered(p, queues, ts, rd) && t.isWrite && 0 <= Home(p, t.addr) < |queues|
    requires forall i | 0 <= i < |ts| :: ts[i].addr != t.addr
    ensures Ordered(p, Moved(p, queues, t), ts, rd)
  {
    forall h | 0 <= h < |queues|
      ensures InOrder(rd, Line(p, Moved(p, queues, t), ts, h))
    {
      assert InOrder(rd, Line(p, queues, ts, h));
      if h == Home(p, t.addr) {
        InOrderInsert(rd, queues[h], TransToCommand(p, t.addr, t.isWrite), Waiting(p, ts));
      }
    }
  }
}
