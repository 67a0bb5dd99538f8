/** The pacer as it runs: the bucket, the meter and a circular queue updated in place, and the
    send hook and wake-up thread that use them. */
module PaceCore {
  import opened PaceModel
  import BurstMeter
  import Serial

  class PaceCtx {
    const cfg: Config
    var tokens: int
    var lastFillMs: nat
    var meter: BurstMeter.Meter
    const q: array<Entry>
    var head: nat
    var count: nat
    var stats: Stats

    ghost var queue: seq<Entry>  // what is queued, oldest first

    ghost predicate Valid()
      reads this, q
    {
      && ConfigOk(cfg) && q.Length == cfg.cap && head < q.Length && count == |queue| <= q.Length
      && forall k :: 0 <= k < count ==> q[Serial.Wrap(head + k, q.Length)] == queue[k]
    }

    ghost function State(): Pace
      reads this
    {
      Pace(tokens, lastFillMs, queue, stats)
    }

    constructor (rate: nat, maxDelay: nat, cap: nat, filler: Entry, now: nat)
      requires cap >= 1
      ensures Valid() && fresh(q) && cfg == Config(rate, BurstFor(rate), maxDelay, cap)
      ensures State() == Init(cfg, now) && meter == BurstMeter.Start(now)
    {
      cfg := Config(rate, BurstFor(rate), maxDelay, cap);
      tokens, lastFillMs := BurstFor(rate), now;
      meter := BurstMeter.Start(now);
      q := new Entry[cap](_ => filler);
      head, count, stats, queue := 0, 0, NO_STATS, [];
    }

    /** Bring the meter up to now: a second that is over makes its count the last window's. */
    method Tick(now: nat)
      requires now >= meter.winStart
      modifies this`meter
      ensures meter == BurstMeter.Tick(old(meter), now)
    {
      if now - meter.winStart < BurstMeter.SECOND {
        return;
      }
      var m := meter;
      if m.winPackets > m.peakPps {
        m := m.(peakPps := m.winPackets);
      }
      if m.winBytes > m.peakBps {
        m := m.(peakBps := m.winBytes);
      }
      if m.winPackets > BurstMeter.BURST_PPS {
        m := m.(burstSeconds := m.burstSeconds + 1);
      }
      meter := m.(winStart := now - (now - m.winStart) % BurstMeter.SECOND, winPackets := 0, winBytes := 0);
    }

    method Observe(len: nat, now: nat)
      requires now >= meter.winStart
      modifies this`meter
      ensures meter == BurstMeter.Observe(old(meter), len, now)
    {
      Tick(now);
      meter := meter.(winPackets := meter.winPackets + 1, winBytes := meter.winBytes + len,
                      packets := meter.packets + 1, bytes := meter.bytes + len);
    }

    method RefillBucket(now: nat)
      modifies this`tokens, this`lastFillMs
      ensures State() == Refill(cfg, old(State()), now)
    {
      if now > lastFillMs {
        FloorDivIsQuotient((now - lastFillMs) * cfg.rate, 1000);
        tokens := tokens + (now - lastFillMs) * cfg.rate / 1000;
        if tokens > cfg.burst {
          tokens := cfg.burst;
        }
        lastFillMs := now;
      }
    }

    /** Whether a datagram of len bytes goes now, waits in the queue until due, or goes after a flush. */
    method Admit(len: nat, now: nat) returns (d: Decision, due: nat)
      requires Valid() && now >= meter.winStart
      modifies this`meter, this`tokens, this`lastFillMs, this`stats
      ensures Valid() && meter == BurstMeter.Observe(old(meter), len, now)
      ensures Verdict(State(), d, due) == PaceModel.Admit(cfg, old(State()), len, now)
    {
      Observe(len, now);
      due := now;
      if cfg.rate == 0 {
        return SendNow, due;
      }
      if len < SEQ_MIN_PAY {
        stats := stats.(exemptSmall := stats.exemptSmall + 1);
        return SendNow, due;
      }
      RefillBucket(now);
      d, due := SpendTokens(len, now);
    }

    method SpendTokens(len: nat, now: nat) returns (d: Decision, due: nat)
      requires Valid() && cfg.rate > 0
      modifies this`tokens, this`stats
      ensures Valid()
      ensures Verdict(State(), d, due) == Spend(cfg, old(State()), len, now)
    {
      ghost var s := State();
      var busy := count > 0;
      assert busy == (s.q != []);
      if !busy && tokens >= len {
        tokens := tokens - len;
        return SendNow, now;
      }
      var deficit := len - tokens;
      var wait := 0;
      if deficit > 0 {
        FloorDivIsQuotient(deficit * 1000, cfg.rate);
        wait := deficit * 1000 / cfg.rate;
      }
      assert wait == WaitFor(cfg.rate, deficit);
      if wait > cfg.maxDelay || count >= q.Length {
        if wait > cfg.maxDelay {
          stats := stats.(overBudget := stats.overBudget + 1);
        } else {
          stats := stats.(queueFull := stats.queueFull + 1);
        }
        tokens := 0;
        return if busy then FlushThenSend else SendNow, now;
      }
      tokens := tokens - len;
      stats := stats.(paced := stats.paced + 1, maxDelay := Max(stats.maxDelay, wait));
      return Queued, now + wait;
    }

    /** Append to the circular queue; false if it is full or the datagram too large. */
    method Enqueue(d: Datagram, due: nat) returns (ok: bool)
      requires Valid()
      modifies this`count, this`stats, this`queue, q
      ensures Valid()
      ensures ok == Storable(cfg, old(State()), d)
      ensures State() == if ok then PaceModel.Enqueue(old(State()), d, due) else old(State())
    {
      if count >= q.Length || |d.data| > MAX_PKT_BYTES || |d.to| == 0 || |d.to| > ADDR_BYTES {
        return false;
      }
      var i := Serial.RingIndex(head + count, q.Length);
      q[i] := Entry(d, due);
      count := count + 1;
      queue := queue + [Entry(d, due)];
      stats := stats.(peakQueue := Max(stats.peakQueue, count));
      ok := true;
    }

    /** Take the oldest entry off the queue. */
    method PopAny() returns (e: Entry)
      requires Valid() && count > 0
      modifies this`head, this`count, this`queue
      ensures Valid() && e == old(queue)[0] && queue == old(queue)[1..]
    {
      e := q[head];
      assert q[Serial.Wrap(head + 0, q.Length)] == queue[0];
      ghost var was, h := queue, head;
      head := Serial.RingIndex(head + 1, q.Length);
      count := count - 1;
      queue := queue[1..];
      forall k | 0 <= k < count ensures q[Serial.Wrap(head + k, q.Length)] == queue[k] {
        assert Serial.Wrap(head + k, q.Length) == Serial.Wrap(h + (k + 1), q.Length);
        assert was[k + 1] == queue[k];
      }
    }

    /** Take the oldest entry off the queue if it is due. */
    method PopDue(now: nat) returns (ok: bool, e: Entry)
      requires Valid()
      modifies this`head, this`count, this`queue
      ensures Valid() && ok == (old(queue) != [] && old(queue)[0].due <= now)
      ensures if ok then e == old(queue)[0] && queue == old(queue)[1..] else queue == old(queue)
    {
      e := q[head];
      if count > 0 {
        assert q[Serial.Wrap(head + 0, q.Length)] == queue[0];
      }
      if count == 0 || e.due > now {
        return false, e;
      }
      e := PopAny();
      ok := true;
    }

    /** Remove one socket's entries, moving the others down over the gaps. */
    method PurgeSocket(sock: nat)
      requires Valid()
      modifies this`count, this`queue, q
      ensures Valid()
      ensures queue == Without(old(queue), sock, |old(queue)|)
    {
      ghost var was := queue;
      var kept := 0;
      for i := 0 to count
        invariant Valid() && kept <= i <= count == |was|
        invariant queue[..kept] == Without(was, sock, i)
        invariant queue[i..] == was[i..]
      {
        var e := EntryAt(i);
        assert queue[i] == queue[i..][0] == was[i..][0] == was[i];
        ghost var before := queue;
        if e.pkt.sock != sock {
          Retain(kept, i, e);
          kept := kept + 1;
        }
        assert before[i..][1..] == was[i..][1..];
      }
      count := kept;
      queue := queue[..kept];
      assert queue == Without(was, sock, |was|);
    }

    /** Move entry i down to a place at or before it. */
    method Retain(kept: nat, i: nat, e: Entry)
      requires Valid() && kept <= i < count && e == queue[i]
      modifies this`queue, q
      ensures Valid() && |queue| == |old(queue)|
      ensures queue[..kept + 1] == old(queue)[..kept] + [e]
      ensures queue[i + 1..] == old(queue)[i..][1..]
    {
      if kept != i {
        Overwrite(kept, e);
      }
    }

    method EntryAt(k: nat) returns (e: Entry)
      requires Valid() && k < count
      ensures e == queue[k]
    {
      var at := Serial.RingIndex(head + k, q.Length);
      e := q[at];
    }

    /** Overwrite one queued entry. */
    method Overwrite(k: nat, e: Entry)
      requires Valid() && k < count
      modifies q, this`queue
      ensures Valid() && queue == old(queue)[k := e]
    {
      var at := Serial.RingIndex(head + k, q.Length);
      q[at] := e;
      queue := queue[k := e];
    }
  }

  /** The first n entries without those of one socket, in order. */
  function Without(s: seq<Entry>, sock: nat, n: nat): seq<Entry>
    requires n <= |s|
    ensures |Without(s, sock, n)| <= n
  {
    if n == 0 then []
    else Without(s, sock, n - 1) + (if s[n - 1].pkt.sock == sock then [] else [s[n - 1]])
  }

  lemma PacketsNext(s: seq<Entry>, n: nat)
    requires n < |s|
    ensures Packets(s[..n + 1]) == Packets(s[..n]) + [s[n].pkt]
    ensures s[n..][1..] == s[n + 1..]
  {
  }

  /** The two users of the pacer, and the stream of datagrams handed to the real send. */
  class Sender {
    const c: PaceCtx
    var wire: seq<Datagram>

    ghost predicate Valid()
      reads this, c, c.q
    {
      c.Valid()
    }

    ghost function State(): World
      reads this, c
    {
      World(c.State(), wire)
    }

    constructor (c: PaceCtx)
      requires c.Valid()
      ensures Valid() && this.c == c && wire == []
    {
      this.c := c;
      wire := [];
    }

    /** Empty the queue onto the wire from its head, due or not. */
    method Flush()
      requires Valid()
      modifies this, c`head, c`count, c`queue
      ensures Valid() && c.queue == [] && wire == old(wire) + Packets(old(c.queue))
    {
      ghost var was, sent := c.queue, wire;
      ghost var n := 0;
      while c.count > 0
        invariant Valid() && 0 <= n <= |was| && c.queue == was[n..]
        invariant wire == sent + Packets(was[..n])
        decreases c.count
      {
        var e := c.PopAny();
        wire := wire + [e.pkt];
        PacketsNext(was, n);
        n := n + 1;
      }
      assert was[..n] == was;
    }

    /** Queue the datagram, or leave it to the caller, who may first need the queue emptied. */
    method Take(d: Datagram, now: nat) returns (owned: bool)
      requires Valid() && now >= c.meter.winStart
      modifies this, c, c.q
      ensures Valid()
      ensures if owned then State() == Send(c.cfg, old(State()), d, now)
              else State().(wire := wire + [d]) == Send(c.cfg, old(State()), d, now)
    {
      if |d.data| == 0 || |d.data| > MAX_PKT_BYTES || |d.to| == 0 || |d.to| > ADDR_BYTES {
        return false;
      }
      var v, due := c.Admit(|d.data|, now);
      if v == Queued {
        var ok := c.Enqueue(d, due);
        if ok {
          return true;
        }
        v := FlushThenSend;
      }
      if v == FlushThenSend {
        Flush();
      }
      owned := false;
    }

    /** The send hook: what the pacer does not own goes straight to the wire. */
    method SendDatagram(d: Datagram, now: nat)
      requires Valid() && now >= c.meter.winStart
      modifies this, c, c.q
      ensures Valid()
      ensures State() == Send(c.cfg, old(State()), d, now)
    {
      var owned := Take(d, now);
      if !owned {
        wire := wire + [d];
      }
    }

    /** The pacer thread waking up: close the window, then release what is due. */
    method WakeUp(now: nat)
      requires Valid() && now >= c.meter.winStart
      modifies this, c, c.q
      ensures Valid() && c.meter == BurstMeter.Tick(old(c.meter), now)
      ensures State() == PaceModel.Tick(old(State()), now)
    {
      c.Tick(now);
      ReleaseDue(now);
    }

    /** Send the oldest entry if it is due. */
    method ReleaseHead(now: nat) returns (sent: bool)
      requires Valid()
      modifies this, c`head, c`count, c`queue
      ensures Valid() && sent == (old(c.queue) != [] && old(c.queue)[0].due <= now)
      ensures if sent then c.queue == old(c.queue)[1..] && wire == old(wire) + [old(c.queue)[0].pkt]
              else c.queue == old(c.queue) && wire == old(wire)
    {
      var e;
      sent, e := c.PopDue(now);
      if sent {
        wire := wire + [e.pkt];
      }
    }

    method ReleaseDue(now: nat)
      requires Valid()
      modifies this, c`head, c`count, c`queue
      ensures Valid()
      ensures var n := DueFrom(old(c.queue), now, 0);
              c.queue == old(c.queue)[n..] && wire == old(wire) + Packets(old(c.queue)[..n])
    {
      ghost var was, before := c.queue, wire;
      ghost var n := 0;
      var more := true;
      while more
        invariant Valid() && 0 <= n <= |was| && c.queue == was[n..]
        invariant !more && n < |was| ==> was[n].due > now
        invariant wire == before + Packets(was[..n])
        invariant DueFrom(was, now, 0) == DueFrom(was, now, n)
        decreases |was| - n, more
      {
        more := ReleaseHead(now);
        if more {
          PacketsNext(was, n);
          n := n + 1;
        }
      }
    }
  }
}
