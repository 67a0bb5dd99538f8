/** The round-trip sampler as it runs: each peer's circular slot array and estimate updated in place,
    each method proved against the function of RttModel that says what it does. */
module RttCore {
  import opened PeerTable
  import opened Serial
  import opened RttModel
  import ReorderModel

  datatype Cell = Cell(sn: u32, sent: nat, used: bool, ambiguous: bool)

  const EMPTY := Cell(0, 0, false, false)

  function CellOf(s: Slot): Cell { Cell(s.sn, s.sent, true, s.ambiguous) }

  class RttPeer {
    var addr: nat
    var lastUseMs: nat
    const slots: array<Cell>
    var head: nat
    var used: nat
    var lastAck: u32
    var ackInit: bool
    var total: Spread
    var window: Spread
    var est: Estimate

    ghost var ring: seq<Slot>  // the outstanding sequences, oldest first

    ghost predicate Valid()
      reads this, slots
    {
      && head < slots.Length && used == |ring| <= slots.Length
      && forall k :: 0 <= k < used ==> slots[Wrap(head + k, slots.Length)] == CellOf(ring[k])
    }

    ghost function Rec(): Record
      reads this
    {
      Record(ring, ackInit, lastAck, total, window, est)
    }

    ghost function State(): Entry<Record>
      reads this
    {
      Entry(addr, lastUseMs, Rec())
    }

    constructor (cap: nat)
      requires cap > 0
      ensures Valid() && fresh(slots) && slots.Length == cap && State() == Entry(0, 0, BLANK)
    {
      addr, lastUseMs, head, used, lastAck, ackInit := 0, 0, 0, 0, 0, false;
      total, window, est, ring := NO_SPREAD, NO_SPREAD, NoEstimate, [];
      slots := new Cell[cap](_ => EMPTY);
    }

    /** Zero the record and set its address. */
    method Claim(a: nat, now: nat)
      requires Valid()
      modifies this, slots
      ensures Valid() && State() == Entry(a, now, BLANK)
    {
      for i := 0 to slots.Length {
        slots[i] := EMPTY;
      }
      head, used, lastAck, ackInit := 0, 0, 0, false;
      total, window, est, ring := NO_SPREAD, NO_SPREAD, NoEstimate, [];
      addr, lastUseMs := a, now;
    }

    method FindSlot(sn: u32) returns (r: nat)
      requires Valid()
      ensures r == Find(ring, sn, 0)
    {
      r := 0;
      while r < used
        invariant r <= used
        invariant Find(ring, sn, 0) == Find(ring, sn, r)
      {
        var at := RingIndex(head + r, slots.Length);
        if slots[at].sn == sn {
          return;
        }
        r := r + 1;
      }
    }

    /** Mark the oldest n slots unused. */
    method ClearFront(n: nat)
      requires Valid() && n <= used
      modifies slots
      ensures forall k :: n <= k < used ==> slots[Wrap(head + k, slots.Length)] == CellOf(ring[k])
    {
      for i := 0 to n
        invariant forall k :: n <= k < used ==> slots[Wrap(head + k, slots.Length)] == CellOf(ring[k])
      {
        var at := RingIndex(head + i, slots.Length);
        slots[at] := slots[at].(used := false);
      }
    }

    /** Forget the oldest n slots. */
    method Retire(n: nat)
      requires Valid() && n <= used
      modifies this`head, this`used, this`ring, slots
      ensures Valid() && ring == old(ring)[n..]
    {
      ClearFront(n);
      ghost var was, h := ring, head;
      head := RingIndex(head + n, slots.Length);
      used := used - n;
      ring := ring[n..];
      forall k | 0 <= k < used ensures slots[Wrap(head + k, slots.Length)] == CellOf(ring[k]) {
        assert Wrap(head + k, slots.Length) == Wrap(h + (k + n), slots.Length);
        assert was[k + n] == ring[k];
      }
    }

    method Append(sn: u32, now: nat)
      requires Valid() && used < slots.Length
      modifies this`used, this`ring, slots
      ensures Valid() && ring == old(ring) + [Slot(sn, now, false)]
    {
      var at := RingIndex(head + used, slots.Length);
      slots[at] := Cell(sn, now, true, false);
      used := used + 1;
      ring := ring + [Slot(sn, now, false)];
    }

    method MarkAmbiguous(i: nat)
      requires Valid() && i < used
      modifies this`ring, slots
      ensures Valid() && ring == old(ring)[i := old(ring)[i].(ambiguous := true)]
    {
      var at := RingIndex(head + i, slots.Length);
      slots[at] := slots[at].(ambiguous := true);
      ring := ring[i := ring[i].(ambiguous := true)];
    }

    /** One of our own reliable sequences went out. */
    method OnSend(sn: u32, now: nat) returns (r: SendResult)
      requires Valid()
      modifies this, slots
      ensures Valid() && (Rec(), r) == RttModel.OnSend(old(Rec()), slots.Length, sn, now)
      ensures addr == old(addr) && lastUseMs == old(lastUseMs)
    {
      var i := FindSlot(sn);
      if i < used {
        var at := RingIndex(head + i, slots.Length);
        if slots[at].ambiguous {
          return ResentAgain;
        }
        MarkAmbiguous(i);
        return Resent;
      }
      r := Tracked;
      if used == slots.Length {
        if slots[head].used {
          r := TrackedEvicting;
        }
        assert slots[Wrap(head + 0, slots.Length)] == CellOf(ring[0]);
        Retire(1);
      }
      Append(sn, now);
    }

    method TakeSample(r: nat)
      modifies this`total, this`window, this`est
      ensures Rec() == RttModel.TakeSample(old(Rec()), r)
    {
      total := Grow(total, r);
      window := Grow(window, r);
      if est == NoEstimate {
        est := Estimate(r, r / 2);
      } else {
        var delta := if r > est.srtt then r - est.srtt else est.srtt - r;
        var v := (3 * est.rttvar + delta) / 4;
        est := Estimate((7 * est.srtt + r) / 8, v);
      }
    }

    /** Does the ack advance?  If so it is the last one. */
    method Advance(ack: u32) returns (advances: bool)
      requires Valid()
      modifies this`lastAck, this`ackInit
      ensures Valid() && advances == !(old(ackInit) && Cmp(ack, old(lastAck)) <= 0)
      ensures Rec() == if advances then old(Rec()).(lastAck := ack, acked := true) else old(Rec())
    {
      if ackInit && Cmp(ack, lastAck) <= 0 {
        return false;
      }
      lastAck, ackInit := ack, true;
      advances := true;
    }

    /** An ack arrived from this peer. */
    method OnAck(ack: u32, now: nat) returns (r: AckResult)
      requires Valid()
      modifies this, slots
      ensures Valid() && (Rec(), r) == RttModel.OnAck(old(Rec()), ack, now)
      ensures addr == old(addr) && lastUseMs == old(lastUseMs)
    {
      var advances := Advance(ack);
      if !advances {
        return NotAdvancing;
      }
      var found := FindSlot(ack);
      if found == used {
        return Unmatched;
      }
      r := TakeMatch(found, now);
    }

    /** The acked slot was found: retire it and everything older, and sample it if Karn allows. */
    method TakeMatch(found: nat, now: nat) returns (r: AckResult)
      requires Valid() && found < used
      modifies this, slots
      ensures Valid() && r == Measure(old(ring)[found], now)
      ensures var kept := old(Rec()).(ring := old(ring)[found + 1..]);
              Rec() == if r.Sample? then RttModel.TakeSample(kept, r.rtt) else kept
      ensures addr == old(addr) && lastUseMs == old(lastUseMs)
    {
      var at := RingIndex(head + found, slots.Length);
      var cell := slots[at];
      assert cell == CellOf(ring[found]);
      Retire(found + 1);
      if cell.ambiguous {
        return DiscardedAmbiguous;
      }
      if now < cell.sent || now - cell.sent > MAX_SAMPLE_MS {
        return DiscardedRange;
      }
      TakeSample(now - cell.sent);
      r := Sample(now - cell.sent);
    }
  }

  class RttCtx {
    const enabled: bool
    const cap: nat
    const tbl: seq<RttPeer>
    var st: Stats
    ghost var table: seq<Entry<Record>>  // the value of every record

    ghost predicate Separate() {
      && cap > 0 && |tbl| > 0
      && (forall i :: 0 <= i < |tbl| ==> tbl[i].slots.Length == cap)
      && (forall i, j :: 0 <= i < j < |tbl| ==> tbl[i] != tbl[j] && tbl[i].slots != tbl[j].slots)
    }

    ghost predicate Valid()
      reads this, tbl, set p | p in tbl :: p.slots
    {
      && Separate() && |table| == |tbl|
      && forall i :: 0 <= i < |tbl| ==> tbl[i].Valid() && tbl[i].State() == table[i]
    }

    ghost function Footprint(): set<object> {
      (set p: RttPeer | p in tbl :: p as object) + (set p: RttPeer | p in tbl :: p.slots as object)
    }

    lemma InFootprint(i: nat)
      requires i < |tbl|
      ensures tbl[i] as object in Footprint() && tbl[i].slots as object in Footprint()
    {
      assert tbl[i] in tbl;
    }

    ghost function State(): Ctx
      reads this
    {
      Ctx(cap, table, st)
    }

    constructor (enabled: bool, cap: nat, peers: nat)
      requires cap > 0 && peers > 0
      ensures Valid() && fresh(Footprint()) && this.enabled == enabled
      ensures State() == Ctx(cap, seq(peers, _ => Entry(0, 0, BLANK)), NO_STATS)
    {
      var t: seq<RttPeer> := [];
      for n := 0 to peers
        invariant |t| == n
        invariant forall i :: 0 <= i < n ==> fresh(t[i]) && fresh(t[i].slots) && t[i].slots.Length == cap
        invariant forall i :: 0 <= i < n ==> t[i].Valid() && t[i].State() == Entry(0, 0, BLANK)
        invariant forall i, j :: 0 <= i < j < n ==> t[i] != t[j] && t[i].slots != t[j].slots
      {
        var p := new RttPeer(cap);
        t := t + [p];
      }
      this.enabled := enabled;
      this.cap := cap;
      tbl := t;
      table := seq(peers, _ => Entry(0, 0, BLANK));
      st := NO_STATS;
    }

    method FindEntry(addr: nat) returns (r: nat)
      requires Valid()
      ensures r == FindAddr(table, addr, 0)
    {
      r := 0;
      while r < |tbl| && tbl[r].addr != addr
        invariant r <= |tbl|
        invariant FindAddr(table, addr, 0) == FindAddr(table, addr, r)
      {
        assert tbl[r].State() == table[r];
        r := r + 1;
      }
      assert r < |tbl| ==> tbl[r].State() == table[r];
    }

    method LeastRecent() returns (r: nat)
      requires Valid()
      ensures r == Oldest(table, 1, 0)
    {
      r := 0;
      for i := 1 to |tbl|
        invariant r < |tbl|
        invariant Oldest(table, 1, 0) == Oldest(table, i, r)
      {
        assert tbl[i].State() == table[i] && tbl[r].State() == table[r];
        if tbl[i].lastUseMs < tbl[r].lastUseMs {
          r := i;
        }
      }
    }

    method Touch(i: nat, now: nat)
      requires Valid() && i < |tbl|
      modifies tbl[i], this`table
      ensures Valid() && table == old(table)[i := old(table)[i].(lastUse := now)]
    {
      tbl[i].lastUseMs := now;
      table := table[i := table[i].(lastUse := now)];
    }

    method ClaimEntry(i: nat, addr: nat, now: nat)
      requires Valid() && i < |tbl|
      modifies tbl[i], tbl[i].slots, this`table
      ensures Valid() && table == old(table)[i := Entry(addr, now, BLANK)]
    {
      tbl[i].Claim(addr, now);
      table := table[i := Entry(addr, now, BLANK)];
    }

    /** Find a peer's record, or claim the first free one, or else the one touched longest ago. */
    method GetPeer(addr: nat, now: nat) returns (i: nat)
      requires Valid()
      modifies this`st, this`table, Footprint()
      ensures Valid() && i == PlaceOf(old(table), addr) && table == Lookup(old(table), BLANK, addr, now)
      ensures st == old(st).(peersEvicted := old(st).peersEvicted + (if Crowded(old(table), addr) then 1 else 0))
    {
      i := FindEntry(addr);
      if i < |tbl| {
        InFootprint(i);
        Touch(i, now);
      } else {
        i := ClaimFree(addr, now);
      }
    }

    method ClaimFree(addr: nat, now: nat) returns (i: nat)
      requires Valid()
      modifies this`st, this`table, Footprint()
      ensures Valid()
      ensures var free := FindAddr(old(table), 0, 0);
              if free < |old(table)| then i == free && st == old(st)
              else i == Oldest(old(table), 1, 0) && st == old(st).(peersEvicted := old(st).peersEvicted + 1)
      ensures i < |old(table)| && table == old(table)[i := Entry(addr, now, BLANK)]
    {
      i := FindEntry(0);
      if i == |tbl| {
        i := LeastRecent();
        st := st.(peersEvicted := st.peersEvicted + 1);
      }
      InFootprint(i);
      ClaimEntry(i, addr, now);
    }

    method SendFrom(i: nat, sn: u32, now: nat)
      requires Valid() && i < |tbl|
      modifies this`st, this`table, Footprint()
      ensures Valid()
      ensures var (p, r) := RttModel.OnSend(old(table)[i].rec, cap, sn, now);
              table == Store(old(table), i, p) && st == CountSend(old(st), r)
    {
      InFootprint(i);
      var r := tbl[i].OnSend(sn, now);
      table := table[i := tbl[i].State()];
      st := CountSend(st, r);
    }

    method AckFrom(i: nat, ack: u32, now: nat) returns (r: AckResult)
      requires Valid() && i < |tbl|
      modifies this`st, this`table, Footprint()
      ensures Valid()
      ensures var (p, q) := RttModel.OnAck(old(table)[i].rec, ack, now);
              r == q && table == Store(old(table), i, p) && st == CountAck(old(st), q)
    {
      InFootprint(i);
      r := tbl[i].OnAck(ack, now);
      table := table[i := tbl[i].State()];
      st := CountAck(st, r);
    }

    /** A datagram of ours went out to addr. */
    method OnSend(addr: nat, pay: seq<u8>, now: nat)
      requires Valid()
      modifies this`st, this`table, Footprint()
      ensures Valid()
      ensures State() == if !enabled || |pay| < ReorderModel.SEQ_MIN_PAY || !ReorderModel.IsReliable(pay)
                         then old(State())
                         else Send(old(State()), addr, ReorderModel.SeqOf(pay), now)
    {
      if !enabled || |pay| < ReorderModel.SEQ_MIN_PAY || addr == 0 || !ReorderModel.IsReliable(pay) {
        return;
      }
      var i := GetPeer(addr, now);
      SendFrom(i, ReorderModel.SeqOf(pay), now);
    }

    /** A datagram came in from addr; its sample in ms, 0 if it gives none. */
    method OnRecv(addr: nat, pay: seq<u8>, now: nat) returns (rtt: nat)
      requires Valid()
      modifies this`st, this`table, Footprint()
      ensures Valid()
      ensures if !enabled || |pay| < ReorderModel.SEQ_MIN_PAY then State() == old(State()) && rtt == 0
              else var (c, r) := Ack(old(State()), addr, ReorderModel.AckOf(pay), now);
                   State() == c && rtt == if r.Sample? then r.rtt else 0
    {
      if !enabled || |pay| < ReorderModel.SEQ_MIN_PAY || addr == 0 {
        return 0;
      }
      var i := GetPeer(addr, now);
      var r := AckFrom(i, ReorderModel.AckOf(pay), now);
      rtt := if r.Sample? then r.rtt else 0;
    }

    /** Zero the record of a peer, if it has one. */
    method PurgePeer(addr: nat)
      requires Valid()
      modifies this`table, Footprint()
      ensures Valid() && State() == Purge(old(State()), addr)
    {
      var i := FindEntry(addr);
      if i < |tbl| {
        InFootprint(i);
        ClaimEntry(i, 0, 0);
      }
    }
  }
}
