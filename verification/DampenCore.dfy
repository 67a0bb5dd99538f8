/** The duplicate suppressor as it runs: each peer's circular slot array updated in place, each method
    proved against the function of DampenModel that says what it does. */
module DampenCore {
  import opened Serial
  import opened DampenModel
  import opened PeerTable
  import ReorderModel

  class DampenPeer {
    var addr: nat
    var rttEwmaMs: u32
    var highSeq: u32
    var used: nat
    var head: nat
    var lastUseMs: nat
    const slots: array<Slot>

    ghost var ring: seq<Slot>  // the recorded sequences, oldest first

    ghost predicate Valid()
      reads this, slots
    {
      && head < slots.Length && used == |ring| <= slots.Length
      && forall k :: 0 <= k < used ==> slots[Wrap(head + k, slots.Length)] == ring[k]
    }

    ghost function Rec(): Record
      reads this
    {
      Record(rttEwmaMs, highSeq, ring)
    }

    ghost function State(): Entry<Record>
      reads this
    {
      Entry(addr, lastUseMs, Rec())
    }

    constructor (cap: nat)
      requires cap > 0
      ensures Valid() && fresh(slots) && slots.Length == cap && State() == Entry(0, 0, BLANK)
    {
      addr, rttEwmaMs, highSeq, used, head, lastUseMs, ring := 0, 0, 0, 0, 0, 0, [];
      slots := new Slot[cap](_ => Slot(0, 0, 0));
    }

    /** Zero the record and set its address. */
    method Claim(a: nat, now: nat)
      requires Valid()
      modifies this, slots
      ensures Valid() && State() == Entry(a, now, BLANK)
    {
      for i := 0 to slots.Length {
        slots[i] := Slot(0, 0, 0);
      }
      rttEwmaMs, highSeq, used, head, ring := 0, 0, 0, 0, [];
      addr, lastUseMs := a, now;
    }

    method FindSlot(sn: u32) returns (r: nat)
      requires Valid()
      ensures r == Find(ring, sn, 0)
    {
      r := 0;
      while r < used
        invariant r <= used
        invariant Find(ring, sn, 0) == Find(ring, sn, r)
      {
        var at := RingIndex(head + r, slots.Length);
        if slots[at].sn == sn {
          return;
        }
        r := r + 1;
      }
    }

    /** Append to the circular array, over its head when full. */
    method AddSlot(e: Slot)
      requires Valid()
      modifies this`head, this`used, this`ring, slots
      ensures Valid()
      ensures ring == (if |old(ring)| >= slots.Length then old(ring)[1..] else old(ring)) + [e]
    {
      if used < slots.Length {
        var at := RingIndex(head + used, slots.Length);
        slots[at] := e;
        used := used + 1;
        ring := ring + [e];
      } else {
        ghost var was, h := ring, head;
        slots[head] := e;
        head := RingIndex(head + 1, slots.Length);
        ring := ring[1..] + [e];
        forall k | 0 <= k < used ensures slots[Wrap(head + k, slots.Length)] == ring[k] {
          if k < used - 1 {
            assert Wrap(head + k, slots.Length) == Wrap(h + (k + 1), slots.Length);
            assert was[k + 1] == ring[k];
          }
        }
      }
    }

    method SetSlot(i: nat, e: Slot)
      requires Valid() && i < used
      modifies this`ring, slots
      ensures Valid() && ring == old(ring)[i := e]
    {
      var at := RingIndex(head + i, slots.Length);
      slots[at] := e;
      ring := ring[i := e];
    }

    method SlotAt(i: nat) returns (e: Slot)
      requires Valid() && i < used
      ensures e == ring[i]
    {
      var at := RingIndex(head + i, slots.Length);
      e := slots[at];
    }

    /** Clear the ring if sn lies behind its oldest sequence, and move the high-water mark. */
    method DetectEpoch(sn: u32) returns (reset: bool)
      requires Valid()
      modifies this`head, this`used, this`ring, this`highSeq
      ensures Valid() && reset == Resets(old(ring), sn)
      ensures ring == AfterReset(old(ring), sn) && highSeq == HighAfter(old(Rec()), sn)
    {
      reset := false;
      if used > 0 {
        var oldest := SlotAt(0);
        if Cmp(sn, oldest.sn) < 0 {
          used, head, ring, highSeq := 0, 0, [], sn;
          reset := true;
        }
      }
      if Cmp(sn, highSeq) > 0 {
        highSeq := sn;
      }
    }

    /** One reliable copy of sn is about to go out: does it? */
    method OnCopy(sn: u32, now: nat) returns (r: Copy, reset: bool, full: bool)
      requires Valid()
      modifies this, slots
      ensures Valid() && (Rec(), r) == DampenModel.OnCopy(old(Rec()), slots.Length, sn, now)
      ensures addr == old(addr) && lastUseMs == old(lastUseMs)
      ensures reset == Resets(old(ring), sn)
      ensures full == (r == First && |AfterReset(old(ring), sn)| >= slots.Length)
    {
      var found := FindSlot(sn);
      reset := DetectEpoch(sn);
      if reset {
        found := used;
      }
      r, full := Decide(found, sn, now);
    }

    method Decide(found: nat, sn: u32, now: nat) returns (r: Copy, full: bool)
      requires Valid() && found == Find(ring, sn, 0)
      modifies this`head, this`used, this`ring, slots
      ensures Valid() && r == Classify(old(ring), sn, now)
      ensures ring == Recorded(old(ring), slots.Length, rttEwmaMs, sn, now)
      ensures full == (r == First && |old(ring)| >= slots.Length)
    {
      full := false;
      if found == used {
        full := used >= slots.Length;
        AddSlot(Slot(sn, now, WindowFor(rttEwmaMs)));
        return First, full;
      }
      var e := SlotAt(found);
      if now >= e.sent && now - e.sent < e.window {
        return Suppressed, full;
      }
      var w := e.window * 2;
      if w > MAX_MS {
        w := MAX_MS;
      }
      SetSlot(found, Slot(e.sn, now, w));
      r := Resent;
    }

    method ObserveAck(sn: u32, now: nat)
      requires Valid()
      modifies this`rttEwmaMs
      ensures Valid() && Rec() == OnAck(old(Rec()), sn, now)
    {
      var i := FindSlot(sn);
      if i < used {
        var e := SlotAt(i);
        var sample := if now > e.sent then (now - e.sent) % MOD else 0;
        if rttEwmaMs == 0 {
          rttEwmaMs := sample;
        } else {
          var delta := sample - rttEwmaMs;
          rttEwmaMs := rttEwmaMs + delta / 8;
        }
      }
    }
  }

  class DampenCtx {
    const enabled: bool
    const cap: nat
    const tbl: seq<DampenPeer>
    var st: Stats
    ghost var table: seq<Entry<Record>>  // the value of every record

    ghost predicate Separate() {
      && cap > 0 && |tbl| > 0
      && (forall i :: 0 <= i < |tbl| ==> tbl[i].slots.Length == cap)
      && (forall i, j :: 0 <= i < j < |tbl| ==> tbl[i] != tbl[j] && tbl[i].slots != tbl[j].slots)
    }

    ghost predicate Valid()
      reads this, tbl, set p | p in tbl :: p.slots
    {
      && Separate() && |table| == |tbl|
      && forall i :: 0 <= i < |tbl| ==> tbl[i].Valid() && tbl[i].State() == table[i]
    }

    ghost function Footprint(): set<object> {
      (set p: DampenPeer | p in tbl :: p as object) + (set p: DampenPeer | p in tbl :: p.slots as object)
    }

    lemma InFootprint(i: nat)
      requires i < |tbl|
      ensures tbl[i] as object in Footprint() && tbl[i].slots as object in Footprint()
    {
      assert tbl[i] in tbl;
    }

    ghost function State(): Ctx
      reads this
    {
      Ctx(cap, table, st)
    }

    constructor (enabled: bool, cap: nat, peers: nat)
      requires cap > 0 && peers > 0
      ensures Valid() && fresh(Footprint()) && this.enabled == enabled
      ensures State() == Ctx(cap, seq(peers, _ => Entry(0, 0, BLANK)), NO_STATS)
    {
      var t: seq<DampenPeer> := [];
      for n := 0 to peers
        invariant |t| == n
        invariant forall i :: 0 <= i < n ==> fresh(t[i]) && fresh(t[i].slots) && t[i].slots.Length == cap
        invariant forall i :: 0 <= i < n ==> t[i].Valid() && t[i].State() == Entry(0, 0, BLANK)
        invariant forall i, j :: 0 <= i < j < n ==> t[i] != t[j] && t[i].slots != t[j].slots
      {
        var p := new DampenPeer(cap);
        t := t + [p];
      }
      this.enabled := enabled;
      this.cap := cap;
      tbl := t;
      table := seq(peers, _ => Entry(0, 0, BLANK));
      st := NO_STATS;
    }

    method FindEntry(addr: nat) returns (r: nat)
      requires Valid()
      ensures r == FindAddr(table, addr, 0)
    {
      r := 0;
      while r < |tbl| && tbl[r].addr != addr
        invariant r <= |tbl|
        invariant FindAddr(table, addr, 0) == FindAddr(table, addr, r)
      {
        assert tbl[r].State() == table[r];
        r := r + 1;
      }
      assert r < |tbl| ==> tbl[r].State() == table[r];
    }

    method LeastRecent() returns (r: nat)
      requires Valid()
      ensures r == Oldest(table, 1, 0)
    {
      r := 0;
      for i := 1 to |tbl|
        invariant r < |tbl|
        invariant Oldest(table, 1, 0) == Oldest(table, i, r)
      {
        assert tbl[i].State() == table[i] && tbl[r].State() == table[r];
        if tbl[i].lastUseMs < tbl[r].lastUseMs {
          r := i;
        }
      }
    }

    method Touch(i: nat, now: nat)
      requires Valid() && i < |tbl|
      modifies tbl[i], this`table
      ensures Valid() && table == old(table)[i := old(table)[i].(lastUse := now)]
    {
      tbl[i].lastUseMs := now;
      table := table[i := table[i].(lastUse := now)];
    }

    method ClaimEntry(i: nat, addr: nat, now: nat)
      requires Valid() && i < |tbl|
      modifies tbl[i], tbl[i].slots, this`table
      ensures Valid() && table == old(table)[i := Entry(addr, now, BLANK)]
    {
      tbl[i].Claim(addr, now);
      table := table[i := Entry(addr, now, BLANK)];
    }

    /** The record of a peer: its own, else the first free one wiped for it, else the stalest one's place. There
        is always one. */
    method GetPeer(addr: nat, now: nat) returns (i: nat)
      requires Valid()
      modifies this`st, this`table, Footprint()
      ensures Valid() && i == PlaceOf(old(table), addr) && table == Lookup(old(table), BLANK, addr, now)
      ensures st == old(st).(peersEvicted := old(st).peersEvicted + (if Crowded(old(table), addr) then 1 else 0))
    {
      i := FindEntry(addr);
      if i < |tbl| {
        InFootprint(i);
        Touch(i, now);
      } else {
        i := ClaimFree(addr, now);
      }
    }

    method ClaimFree(addr: nat, now: nat) returns (i: nat)
      requires Valid()
      modifies this`st, this`table, Footprint()
      ensures Valid()
      ensures var free := FindAddr(old(table), 0, 0);
              if free < |old(table)| then i == free && st == old(st)
              else i == Oldest(old(table), 1, 0) && st == old(st).(peersEvicted := old(st).peersEvicted + 1)
      ensures i < |old(table)| && table == old(table)[i := Entry(addr, now, BLANK)]
    {
      i := FindEntry(0);
      if i == |tbl| {
        i := LeastRecent();
        st := st.(peersEvicted := st.peersEvicted + 1);
      }
      InFootprint(i);
      ClaimEntry(i, addr, now);
    }

    method CopyEntry(i: nat, sn: u32, now: nat) returns (r: Copy, reset: bool, full: bool)
      requires Valid() && i < |tbl|
      modifies tbl[i], tbl[i].slots, this`table
      ensures Valid() && r == OnCopy(old(table)[i].rec, cap, sn, now).1
      ensures table == Store(old(table), i, OnCopy(old(table)[i].rec, cap, sn, now).0)
      ensures reset == Resets(old(table)[i].rec.ring, sn)
      ensures full == (r == First && |AfterReset(old(table)[i].rec.ring, sn)| >= cap)
    {
      r, reset, full := tbl[i].OnCopy(sn, now);
      table := Store(table, i, OnCopy(table[i].rec, cap, sn, now).0);
    }

    method CopyFrom(i: nat, sn: u32, len: nat, now: nat) returns (r: Copy)
      requires Valid() && i < |tbl|
      modifies this`st, this`table, Footprint()
      ensures Valid()
      ensures r == OnCopy(old(table)[i].rec, cap, sn, now).1
      ensures table == Store(old(table), i, OnCopy(old(table)[i].rec, cap, sn, now).0)
      ensures st == CountCopy(old(st), old(table)[i].rec.ring, cap, sn, len, r)
    {
      InFootprint(i);
      var reset, full;
      r, reset, full := CopyEntry(i, sn, now);
      CountOutcome(r, reset, full, len);
    }

    method CountOutcome(r: Copy, reset: bool, full: bool, len: nat)
      modifies this`st
      ensures st == old(st).(resets := old(st).resets + (if reset then 1 else 0),
                             tblFull := old(st).tblFull + (if full then 1 else 0),
                             suppressed := old(st).suppressed + (if r == Suppressed then 1 else 0),
                             bytesSaved := old(st).bytesSaved + (if r == Suppressed then len else 0))
    {
      if reset {
        st := st.(resets := st.resets + 1);
      }
      if full {
        st := st.(tblFull := st.tblFull + 1);
      }
      if r == Suppressed {
        st := st.(suppressed := st.suppressed + 1, bytesSaved := st.bytesSaved + len);
      }
    }

    /** May this datagram go out? All but a reliable one sent to the same peer a moment ago may. */
    method Admit(addr: nat, pay: seq<u8>, now: nat) returns (send: bool)
      requires Valid()
      modifies this`st, this`table, Footprint()
      ensures Valid()
      ensures var was := old(State()).(st := old(st).(seen := old(st).seen + 1));
              if !enabled then send && State() == was
              else if |pay| < ReorderModel.SEQ_MIN_PAY then
                send && State() == was.(st := was.st.(short := was.st.short + 1))
              else if !ReorderModel.IsReliable(pay) then
                send && State() == was.(st := was.st.(unreliable := was.st.unreliable + 1))
              else
                var (c, r) := DampenModel.Admit(was, addr, ReorderModel.SeqOf(pay), |pay|, now);
                State() == c && send == (r != Suppressed)
    {
      st := st.(seen := st.seen + 1);
      if !enabled {
        return true;
      }
      if |pay| < ReorderModel.SEQ_MIN_PAY {
        st := st.(short := st.short + 1);
        return true;
      }
      if !ReorderModel.IsReliable(pay) {
        st := st.(unreliable := st.unreliable + 1);
        return true;
      }
      send := AdmitReliable(addr, ReorderModel.SeqOf(pay), |pay|, now);
    }

    method AdmitReliable(addr: nat, sn: u32, len: nat, now: nat) returns (send: bool)
      requires Valid()
      modifies this`st, this`table, Footprint()
      ensures Valid() && State() == DampenModel.Admit(old(State()), addr, sn, len, now).0
      ensures send == (DampenModel.Admit(old(State()), addr, sn, len, now).1 != Suppressed)
    {
      var i := GetPeer(addr, now);
      var r := CopyFrom(i, sn, len, now);
      send := r != Suppressed;
    }

    /** Time an inbound acknowledgement of one of our sequences. */
    method ObserveAck(addr: nat, sn: u32, now: nat)
      requires Valid()
      modifies this`table, Footprint()
      ensures Valid()
      ensures State() == if enabled then DampenModel.ObserveAck(old(State()), addr, sn, now) else old(State())
    {
      if !enabled {
        return;
      }
      var i := FindEntry(addr);
      if i < |tbl| {
        InFootprint(i);
        ObserveEntry(i, sn, now);
      }
    }

    method ObserveEntry(i: nat, sn: u32, now: nat)
      requires Valid() && i < |tbl|
      modifies tbl[i], this`table
      ensures Valid() && table == Store(old(table), i, OnAck(old(table)[i].rec, sn, now))
    {
      tbl[i].ObserveAck(sn, now);
      table := Store(table, i, OnAck(table[i].rec, sn, now));
    }

    /** Take over a smoothed estimate measured elsewhere, for a peer already known. */
    method SetRtt(addr: nat, rtt: u32)
      requires Valid()
      modifies this`table, Footprint()
      ensures Valid()
      ensures State() == if enabled then DampenModel.SetRtt(old(State()), addr, rtt) else old(State())
    {
      if !enabled || rtt == 0 {
        return;
      }
      var i := FindEntry(addr);
      if i < |tbl| {
        InFootprint(i);
        SetEntryRtt(i, rtt);
      }
    }

    method SetEntryRtt(i: nat, rtt: u32)
      requires Valid() && i < |tbl|
      modifies tbl[i], this`table
      ensures Valid() && table == Store(old(table), i, old(table)[i].rec.(rtt := rtt))
    {
      tbl[i].rttEwmaMs := rtt;
      table := Store(table, i, table[i].rec.(rtt := rtt));
    }

    /** Zero the record of a peer, if it has one. */
    method PurgePeer(addr: nat)
      requires Valid()
      modifies this`table, Footprint()
      ensures Valid() && State() == Purge(old(State()), addr)
    {
      var i := FindEntry(addr);
      if i < |tbl| {
        InFootprint(i);
        ClaimEntry(i, 0, 0);
      }
    }
  }
}
