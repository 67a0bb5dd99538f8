/** The reorder buffer as it runs: peer entries and slot arrays updated in place, each method
    proved against the function of ReorderModel that says what it does to the table. */
module ReorderCore {
  import opened Serial
  import opened ReorderModel
  import opened ReorderRings

  class PeerBuf {
    var key: nat
    var seqInit: bool
    var lastSeq: u32
    var filled: nat
    var winMs: nat
    var lastAdjustMs: nat
    var lastActivityMs: nat
    var lastDeliverMs: nat
    var delivered: nat
    const slots: array<Slot>

    function State(): Peer
      reads this, slots
    {
      Peer(key, seqInit, lastSeq, filled, winMs, lastAdjustMs, lastActivityMs, lastDeliverMs, delivered, slots[..])
    }

    constructor (depth: nat)
      ensures fresh(slots)
      ensures State() == Peer(0, false, 0, 0, 0, 0, 0, 0, 0, seq(depth, _ => EMPTY_SLOT))
    {
      key, seqInit, lastSeq, filled, winMs := 0, false, 0, 0, 0;
      lastAdjustMs, lastActivityMs, lastDeliverMs, delivered := 0, 0, 0, 0;
      slots := new Slot[depth](_ => EMPTY_SLOT);
    }

    /** Wipe the entry and claim it for a new source. */
    method Claim(cfg: Config, k: nat, now: nat)
      requires slots.Length == cfg.depth
      modifies this, slots
      ensures State() == FreshPeer(cfg, k, now)
    {
      for i := 0 to slots.Length
        invariant forall j :: 0 <= j < i ==> slots[j] == EMPTY_SLOT
      {
        slots[i] := EMPTY_SLOT;
      }
      key, seqInit, lastSeq, filled := k, false, 0, 0;
      winMs := if cfg.adapt then cfg.winMin else cfg.winMax;
      lastAdjustMs, lastActivityMs, lastDeliverMs, delivered := now, now, now, 0;
    }

    method FindHeld(sn: u32) returns (r: nat)
      ensures r == FindSn(slots[..], sn, 0)
    {
      r := 0;
      while r < slots.Length && !(slots[r].used && slots[r].sn == sn)
        invariant r <= slots.Length
        invariant FindSn(slots[..], sn, 0) == FindSn(slots[..], sn, r)
      {
        r := r + 1;
      }
    }

    method FindUnused() returns (r: nat)
      ensures r == FindFree(slots[..], 0)
    {
      r := 0;
      while r < slots.Length && slots[r].used
        invariant r <= slots.Length
        invariant FindFree(slots[..], 0) == FindFree(slots[..], r)
      {
        r := r + 1;
      }
    }

    /** Drop every held packet the cursor has passed, counting them. */
    method PurgeStale() returns (purged: nat)
      requires filled == Count(slots[..])
      modifies this`filled, slots
      ensures State() == Purge(old(State()))
      ensures purged == if seqInit then |Purged(old(slots[..]), lastSeq)| else 0
    {
      purged := 0;
      if !seqInit {
        return;
      }
      ghost var was := slots[..];
      for i := 0 to slots.Length
        invariant forall j :: 0 <= j < i ==> slots[j] == PurgeSlot(was[j], lastSeq)
        invariant forall j :: i <= j < slots.Length ==> slots[j] == was[j]
        invariant filled == Count(slots[..])
        invariant purged == |PurgedTo(was, lastSeq, i)|
      {
        if slots[i].used && Cmp(slots[i].sn, lastSeq) <= 0 {
          CountBounds(slots[..]);
          UpdateCount(slots[..], i, slots[i].(used := false), slots.Length);
          ghost var before := slots[..];
          slots[i] := slots[i].(used := false);
          assert slots[..] == before[i := slots[i]];
          if filled > 0 {
            filled := filled - 1;
          }
          purged := purged + 1;
        }
      }
      assert slots[..] == PurgeSlots(was, lastSeq);
    }

    /** Sequence sn has gone out: the cursor follows if ahead, and what it passes is purged. */
    method NoteDelivery(sn: u32, now: nat) returns (purged: nat)
      requires filled == Count(slots[..])
      modifies this, slots
      ensures State() == ReorderModel.NoteDelivery(old(State()), sn, now)
      ensures purged == |Purged(old(slots[..]), lastSeq)|
    {
      if !seqInit || Cmp(sn, lastSeq) > 0 {
        lastSeq := sn;
      }
      seqInit := true;
      purged := PurgeStale();
      lastDeliverMs, lastActivityMs := now, now;
      delivered := delivered + 1;
    }

    /** Buffer a packet, or say why not. */
    method Insert(sn: u32, ts: nat, d: Dgram) returns (r: InsertResult)
      requires slots.Length > 0
      modifies this`filled, slots
      ensures (State(), r) == ReorderModel.Insert(old(State()), sn, ts, d)
    {
      if seqInit && Cmp(sn, lastSeq) <= 0 {
        return StaleSeq;
      }
      var dup := FindHeld(sn);
      if dup < slots.Length {
        return DuplicateSeq;
      }
      var entry := Slot(true, ts, sn, d.(data := Clip(d.data)));
      var free := FindUnused();
      if free < slots.Length {
        slots[free] := entry;
        filled := filled + 1;
        return Buffered;
      }
      var oix := 0;
      for i := 1 to slots.Length
        invariant oix < slots.Length
        invariant OldestSlot(slots[..], 1, 0) == OldestSlot(slots[..], i, oix)
      {
        if slots[i].used && slots[i].ts < slots[oix].ts {
          oix := i;
        }
      }
      r := EvictedOldest(slots[oix]);
      slots[oix] := entry;
    }

    method GrowWindow(w: int, now: nat)
      modifies this`winMs, this`lastAdjustMs
      ensures State() == Grow(old(State()), w, now)
    {
      if w > winMs {
        winMs := w;
        lastAdjustMs := now;
      }
    }

    /** Size the hold window from an arriving packet, before it is inserted. */
    method AdaptOnArrival(cfg: Config, sn: u32, now: nat)
      modifies this`winMs, this`lastAdjustMs
      ensures State() == Adapt(cfg, old(State()), sn, now)
    {
      if !cfg.adapt || !seqInit {
        return;
      }
      var c := Cmp(sn, lastSeq);
      if c == 0 {
        return;
      }
      if c < 0 {
        GrowWindow(Measured(cfg, now - lastDeliverMs), now);
        return;
      }
      if sn == Next(lastSeq) && filled > 0 {
        var oldest := now;
        for i := 0 to slots.Length
          invariant oldest == OldestTs(slots[..], now, i)
        {
          if slots[i].used && slots[i].ts < oldest {
            oldest := slots[i].ts;
          }
        }
        GrowWindow(Measured(cfg, now - oldest), now);
      }
    }

    /** A decay step, if the window has not moved for a while. */
    method DecayWindow(cfg: Config, now: nat)
      modifies this`winMs, this`lastAdjustMs
      ensures State() == Decay(cfg, old(State()), now)
    {
      if !cfg.adapt || now - lastAdjustMs < DECAY_MS {
        return;
      }
      if winMs <= cfg.winMin {
        winMs := cfg.winMin;
        lastAdjustMs := now;
        return;
      }
      var excess := winMs - cfg.winMin;
      var keep := excess * 3 / 4;
      if keep >= excess {
        keep := excess - 1;
      }
      winMs := cfg.winMin + keep;
      lastAdjustMs := now;
    }

    /** Choose the slot to release next: the lowest sequence if there is no cursor yet, else the
        awaited successor, else the nearest packet that has waited out its window. */
    method PickSlot(cfg: Config, now: nat) returns (c: Choice)
      ensures c == Pick(cfg, State(), now)
    {
      if filled == 0 {
        return Nothing;
      }
      var n := slots.Length;
      if !seqInit {
        var best: nat := n;
        for i := 0 to n
          invariant best <= n
          invariant FirstScan(slots[..], 0, n) == FirstScan(slots[..], i, best)
        {
          if slots[i].used {
            if best == n {
              best := i;
            } else {
              var cmp := Cmp(slots[i].sn, slots[best].sn);
              if cmp < 0 || (cmp == 0 && slots[i].ts < slots[best].ts) {
                best := i;
              }
            }
          }
        }
        return if best < n then Choose(best, First) else Nothing;
      }
      var want := Next(lastSeq);
      var s := FindHeld(want);
      if s < n {
        return Choose(s, InOrder);
      }
      c := PickAged(want, HoldWindow(cfg, winMs), now);
    }

    method PickAged(want: u32, hold: nat, now: nat) returns (c: Choice)
      ensures var n := slots.Length;
              var b := AgedScan(slots[..], want, hold, now, 0, AgedBest(n, n));
              c == if b.ahead < n then Choose(b.ahead, Forced)
                   else if b.oldest < n then Choose(b.oldest, Forced) else Nothing
    {
      var n := slots.Length;
      var ahead: nat, oldest: nat := n, n;
      for i := 0 to n
        invariant ahead <= n && oldest <= n
        invariant AgedScan(slots[..], want, hold, now, 0, AgedBest(n, n))
                  == AgedScan(slots[..], want, hold, now, i, AgedBest(ahead, oldest))
      {
        if slots[i].used && slots[i].ts <= now && now - slots[i].ts >= hold {
          if oldest == n || slots[i].ts < slots[oldest].ts {
            oldest := i;
          }
          if Cmp(slots[i].sn, want) >= 0
             && (ahead == n || Dist(slots[i].sn, want) < Dist(slots[ahead].sn, want)) {
            ahead := i;
          }
        }
      }
      if ahead < n {
        return Choose(ahead, Forced);
      }
      return if oldest < n then Choose(oldest, Forced) else Nothing;
    }

    /** Slot goes out; the ring and the window adjust to it. */
    method Take(cfg: Config, slot: nat, now: nat) returns (out: Slot, purged: nat)
      requires filled == Count(slots[..]) && slot < slots.Length && slots[slot].used
      modifies this, slots
      ensures State() == ReorderModel.Take(cfg, old(State()), slot, now)
      ensures out == old(slots[slot]) && purged == |TakeLoss(old(State()), slot)|
    {
      out := slots[slot];
      UpdateCount(slots[..], slot, out.(used := false), slots.Length);
      ghost var p := State();
      slots[slot] := out.(used := false);
      if filled > 0 {
        filled := filled - 1;
      }
      assert State() == FreeSlot(p, slot);
      purged := NoteDelivery(out.sn, now);
      DecayWindow(cfg, now);
    }
  }

  class ReorderCtx {
    const cfg: Config
    const tbl: seq<PeerBuf>
    var rr: nat
    var stats: Stats
    ghost var table: seq<Peer>  // the value of every entry

    /** The entries and their slot arrays are all different objects, of the configured sizes. */
    ghost predicate Separate() {
      && ConfigOk(cfg)
      && |tbl| == cfg.peers
      && (forall i :: 0 <= i < |tbl| ==> tbl[i].slots.Length == cfg.depth)
      && (forall i, j :: 0 <= i < j < |tbl| ==> tbl[i] != tbl[j] && tbl[i].slots != tbl[j].slots)
    }

    ghost predicate Valid()
      reads this, tbl, set p | p in tbl :: p.slots
    {
      && Separate()
      && |table| == |tbl|
      && rr < |tbl|
      && forall i :: 0 <= i < |tbl| ==> tbl[i].State() == table[i]
    }

    ghost function Footprint(): set<object> {
      (set p: PeerBuf | p in tbl :: p as object) + (set p: PeerBuf | p in tbl :: p.slots as object)
    }

    lemma InFootprint(i: nat)
      requires i < |tbl|
      ensures tbl[i] as object in Footprint() && tbl[i].slots as object in Footprint()
    {
      assert tbl[i] in tbl;
    }

    ghost function State(): Ctx
      reads this
    {
      Ctx(cfg, table, rr, stats)
    }

    constructor (cfg: Config)
      requires ConfigOk(cfg)
      ensures Valid() && fresh(Footprint())
      ensures State() == Ctx(cfg, seq(cfg.peers, _ =>
                Peer(0, false, 0, 0, 0, 0, 0, 0, 0, seq(cfg.depth, _ => EMPTY_SLOT))),
                             0, NO_STATS)
    {
      ghost var zero := Peer(0, false, 0, 0, 0, 0, 0, 0, 0, seq(cfg.depth, _ => EMPTY_SLOT));
      var t: seq<PeerBuf> := [];
      for n := 0 to cfg.peers
        invariant |t| == n
        invariant forall i :: 0 <= i < n ==> fresh(t[i]) && fresh(t[i].slots)
        invariant forall i :: 0 <= i < n ==> t[i].State() == zero && t[i].slots.Length == cfg.depth
        invariant forall i, j :: 0 <= i < j < n ==> t[i] != t[j] && t[i].slots != t[j].slots
      {
        var p := new PeerBuf(cfg.depth);
        assert |p.State().slots| == cfg.depth;
        t := t + [p];
      }
      this.cfg := cfg;
      tbl := t;
      table := seq(cfg.peers, _ => zero);
      rr := 0;
      stats := NO_STATS;
    }

    method FindEntry(k: nat) returns (r: nat)
      requires Valid()
      ensures r == FindKey(table, k, 0)
    {
      r := 0;
      while r < |tbl| && tbl[r].key != k
        invariant r <= |tbl|
        invariant FindKey(table, k, 0) == FindKey(table, k, r)
      {
        assert tbl[r].State() == table[r];
        r := r + 1;
      }
      assert r < |tbl| ==> tbl[r].State() == table[r];
    }

    method LeastRecent() returns (r: nat)
      requires Valid()
      ensures r == LeastActive(table, 1, 0)
    {
      r := 0;
      for i := 1 to |tbl|
        invariant r < |tbl|
        invariant LeastActive(table, 1, 0) == LeastActive(table, i, r)
      {
        assert tbl[i].State() == table[i] && tbl[r].State() == table[r];
        if tbl[i].lastActivityMs < tbl[r].lastActivityMs {
          r := i;
        }
      }
    }

    method Touch(i: nat, now: nat)
      requires Valid() && i < |tbl|
      modifies tbl[i], this`table
      ensures Valid() && table == old(table)[i := old(table)[i].(lastActivity := now)]
    {
      tbl[i].lastActivityMs := now;
      table := table[i := table[i].(lastActivity := now)];
    }

    method ClaimEntry(i: nat, k: nat, now: nat)
      requires Valid() && i < |tbl|
      modifies tbl[i], tbl[i].slots, this`table
      ensures Valid() && table == old(table)[i := FreshPeer(cfg, k, now)]
    {
      tbl[i].Claim(cfg, k, now);
      table := table[i := FreshPeer(cfg, k, now)];
    }

    /** Look up the entry of a source, or claim a free or long-idle one. */
    method GetPeer(ep: Endpoint, now: nat) returns (at: Lookup)
      requires Valid()
      modifies this`stats, this`table, Footprint()
      ensures Valid()
      ensures State() == ReorderModel.GetPeer(old(State()), ep, now).0
      ensures at == ReorderModel.GetPeer(old(State()), ep, now).1
    {
      var k := KeyOf(ep);
      var i := FindEntry(k);
      if i < |tbl| {
        InFootprint(i);
        Touch(i, now);
        at := Found(i);
      } else {
        at := ClaimFree(k, now);
      }
    }

    /** Claim a free entry, or else an idle one. */
    method ClaimFree(k: nat, now: nat) returns (at: Lookup)
      requires Valid()
      modifies this`stats, this`table, Footprint()
      ensures Valid()
      ensures rr == old(rr)
      ensures var free := FindKey(old(table), 0, 0);
              if free < |old(table)| then
                table == old(table)[free := FreshPeer(cfg, k, now)] && stats == old(stats) && at == Found(free)
              else
                var i := LeastActive(old(table), 1, 0);
                var p := old(table)[i];
                if now - p.lastActivity < PEER_IDLE_MS then
                  at == TableFull && table == old(table) && stats == old(stats)
                else
                  && at == Found(i)
                  && table == old(table)[i := FreshPeer(cfg, k, now)]
                  && stats == old(stats).(peersReclaimed := old(stats).peersReclaimed + 1,
                                          reclaim := old(stats).reclaim + p.filled)
    {
      var i := FindEntry(0);
      if i < |tbl| {
        InFootprint(i);
        ClaimEntry(i, k, now);
        return Found(i);
      }
      at := ReclaimIdle(k, now);
    }

    /** Take over the idlest entry, with the loss of its packets, unless even that is in use. */
    method ReclaimIdle(k: nat, now: nat) returns (at: Lookup)
      requires Valid()
      modifies this`stats, this`table, Footprint()
      ensures Valid() && rr == old(rr)
      ensures var i := LeastActive(old(table), 1, 0);
              var p := old(table)[i];
              if now - p.lastActivity < PEER_IDLE_MS then at == TableFull && table == old(table) && stats == old(stats)
              else
                && at == Found(i)
                && table == old(table)[i := FreshPeer(cfg, k, now)]
                && stats == old(stats).(peersReclaimed := old(stats).peersReclaimed + 1,
                                        reclaim := old(stats).reclaim + p.filled)
    {
      var i := LeastRecent();
      assert tbl[i].State() == table[i];
      if now - tbl[i].lastActivityMs < PEER_IDLE_MS {
        return TableFull;
      }
      stats := stats.(peersReclaimed := stats.peersReclaimed + 1,
                      reclaim := stats.reclaim + tbl[i].filled);
      InFootprint(i);
      ClaimEntry(i, k, now);
      at := Found(i);
    }

    /** Might the next arrival find no free slot? */
    method DrainSaturated() returns (full: bool)
      requires Valid()
      ensures full == Saturated(State())
    {
      for i := 0 to |tbl|
        invariant forall j :: 0 <= j < i ==> table[j].key == 0 || table[j].filled < cfg.depth
      {
        assert tbl[i].State() == table[i];
        if tbl[i].key != 0 && tbl[i].filled >= cfg.depth {
          return true;
        }
      }
      return false;
    }

    /** Scan the peers, from where the last scan left off, for something to release. */
    method NextReady(now: nat) returns (r: Ready)
      requires Valid()
      modifies this`rr
      ensures Valid() && table == old(table)
      ensures r == ReadyFrom(old(State()), now, 0)
      ensures rr == if r.ReadyAt? then Wrap(r.peer + 1, |tbl|) else old(rr)
    {
      r := ScanReady(now);
      if r.ReadyAt? {
        rr := RingIndex(r.peer + 1, |tbl|);
      }
    }

    method ScanReady(now: nat) returns (r: Ready)
      requires Valid()
      ensures r == ReadyFrom(State(), now, 0)
    {
      ghost var c := State();
      r := NoneReady;
      var n := 0;
      while n < |tbl| && r == NoneReady
        invariant n <= |tbl|
        invariant ReadyFrom(c, now, 0) == if r == NoneReady then ReadyFrom(c, now, n) else r
      {
        r := ProbeEntry(n, now);
        n := n + 1;
      }
    }

    /** What the entry n past the rotating cursor has to release. */
    method ProbeEntry(n: nat, now: nat) returns (r: Ready)
      requires Valid() && n < |tbl|
      ensures ReadyFrom(State(), now, n) == if r == NoneReady then ReadyFrom(State(), now, n + 1) else r
    {
      var i := RingIndex(rr + n, |tbl|);
      var pick := PickEntry(i, now);
      ReadyUnfolds(State(), now, n);
      r := if pick.Choose? then ReadyAt(i, pick.slot, pick.kind) else NoneReady;
    }

    method PickEntry(i: nat, now: nat) returns (c: Choice)
      requires Valid() && i < |tbl|
      ensures c == if table[i].key == 0 then Nothing else Pick(cfg, table[i], now)
    {
      assert tbl[i].State() == table[i];
      if tbl[i].key == 0 {
        return Nothing;
      }
      c := tbl[i].PickSlot(cfg, now);
    }

    /** Release what the scan chose: the packet, and the table without it. */
    method TakeReady(r: Ready, now: nat) returns (out: Slot)
      requires Valid() && r.ReadyAt? && r.peer < |tbl| && Held(table[r.peer].slots, r.slot)
      requires PeerInv(table[r.peer])
      modifies this`stats, this`table, Footprint()
      ensures Valid() && out == old(table)[r.peer].slots[r.slot]
      ensures State() == TakeAt(old(State()), r, now).(rr := rr)
    {
      InFootprint(r.peer);
      var p := tbl[r.peer];
      assert p.State() == table[r.peer];
      var purged;
      out, purged := p.Take(cfg, r.slot, now);
      stats := CountDelivery(stats, r.kind, purged, out.ts, now);
      table := table[r.peer := p.State()];
    }

    /** Size the entry's window from an arrival and try to buffer it. */
    method Offer(i: nat, d: Dgram, now: nat) returns (r: InsertResult)
      requires Valid() && i < |tbl| && |d.data| >= SEQ_MIN_PAY
      modifies this`stats, this`table, Footprint()
      ensures Valid()
      ensures var (q, ins) := Insert(Adapt(cfg, old(table)[i], SeqOf(d.data), now), SeqOf(d.data), now, d);
              r == ins && State() == old(State()).(tbl := old(table)[i := q])
    {
      InFootprint(i);
      var p := tbl[i];
      assert p.State() == table[i];
      p.AdaptOnArrival(cfg, SeqOf(d.data), now);
      r := p.Insert(SeqOf(d.data), now, d);
      table := table[i := p.State()];
    }

    /** Entry i had sequence sn, which came at ts, go out as kind. */
    method NoteEntry(i: nat, sn: u32, ts: nat, now: nat, kind: Kind)
      requires Valid() && i < |tbl| && table[i].filled == Count(table[i].slots)
      modifies this`stats, this`table, Footprint()
      ensures Valid() && State() == NoteAt(old(State()), i, sn, ts, now, kind)
    {
      InFootprint(i);
      var purged := NoteSlots(i, sn, now);
      stats := CountDelivery(stats, kind, purged, ts, now);
    }

    method NoteSlots(i: nat, sn: u32, now: nat) returns (purged: nat)
      requires Valid() && i < |tbl| && table[i].filled == Count(table[i].slots)
      modifies tbl[i], tbl[i].slots, this`table
      ensures Valid() && table == old(table)[i := ReorderModel.NoteDelivery(old(table)[i], sn, now)]
      ensures purged == |Purged(old(table)[i].slots, Advance(old(table)[i], sn).last)|
    {
      assert tbl[i].State() == table[i];
      purged := tbl[i].NoteDelivery(sn, now);
      table := table[i := ReorderModel.NoteDelivery(table[i], sn, now)];
    }

    method AdaptEntry(i: nat, sn: u32, now: nat)
      requires Valid() && i < |tbl|
      modifies tbl[i], this`table
      ensures Valid() && State() == AdaptAt(old(State()), i, sn, now)
    {
      assert tbl[i].State() == table[i];
      tbl[i].AdaptOnArrival(cfg, sn, now);
      table := table[i := Adapt(cfg, table[i], sn, now)];
    }
  }
}
