/** The drain-and-deliver loop of the receive hook as a function on values, and where every
    datagram it takes from the kernel ends up. */
module HookModel {
  import opened Serial
  import opened ReorderModel
  import opened ReorderRings

  /** The eight bytes of the internal wake datagram, "BZWKPKT1". */
  const WAKE_MAGIC: seq<u8> := [0x42, 0x5A, 0x57, 0x4B, 0x50, 0x4B, 0x54, 0x31]

  /** What one real receive call reports, and the clock when it does. */
  datatype Read =
    | Stop                                    // would block, a real error, or no bytes
    | TooBig                                  // truncated and consumed by the stack
    | Packet(pkt: Dgram, ipv4: bool, at: nat)

  datatype Outcome =
    | WouldBlock
    | Bypassed(pkt: Dgram)       // too short or not IPv4
    | TableIsFull(pkt: Dgram)    // no entry to buffer it in
    | PassedThrough(pkt: Dgram)  // refused by its source's ring
    | Displaced(pkt: Dgram)      // pushed out of a full ring
    | Released(pkt: Dgram)       // came out of the buffer

  predicate Sequenced(r: Read) {
    r.Packet? && r.ipv4 && |r.pkt.data| >= SEQ_MIN_PAY
  }

  /** A real datagram fits the drain buffer and has a source. */
  predicate ReadOk(r: Read) {
    r.Packet? ==> |r.pkt.data| <= MAX_PKT_BYTES && KeyOf(r.pkt.from) != 0
  }

  /** Payload a call destroyed: purged from a ring, or lost with a reclaimed entry. */
  datatype Lost = Lost(purged: seq<Dgram>, reclaimed: seq<Dgram>)

  const NO_LOSS := Lost([], [])

  function AddLost(a: Lost, b: Lost): Lost {
    Lost(a.purged + b.purged, a.reclaimed + b.reclaimed)
  }

  datatype Drained = Drained(c: Ctx, used: nat, out: Outcome, lost: Lost)

  ghost predicate CtxInv(c: Ctx) {
    && ConfigOk(c.cfg)
    && |c.tbl| == c.cfg.peers
    && c.rr < |c.tbl|
    && forall i {:trigger EntryInv(c.cfg, c.tbl[i])} :: 0 <= i < |c.tbl| ==> EntryInv(c.cfg, c.tbl[i])
  }

  ghost predicate EntryInv(cfg: Config, p: Peer) {
    && PeerInv(p)
    && |p.slots| == cfg.depth
    && (p.key == 0 ==> p.filled == 0)
    && (p.key != 0 ==> WindowInv(cfg, p))
  }

  /** The payload a lookup's reclaim destroys. */
  function ReclaimedBy(c: Ctx, ep: Endpoint, now: nat): seq<Dgram>
    requires |c.tbl| > 0
  {
    var k := KeyOf(ep);
    if FindKey(c.tbl, k, 0) < |c.tbl| || FindKey(c.tbl, 0, 0) < |c.tbl| then []
    else
      var idle := LeastActive(c.tbl, 1, 0);
      if now - c.tbl[idle].lastActivity < PEER_IDLE_MS then [] else HeldTo(c.tbl[idle].slots, |c.tbl[idle].slots|)
  }

  function CountInsert(s: Stats, r: InsertResult): Stats {
    match r
    case StaleSeq => s.(stale := s.stale + 1)
    case DuplicateSeq => s.(duplicate := s.duplicate + 1)
    case _ => s
  }

  datatype Arrival = Arrival(c: Ctx, out: Outcome, lost: Lost)

  /** A sequenced datagram is offered to entry i.  WouldBlock means it was buffered. */
  function ArriveAt(c: Ctx, i: nat, d: Dgram, now: nat): Arrival
    requires i < |c.tbl| && |c.tbl[i].slots| > 0 && |d.data| >= SEQ_MIN_PAY
  {
    var sn := SeqOf(d.data);
    var (q, r) := Insert(Adapt(c.cfg, c.tbl[i], sn, now), sn, now, d);
    Settle(c, i, q, r, d, now)
  }

  /** Entry i has become q; act on the result of the insertion. */
  function Settle(c: Ctx, i: nat, q: Peer, r: InsertResult, d: Dgram, now: nat): Arrival
    requires i < |c.tbl|
  {
    var c1 := c.(tbl := c.tbl[i := q], stats := CountInsert(c.stats, r));
    match r
    case Buffered => Arrival(c1, WouldBlock, NO_LOSS)
    case EvictedOldest(s) =>
      var purged := Purged(q.slots, Advance(q, s.sn).last);
      Arrival(c1.(tbl := c1.tbl[i := NoteDelivery(q, s.sn, now)],
                  stats := CountDelivery(c1.stats, Evicted, |purged|, s.ts, now)),
              Displaced(s.pkt), Lost(purged, []))
    case _ => Arrival(c1, PassedThrough(d), NO_LOSS)
  }

  function Arrive(c: Ctx, d: Dgram, now: nat): Arrival
    requires CtxInv(c) && |d.data| >= SEQ_MIN_PAY
  {
    var (c1, at) := GetPeer(c, d.from, now);
    match at
    case TableFull =>
      Arrival(c1.(stats := c1.stats.(tableFull := c1.stats.tableFull + 1)), TableIsFull(d), NO_LOSS)
    case Found(i) =>
      LookupKeeps(c, d.from, now);
      Entry(c1, i);
      var a := ArriveAt(c1, i, d, now);
      a.(lost := AddLost(Lost([], ReclaimedBy(c, d.from, now)), a.lost))
  }

  /** The effect of one receive call: go on draining, or stop with an outcome. */
  datatype ReadStep =
    | GoOn(c: Ctx, lost: Lost)
    | Done(c: Ctx, out: Outcome, lost: Lost)

  function OnRead(c: Ctx, r: Read): ReadStep
    requires CtxInv(c) && ReadOk(r)
  {
    match r
    case Stop => Done(c, WouldBlock, NO_LOSS)
    case TooBig => GoOn(c.(stats := c.stats.(emsgsize := c.stats.emsgsize + 1)), NO_LOSS)
    case Packet(d, ipv4, at) =>
      if d.data == [] then Done(c, WouldBlock, NO_LOSS)
      else if d.data == WAKE_MAGIC then GoOn(c, NO_LOSS)
      else if !Sequenced(r) then
        Done(c.(stats := c.stats.(short := c.stats.short + 1)), Bypassed(d), NO_LOSS)
      else
        var a := Arrive(c, d, at);
        if a.out == WouldBlock then GoOn(a.c, a.lost) else Done(a.c, a.out, a.lost)
  }

  ghost predicate InputOk(input: seq<Read>) {
    forall i :: 0 <= i < |input| ==> ReadOk(input[i])
  }

  /** Up to cap receive calls, answered by input from position at on, stopping before one that
      might find no room to hold its datagram.  used is the position reached. */
  function Drain(c: Ctx, input: seq<Read>, at: nat, cap: nat): (r: Drained)
    requires CtxInv(c) && InputOk(input) && at <= |input|
    ensures at <= r.used <= |input| && r.used <= at + cap
    decreases cap
  {
    if cap == 0 || Saturated(c) || at == |input| then Drained(c, at, WouldBlock, NO_LOSS)
    else
      OnReadKeeps(c, input[at]);
      match OnRead(c, input[at])
      case Done(c1, out, lost) => Drained(c1, at + 1, out, lost)
      case GoOn(c1, lost) =>
        var rest := Drain(c1, input, at + 1, cap - 1);
        rest.(lost := AddLost(lost, rest.lost))
  }

  /** One call of the hook: drain, then hand over at most one datagram. */
  function Call(c: Ctx, input: seq<Read>, cap: nat, now: nat): Drained
    requires CtxInv(c) && InputOk(input)
  {
    var d := Drain(c, input, 0, cap);
    DrainKeeps(c, input, 0, cap);
    if d.out != WouldBlock then d
    else
      match ReadyFrom(d.c, now, 0)
      case NoneReady => d
      case ReadyAt(i, s, k) =>
        var p := d.c.tbl[i];
        Drained(TakeAt(d.c, ReadyAt(i, s, k), now), d.used, Released(p.slots[s].pkt),
                AddLost(d.lost, Lost(TakeLoss(p, s), [])))
  }

  // ---- The invariant ---------------------------------------------------------

  lemma Entry(c: Ctx, i: nat)
    requires CtxInv(c) && i < |c.tbl|
    ensures EntryInv(c.cfg, c.tbl[i])
  {
  }

  lemma SetEntry(c: Ctx, d: Ctx, i: nat, q: Peer)
    requires CtxInv(c) && i < |c.tbl| && EntryInv(c.cfg, q)
    requires d.cfg == c.cfg && d.tbl == c.tbl[i := q] && d.rr < |d.tbl|
    ensures CtxInv(d)
  {
    forall k | 0 <= k < |d.tbl| ensures EntryInv(d.cfg, d.tbl[k]) {
      assert EntryInv(c.cfg, c.tbl[k]);
    }
  }

  lemma LookupKeeps(c: Ctx, ep: Endpoint, now: nat)
    requires CtxInv(c)
    ensures CtxInv(GetPeer(c, ep, now).0)
  {
    FreshKeeps(c.cfg, KeyOf(ep), now);
    var (d, at) := GetPeer(c, ep, now);
    if at.Found? {
      Entry(c, at.at);
      SetEntry(c, d, at.at, d.tbl[at.at]);
    }
  }

  /** The guard leaves room in the entry the lookup returns, so insertion never has to evict. */
  lemma NeverEvicts(c: Ctx, d: Dgram, now: nat)
    requires CtxInv(c) && |d.data| >= SEQ_MIN_PAY && KeyOf(d.from) != 0 && !Saturated(c)
    ensures !Arrive(c, d, now).out.Displaced?
  {
    LookupKeeps(c, d.from, now);
    FreshKeeps(c.cfg, KeyOf(d.from), now);
    var (c1, at) := GetPeer(c, d.from, now);
    if at.Found? {
      Entry(c, at.at);
      Entry(c1, at.at);
      var sn := SeqOf(d.data);
      InsertWithRoom(Adapt(c1.cfg, c1.tbl[at.at], sn, now), sn, now, d);
    }
  }

  lemma SettleKeeps(c: Ctx, i: nat, q: Peer, r: InsertResult, d: Dgram, now: nat)
    requires CtxInv(c) && i < |c.tbl| && q.key != 0 && EntryInv(c.cfg, q)
    ensures CtxInv(Settle(c, i, q, r, d, now).c)
  {
    if r.EvictedOldest? {
      var w := NoteDelivery(q, r.out.sn, now);
      NoteKeeps(q, r.out.sn, now);
      assert c.tbl[i := q][i := w] == c.tbl[i := w];
      SetEntry(c, Settle(c, i, q, r, d, now).c, i, w);
    } else {
      SetEntry(c, Settle(c, i, q, r, d, now).c, i, q);
    }
  }

  lemma ArriveAtKeeps(c: Ctx, i: nat, d: Dgram, now: nat)
    requires CtxInv(c) && i < |c.tbl| && EntryInv(c.cfg, c.tbl[i])
    requires c.tbl[i].key != 0 && |d.data| >= SEQ_MIN_PAY
    ensures CtxInv(ArriveAt(c, i, d, now).c)
  {
    var sn := SeqOf(d.data);
    var p := Adapt(c.cfg, c.tbl[i], sn, now);
    WindowKept(c.cfg, c.tbl[i], sn, now);
    InsertKeeps(p, sn, now, d);
    var (q, r) := Insert(p, sn, now, d);
    SettleKeeps(c, i, q, r, d, now);
  }

  lemma ArriveKeeps(c: Ctx, d: Dgram, now: nat)
    requires CtxInv(c) && |d.data| >= SEQ_MIN_PAY && KeyOf(d.from) != 0
    ensures CtxInv(Arrive(c, d, now).c)
  {
    LookupKeeps(c, d.from, now);
    var (c1, at) := GetPeer(c, d.from, now);
    if at.Found? {
      Entry(c1, at.at);
      ArriveAtKeeps(c1, at.at, d, now);
    }
  }

  lemma OnReadKeeps(c: Ctx, r: Read)
    requires CtxInv(c) && ReadOk(r)
    ensures CtxInv(OnRead(c, r).c)
    ensures !Saturated(c) && OnRead(c, r).Done? ==> !OnRead(c, r).out.Displaced?
  {
    if Sequenced(r) {
      ArriveKeeps(c, r.pkt, r.at);
      if !Saturated(c) {
        NeverEvicts(c, r.pkt, r.at);
      }
    }
  }

  lemma {:induction false} DrainKeeps(c: Ctx, input: seq<Read>, at: nat, cap: nat)
    requires CtxInv(c) && InputOk(input) && at <= |input|
    ensures CtxInv(Drain(c, input, at, cap).c)
    ensures !Drain(c, input, at, cap).out.Displaced?
    decreases cap
  {
    if cap == 0 || Saturated(c) || at == |input| {
    } else {
      OnReadKeeps(c, input[at]);
      var s := OnRead(c, input[at]);
      if s.GoOn? {
        DrainKeeps(s.c, input, at + 1, cap - 1);
      }
    }
  }

  lemma {:induction false} ReadyIsHeld(c: Ctx, now: nat, n: nat)
    requires CtxInv(c) && n <= |c.tbl|
    ensures var r := ReadyFrom(c, now, n);
            r.ReadyAt? ==> c.tbl[r.peer].key != 0 && Pick(c.cfg, c.tbl[r.peer], now) == Choose(r.slot, r.kind)
    decreases |c.tbl| - n
  {
    if n == |c.tbl| {
    } else {
      ReadyIsHeld(c, now, n + 1);
    }
  }

  lemma TakeAtKeeps(c: Ctx, now: nat)
    requires CtxInv(c) && ReadyFrom(c, now, 0).ReadyAt?
    ensures CtxInv(TakeAt(c, ReadyFrom(c, now, 0), now))
  {
    ReadyIsHeld(c, now, 0);
    var r := ReadyFrom(c, now, 0);
    var p := c.tbl[r.peer];
    Entry(c, r.peer);
    PickHeld(c.cfg, p, now);
    TakeKeeps(c.cfg, p, r.slot, now);
    WindowKept(c.cfg, NoteDelivery(FreeSlot(p, r.slot), p.slots[r.slot].sn, now), 0, now);
    SetEntry(c, TakeAt(c, r, now), r.peer, Take(c.cfg, p, r.slot, now));
  }

  lemma CallKeeps(c: Ctx, input: seq<Read>, cap: nat, now: nat)
    requires CtxInv(c) && InputOk(input)
    ensures CtxInv(Call(c, input, cap, now).c)
    ensures !Call(c, input, cap, now).out.Displaced?
  {
    DrainKeeps(c, input, 0, cap);
    var d := Drain(c, input, 0, cap);
    if d.out == WouldBlock && ReadyFrom(d.c, now, 0).ReadyAt? {
      TakeAtKeeps(d.c, now);
    }
  }
}
