/** The receive-side reorder buffer as a function on values: what each operation of
    the peer table does to the table.  ReorderCore implements it in place. */
module ReorderModel {
  import opened Serial

  const DECAY_MS: nat := 500
  const GROW_PAD_MS: nat := 5
  const PEER_IDLE_MS: nat := 30000
  const MAX_PKT_BYTES: nat := 2048
  const SEQ_MIN_PAY: nat := 18

  datatype Endpoint = Endpoint(addr: u32, port: u16)
  datatype Dgram = Dgram(from: Endpoint, data: seq<u8>)

  datatype Slot = Slot(used: bool, ts: nat, sn: u32, pkt: Dgram)

  datatype Peer = Peer(key: nat, init: bool, last: u32, filled: nat, win: nat,
                       lastAdjust: nat, lastActivity: nat, lastDeliver: nat,
                       delivered: nat, slots: seq<Slot>)

  datatype Config = Config(adapt: bool, winMax: nat, winMin: nat, maxHold: nat, depth: nat, peers: nat)

  datatype Stats = Stats(first: nat, inOrder: nat, forced: nat, evicted: nat,
                         stale: nat, duplicate: nat, purged: nat, reclaim: nat,
                         short: nat, tableFull: nat, peersReclaimed: nat, emsgsize: nat, holds: Holds)

  type Histogram = h: seq<nat> | |h| == 6 witness [0, 0, 0, 0, 0, 0]

  /** How long delivered packets waited: in all, at most, and how many by range. */
  datatype Holds = Holds(sum: nat, max: nat, hist: Histogram)

  datatype Ctx = Ctx(cfg: Config, tbl: seq<Peer>, rr: nat, stats: Stats)

  datatype Kind = First | InOrder | Forced | Evicted
  datatype InsertResult = Buffered | StaleSeq | DuplicateSeq | EvictedOldest(out: Slot)
  datatype Choice = Nothing | Choose(slot: nat, kind: Kind)

  const EMPTY_SLOT := Slot(false, 0, 0, Dgram(Endpoint(0, 0), []))

  const NO_STATS := Stats(0, 0, 0, 0, 0, 0, 0, 0, 0, 0, 0, 0, Holds(0, 0, [0, 0, 0, 0, 0, 0]))

  predicate ConfigOk(c: Config) {
    1 <= c.depth && 1 <= c.peers && c.winMin <= c.winMax
  }

  function BigEndian32(b: seq<u8>, at: nat): u32
    requires at + 4 <= |b|
  {
    (((b[at] as int) * 256 + b[at + 1]) * 256 + b[at + 2]) * 256 + b[at + 3]
  }

  /** The message sequence: four big-endian bytes at offset 10. */
  function SeqOf(data: seq<u8>): u32
    requires |data| >= SEQ_MIN_PAY
  {
    BigEndian32(data, 10)
  }

  /** The acknowledged sequence: four big-endian bytes at offset 14. */
  function AckOf(data: seq<u8>): u32
    requires |data| >= SEQ_MIN_PAY
  {
    BigEndian32(data, 14)
  }

  /** Whether the sender will repeat it until acked: the first byte has its top bit set. */
  predicate IsReliable(data: seq<u8>)
    requires |data| >= SEQ_MIN_PAY
  {
    data[0] >= 0x80
  }

  function KeyOf(ep: Endpoint): nat { ep.addr * 65536 + ep.port }

  /** Two sources have the same key only if they are the same, address and port. */
  lemma KeysDiffer(a: Endpoint, b: Endpoint)
    ensures KeyOf(a) == KeyOf(b) <==> a == b
  {
  }

  /** A number's four bytes, the most significant first. */
  function Digits(x: u32): seq<u8> { [x / 0x100_0000, x / 0x1_0000 % 256, x / 256 % 256, x % 256] }

  /** The sequence is x exactly when the four bytes from offset 10 are x's, and the ack those from 14. */
  lemma HeaderBytes(data: seq<u8>, x: u32)
    requires |data| >= SEQ_MIN_PAY
    ensures SeqOf(data) == x <==> data[10..14] == Digits(x)
    ensures AckOf(data) == x <==> data[14..18] == Digits(x)
  {
    DigitsRead(data, 10, x);
    DigitsRead(data, 14, x);
  }

  lemma DigitsRead(b: seq<u8>, at: nat, x: u32)
    requires at + 4 <= |b|
    ensures BigEndian32(b, at) == x <==> b[at..at + 4] == Digits(x)
  {
    var s, d := b[at..at + 4], Digits(x);
    assert s[0] == b[at] && s[1] == b[at + 1] && s[2] == b[at + 2] && s[3] == b[at + 3];
    assert (((d[0] as int) * 256 + d[1]) * 256 + d[2]) * 256 + d[3] == x;
    SameDigits(s[0], s[1], s[2], s[3], d[0], d[1], d[2], d[3]);
  }

  lemma SameDigits(a: u8, b: u8, c: u8, d: u8, e: u8, f: u8, g: u8, h: u8)
    ensures (((a as int) * 256 + b) * 256 + c) * 256 + d == (((e as int) * 256 + f) * 256 + g) * 256 + h <==>
              a == e && b == f && c == g && d == h
  {
  }

  // ---- What a ring holds -------------------------------------------------

  /** How many of the first n slots are occupied. */
  function CountTo(slots: seq<Slot>, n: nat): nat
    requires n <= |slots|
  {
    if n == 0 then 0 else CountTo(slots, n - 1) + (if slots[n - 1].used then 1 else 0)
  }

  function Count(slots: seq<Slot>): nat { CountTo(slots, |slots|) }

  /** The packets the first n slots hold, in slot order. */
  function HeldTo(slots: seq<Slot>, n: nat): seq<Dgram>
    requires n <= |slots|
  {
    if n == 0 then []
    else HeldTo(slots, n - 1) + (if slots[n - 1].used then [slots[n - 1].pkt] else [])
  }

  predicate Held(slots: seq<Slot>, i: int) {
    0 <= i < |slots| && slots[i].used
  }

  // ---- Purging and delivery ----------------------------------------------

  predicate Passed(s: Slot, last: u32) {
    s.used && Cmp(s.sn, last) <= 0
  }

  function PurgeSlot(s: Slot, last: u32): Slot {
    if Passed(s, last) then s.(used := false) else s
  }

  function PurgeSlots(slots: seq<Slot>, last: u32): (r: seq<Slot>)
    ensures |r| == |slots|
  {
    seq(|slots|, i requires 0 <= i < |slots| => PurgeSlot(slots[i], last))
  }

  /** The packets a purge destroys among the first n slots, in slot order. */
  function PurgedTo(slots: seq<Slot>, last: u32, n: nat): seq<Dgram>
    requires n <= |slots|
  {
    if n == 0 then []
    else PurgedTo(slots, last, n - 1) + (if Passed(slots[n - 1], last) then [slots[n - 1].pkt] else [])
  }

  function Purged(slots: seq<Slot>, last: u32): seq<Dgram> { PurgedTo(slots, last, |slots|) }

  function Purge(p: Peer): Peer {
    if !p.init then p
    else
      var slots := PurgeSlots(p.slots, p.last);
      p.(slots := slots, filled := Count(slots))
  }

  function Advance(p: Peer, sn: u32): Peer {
    p.(last := if !p.init || Cmp(sn, p.last) > 0 then sn else p.last, init := true)
  }

  function NoteDelivery(p: Peer, sn: u32, now: nat): Peer {
    Purge(Advance(p, sn)).(lastDeliver := now, lastActivity := now, delivered := p.delivered + 1)
  }

  /** The wait of a packet that came at ts, in the 32 bits of the field. */
  function Waited(ts: nat, now: nat): (w: nat)
    ensures w < MOD && (now <= ts ==> w == 0) && (0 <= now - ts < MOD ==> ts + w == now)
  {
    if now <= ts then 0 else Min(now - ts, MOD - 1)
  }

  function RangeOf(held: nat): (b: nat)
    ensures b < 6
    ensures (b == 0 <==> held < 1) && (b <= 1 <==> held < 6) && (b <= 2 <==> held < 16)
    ensures (b <= 3 <==> held < 31) && (b <= 4 <==> held < 61)
  {
    if held == 0 then 0 else if held <= 5 then 1 else if held <= 15 then 2
    else if held <= 30 then 3 else if held <= 60 then 4 else 5
  }

  function NoteHold(h: Holds, held: nat): Holds {
    Holds(h.sum + held, if held > h.max then held else h.max,
          h.hist[RangeOf(held) := h.hist[RangeOf(held)] + 1])
  }

  /** A packet that came at ts went out now, and its delivery purged that many. */
  function CountDelivery(s: Stats, kind: Kind, purged: nat, ts: nat, now: nat): Stats {
    var t := s.(purged := s.purged + purged, holds := NoteHold(s.holds, Waited(ts, now)));
    match kind
    case First => t.(first := t.first + 1)
    case InOrder => t.(inOrder := t.inOrder + 1)
    case Forced => t.(forced := t.forced + 1)
    case Evicted => t.(evicted := t.evicted + 1)
  }

  // ---- Insertion ------------------------------------------------------------

  /** Index of the first held slot at or after i carrying sn, or |slots|. */
  function FindSn(slots: seq<Slot>, sn: u32, i: nat): (r: nat)
    requires i <= |slots|
    ensures i <= r <= |slots|
    ensures forall j :: i <= j < r ==> !(slots[j].used && slots[j].sn == sn)
    ensures r < |slots| ==> slots[r].used && slots[r].sn == sn
    decreases |slots| - i
  {
    if i == |slots| || (slots[i].used && slots[i].sn == sn) then i else FindSn(slots, sn, i + 1)
  }

  function FindFree(slots: seq<Slot>, i: nat): (r: nat)
    requires i <= |slots|
    ensures i <= r <= |slots|
    ensures forall j :: i <= j < r ==> slots[j].used
    ensures r < |slots| ==> !slots[r].used
    decreases |slots| - i
  {
    if i == |slots| || !slots[i].used then i else FindFree(slots, i + 1)
  }

  /** The slot with the smallest arrival time, ties to the lowest index, among used slots from i on. */
  function OldestSlot(slots: seq<Slot>, i: nat, best: nat): (r: nat)
    requires best < |slots| && i <= |slots|
    ensures r < |slots|
    decreases |slots| - i
  {
    if i == |slots| then best
    else if slots[i].used && slots[i].ts < slots[best].ts then OldestSlot(slots, i + 1, i)
    else OldestSlot(slots, i + 1, best)
  }

  function Clip(data: seq<u8>): seq<u8> {
    if |data| > MAX_PKT_BYTES then data[..MAX_PKT_BYTES] else data
  }

  function Insert(p: Peer, sn: u32, ts: nat, d: Dgram): (Peer, InsertResult)
    requires |p.slots| > 0
  {
    var entry := Slot(true, ts, sn, d.(data := Clip(d.data)));
    if p.init && Cmp(sn, p.last) <= 0 then (p, StaleSeq)
    else if FindSn(p.slots, sn, 0) < |p.slots| then (p, DuplicateSeq)
    else
      var free := FindFree(p.slots, 0);
      if free < |p.slots| then
        (p.(slots := p.slots[free := entry], filled := p.filled + 1), Buffered)
      else
        var oix := OldestSlot(p.slots, 1, 0);
        (p.(slots := p.slots[oix := entry]), EvictedOldest(p.slots[oix]))
  }

  // ---- The adaptive window --------------------------------------------------

  function Min(a: int, b: int): int { if a <= b then a else b }

  /** The earliest arrival among the first n held packets, no later than now. */
  function OldestTs(slots: seq<Slot>, now: nat, n: nat): nat
    requires n <= |slots|
  {
    if n == 0 then now
    else
      var rest := OldestTs(slots, now, n - 1);
      if slots[n - 1].used && slots[n - 1].ts < rest then slots[n - 1].ts else rest
  }

  /** A measured wait plus the margin, truncated to the field's 32 bits and the ceiling. */
  function Measured(cfg: Config, elapsed: int): int {
    Min((elapsed + GROW_PAD_MS) % MOD, cfg.winMax)
  }

  function Grow(p: Peer, w: int, now: nat): Peer {
    if w > p.win then p.(win := w, lastAdjust := now) else p
  }

  function Adapt(cfg: Config, p: Peer, sn: u32, now: nat): Peer {
    if !cfg.adapt || !p.init then p
    else
      var c := Cmp(sn, p.last);
      if c == 0 then p
      else if c < 0 then Grow(p, Measured(cfg, now - p.lastDeliver), now)
      else if sn == Next(p.last) && p.filled > 0 then
        Grow(p, Measured(cfg, now - OldestTs(p.slots, now, |p.slots|)), now)
      else p
  }

  function Decay(cfg: Config, p: Peer, now: nat): Peer {
    if !cfg.adapt || now - p.lastAdjust < DECAY_MS then p
    else if p.win <= cfg.winMin then p.(win := cfg.winMin, lastAdjust := now)
    else
      var excess := p.win - cfg.winMin;
      var kept := excess * 3 / 4;
      p.(win := cfg.winMin + (if kept >= excess then excess - 1 else kept), lastAdjust := now)
  }

  function HoldWindow(cfg: Config, win: nat): nat {
    if cfg.maxHold != 0 && win > cfg.maxHold then cfg.maxHold else win
  }

  // ---- Choosing what to release ---------------------------------------------

  /** The scan a peer without a cursor runs for its lowest sequence. */
  function FirstScan(slots: seq<Slot>, i: nat, best: nat): (r: nat)
    requires i <= |slots| && best <= |slots|
    ensures r <= |slots|
    ensures r == best || i <= r < |slots|
    ensures (best < |slots| ==> slots[best].used) ==> (r < |slots| ==> slots[r].used)
    decreases |slots| - i
  {
    if i == |slots| then best
    else if !slots[i].used then FirstScan(slots, i + 1, best)
    else if best == |slots| then FirstScan(slots, i + 1, i)
    else
      var c := Cmp(slots[i].sn, slots[best].sn);
      if c < 0 || (c == 0 && slots[i].ts < slots[best].ts) then FirstScan(slots, i + 1, i)
      else FirstScan(slots, i + 1, best)
  }

  predicate Aged(s: Slot, hold: nat, now: nat) {
    s.used && s.ts <= now && now - s.ts >= hold
  }

  function Dist(sn: u32, want: u32): nat {
    if sn >= want then sn - want else sn - want + MOD
  }

  datatype AgedBest = AgedBest(ahead: nat, oldest: nat)

  function AgedStep(slots: seq<Slot>, want: u32, hold: nat, now: nat, i: nat, b: AgedBest): (r: AgedBest)
    requires i < |slots| && b.ahead <= |slots| && b.oldest <= |slots|
    ensures r.ahead <= |slots| && r.oldest <= |slots|
  {
    if !Aged(slots[i], hold, now) then b
    else
      AgedBest(
        if Cmp(slots[i].sn, want) >= 0
           && (b.ahead == |slots| || Dist(slots[i].sn, want) < Dist(slots[b.ahead].sn, want))
        then i else b.ahead,
        if b.oldest == |slots| || slots[i].ts < slots[b.oldest].ts then i else b.oldest)
  }

  /** One pass over the aged slots for the nearest one ahead and, separately, the oldest. */
  function AgedScan(slots: seq<Slot>, want: u32, hold: nat, now: nat, i: nat, b: AgedBest): (r: AgedBest)
    requires i <= |slots| && b.ahead <= |slots| && b.oldest <= |slots|
    ensures r.ahead <= |slots| && r.oldest <= |slots|
    decreases |slots| - i
  {
    if i == |slots| then b
    else AgedScan(slots, want, hold, now, i + 1, AgedStep(slots, want, hold, now, i, b))
  }

  function Pick(cfg: Config, p: Peer, now: nat): (c: Choice)
    ensures c.Choose? ==> c.slot < |p.slots|
  {
    var n := |p.slots|;
    if p.filled == 0 then Nothing
    else if !p.init then
      var f := FirstScan(p.slots, 0, n);
      if f < n then Choose(f, First) else Nothing
    else
      var want := Next(p.last);
      var s := FindSn(p.slots, want, 0);
      if s < n then Choose(s, InOrder)
      else
        var b := AgedScan(p.slots, want, HoldWindow(cfg, p.win), now, 0, AgedBest(n, n));
        if b.ahead < n then Choose(b.ahead, Forced)
        else if b.oldest < n then Choose(b.oldest, Forced)
        else Nothing
  }

  /** Free the slot, as a release does before it moves the cursor. */
  function FreeSlot(p: Peer, slot: nat): Peer
    requires slot < |p.slots|
  {
    p.(slots := p.slots[slot := p.slots[slot].(used := false)],
       filled := if p.filled > 0 then p.filled - 1 else 0)
  }

  function Take(cfg: Config, p: Peer, slot: nat, now: nat): Peer
    requires slot < |p.slots|
  {
    Decay(cfg, NoteDelivery(FreeSlot(p, slot), p.slots[slot].sn, now), now)
  }

  /** The payload a release from slot destroys. */
  function TakeLoss(p: Peer, slot: nat): seq<Dgram>
    requires slot < |p.slots|
  {
    Purged(FreeSlot(p, slot).slots, Advance(p, p.slots[slot].sn).last)
  }

  // ---- The peer table ----------------------------------------------------------

  function FreshPeer(cfg: Config, key: nat, now: nat): Peer {
    Peer(key, false, 0, 0, if cfg.adapt then cfg.winMin else cfg.winMax, now, now, now, 0,
         seq(cfg.depth, _ => EMPTY_SLOT))
  }

  function FindKey(tbl: seq<Peer>, key: nat, i: nat): (r: nat)
    requires i <= |tbl|
    ensures i <= r <= |tbl|
    ensures forall j :: i <= j < r ==> tbl[j].key != key
    ensures r < |tbl| ==> tbl[r].key == key
    decreases |tbl| - i
  {
    if i == |tbl| || tbl[i].key == key then i else FindKey(tbl, key, i + 1)
  }

  /** The least recently active entry, ties to the lowest index. */
  function LeastActive(tbl: seq<Peer>, i: nat, best: nat): (r: nat)
    requires best < |tbl| && i <= |tbl|
    ensures r < |tbl|
    ensures tbl[r].lastActivity <= tbl[best].lastActivity
    ensures forall j :: i <= j < |tbl| ==> tbl[r].lastActivity <= tbl[j].lastActivity
    decreases |tbl| - i
  {
    if i == |tbl| then best
    else LeastActive(tbl, i + 1, if tbl[i].lastActivity < tbl[best].lastActivity then i else best)
  }

  datatype Lookup = Found(at: nat) | TableFull

  function GetPeer(c: Ctx, ep: Endpoint, now: nat): (r: (Ctx, Lookup))
    requires |c.tbl| > 0
    ensures r.1.Found? ==> r.1.at < |r.0.tbl| && r.0.tbl[r.1.at].key == KeyOf(ep)
    ensures |r.0.tbl| == |c.tbl|
  {
    var k := KeyOf(ep);
    var at := FindKey(c.tbl, k, 0);
    if at < |c.tbl| then
      (c.(tbl := c.tbl[at := c.tbl[at].(lastActivity := now)]), Found(at))
    else
      var free := FindKey(c.tbl, 0, 0);
      if free < |c.tbl| then
        (c.(tbl := c.tbl[free := FreshPeer(c.cfg, k, now)]), Found(free))
      else
        var idle := LeastActive(c.tbl, 1, 0);
        if now - c.tbl[idle].lastActivity < PEER_IDLE_MS then (c, TableFull)
        else
          (c.(tbl := c.tbl[idle := FreshPeer(c.cfg, k, now)],
              stats := c.stats.(peersReclaimed := c.stats.peersReclaimed + 1,
                                reclaim := c.stats.reclaim + c.tbl[idle].filled)),
           Found(idle))
  }

  /** Entry i had sequence sn, which came at ts, go out as kind. */
  function NoteAt(c: Ctx, i: nat, sn: u32, ts: nat, now: nat, kind: Kind): Ctx
    requires i < |c.tbl|
  {
    var p := c.tbl[i];
    c.(tbl := c.tbl[i := NoteDelivery(p, sn, now)],
       stats := CountDelivery(c.stats, kind, |Purged(p.slots, Advance(p, sn).last)|, ts, now))
  }

  function AdaptAt(c: Ctx, i: nat, sn: u32, now: nat): Ctx
    requires i < |c.tbl|
  {
    c.(tbl := c.tbl[i := Adapt(c.cfg, c.tbl[i], sn, now)])
  }

  predicate Saturated(c: Ctx) {
    exists i :: 0 <= i < |c.tbl| && c.tbl[i].key != 0 && c.tbl[i].filled >= c.cfg.depth
  }

  datatype Ready = NoneReady | ReadyAt(peer: nat, slot: nat, kind: Kind)

  /** The round-robin scan, n entries past the rotating cursor. */
  function ReadyFrom(c: Ctx, now: nat, n: nat): (r: Ready)
    requires n <= |c.tbl| && c.rr < |c.tbl|
    ensures r.ReadyAt? ==> r.peer < |c.tbl| && r.slot < |c.tbl[r.peer].slots|
    decreases |c.tbl| - n
  {
    if n == |c.tbl| then NoneReady
    else
      var i := Wrap(c.rr + n, |c.tbl|);
      if c.tbl[i].key == 0 then ReadyFrom(c, now, n + 1)
      else match Pick(c.cfg, c.tbl[i], now)
        case Nothing => ReadyFrom(c, now, n + 1)
        case Choose(s, k) => ReadyAt(i, s, k)
  }

  lemma ReadyUnfolds(c: Ctx, now: nat, n: nat)
    requires n < |c.tbl| && c.rr < |c.tbl|
    ensures var i := Wrap(c.rr + n, |c.tbl|);
            var pick := if c.tbl[i].key == 0 then Nothing else Pick(c.cfg, c.tbl[i], now);
            ReadyFrom(c, now, n) == if pick.Choose? then ReadyAt(i, pick.slot, pick.kind) else ReadyFrom(c, now, n + 1)
  {
  }

  function TakeAt(c: Ctx, r: Ready, now: nat): Ctx
    requires r.ReadyAt? && r.peer < |c.tbl| && r.slot < |c.tbl[r.peer].slots|
  {
    var p := c.tbl[r.peer];
    c.(tbl := c.tbl[r.peer := Take(c.cfg, p, r.slot, now)],
       rr := Wrap(r.peer + 1, |c.tbl|),
       stats := CountDelivery(c.stats, r.kind, |TakeLoss(p, r.slot)|, p.slots[r.slot].ts, now))
  }
}
