/** How long the receive hook keeps a datagram, measured from its own arrival over whole runs; what a release is
    counted as; and how long a source keeps its entry. */
module HookWaits {
  import opened Serial
  import opened ReorderModel
  import opened ReorderRings
  import opened HookModel
  import opened HookConservation
  import opened HookOrder
  import opened HookPassing

  // ---- When what is held arrived ----------------------------------------------------------------

  ghost predicate InSlot(c: Ctx, s: Slot) {
    exists i, j :: 0 <= i < |c.tbl| && Held(c.tbl[i].slots, j) && c.tbl[i].slots[j] == s
  }

  /** The read is the arrival of what the slot holds, at the time and under the sequence it says. */
  predicate Brought(r: Read, s: Slot) {
    Sequenced(r) && s == Slot(true, r.at, SeqOf(r.pkt.data), r.pkt)
  }

  lemma UpdateSlots(c: Ctx, d: Ctx, i: nat, q: Peer, s: Slot)
    requires i < |c.tbl| && d.tbl == c.tbl[i := q] && InSlot(d, s)
    ensures InSlot(c, s) || exists j :: Held(q.slots, j) && q.slots[j] == s
  {
    var a, b :| 0 <= a < |d.tbl| && Held(d.tbl[a].slots, b) && d.tbl[a].slots[b] == s;
    if a == i {
      assert Held(q.slots, b);
    } else {
      assert Held(c.tbl[a].slots, b);
    }
  }

  lemma LookupSlots(c: Ctx, ep: Endpoint, now: nat, s: Slot)
    requires |c.tbl| > 0 && InSlot(GetPeer(c, ep, now).0, s)
    ensures InSlot(c, s)
  {
    var (d, at) := GetPeer(c, ep, now);
    if at.Found? {
      UpdateSlots(c, d, at.at, d.tbl[at.at], s);
    }
  }

  lemma InsertSlots(p: Peer, sn: u32, ts: nat, d: Dgram, j: int)
    requires |p.slots| > 0 && |d.data| <= MAX_PKT_BYTES
    ensures var q := Insert(p, sn, ts, d).0;
            Held(q.slots, j) ==> (Held(p.slots, j) && p.slots[j] == q.slots[j]) || q.slots[j] == Slot(true, ts, sn, d)
  {
    assert d.(data := Clip(d.data)) == d;
  }

  lemma ArriveSlots(c: Ctx, r: Read, s: Slot)
    requires CtxInv(c) && Filed(c) && !Saturated(c) && Sequenced(r) && ReadOk(r)
    requires InSlot(HookModel.Arrive(c, r.pkt, r.at).c, s)
    ensures InSlot(c, s) || Brought(r, s)
  {
    var d, now, sn := r.pkt, r.at, SeqOf(r.pkt.data);
    LookupKeeps(c, d.from, now);
    NeverEvicts(c, d, now);
    var (c1, at) := GetPeer(c, d.from, now);
    if at.Found? {
      Entry(c1, at.at);
      var p := Adapt(c1.cfg, c1.tbl[at.at], sn, now);
      var q := Insert(p, sn, now, d).0;
      UpdateSlots(c1, HookModel.Arrive(c, d, now).c, at.at, q, s);
      if !InSlot(c1, s) {
        var j :| Held(q.slots, j) && q.slots[j] == s;
        InsertSlots(p, sn, now, d, j);
        assert Held(p.slots, j) ==> Held(c1.tbl[at.at].slots, j);
      } else {
        LookupSlots(c, d.from, now, s);
      }
    }
  }

  lemma ReadSlots(c: Ctx, r: Read, s: Slot)
    requires CtxInv(c) && Filed(c) && !Saturated(c) && ReadOk(r) && InSlot(OnRead(c, r).c, s)
    ensures InSlot(c, s) || Brought(r, s)
  {
    if Sequenced(r) {
      ArriveSlots(c, r, s);
    }
  }

  /** One of receive calls i to j brought it. */
  ghost predicate BroughtIn(input: seq<Read>, i: nat, j: nat, s: Slot) {
    exists k :: i <= k < j && k < |input| && Brought(input[k], s)
  }

  lemma {:induction false} DrainSlots(c: Ctx, input: seq<Read>, at: nat, cap: nat, s: Slot)
    requires CtxInv(c) && Filed(c) && InputOk(input) && at <= |input| && InSlot(Drain(c, input, at, cap).c, s)
    ensures InSlot(c, s) || BroughtIn(input, at, Drain(c, input, at, cap).used, s)
    decreases cap
  {
    if cap == 0 || Saturated(c) || at == |input| {
    } else {
      OnReadKeeps(c, input[at]);
      OnReadOrder(c, input[at], 1);
      var e := OnRead(c, input[at]);
      if e.GoOn? {
        DrainSlots(e.c, input, at + 1, cap - 1, s);
      }
      if InSlot(e.c, s) {
        ReadSlots(c, input[at], s);
      }
    }
  }

  lemma TakeSlots(c: Ctx, r: Ready, now: nat, s: Slot)
    requires r.ReadyAt? && r.peer < |c.tbl| && r.slot < |c.tbl[r.peer].slots| && InSlot(TakeAt(c, r, now), s)
    ensures InSlot(c, s)
  {
    var p, q := c.tbl[r.peer], Take(c.cfg, c.tbl[r.peer], r.slot, now);
    UpdateSlots(c, TakeAt(c, r, now), r.peer, q, s);
    if j :| Held(q.slots, j) && q.slots[j] == s {
      assert Held(p.slots, j) && p.slots[j] == s;
    }
  }

  lemma CallSlots(c: Ctx, input: seq<Read>, cap: nat, now: nat, s: Slot)
    requires CtxInv(c) && Filed(c) && InputOk(input) && InSlot(Call(c, input, cap, now).c, s)
    ensures InSlot(AfterDrain(c, input, cap), s)
  {
    DrainKeeps(c, input, 0, cap);
    var d := Drain(c, input, 0, cap);
    var r := ReadyFrom(d.c, now, 0);
    if d.out == WouldBlock && r.ReadyAt? {
      TakeSlots(d.c, r, now, s);
    }
  }

  /** Call i of a run took the packet in. */
  ghost predicate BroughtAt(calls: seq<Invocation>, ds: seq<Drained>, i: nat, s: Slot) {
    i < |calls| && i < |ds| && BroughtIn(calls[i].input, 0, ds[i].used, s)
  }

  /** In every run what is held was held at the start or came with an earlier read, at the time its slot says. */
  lemma {:induction false} RunSlots(c: Ctx, calls: seq<Invocation>, cap: nat, ds: seq<Drained>, n: nat, s: Slot)
    requires IsRun(c, calls, cap, ds) && Filed(c) && n <= |calls| && InSlot(Before(c, ds, n), s)
    ensures InSlot(c, s) || exists i :: 0 <= i < n && BroughtAt(calls, ds, i, s)
  {
    if n == 0 {
    } else {
      assert CallAt(c, calls, cap, ds, n - 1);
      RunFiled(c, calls, cap, ds, n - 1);
      var b, k := Before(c, ds, n - 1), calls[n - 1];
      CallSlots(b, k.input, cap, k.now, s);
      DrainSlots(b, k.input, 0, cap, s);
      CallIsDrain(b, k.input, cap, k.now);
      if InSlot(b, s) {
        RunSlots(c, calls, cap, ds, n - 1, s);
      } else {
        assert BroughtAt(calls, ds, n - 1, s);
      }
    }
  }

  // ---- What goes out, after how long, counted as what -------------------------------------------

  /** How long a source's packets may be held. */
  function WindowOf(c: Ctx, key: nat): nat {
    var at := FindKey(c.tbl, key, 0);
    if at < |c.tbl| then HoldWindow(c.cfg, c.tbl[at].win) else 0
  }

  /** One delivery after a wait of w, to a source whose cursor was that far behind, or that had none. */
  ghost predicate CountedOnce(was: Stats, next: Stats, cur: Cursor, gap: int, w: nat) {
    && next.first == was.first + Bit(cur == NoCursor) && next.inOrder == was.inOrder + Bit(gap == 1)
    && next.forced == was.forced + Bit(gap > 1) && next.evicted == was.evicted
    && next.holds.sum == was.holds.sum + w
    && next.holds.max >= w && next.holds.max >= was.holds.max
    && (next.holds.max == w || next.holds.max == was.holds.max)
    && next.holds.hist == was.holds.hist[RangeOf(w) := was.holds.hist[RangeOf(w)] + 1]
  }

  function GapTo(cur: Cursor, sn: u32): int { if cur.At? then Cmp(sn, cur.sn) else 0 }

  /** The release of s turned table b into d: past a gap only after its window, and counted by what its source's
      cursor was and by how long it was held. */
  ghost predicate ReleasedAs(b: Ctx, d: Ctx, s: Slot, now: nat) {
    var key := KeyOf(s.pkt.from);
    var cur, gap := CursorOf(b, key), GapTo(CursorOf(b, key), s.sn);
    && InSlot(b, s) && (cur.At? ==> gap >= 1)
    && (gap > 1 ==> s.ts + WindowOf(b, key) <= now)
    && CountedOnce(b.stats, d.stats, cur, gap, Waited(s.ts, now))
  }

  lemma DeliveryIsCounted(s: Stats, cur: Cursor, sn: u32, kind: Kind, purged: nat, ts: nat, now: nat)
    requires Follows(cur, sn, kind)
    ensures CountedOnce(s, CountDelivery(s, kind, purged, ts, now), cur, GapTo(cur, sn), Waited(ts, now))
  {
  }

  lemma PickWaited(cfg: Config, p: Peer, now: nat)
    requires PeerInv(p) && Pick(cfg, p, now).Choose?
    ensures var k := Pick(cfg, p, now);
            Held(p.slots, k.slot) && (k.kind == Forced ==> p.slots[k.slot].ts + HoldWindow(cfg, p.win) <= now)
  {
    PickHeld(cfg, p, now);
    if p.init {
      ForcedChoice(cfg, p, now);
    }
  }

  lemma ReleaseIsCounted(c: Ctx, now: nat)
    requires CtxInv(c) && Filed(c) && ReadyFrom(c, now, 0).ReadyAt?
    ensures var r := ReadyFrom(c, now, 0); ReleasedAs(c, TakeAt(c, r, now), c.tbl[r.peer].slots[r.slot], now)
  {
    ReadyIsHeld(c, now, 0);
    var r := ReadyFrom(c, now, 0);
    var p, s := c.tbl[r.peer], c.tbl[r.peer].slots[r.slot];
    Entry(c, r.peer);
    PickWaited(c.cfg, p, now);
    assert EntryFiled(p) && FiledRight(p.key, s);
    OneEntry(c, p.key, r.peer);
    ReleaseOrder(c, now, p.key);
    DeliveryIsCounted(c.stats, CursorOf(c, p.key), s.sn, r.kind, |TakeLoss(p, r.slot)|, s.ts, now);
  }

  /** A read counts no delivery. */
  lemma {:induction false} DrainCountsNone(c: Ctx, input: seq<Read>, at: nat, cap: nat)
    requires CtxInv(c) && Filed(c) && InputOk(input) && at <= |input|
    ensures var s, t := c.stats, Drain(c, input, at, cap).c.stats;
            && t.first == s.first && t.inOrder == s.inOrder && t.forced == s.forced && t.evicted == s.evicted
            && t.holds == s.holds
    decreases cap
  {
    if cap == 0 || Saturated(c) || at == |input| {
    } else {
      OnReadKeeps(c, input[at]);
      OnReadOrder(c, input[at], 1);
      ReadCounts(c, input[at]);
      if OnRead(c, input[at]).GoOn? {
        DrainCountsNone(OnRead(c, input[at]).c, input, at + 1, cap - 1);
      }
    }
  }

  lemma CallReleases(c: Ctx, input: seq<Read>, cap: nat, now: nat)
    requires CtxInv(c) && Filed(c) && InputOk(input)
    ensures CtxInv(AfterDrain(c, input, cap)) && Filed(AfterDrain(c, input, cap))
    ensures var b, d := AfterDrain(c, input, cap), Call(c, input, cap, now);
            if d.out.Released? then exists s: Slot :: s.pkt == d.out.pkt && ReleasedAs(b, d.c, s, now) else d.c == b
  {
    DrainKeeps(c, input, 0, cap);
    DrainOrder(c, input, 0, cap, 1);
    DrainNeverReleases(c, input, 0, cap);
    var b := Drain(c, input, 0, cap);
    if b.out == WouldBlock && ReadyFrom(b.c, now, 0).ReadyAt? {
      ReleaseIsCounted(b.c, now);
    }
  }

  /** Call j released s, which was held at the start or came with a read of call j or before. */
  ghost predicate ReleasesHeld(c: Ctx, calls: seq<Invocation>, cap: nat, ds: seq<Drained>, j: nat, s: Slot)
    requires j < |calls| && j < |ds| && CallAt(c, calls, cap, ds, j)
  {
    && (InSlot(c, s) || exists i :: 0 <= i <= j && BroughtAt(calls, ds, i, s))
    && ReleasedAs(AfterDrain(Before(c, ds, j), calls[j].input, cap), ds[j].c, s, calls[j].now)
  }

  /** In every run: a packet handed over from the buffer past a gap in its source's sequences has waited, from
      when it was read from the kernel, at least as long as its source's window; each is counted once as first,
      in order or forced by where its source's cursor was, and its wait is measured from that read. */
  lemma {:induction false} ForcedWaitsOut(c: Ctx, calls: seq<Invocation>, cap: nat, ds: seq<Drained>, j: nat)
    requires IsRun(c, calls, cap, ds) && Filed(c) && j < |calls| && ds[j].out.Released?
    ensures CallAt(c, calls, cap, ds, j)
    ensures exists s: Slot :: s.pkt == ds[j].out.pkt && ReleasesHeld(c, calls, cap, ds, j, s)
  {
    assert CallAt(c, calls, cap, ds, j);
    RunFiled(c, calls, cap, ds, j);
    var b, k := Before(c, ds, j), calls[j];
    CallReleases(b, k.input, cap, k.now);
    var s: Slot :| s.pkt == ds[j].out.pkt && ReleasedAs(AfterDrain(b, k.input, cap), ds[j].c, s, k.now);
    DrainSlots(b, k.input, 0, cap, s);
    CallIsDrain(b, k.input, cap, k.now);
    if InSlot(b, s) {
      RunSlots(c, calls, cap, ds, j, s);
    } else {
      assert BroughtAt(calls, ds, j, s);
    }
  }

  // ---- How long a source keeps its entry -----------------------------------------------------------

  /** The source has an entry that was active at t or since. */
  ghost predicate ActiveSince(c: Ctx, key: nat, t: nat) {
    var at := FindKey(c.tbl, key, 0);
    at < |c.tbl| && c.tbl[at].lastActivity >= t
  }

  /** A clock reading at which a source active at t cannot have been idle for thirty seconds. */
  predicate Recent(t: nat, now: nat) { t <= now < t + PEER_IDLE_MS }

  lemma LookupKeepsActive(c: Ctx, ep: Endpoint, now: nat, key: nat, t: nat)
    requires |c.tbl| > 0 && Filed(c) && key != 0 && KeyOf(ep) != 0 && ActiveSince(c, key, t) && Recent(t, now)
    ensures var d := GetPeer(c, ep, now).0; ActiveSince(d, key, t) && CursorOf(d, key) == CursorOf(c, key)
  {
    var at, d := FindKey(c.tbl, key, 0), GetPeer(c, ep, now).0;
    LookupFiles(c, ep, now);
    OneEntry(d, key, at);
  }

  lemma UpdateKeepsActive(c: Ctx, d: Ctx, i: nat, q: Peer, key: nat, t: nat)
    requires Filed(c) && Filed(d) && i < |c.tbl| && d.tbl == c.tbl[i := q] && q.key == c.tbl[i].key && key != 0
    requires ActiveSince(c, key, t) && q.lastActivity >= Min(c.tbl[i].lastActivity, t)
    ensures ActiveSince(d, key, t)
  {
    OneEntry(d, key, FindKey(c.tbl, key, 0));
  }

  lemma ReadKeepsActive(c: Ctx, r: Read, key: nat, t: nat)
    requires CtxInv(c) && Filed(c) && !Saturated(c) && ReadOk(r) && key != 0 && ActiveSince(c, key, t)
    requires Sequenced(r) ==> Recent(t, r.at)
    ensures var d := OnRead(c, r).c; ActiveSince(d, key, t) && CursorOf(d, key) == CursorOf(c, key)
  {
    OnReadOrder(c, r, key);
    if Sequenced(r) {
      LookupKeepsActive(c, r.pkt.from, r.at, key, t);
      ArriveKeepsActive(c, r.pkt, r.at, key, t);
    }
  }

  /** What an arrival does to the activity of sources: nothing beyond its lookup. */
  lemma ArriveActivity(c: Ctx, d: Dgram, now: nat, i: nat)
    requires CtxInv(c) && Filed(c) && !Saturated(c) && KeyOf(d.from) != 0 && SEQ_MIN_PAY <= |d.data| <= MAX_PKT_BYTES
    requires i < |c.tbl|
    ensures var b, e := GetPeer(c, d.from, now).0, HookModel.Arrive(c, d, now).c;
            && |e.tbl| == |b.tbl| == |c.tbl| && e.tbl[i].key == b.tbl[i].key
            && e.tbl[i].lastActivity == b.tbl[i].lastActivity
            && CursorIn(e.tbl[i]) == CursorIn(b.tbl[i])
  {
    LookupKeeps(c, d.from, now);
    NeverEvicts(c, d, now);
    var (b, at) := GetPeer(c, d.from, now);
    if at.Found? {
      Entry(b, at.at);
    }
  }

  lemma SameEntry(b: Ctx, e: Ctx, key: nat)
    requires |e.tbl| == |b.tbl| && forall i :: 0 <= i < |b.tbl| ==> e.tbl[i].key == b.tbl[i].key
    ensures FindKey(e.tbl, key, 0) == FindKey(b.tbl, key, 0)
  {
    var i, j := FindKey(b.tbl, key, 0), FindKey(e.tbl, key, 0);
    assert i < |b.tbl| ==> e.tbl[i].key == key;
    assert j < |e.tbl| ==> b.tbl[j].key == key;
  }

  lemma ArriveKeepsActive(c: Ctx, d: Dgram, now: nat, key: nat, t: nat)
    requires CtxInv(c) && Filed(c) && !Saturated(c) && KeyOf(d.from) != 0 && SEQ_MIN_PAY <= |d.data| <= MAX_PKT_BYTES
    requires ActiveSince(GetPeer(c, d.from, now).0, key, t)
    ensures var b, e := GetPeer(c, d.from, now).0, HookModel.Arrive(c, d, now).c;
            ActiveSince(e, key, t) && CursorOf(e, key) == CursorOf(b, key)
  {
    var b, e := GetPeer(c, d.from, now).0, HookModel.Arrive(c, d, now).c;
    forall i | 0 <= i < |b.tbl|
      ensures |e.tbl| == |b.tbl| && e.tbl[i].key == b.tbl[i].key && e.tbl[i].lastActivity == b.tbl[i].lastActivity
      ensures CursorIn(e.tbl[i]) == CursorIn(b.tbl[i])
    {
      ArriveActivity(c, d, now, i);
    }
    ArriveActivity(c, d, now, 0);
    SameEntry(b, e, key);
  }

  /** A sequenced datagram that the table takes in, or has passed before, shows its source active. */
  lemma ReadIsHeard(c: Ctx, r: Read)
    requires CtxInv(c) && Filed(c) && !Saturated(c) && ReadOk(r) && Sequenced(r)
    requires !NoRoomFor(c, KeyOf(r.pkt.from), r.at)
    ensures ActiveSince(OnRead(c, r).c, KeyOf(r.pkt.from), r.at)
  {
    var key, b := KeyOf(r.pkt.from), GetPeer(c, r.pkt.from, r.at).0;
    LookupFiles(c, r.pkt.from, r.at);
    if FindKey(c.tbl, key, 0) == |c.tbl| {
      LookupRoom(c, r.pkt.from, r.at);
    }
    OneEntry(b, key, GetPeer(c, r.pkt.from, r.at).1.at);
    ArriveKeepsActive(c, r.pkt, r.at, key, r.at);
  }

  lemma {:induction false} DrainKeepsActive(c: Ctx, input: seq<Read>, at: nat, cap: nat, key: nat, t: nat)
    requires CtxInv(c) && Filed(c) && InputOk(input) && at <= |input| && key != 0 && ActiveSince(c, key, t)
    requires forall k :: at <= k < Drain(c, input, at, cap).used && Sequenced(input[k]) ==> Recent(t, input[k].at)
    ensures var d := Drain(c, input, at, cap).c; ActiveSince(d, key, t) && CursorOf(d, key) == CursorOf(c, key)
    decreases cap
  {
    if cap == 0 || Saturated(c) || at == |input| {
    } else {
      OnReadKeeps(c, input[at]);
      OnReadOrder(c, input[at], key);
      ReadKeepsActive(c, input[at], key, t);
      if OnRead(c, input[at]).GoOn? {
        DrainKeepsActive(OnRead(c, input[at]).c, input, at + 1, cap - 1, key, t);
      }
    }
  }

  /** A release shows its own source active and leaves the others as they were. */
  lemma ReleaseIsHeard(c: Ctx, now: nat, key: nat, t: nat)
    requires CtxInv(c) && Filed(c) && key != 0 && ReadyFrom(c, now, 0).ReadyAt?
    ensures var r := ReadyFrom(c, now, 0); var d, s := TakeAt(c, r, now), c.tbl[r.peer].slots[r.slot];
            && (KeyOf(s.pkt.from) == key ==> ActiveSince(d, key, now))
            && (ActiveSince(c, key, t) && t <= now ==> ActiveSince(d, key, t))
  {
    ReadyIsHeld(c, now, 0);
    var r := ReadyFrom(c, now, 0);
    var p := c.tbl[r.peer];
    Entry(c, r.peer);
    PickHeld(c.cfg, p, now);
    assert EntryFiled(p) && FiledRight(p.key, p.slots[r.slot]);
    ReleaseOrder(c, now, key);
    TakeFiles(c.cfg, p, r.slot, now);
    if p.key == key {
      OneEntry(c, key, r.peer);
      OneEntry(TakeAt(c, r, now), key, r.peer);
    }
    if ActiveSince(c, key, t) && t <= now {
      UpdateKeepsActive(c, TakeAt(c, r, now), r.peer, Take(c.cfg, p, r.slot, now), key, t);
    }
  }

  /** In every run a source active at t keeps its entry, and with it its cursor and what it holds, through every
      call whose clock readings lie within thirty seconds of t. */
  lemma {:induction false} HeardKeepsEntry(c: Ctx, calls: seq<Invocation>, cap: nat, ds: seq<Drained>, key: nat, j: nat,
                                           t: nat)
    requires IsRun(c, calls, cap, ds) && Filed(c) && key != 0 && j < |calls| && ActiveSince(Before(c, ds, j), key, t)
    requires Recent(t, calls[j].now)
    requires forall k :: 0 <= k < ds[j].used && Sequenced(calls[j].input[k]) ==> Recent(t, calls[j].input[k].at)
    ensures KeptAt(c, calls, cap, ds, key, j) && ActiveSince(ds[j].c, key, t)
  {
    assert CallAt(c, calls, cap, ds, j);
    RunFiled(c, calls, cap, ds, j);
    var b, k := Before(c, ds, j), calls[j];
    CallIsDrain(b, k.input, cap, k.now);
    DrainKeepsActive(b, k.input, 0, cap, key, t);
    DrainKeeps(b, k.input, 0, cap);
    DrainOrder(b, k.input, 0, cap, key);
    var d := Drain(b, k.input, 0, cap);
    if d.out == WouldBlock && ReadyFrom(d.c, k.now, 0).ReadyAt? {
      ReleaseIsHeard(d.c, k.now, key, t);
    }
  }
}
