/** Which datagrams the receive hook buffers and which go straight to the game, read by read, and so the order
    of everything it delivers. */
module HookPassing {
  import opened Serial
  import opened ReorderModel
  import opened ReorderRings
  import opened ReorderRuns
  import opened HookModel
  import opened HookConservation
  import opened HookOrder

  // ---- What can be seen of a source from outside -------------------------------------------

  /** The sequence is at or behind the source's cursor. */
  ghost predicate Behind(c: Ctx, key: nat, sn: u32) {
    CursorOf(c, key).At? && Cmp(sn, CursorOf(c, key).sn) <= 0
  }

  ghost predicate Carries(s: Slot, key: nat, sn: u32) {
    s.used && KeyOf(s.pkt.from) == key && |s.pkt.data| >= SEQ_MIN_PAY && SeqOf(s.pkt.data) == sn
  }

  /** The table holds a packet of that source with that sequence. */
  ghost predicate HeldBy(c: Ctx, key: nat, sn: u32) {
    exists i, j :: 0 <= i < |c.tbl| && 0 <= j < |c.tbl[i].slots| && Carries(c.tbl[i].slots[j], key, sn)
  }

  /** The table holds this very datagram. */
  ghost predicate Buffers(c: Ctx, d: Dgram) {
    exists i, j :: 0 <= i < |c.tbl| && Held(c.tbl[i].slots, j) && c.tbl[i].slots[j].pkt == d
  }

  /** The game has had this sequence, or a later one, or its packet is waiting. */
  ghost predicate Repeats(c: Ctx, d: Dgram)
    requires |d.data| >= SEQ_MIN_PAY
  {
    Behind(c, KeyOf(d.from), SeqOf(d.data)) || HeldBy(c, KeyOf(d.from), SeqOf(d.data))
  }

  /** Every entry belongs to another source that was active in the last thirty seconds. */
  ghost predicate NoRoomFor(c: Ctx, key: nat, now: nat) {
    forall i :: 0 <= i < |c.tbl| ==>
      c.tbl[i].key != 0 && c.tbl[i].key != key && now - c.tbl[i].lastActivity < PEER_IDLE_MS
  }

  // ---- One arrival ----------------------------------------------------------------------------

  /** What a table holds of a source is in the source's entry. */
  lemma HolderIsOwn(c: Ctx, key: nat, sn: u32)
    requires Filed(c) && HeldBy(c, key, sn)
    ensures exists i, j ::
              0 <= i < |c.tbl| && c.tbl[i].key == key && Held(c.tbl[i].slots, j) && c.tbl[i].slots[j].sn == sn
  {
    var i, j :| 0 <= i < |c.tbl| && 0 <= j < |c.tbl[i].slots| && Carries(c.tbl[i].slots[j], key, sn);
    assert EntryFiled(c.tbl[i]) && FiledRight(c.tbl[i].key, c.tbl[i].slots[j]);
    assert Held(c.tbl[i].slots, j);
  }

  /** In a source's own entry, what finding a sequence means. */
  lemma HeldIff(c: Ctx, i: nat, sn: u32)
    requires Filed(c) && i < |c.tbl| && c.tbl[i].key != 0
    ensures HeldBy(c, c.tbl[i].key, sn) <==> FindSn(c.tbl[i].slots, sn, 0) < |c.tbl[i].slots|
  {
    var j := FindSn(c.tbl[i].slots, sn, 0);
    assert EntryFiled(c.tbl[i]);
    if j < |c.tbl[i].slots| {
      assert FiledRight(c.tbl[i].key, c.tbl[i].slots[j]);
      assert Carries(c.tbl[i].slots[j], c.tbl[i].key, sn);
    }
    if HeldBy(c, c.tbl[i].key, sn) {
      HolderIsOwn(c, c.tbl[i].key, sn);
    }
  }

  /** A source without an entry has no cursor and nothing held. */
  lemma StrangerIsFresh(c: Ctx, d: Dgram)
    requires Filed(c) && |d.data| >= SEQ_MIN_PAY && FindKey(c.tbl, KeyOf(d.from), 0) == |c.tbl|
    ensures !Repeats(c, d)
  {
    var key, sn := KeyOf(d.from), SeqOf(d.data);
    if HeldBy(c, key, sn) {
      HolderIsOwn(c, key, sn);
    }
  }

  /** What an insertion with room does with a packet. */
  lemma InsertIff(p: Peer, sn: u32, now: nat, d: Dgram)
    requires PeerInv(p) && p.filled < |p.slots| && |d.data| <= MAX_PKT_BYTES
    ensures var (q, r) := Insert(p, sn, now, d);
            && (r == StaleSeq <==> p.init && Cmp(sn, p.last) <= 0)
            && (r == DuplicateSeq <==> !(p.init && Cmp(sn, p.last) <= 0) && FindSn(p.slots, sn, 0) < |p.slots|)
            && (r == Buffered <==> !(p.init && Cmp(sn, p.last) <= 0) && FindSn(p.slots, sn, 0) == |p.slots|)
            && (r == Buffered ==> exists j :: Held(q.slots, j) && q.slots[j].pkt == d)
  {
    InsertWithRoom(p, sn, now, d);
    var (q, r) := Insert(p, sn, now, d);
    assert d.(data := Clip(d.data)) == d;
    if r == Buffered {
      CountBounds(p.slots);
      assert Held(q.slots, FindFree(p.slots, 0));
    }
  }

  /** A source without an entry gets one by taking over another's. */
  ghost predicate TakesOver(c: Ctx, key: nat, now: nat) {
    (forall i :: 0 <= i < |c.tbl| ==> c.tbl[i].key != 0 && c.tbl[i].key != key) && !NoRoomFor(c, key, now)
  }

  /** From c to e these counters moved, and no others. */
  ghost predicate Counted(c: Ctx, e: Ctx, stale: bool, duplicate: bool, full: bool, took: bool, lost: nat) {
    var s := c.stats;
    e.stats == s.(stale := s.stale + Bit(stale), duplicate := s.duplicate + Bit(duplicate),
                  tableFull := s.tableFull + Bit(full), peersReclaimed := s.peersReclaimed + Bit(took),
                  reclaim := s.reclaim + lost)
  }

  /** Offered to its source's own entry, with room in it. */
  lemma ArriveAtIff(c: Ctx, i: nat, d: Dgram, now: nat)
    requires i < |c.tbl| && PeerInv(c.tbl[i]) && c.tbl[i].filled < |c.tbl[i].slots|
    requires SEQ_MIN_PAY <= |d.data| <= MAX_PKT_BYTES
    ensures var a, p, sn := ArriveAt(c, i, d, now), c.tbl[i], SeqOf(d.data);
            var stale, dup := p.init && Cmp(sn, p.last) <= 0, FindSn(p.slots, sn, 0) < |p.slots|;
            && a.out == (if stale || dup then PassedThrough(d) else WouldBlock)
            && (a.out == WouldBlock ==> Buffers(a.c, d))
            && Counted(c, a.c, stale, !stale && dup, false, false, 0)
  {
    var sn := SeqOf(d.data);
    var p := Adapt(c.cfg, c.tbl[i], sn, now);
    AdaptOrder(c.cfg, c.tbl[i], sn, now);
    assert p.filled == c.tbl[i].filled && PeerInv(p);
    InsertIff(p, sn, now, d);
    var (q, r) := Insert(p, sn, now, d);
    var a := ArriveAt(c, i, d, now);
    if r == Buffered {
      var j :| Held(q.slots, j) && q.slots[j].pkt == d;
      assert a.c.tbl[i] == q;
    }
  }

  /** A sequenced datagram goes straight to the game exactly when it repeats or when there is no entry for
      its source; otherwise it is in the table afterwards. */
  lemma ArriveIff(c: Ctx, d: Dgram, now: nat)
    requires CtxInv(c) && Filed(c) && !Saturated(c) && KeyOf(d.from) != 0
    requires SEQ_MIN_PAY <= |d.data| <= MAX_PKT_BYTES
    ensures var a, key, sn := HookModel.Arrive(c, d, now), KeyOf(d.from), SeqOf(d.data);
            && a.out == (if NoRoomFor(c, key, now) then TableIsFull(d)
                         else if Repeats(c, d) then PassedThrough(d) else WouldBlock)
            && (NoRoomFor(c, key, now) ==> !Repeats(c, d))
            && (a.out == WouldBlock ==> Buffers(a.c, d))
            && Counted(c, a.c, Behind(c, key, sn), !Behind(c, key, sn) && HeldBy(c, key, sn), NoRoomFor(c, key, now),
                       TakesOver(c, key, now), |ReclaimedBy(c, d.from, now)|)
  {
    var key, sn := KeyOf(d.from), SeqOf(d.data);
    var at := FindKey(c.tbl, key, 0);
    LookupKeeps(c, d.from, now);
    if at < |c.tbl| {
      Entry(c, at);
      HeldIff(c, at, sn);
      assert c.tbl[at].key == key;
      ArriveAtIff(GetPeer(c, d.from, now).0, at, d, now);
    } else {
      StrangerIsFresh(c, d);
      StrangerArrives(c, d, now);
    }
  }

  lemma StrangerArrives(c: Ctx, d: Dgram, now: nat)
    requires CtxInv(c) && KeyOf(d.from) != 0 && FindKey(c.tbl, KeyOf(d.from), 0) == |c.tbl|
    requires SEQ_MIN_PAY <= |d.data| <= MAX_PKT_BYTES
    ensures var a, full := HookModel.Arrive(c, d, now), NoRoomFor(c, KeyOf(d.from), now);
            && a.out == (if full then TableIsFull(d) else WouldBlock)
            && (!full ==> Buffers(a.c, d))
            && Counted(c, a.c, false, false, full, TakesOver(c, KeyOf(d.from), now), |ReclaimedBy(c, d.from, now)|)
  {
    LookupKeeps(c, d.from, now);
    FreshKeeps(c.cfg, KeyOf(d.from), now);
    LookupRoom(c, d.from, now);
    var (c1, found) := GetPeer(c, d.from, now);
    if found.Found? {
      ArriveAtIff(c1, found.at, d, now);
    }
  }

  /** A source without an entry gets a fresh one unless there is no room. */
  lemma LookupRoom(c: Ctx, ep: Endpoint, now: nat)
    requires CtxInv(c) && FindKey(c.tbl, KeyOf(ep), 0) == |c.tbl| && KeyOf(ep) != 0
    ensures var (d, at) := GetPeer(c, ep, now);
            && (at.TableFull? <==> NoRoomFor(c, KeyOf(ep), now))
            && (at.TableFull? ==> d == c)
            && (at.Found? ==> d.tbl[at.at] == FreshPeer(c.cfg, KeyOf(ep), now))
            && Counted(c, d, false, false, false, TakesOver(c, KeyOf(ep), now), |ReclaimedBy(c, ep, now)|)
  {
    var free := FindKey(c.tbl, 0, 0);
    if free < |c.tbl| {
      assert c.tbl[free].key == 0;
    } else {
      var idle := LeastActive(c.tbl, 1, 0);
      Entry(c, idle);
      HeldCopies(c.tbl[idle].slots, |c.tbl[idle].slots|, Dgram(ep, []));
      if now - c.tbl[idle].lastActivity < PEER_IDLE_MS {
        assert NoRoomFor(c, KeyOf(ep), now);
      }
    }
  }

  // ---- One read of a drain -----------------------------------------------------------------------

  /** An answer that ends the drain with nothing for the game. */
  predicate NoBytes(r: Read) { r.Stop? || (r.Packet? && r.pkt.data == []) }

  /** A datagram the buffer does not look at. */
  predicate Unsequenced(r: Read) {
    r.Packet? && r.pkt.data != [] && r.pkt.data != WAKE_MAGIC && !Sequenced(r)
  }

  /** The read leaves the drain going. */
  ghost predicate GoesOn(c: Ctx, r: Read) {
    && !NoBytes(r) && !Unsequenced(r)
    && (Sequenced(r) ==> !NoRoomFor(c, KeyOf(r.pkt.from), r.at) && !Repeats(c, r.pkt))
  }

  /** What the game gets from a read that ends the drain. */
  ghost function Ended(c: Ctx, r: Read): Outcome {
    if NoBytes(r) || !r.Packet? then WouldBlock
    else if Unsequenced(r) then Bypassed(r.pkt)
    else if NoRoomFor(c, KeyOf(r.pkt.from), r.at) then TableIsFull(r.pkt) else PassedThrough(r.pkt)
  }

  /** What one read does, by what it brings and what the table has of its source. */
  lemma ReadIff(c: Ctx, r: Read)
    requires CtxInv(c) && Filed(c) && !Saturated(c) && ReadOk(r)
    ensures var s := OnRead(c, r);
            && (s.GoOn? <==> GoesOn(c, r))
            && (s.Done? ==> s.out == Ended(c, r))
            && (s.GoOn? && Sequenced(r) ==> Buffers(s.c, r.pkt))
  {
    if Sequenced(r) {
      ArriveIff(c, r.pkt, r.at);
    }
  }

  /** And what it counts. */
  lemma ReadCounts(c: Ctx, r: Read)
    requires CtxInv(c) && Filed(c) && !Saturated(c) && ReadOk(r)
    ensures var e := OnRead(c, r).c;
            if Sequenced(r) then
              var key, sn := KeyOf(r.pkt.from), SeqOf(r.pkt.data);
              Counted(c, e, Behind(c, key, sn), !Behind(c, key, sn) && HeldBy(c, key, sn), NoRoomFor(c, key, r.at),
                      TakesOver(c, key, r.at), |ReclaimedBy(c, r.pkt.from, r.at)|)
            else e == c.(stats := c.stats.(short := c.stats.short + Bit(Unsequenced(r)),
                                           emsgsize := c.stats.emsgsize + Bit(r.TooBig?)))
  {
    if Sequenced(r) {
      ArriveIff(c, r.pkt, r.at);
    }
  }

  /** The table as receive call number k of a drain finds it. */
  ghost function AtRead(c: Ctx, input: seq<Read>, at: nat, k: nat): (r: Ctx)
    requires CtxInv(c) && InputOk(input) && at <= k <= |input|
    ensures CtxInv(r)
    decreases k - at
  {
    if at == k then c
    else
      OnReadKeeps(c, input[at]);
      AtRead(OnRead(c, input[at]).c, input, at + 1, k)
  }

  /** Receive call number k of a drain: it finds room, and ends the drain exactly when it does not go on. */
  ghost predicate ReadRight(input: seq<Read>, d: Drained, b: Ctx, after: Ctx, k: nat)
    requires k < d.used <= |input|
  {
    && CtxInv(b) && Filed(b) && !Saturated(b)
    && (k + 1 < d.used ==> GoesOn(b, input[k]))
    && (k + 1 == d.used ==> d.out == if GoesOn(b, input[k]) then WouldBlock else Ended(b, input[k]))
    && (GoesOn(b, input[k]) && Sequenced(input[k]) ==> Buffers(after, input[k].pkt))
  }

  lemma FirstRead(c: Ctx, input: seq<Read>, at: nat, cap: nat)
    requires CtxInv(c) && Filed(c) && InputOk(input) && at < |input| && cap != 0 && !Saturated(c)
    requires CtxInv(OnRead(c, input[at]).c)
    ensures ReadRight(input, Drain(c, input, at, cap), c, OnRead(c, input[at]).c, at)
  {
    ReadIff(c, input[at]);
  }

  lemma LaterReads(c: Ctx, input: seq<Read>, at: nat, cap: nat, k: nat)
    requires CtxInv(c) && InputOk(input) && at < k < |input| && cap != 0 && !Saturated(c)
    requires OnRead(c, input[at]).GoOn? && CtxInv(OnRead(c, input[at]).c)
    ensures var e, rest := OnRead(c, input[at]).c, Drain(OnRead(c, input[at]).c, input, at + 1, cap - 1);
            && Drain(c, input, at, cap).used == rest.used && Drain(c, input, at, cap).out == rest.out
            && AtRead(c, input, at, k) == AtRead(e, input, at + 1, k)
            && AtRead(c, input, at, k + 1) == AtRead(e, input, at + 1, k + 1)
  {
  }

  lemma {:induction false} DrainReads(c: Ctx, input: seq<Read>, at: nat, cap: nat, k: nat)
    requires CtxInv(c) && Filed(c) && InputOk(input) && at <= |input| && at <= k < Drain(c, input, at, cap).used
    ensures ReadRight(input, Drain(c, input, at, cap), AtRead(c, input, at, k), AtRead(c, input, at, k + 1), k)
    decreases cap
  {
    OnReadKeeps(c, input[at]);
    var e := OnRead(c, input[at]).c;
    if k == at {
      FirstRead(c, input, at, cap);
      assert AtRead(e, input, at + 1, at + 1) == e;
    } else {
      OnReadOrder(c, input[at], 1);
      DrainReads(e, input, at + 1, cap - 1, k);
      LaterReads(c, input, at, cap, k);
    }
  }

  /** A drain that no read ended has made all the calls it may, taken all there was, or filled a ring. */
  ghost predicate Exhausts(input: seq<Read>, at: nat, cap: nat, d: Drained, ended: bool) {
    ended || d.used == at + cap || d.used == |input| || Saturated(d.c)
  }

  /** The last of the drain's reads ends it. */
  ghost predicate LastEnds(c: Ctx, input: seq<Read>, at: nat, used: nat)
    requires CtxInv(c) && InputOk(input) && at <= used <= |input|
  {
    used > at && !GoesOn(AtRead(c, input, at, used - 1), input[used - 1])
  }

  lemma LastEndsLater(c: Ctx, input: seq<Read>, at: nat, cap: nat, used: nat)
    requires CtxInv(c) && InputOk(input) && at + 1 <= used <= |input| && cap != 0 && !Saturated(c)
    requires OnRead(c, input[at]).GoOn? && CtxInv(OnRead(c, input[at]).c)
    requires LastEnds(OnRead(c, input[at]).c, input, at + 1, used)
    ensures LastEnds(c, input, at, used)
  {
    LaterReads(c, input, at, cap, used - 1);
  }

  ghost predicate DrainExhausts(c: Ctx, input: seq<Read>, at: nat, cap: nat)
    requires CtxInv(c) && InputOk(input) && at <= |input|
  {
    var d := Drain(c, input, at, cap);
    Exhausts(input, at, cap, d, LastEnds(c, input, at, d.used))
  }

  lemma LaterExhausts(c: Ctx, input: seq<Read>, at: nat, cap: nat, e: Ctx, next: nat)
    requires CtxInv(c) && InputOk(input) && at < |input| && next == at + 1 && cap != 0 && !Saturated(c)
    requires OnRead(c, input[at]).GoOn? && e == OnRead(c, input[at]).c && CtxInv(e)
    requires DrainExhausts(e, input, next, cap - 1)
    ensures DrainExhausts(c, input, at, cap)
  {
    var rest := Drain(e, input, next, cap - 1);
    assert Drain(c, input, at, cap).used == rest.used && Drain(c, input, at, cap).c == rest.c;
    if LastEnds(e, input, next, rest.used) {
      LastEndsLater(c, input, at, cap, rest.used);
    }
  }

  lemma FirstExhausts(c: Ctx, input: seq<Read>, at: nat, cap: nat)
    requires CtxInv(c) && Filed(c) && InputOk(input) && at < |input| && cap != 0 && !Saturated(c)
    requires OnRead(c, input[at]).Done? && CtxInv(OnRead(c, input[at]).c)
    ensures DrainExhausts(c, input, at, cap)
  {
    FirstEnds(c, input, at);
  }

  lemma StepExhausts(c: Ctx, input: seq<Read>, at: nat, cap: nat, s: ReadStep)
    requires CtxInv(c) && Filed(c) && InputOk(input) && at < |input| && cap != 0 && !Saturated(c)
    requires s == OnRead(c, input[at]) && CtxInv(s.c) && (s.GoOn? ==> DrainExhausts(s.c, input, at + 1, cap - 1))
    ensures DrainExhausts(c, input, at, cap)
  {
    if s.GoOn? {
      LaterExhausts(c, input, at, cap, s.c, at + 1);
    } else {
      FirstExhausts(c, input, at, cap);
    }
  }

  lemma StopExhausts(c: Ctx, input: seq<Read>, at: nat, cap: nat)
    requires CtxInv(c) && InputOk(input) && at <= |input| && (cap == 0 || Saturated(c) || at == |input|)
    ensures DrainExhausts(c, input, at, cap)
  {
  }

  lemma {:induction false} DrainGoesOn(c: Ctx, input: seq<Read>, at: nat, cap: nat)
    requires CtxInv(c) && Filed(c) && InputOk(input) && at <= |input|
    ensures DrainExhausts(c, input, at, cap)
    decreases cap
  {
    if cap == 0 || Saturated(c) || at == |input| {
      StopExhausts(c, input, at, cap);
    } else {
      var s := OnRead(c, input[at]);
      OnReadKeeps(c, input[at]);
      OnReadOrder(c, input[at], 1);
      if s.GoOn? {
        DrainGoesOn(s.c, input, at + 1, cap - 1);
      }
      StepExhausts(c, input, at, cap, s);
    }
  }

  lemma FirstEnds(c: Ctx, input: seq<Read>, at: nat)
    requires CtxInv(c) && Filed(c) && InputOk(input) && at < |input| && !Saturated(c) && OnRead(c, input[at]).Done?
    ensures LastEnds(c, input, at, at + 1)
  {
    ReadIff(c, input[at]);
    assert AtRead(c, input, at, at) == c;
  }

  lemma {:induction false} DrainEndsAt(c: Ctx, input: seq<Read>, at: nat, cap: nat)
    requires CtxInv(c) && InputOk(input) && at <= |input|
    ensures var d := Drain(c, input, at, cap); d.c == AtRead(c, input, at, d.used)
    decreases cap
  {
    if cap == 0 || Saturated(c) || at == |input| {
    } else {
      OnReadKeeps(c, input[at]);
      var s := OnRead(c, input[at]);
      if s.GoOn? {
        DrainEndsAt(s.c, input, at + 1, cap - 1);
      }
    }
  }

  // ---- Whole runs ----------------------------------------------------------------------------------

  /** The table as receive call number k of call i finds it. */
  ghost function Facing(c: Ctx, calls: seq<Invocation>, cap: nat, ds: seq<Drained>, i: nat, k: nat): Ctx
    requires i < |calls| && i < |ds| && CallAt(c, calls, cap, ds, i) && k <= |calls[i].input|
  {
    AtRead(Before(c, ds, i), calls[i].input, 0, k)
  }

  /** A call keeps what its drain used, and what ended it. */
  lemma CallIsDrain(c: Ctx, input: seq<Read>, cap: nat, now: nat)
    requires CtxInv(c) && InputOk(input)
    ensures var d, e := Call(c, input, cap, now), Drain(c, input, 0, cap);
            && d.used == e.used && !e.out.Released?
            && (e.out != WouldBlock ==> d.out == e.out)
            && (e.out == WouldBlock ==> d.out == WouldBlock || d.out.Released?)
  {
    DrainNeverReleases(c, input, 0, cap);
  }

  /** In every run of the hook, receive call k of call i brings a sequenced datagram: it goes straight to the
      game exactly when its source has no entry and can get none, or when its sequence is at or behind its
      source's cursor or already held; anything else is in the table after that read, whatever lies ahead. */
  lemma {:induction false} PassesExactlyRepeats(c: Ctx, calls: seq<Invocation>, cap: nat, ds: seq<Drained>, i: nat,
                                                k: nat)
    requires IsRun(c, calls, cap, ds) && Filed(c) && i < |calls| && k < ds[i].used
    requires Sequenced(calls[i].input[k])
    ensures CallAt(c, calls, cap, ds, i)
    ensures var b, r, last := Facing(c, calls, cap, ds, i, k), calls[i].input[k], k + 1 == ds[i].used;
            var key, sn := KeyOf(r.pkt.from), SeqOf(r.pkt.data);
            && (last && ds[i].out == PassedThrough(r.pkt) <==> Behind(b, key, sn) || HeldBy(b, key, sn))
            && (last && ds[i].out == TableIsFull(r.pkt) <==> NoRoomFor(b, key, r.at))
            && (Behind(b, key, sn) || HeldBy(b, key, sn) || NoRoomFor(b, key, r.at)
                || Buffers(Facing(c, calls, cap, ds, i, k + 1), r.pkt))
            && (NoRoomFor(b, key, r.at) ==> !Behind(b, key, sn) && !HeldBy(b, key, sn))
  {
    assert CallAt(c, calls, cap, ds, i);
    RunFiled(c, calls, cap, ds, i);
    var b := Before(c, ds, i);
    CallIsDrain(b, calls[i].input, cap, calls[i].now);
    DrainReads(b, calls[i].input, 0, cap, k);
    ArriveIff(Facing(c, calls, cap, ds, i, k), calls[i].input[k].pkt, calls[i].input[k].at);
  }

  /** What a call hands over without having buffered it is what its last receive call brought. */
  lemma StraightFromKernel(c: Ctx, calls: seq<Invocation>, cap: nat, ds: seq<Drained>, i: nat)
    requires IsRun(c, calls, cap, ds) && Filed(c) && i < |calls|
    requires ds[i].out.PassedThrough? || ds[i].out.TableIsFull? || ds[i].out.Bypassed?
    ensures ds[i].used > 0 && calls[i].input[ds[i].used - 1].Packet?
    ensures calls[i].input[ds[i].used - 1].pkt == ds[i].out.pkt
    ensures var r := calls[i].input[ds[i].used - 1]; ds[i].out.Bypassed? <==> !r.ipv4 || |r.pkt.data| < 18
  {
    assert CallAt(c, calls, cap, ds, i);
    RunFiled(c, calls, cap, ds, i);
    var b := Before(c, ds, i);
    CallIsDrain(b, calls[i].input, cap, calls[i].now);
    DrainReads(b, calls[i].input, 0, cap, ds[i].used - 1);
  }

  /** Some source's ring has every slot taken. */
  ghost predicate SomeRingFull(c: Ctx) {
    exists i :: 0 <= i < |c.tbl| && c.tbl[i].key != 0
                && forall j :: 0 <= j < |c.tbl[i].slots| ==> c.tbl[i].slots[j].used
  }

  lemma SaturatedIff(c: Ctx)
    requires CtxInv(c)
    ensures Saturated(c) <==> SomeRingFull(c)
  {
    forall i | 0 <= i < |c.tbl|
      ensures c.tbl[i].filled >= c.cfg.depth <==> forall j :: 0 <= j < |c.tbl[i].slots| ==> c.tbl[i].slots[j].used
    {
      Entry(c, i);
      CountBounds(c.tbl[i].slots);
    }
  }

  /** The drain of a call goes on until a read has nothing for the buffer: ended by no read, it has made all the
      calls it may, taken all there was, or filled a ring. */
  lemma {:induction false} CallGoesOn(c: Ctx, calls: seq<Invocation>, cap: nat, ds: seq<Drained>, i: nat)
    requires IsRun(c, calls, cap, ds) && Filed(c) && i < |calls|
    requires ds[i].out == WouldBlock || ds[i].out.Released?
    requires ds[i].used > 0 ==> !NoBytes(calls[i].input[ds[i].used - 1])
    ensures CallAt(c, calls, cap, ds, i)
    ensures ds[i].used == Min(cap, |calls[i].input|) || SomeRingFull(Facing(c, calls, cap, ds, i, ds[i].used))
  {
    assert CallAt(c, calls, cap, ds, i);
    RunFiled(c, calls, cap, ds, i);
    var b := Before(c, ds, i);
    CallIsDrain(b, calls[i].input, cap, calls[i].now);
    DrainGoesOn(b, calls[i].input, 0, cap);
    DrainEndsAt(b, calls[i].input, 0, cap);
    SaturatedIff(Facing(c, calls, cap, ds, i, ds[i].used));
    if ds[i].used > 0 {
      DrainReads(b, calls[i].input, 0, cap, ds[i].used - 1);
    }
  }

  // ---- The order of everything delivered -------------------------------------------------------------

  /** A repeat, or a datagram there was no entry for, handed over as it came. */
  ghost predicate Excused(b: Ctx, r: Read, o: Outcome) {
    || (o.PassedThrough? && |o.pkt.data| >= SEQ_MIN_PAY && Repeats(b, o.pkt))
    || (o.TableIsFull? && r.Packet? && NoRoomFor(b, KeyOf(o.pkt.from), r.at))
  }

  /** The sequenced datagram of that source call j gives the game, buffered before or not, unless excused. */
  ghost function FreshAt(c: Ctx, calls: seq<Invocation>, cap: nat, ds: seq<Drained>, key: nat, j: nat): seq<Release>
    requires j < |calls| && j < |ds| && CallAt(c, calls, cap, ds, j)
  {
    var o, used, b := ds[j].out, ds[j].used, Before(c, ds, j);
    DrainKeeps(b, calls[j].input, 0, cap);
    if o.WouldBlock? || o.Bypassed? || KeyOf(o.pkt.from) != key || |o.pkt.data| < SEQ_MIN_PAY then []
    else if used > 0 && Excused(Facing(c, calls, cap, ds, j, used - 1), calls[j].input[used - 1], o) then []
    else [Release(SeqOf(o.pkt.data), KindOf(AfterDrain(b, calls[j].input, cap), calls[j].now), o.pkt)]
  }

  /** And calls m up to n, in order. */
  ghost function FreshTo(c: Ctx, calls: seq<Invocation>, cap: nat, ds: seq<Drained>, key: nat, m: nat, n: nat):
    seq<Release>
    requires IsRun(c, calls, cap, ds) && n <= |calls|
    decreases n
  {
    if n <= m then []
    else
      assert CallAt(c, calls, cap, ds, n - 1);
      FreshTo(c, calls, cap, ds, key, m, n - 1) + FreshAt(c, calls, cap, ds, key, n - 1)
  }

  ghost predicate SameAt(c: Ctx, calls: seq<Invocation>, cap: nat, ds: seq<Drained>, key: nat, j: nat) {
    && j < |calls| && j < |ds| && CallAt(c, calls, cap, ds, j)
    && FreshAt(c, calls, cap, ds, key, j) == HandedAt(c, calls, cap, ds, key, j)
  }

  ghost predicate SameTo(c: Ctx, calls: seq<Invocation>, cap: nat, ds: seq<Drained>, key: nat, m: nat, n: nat) {
    && IsRun(c, calls, cap, ds) && n <= |calls|
    && FreshTo(c, calls, cap, ds, key, m, n) == HandedTo(c, calls, cap, ds, key, m, n)
  }

  lemma FreshIsReleased(c: Ctx, calls: seq<Invocation>, cap: nat, ds: seq<Drained>, key: nat, j: nat)
    requires IsRun(c, calls, cap, ds) && Filed(c) && j < |calls|
    ensures SameAt(c, calls, cap, ds, key, j)
  {
    assert CallAt(c, calls, cap, ds, j);
    RunNeverEvicts(c, calls, cap, ds, j);
    if ds[j].out.PassedThrough? || ds[j].out.TableIsFull? {
      StraightFromKernel(c, calls, cap, ds, j);
      PassesExactlyRepeats(c, calls, cap, ds, j, ds[j].used - 1);
    }
  }

  lemma BothGrow(c: Ctx, calls: seq<Invocation>, cap: nat, ds: seq<Drained>, key: nat, m: nat, j: nat, n: nat)
    requires m <= j && n == j + 1 && SameTo(c, calls, cap, ds, key, m, j) && SameAt(c, calls, cap, ds, key, j)
    ensures SameTo(c, calls, cap, ds, key, m, n)
  {
  }

  lemma {:induction false} FreshIsHanded(c: Ctx, calls: seq<Invocation>, cap: nat, ds: seq<Drained>, key: nat, m: nat,
                                         n: nat)
    requires IsRun(c, calls, cap, ds) && Filed(c) && n <= |calls|
    ensures SameTo(c, calls, cap, ds, key, m, n)
    decreases n
  {
    if n <= m {
    } else {
      var j := n - 1;
      FreshIsHanded(c, calls, cap, ds, key, m, j);
      FreshIsReleased(c, calls, cap, ds, key, j);
      BothGrow(c, calls, cap, ds, key, m, j, n);
    }
  }

  /** In every run, all sequenced datagrams of one source the game gets, other than repeats and those the table
      had no entry for, are in order from when the source has no cursor until its entry is reclaimed: their
      sequences are the image of increasing numbers, with a gap exactly for each forced release. */
  lemma {:induction false} FreshInOrder(c: Ctx, calls: seq<Invocation>, cap: nat, ds: seq<Drained>, key: nat, m: nat,
                                        n: nat)
    requires IsRun(c, calls, cap, ds) && Filed(c) && key != 0 && m <= n <= |calls|
    requires CursorOf(Before(c, ds, m), key) == NoCursor
    requires forall j :: m <= j < n ==> KeptAt(c, calls, cap, ds, key, j)
    ensures Ordered(FreshTo(c, calls, cap, ds, key, m, n))
  {
    FreshIsHanded(c, calls, cap, ds, key, m, n);
    DeliveredInOrder(c, calls, cap, ds, key, m, n);
  }
}
