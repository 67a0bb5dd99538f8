/** The order in which the receive hook hands buffered packets of one source to the game, over whole runs
    in which every other source comes and goes. */
module HookOrder {
  import opened Serial
  import opened ReorderModel
  import opened ReorderRings
  import opened ReorderRuns
  import opened HookModel
  import opened HookConservation

  // ---- Whose packets an entry holds ------------------------------------------------------

  /** A held packet came from the entry's own source and carries the sequence it is filed under. */
  ghost predicate FiledRight(key: nat, s: Slot) {
    s.used ==> KeyOf(s.pkt.from) == key && |s.pkt.data| >= SEQ_MIN_PAY && SeqOf(s.pkt.data) == s.sn
  }

  ghost predicate EntryFiled(p: Peer) {
    forall i :: 0 <= i < |p.slots| ==> FiledRight(p.key, p.slots[i])
  }

  /** And no source has two entries. */
  ghost predicate Filed(c: Ctx) {
    && (forall i :: 0 <= i < |c.tbl| ==> EntryFiled(c.tbl[i]))
    && (forall i, j :: 0 <= i < j < |c.tbl| && c.tbl[i].key == c.tbl[j].key ==> c.tbl[i].key == 0)
  }

  lemma EmptyIsFiled(c: Ctx)
    requires forall i :: 0 <= i < |c.tbl| ==> c.tbl[i].key == 0 && forall s :: s in c.tbl[i].slots ==> !s.used
    ensures Filed(c)
  {
  }

  // ---- The cursor of a source ------------------------------------------------------------

  datatype Cursor = NoCursor | At(sn: u32)

  function CursorIn(p: Peer): Cursor { if p.init then At(p.last) else NoCursor }

  function CursorOf(c: Ctx, key: nat): Cursor {
    var at := FindKey(c.tbl, key, 0);
    if at < |c.tbl| then CursorIn(c.tbl[at]) else NoCursor
  }

  /** d is c with a cursor kept or, its entry having been reclaimed and that counted, lost. */
  ghost predicate KeptOrLost(c: Ctx, d: Ctx, key: nat) {
    && d.stats.peersReclaimed >= c.stats.peersReclaimed
    && (CursorOf(d, key) == CursorOf(c, key)
        || (CursorOf(d, key) == NoCursor && d.stats.peersReclaimed > c.stats.peersReclaimed))
  }

  lemma OneEntry(c: Ctx, key: nat, i: nat)
    requires Filed(c) && i < |c.tbl| && c.tbl[i].key == key && key != 0
    ensures FindKey(c.tbl, key, 0) == i
  {
  }

  lemma LookupOrder(c: Ctx, ep: Endpoint, now: nat, key: nat)
    requires |c.tbl| > 0 && Filed(c) && key != 0 && KeyOf(ep) != 0
    ensures var d := GetPeer(c, ep, now).0; Filed(d) && KeptOrLost(c, d, key)
  {
    var (d, at) := GetPeer(c, ep, now);
    LookupFiles(c, ep, now);
    var was, k := FindKey(c.tbl, key, 0), FindKey(d.tbl, key, 0);
    if k < |d.tbl| && d.tbl[k].init {
      assert d.tbl[k].last == c.tbl[k].last && c.tbl[k].init && c.tbl[k].key == key;
      OneEntry(c, key, k);
    }
    if was < |c.tbl| && d.stats.peersReclaimed == c.stats.peersReclaimed {
      assert d.tbl[was].key == key;
      OneEntry(d, key, was);
    }
  }

  lemma LookupFiles(c: Ctx, ep: Endpoint, now: nat)
    requires |c.tbl| > 0 && Filed(c)
    ensures Filed(GetPeer(c, ep, now).0)
  {
    var (d, at) := GetPeer(c, ep, now);
    if at.Found? {
      assert EntryFiled(c.tbl[at.at]);
      assert EntryFiled(d.tbl[at.at]);
    }
  }

  /** Replacing an entry by one of the same source that keeps its cursor. */
  lemma ReplaceOrder(c: Ctx, d: Ctx, i: nat, q: Peer, key: nat)
    requires Filed(c) && i < |c.tbl| && d.tbl == c.tbl[i := q] && q.key == c.tbl[i].key && EntryFiled(q) && key != 0
    ensures Filed(d) && FindKey(d.tbl, key, 0) == FindKey(c.tbl, key, 0)
    ensures CursorOf(d, key) == if q.key == key then CursorIn(q) else CursorOf(c, key)
  {
    assert forall j :: 0 <= j < |d.tbl| ==> d.tbl[j].key == c.tbl[j].key;
    if q.key == key {
      OneEntry(c, key, i);
    }
  }

  // ---- Arrivals ---------------------------------------------------------------------------

  /** Buffering a packet of the entry's source files it right and leaves the cursor. */
  lemma InsertOrder(p: Peer, sn: u32, now: nat, d: Dgram)
    requires |p.slots| > 0 && EntryFiled(p) && KeyOf(d.from) == p.key
    requires SEQ_MIN_PAY <= |d.data| <= MAX_PKT_BYTES && SeqOf(d.data) == sn
    ensures var q := Insert(p, sn, now, d).0; EntryFiled(q) && q.key == p.key && CursorIn(q) == CursorIn(p)
  {
    assert Clip(d.data) == d.data;
  }

  lemma AdaptOrder(cfg: Config, p: Peer, sn: u32, now: nat)
    ensures var q := Adapt(cfg, p, sn, now); q.slots == p.slots && q.key == p.key && CursorIn(q) == CursorIn(p)
  {
  }

  lemma ArriveOrder(c: Ctx, d: Dgram, now: nat, key: nat)
    requires CtxInv(c) && Filed(c) && key != 0 && KeyOf(d.from) != 0 && !Saturated(c)
    requires SEQ_MIN_PAY <= |d.data| <= MAX_PKT_BYTES
    ensures var a := HookModel.Arrive(c, d, now); Filed(a.c) && KeptOrLost(c, a.c, key)
  {
    LookupOrder(c, d.from, now, key);
    LookupKeeps(c, d.from, now);
    NeverEvicts(c, d, now);
    var (c1, at) := GetPeer(c, d.from, now);
    if at.Found? {
      Entry(c1, at.at);
      SettleOrder(c1, at.at, d, now, key);
    } else {
      SameTable(c1, HookModel.Arrive(c, d, now).c, key);
    }
  }

  lemma SameTable(c: Ctx, d: Ctx, key: nat)
    requires d.tbl == c.tbl && Filed(c) && d.stats.peersReclaimed == c.stats.peersReclaimed
    ensures Filed(d) && KeptOrLost(c, d, key)
  {
  }

  lemma SettleOrder(c: Ctx, i: nat, d: Dgram, now: nat, key: nat)
    requires i < |c.tbl| && |c.tbl[i].slots| > 0 && Filed(c) && key != 0 && KeyOf(d.from) == c.tbl[i].key
    requires SEQ_MIN_PAY <= |d.data| <= MAX_PKT_BYTES && !ArriveAt(c, i, d, now).out.Displaced?
    ensures var a := ArriveAt(c, i, d, now); Filed(a.c) && KeptOrLost(c, a.c, key)
  {
    var sn, p := SeqOf(d.data), Adapt(c.cfg, c.tbl[i], SeqOf(d.data), now);
    AdaptOrder(c.cfg, c.tbl[i], sn, now);
    InsertOrder(p, sn, now, d);
    var q := Insert(p, sn, now, d).0;
    ReplaceOrder(c, ArriveAt(c, i, d, now).c, i, q, key);
    if q.key == key {
      OneEntry(c, key, i);
    }
  }

  lemma OnReadOrder(c: Ctx, r: Read, key: nat)
    requires CtxInv(c) && Filed(c) && ReadOk(r) && key != 0 && !Saturated(c)
    ensures var d := OnRead(c, r).c; Filed(d) && KeptOrLost(c, d, key)
  {
    if Sequenced(r) {
      ArriveOrder(c, r.pkt, r.at, key);
    } else {
      SameTable(c, OnRead(c, r).c, key);
    }
  }

  lemma {:induction false} DrainOrder(c: Ctx, input: seq<Read>, at: nat, cap: nat, key: nat)
    requires CtxInv(c) && Filed(c) && InputOk(input) && at <= |input| && key != 0
    ensures var d := Drain(c, input, at, cap).c; Filed(d) && KeptOrLost(c, d, key)
    decreases cap
  {
    if cap == 0 || Saturated(c) || at == |input| {
    } else {
      OnReadOrder(c, input[at], key);
      OnReadKeeps(c, input[at]);
      var s := OnRead(c, input[at]);
      if s.GoOn? {
        DrainOrder(s.c, input, at + 1, cap - 1, key);
      }
    }
  }

  // ---- Releases ---------------------------------------------------------------------------

  /** What may be released after a cursor, and as what. */
  ghost predicate Follows(cur: Cursor, sn: u32, kind: Kind) {
    match cur
    case NoCursor => kind == First
    case At(last) => Cmp(sn, last) > 0 && kind == if Cmp(sn, last) == 1 then InOrder else Forced
  }

  lemma TakeOrder(cfg: Config, p: Peer, now: nat)
    requires PeerInv(p) && |p.slots| > 0 && EntryFiled(p) && Pick(cfg, p, now).Choose?
    ensures var k := Pick(cfg, p, now); var q, s := Take(cfg, p, k.slot, now), p.slots[k.slot];
            && EntryFiled(q) && q.key == p.key && FiledRight(p.key, s) && s.used
            && CursorIn(q) == At(s.sn) && Follows(CursorIn(p), s.sn, k.kind)
  {
    PickHeld(cfg, p, now);
    CursorNeverMovesBack(cfg, p, Service(now));
    TakeFiles(cfg, p, Pick(cfg, p, now).slot, now);
  }

  lemma TakeFiles(cfg: Config, p: Peer, slot: nat, now: nat)
    requires slot < |p.slots| && EntryFiled(p)
    ensures EntryFiled(Take(cfg, p, slot, now)) && Take(cfg, p, slot, now).key == p.key
  {
    var q := Take(cfg, p, slot, now);
    forall i | 0 <= i < |q.slots| ensures FiledRight(q.key, q.slots[i]) {
      assert FiledRight(p.key, p.slots[i]);
    }
  }

  /** One release of the hook moves the cursor of its own source on, to its own sequence. */
  lemma ReleaseOrder(c: Ctx, now: nat, key: nat)
    requires CtxInv(c) && Filed(c) && key != 0 && ReadyFrom(c, now, 0).ReadyAt?
    ensures var r := ReadyFrom(c, now, 0); var d, s := TakeAt(c, r, now), c.tbl[r.peer].slots[r.slot];
            && Filed(d) && |s.pkt.data| >= SEQ_MIN_PAY
            && if KeyOf(s.pkt.from) == key
               then CursorOf(d, key) == At(SeqOf(s.pkt.data)) && Follows(CursorOf(c, key), SeqOf(s.pkt.data), r.kind)
               else CursorOf(d, key) == CursorOf(c, key)
  {
    ReadyIsHeld(c, now, 0);
    var r := ReadyFrom(c, now, 0);
    var p := c.tbl[r.peer];
    Entry(c, r.peer);
    TakeOrder(c.cfg, p, now);
    ReplaceOrder(c, TakeAt(c, r, now), r.peer, Take(c.cfg, p, r.slot, now), key);
    if p.key == key {
      OneEntry(c, key, r.peer);
    }
  }

  // ---- One call -----------------------------------------------------------------------------

  /** The buffered packet of that source the call hands over, if it does. */
  ghost function Handed(o: Outcome, kind: Kind, key: nat): seq<Release> {
    if o.Released? && KeyOf(o.pkt.from) == key && |o.pkt.data| >= SEQ_MIN_PAY
    then [Release(SeqOf(o.pkt.data), kind, o.pkt)] else []
  }

  function AfterDrain(c: Ctx, input: seq<Read>, cap: nat): Ctx
    requires CtxInv(c) && InputOk(input)
  {
    Drain(c, input, 0, cap).c
  }

  /** As what the scan after the drain releases. */
  function KindOf(c: Ctx, now: nat): Kind
    requires c.rr < |c.tbl|
  {
    var r := ReadyFrom(c, now, 0);
    if r.ReadyAt? then r.kind else First
  }

  /** From the cursor after the drain, what is handed over follows it and becomes the cursor. */
  ghost predicate Moves(was: Cursor, handed: seq<Release>, now: Cursor) {
    if handed == [] then now == was else now == At(handed[0].sn) && Follows(was, handed[0].sn, handed[0].kind)
  }

  lemma CallOrder(c: Ctx, input: seq<Read>, cap: nat, now: nat, key: nat)
    requires CtxInv(c) && Filed(c) && InputOk(input) && key != 0
    ensures CtxInv(AfterDrain(c, input, cap))
    ensures var b, d := AfterDrain(c, input, cap), Call(c, input, cap, now);
            && Filed(d.c) && KeptOrLost(c, b, key)
            && Moves(CursorOf(b, key), Handed(d.out, KindOf(b, now), key), CursorOf(d.c, key))
  {
    DrainOrder(c, input, 0, cap, key);
    DrainKeeps(c, input, 0, cap);
    var b := Drain(c, input, 0, cap);
    DrainNeverReleases(c, input, 0, cap);
    if b.out == WouldBlock && ReadyFrom(b.c, now, 0).ReadyAt? {
      ReleaseOrder(b.c, now, key);
    }
  }

  lemma ReleasesReclaimNothing(c: Ctx, input: seq<Read>, cap: nat, now: nat)
    requires CtxInv(c) && InputOk(input)
    ensures Call(c, input, cap, now).c.stats.peersReclaimed == AfterDrain(c, input, cap).stats.peersReclaimed
  {
  }

  lemma {:induction false} DrainNeverReleases(c: Ctx, input: seq<Read>, at: nat, cap: nat)
    requires CtxInv(c) && InputOk(input) && at <= |input|
    ensures !Drain(c, input, at, cap).out.Released?
    decreases cap
  {
    if cap == 0 || Saturated(c) || at == |input| {
    } else {
      OnReadKeeps(c, input[at]);
      if OnRead(c, input[at]).GoOn? {
        DrainNeverReleases(OnRead(c, input[at]).c, input, at + 1, cap - 1);
      }
    }
  }

  // ---- Whole runs ---------------------------------------------------------------------------

  /** What call j hands over of that source's buffered packets. */
  ghost function HandedAt(c: Ctx, calls: seq<Invocation>, cap: nat, ds: seq<Drained>, key: nat, j: nat): seq<Release>
    requires j < |calls| && j < |ds| && CallAt(c, calls, cap, ds, j)
  {
    var b := Before(c, ds, j);
    DrainKeeps(b, calls[j].input, 0, cap);
    Handed(ds[j].out, KindOf(AfterDrain(b, calls[j].input, cap), calls[j].now), key)
  }

  /** And calls m up to n, in order. */
  ghost function HandedTo(c: Ctx, calls: seq<Invocation>, cap: nat, ds: seq<Drained>, key: nat, m: nat, n: nat):
    seq<Release>
    requires IsRun(c, calls, cap, ds) && n <= |calls|
    decreases n
  {
    if n <= m then []
    else
      assert CallAt(c, calls, cap, ds, n - 1);
      HandedTo(c, calls, cap, ds, key, m, n - 1) + HandedAt(c, calls, cap, ds, key, n - 1)
  }

  /** The drain of call j does not reclaim an entry from which that source was served. */
  ghost predicate KeepsEntry(c: Ctx, calls: seq<Invocation>, cap: nat, ds: seq<Drained>, key: nat, j: nat)
    requires j < |calls| && j < |ds| && CallAt(c, calls, cap, ds, j)
  {
    var b := Before(c, ds, j);
    CursorOf(b, key).At? ==> CursorOf(AfterDrain(b, calls[j].input, cap), key).At?
  }

  ghost predicate KeptAt(c: Ctx, calls: seq<Invocation>, cap: nat, ds: seq<Drained>, key: nat, j: nat) {
    j < |calls| && j < |ds| && CallAt(c, calls, cap, ds, j) && KeepsEntry(c, calls, cap, ds, key, j)
  }

  /** While the counter of reclaimed entries stands still, no entry is lost. */
  lemma UncountedKeeps(c: Ctx, calls: seq<Invocation>, cap: nat, ds: seq<Drained>, key: nat, j: nat)
    requires j < |calls| && j < |ds| && CallAt(c, calls, cap, ds, j) && Filed(Before(c, ds, j)) && key != 0
    requires ds[j].c.stats.peersReclaimed == Before(c, ds, j).stats.peersReclaimed
    ensures KeptAt(c, calls, cap, ds, key, j)
  {
    CallOrder(Before(c, ds, j), calls[j].input, cap, calls[j].now, key);
    ReleasesReclaimNothing(Before(c, ds, j), calls[j].input, cap, calls[j].now);
  }

  lemma {:induction false} RunFiled(c: Ctx, calls: seq<Invocation>, cap: nat, ds: seq<Drained>, n: nat)
    requires IsRun(c, calls, cap, ds) && Filed(c) && n <= |calls|
    ensures Filed(Before(c, ds, n))
  {
    if n == 0 {
    } else {
      RunFiled(c, calls, cap, ds, n - 1);
      assert CallAt(c, calls, cap, ds, n - 1);
      CallOrder(Before(c, ds, n - 1), calls[n - 1].input, cap, calls[n - 1].now, 1);
    }
  }

  ghost predicate EndsAt(rel: seq<Release>, cur: Cursor) {
    cur == if rel == [] then NoCursor else At(rel[|rel| - 1].sn)
  }

  lemma ChainMoves(rel: seq<Release>, more: seq<Release>, all: seq<Release>, was: Cursor, now: Cursor)
    requires Chained(rel) && EndsAt(rel, was) && Moves(was, more, now) && |more| <= 1 && all == rel + more
    ensures Chained(all) && EndsAt(all, now)
  {
    if more == [] {
      assert rel + more == rel;
    } else {
      assert more == [more[0]];
      ChainGrows(rel, more[0]);
    }
  }

  lemma HandedGrows(c: Ctx, calls: seq<Invocation>, cap: nat, ds: seq<Drained>, key: nat, m: nat, j: nat, n: nat)
    requires IsRun(c, calls, cap, ds) && m <= j < |calls| && n == j + 1 && KeptAt(c, calls, cap, ds, key, j)
    ensures HandedTo(c, calls, cap, ds, key, m, n)
            == HandedTo(c, calls, cap, ds, key, m, j) + HandedAt(c, calls, cap, ds, key, j)
  {
  }

  lemma CallMoves(c: Ctx, calls: seq<Invocation>, cap: nat, ds: seq<Drained>, key: nat, j: nat, n: nat)
    requires KeptAt(c, calls, cap, ds, key, j) && Filed(Before(c, ds, j)) && key != 0 && n == j + 1
    ensures |HandedAt(c, calls, cap, ds, key, j)| <= 1
    ensures Moves(CursorOf(Before(c, ds, j), key), HandedAt(c, calls, cap, ds, key, j), CursorOf(Before(c, ds, n), key))
  {
    CallOrder(Before(c, ds, j), calls[j].input, cap, calls[j].now, key);
  }

  lemma {:induction false} HandedChained(c: Ctx, calls: seq<Invocation>, cap: nat, ds: seq<Drained>, key: nat,
                                         m: nat, n: nat)
    requires IsRun(c, calls, cap, ds) && Filed(c) && key != 0 && m <= n <= |calls|
    requires CursorOf(Before(c, ds, m), key) == NoCursor
    requires forall j :: m <= j < n ==> KeptAt(c, calls, cap, ds, key, j)
    ensures var rel := HandedTo(c, calls, cap, ds, key, m, n);
            Chained(rel) && EndsAt(rel, CursorOf(Before(c, ds, n), key))
    decreases n
  {
    if n == m {
    } else {
      var j := n - 1;
      HandedChained(c, calls, cap, ds, key, m, j);
      RunFiled(c, calls, cap, ds, j);
      assert KeptAt(c, calls, cap, ds, key, j);
      CallMoves(c, calls, cap, ds, key, j, n);
      HandedGrows(c, calls, cap, ds, key, m, j, n);
      ChainMoves(HandedTo(c, calls, cap, ds, key, m, j), HandedAt(c, calls, cap, ds, key, j),
                 HandedTo(c, calls, cap, ds, key, m, n),
                 CursorOf(Before(c, ds, j), key), CursorOf(Before(c, ds, n), key));
    }
  }

  /** In every run of the hook, the buffered packets of one source handed to the game from when it has no
      cursor until its entry is reclaimed are in order, whatever the other sources do: their sequences
      are the image of increasing numbers, with a gap exactly for each forced release. */
  lemma DeliveredInOrder(c: Ctx, calls: seq<Invocation>, cap: nat, ds: seq<Drained>, key: nat, m: nat, n: nat)
    requires IsRun(c, calls, cap, ds) && Filed(c) && key != 0 && m <= n <= |calls|
    requires CursorOf(Before(c, ds, m), key) == NoCursor
    requires forall j :: m <= j < n ==> KeptAt(c, calls, cap, ds, key, j)
    ensures Ordered(HandedTo(c, calls, cap, ds, key, m, n))
  {
    HandedChained(c, calls, cap, ds, key, m, n);
    ChainedIsOrdered(HandedTo(c, calls, cap, ds, key, m, n));
  }
}
