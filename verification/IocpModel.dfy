/** The completion-port hook as a function on values: completions that arrive ahead of a gap are held
    back from the game for a while, in a small table, sharing the reorder buffer's peer table. */
module IocpModel {
  import opened Serial
  import opened ReorderModel

  const WATCHDOG: nat := 5

  /** What the real call reports; ov 0 is the null pointer of a call that timed out. */
  datatype Completion = Completion(ok: bool, bytes: nat, key: nat, ov: nat)

  datatype HeldSlot = Free | Holding(comp: Completion, sn: u32, ts: nat, from: Endpoint)

  /** Where an overlapped receive lands: its socket, the buffer with its size, and where the source
      address and its length go. */
  datatype Place = Place(sock: nat, buf: nat, len: nat, from: nat, fromLen: nat)

  /** One of the game's outstanding receives; ov 0 marks a free entry. */
  datatype Recv = Recv(ov: nat, place: Place)

  const NO_RECV := Recv(0, Place(0, 0, 0, 0, 0))

  /** A packet in memory with its IPv4 source. */
  datatype Landed = Landed(from: Endpoint, data: seq<u8>)

  /** One round of the loop as the outside makes it: the clock at its start, the real call's result, the
      clock after it, what lies then at the places with a buffer and an IPv4 source, and the clock at
      the end of the round. */
  datatype Turn = Turn(now: nat, comp: Completion, memory: map<Place, Landed>, at: nat, end: nat)

  datatype Hook = Hook(held: seq<HeldSlot>, recvs: seq<Recv>, rx: Ctx, disabled: bool,
                       posted: nat, completed: nat, deferred: nat, inOrder: nat, forced: nat)

  datatype Timeout = Infinite | Ms(ms: nat)

  /** The time a call may take: the lesser of the game's timeout and the widest window. */
  function Budget(cfg: Config, t: Timeout): nat {
    if t.Infinite? || t.ms >= cfg.winMax then cfg.winMax else t.ms
  }

  /** How long the next real call may wait. */
  function Remaining(now: nat, deadline: nat): nat {
    if now >= deadline then 0 else deadline - now
  }

  /** A packet has a source, and a completed receive of enough bytes filled its buffer that far. */
  predicate TurnOk(t: Turn) {
    forall p :: p in t.memory ==>
      KeyOf(t.memory[p].from) != 0 && (t.comp.bytes >= SEQ_MIN_PAY ==> |t.memory[p].data| >= SEQ_MIN_PAY)
  }

  // ---- The table of outstanding receives ---------------------------------------------

  function FindRecv(recvs: seq<Recv>, ov: nat, i: nat): (r: nat)
    requires i <= |recvs|
    ensures i <= r <= |recvs|
    ensures r < |recvs| ==> recvs[r].ov == ov
    ensures forall j :: i <= j < r ==> recvs[j].ov != ov
    decreases |recvs| - i
  {
    if i == |recvs| || recvs[i].ov == ov then i else FindRecv(recvs, ov, i + 1)
  }

  /** Remember an outstanding receive: where it already is, else in the first free entry, else not.
      ready says that the hook is set up and the receive has buffers. */
  function Track(h: Hook, ready: bool, ov: nat, place: Place): (r: Hook)
    ensures r.posted == h.posted + (if ready && ov != 0 then 1 else 0)
    ensures r == h.(recvs := r.recvs, posted := r.posted)
  {
    if !ready || ov == 0 then h else h.(posted := h.posted + 1, recvs := Tracked(h.recvs, ov, place))
  }

  function Tracked(recvs: seq<Recv>, ov: nat, place: Place): seq<Recv> {
    var at := FindRecv(recvs, ov, 0);
    var slot := if at < |recvs| then at else FindRecv(recvs, 0, 0);
    if slot < |recvs| then recvs[slot := Recv(ov, place)] else recvs
  }

  function Untrack(recvs: seq<Recv>, ov: nat): seq<Recv> {
    var at := FindRecv(recvs, ov, 0);
    if at < |recvs| then recvs[at := recvs[at].(ov := 0)] else recvs
  }

  // ---- The shared peer table -----------------------------------------------------------

  predicate IsSuccessor(c: Ctx, at: Lookup, sn: u32)
    requires at.Found? ==> at.at < |c.tbl|
  {
    at.Found? && c.tbl[at.at].init && sn == Next(c.tbl[at.at].last)
  }

  /** A peer without an entry gets the adaptive floor. */
  function HoldFor(c: Ctx, at: Lookup): nat
    requires at.Found? ==> at.at < |c.tbl|
  {
    HoldWindow(c.cfg, if at.Found? then c.tbl[at.at].win else c.cfg.winMin)
  }

  // ---- Releasing what is held -----------------------------------------------------------

  datatype Pick = Pick(rx: Ctx, slot: nat, kind: Kind)

  /** The first held successor of its peer's cursor, else the oldest that waited out its window. */
  function PickReady(c: Ctx, held: seq<HeldSlot>, now: nat, i: nat, oldest: nat): (r: Pick)
    requires |c.tbl| > 0 && i <= |held| && oldest <= |held|
    requires oldest < |held| ==> held[oldest].Holding?
    ensures r.slot <= |held| && (r.slot < |held| ==> held[r.slot].Holding?)
    ensures |r.rx.tbl| == |c.tbl|
    decreases |held| - i
  {
    if i == |held| then Pick(c, oldest, Forced)
    else if held[i].Free? then PickReady(c, held, now, i + 1, oldest)
    else
      var h := held[i];
      var (d, at) := GetPeer(c, h.from, now);
      if IsSuccessor(d, at, h.sn) then Pick(d, i, InOrder)
      else
        var due := now < h.ts || now - h.ts >= HoldFor(d, at);
        PickReady(d, held, now, i + 1, if due && (oldest == |held| || h.ts < held[oldest].ts) then i else oldest)
  }

  function PickOldest(held: seq<HeldSlot>, i: nat, oldest: nat): (r: nat)
    requires i <= |held| && oldest <= |held|
    requires oldest < |held| ==> held[oldest].Holding?
    ensures r <= |held| && (r < |held| ==> held[r].Holding?)
    ensures oldest < |held| ==> r < |held| && held[r].ts <= held[oldest].ts
    ensures forall j :: i <= j < |held| && held[j].Holding? ==> r < |held| && held[r].ts <= held[j].ts
    decreases |held| - i
  {
    if i == |held| then oldest
    else PickOldest(held, i + 1,
                    if held[i].Holding? && (oldest == |held| || held[i].ts < held[oldest].ts) then i else oldest)
  }

  /** The peer table after a packet of that source went out, unless the source has no entry. */
  function NoteFor(c: Ctx, from: Endpoint, sn: u32, ts: nat, now: nat, kind: Kind): (d: Ctx)
    requires |c.tbl| > 0
    ensures |d.tbl| == |c.tbl|
  {
    var (d, at) := GetPeer(c, from, now);
    if at.Found? then NoteAt(d, at.at, sn, ts, now, kind) else d
  }

  /** Slot goes back to the game. */
  function Release(h: Hook, slot: nat, now: nat, kind: Kind): Hook
    requires slot < |h.held| && h.held[slot].Holding? && |h.rx.tbl| > 0
  {
    var s := h.held[slot];
    h.(held := h.held[slot := Free],
       rx := NoteFor(h.rx, s.from, s.sn, s.ts, now, kind),
       inOrder := h.inOrder + (if kind == InOrder then 1 else 0),
       forced := h.forced + (if kind == InOrder then 0 else 1))
  }

  // ---- Classifying a fresh completion ---------------------------------------------------

  function FindFreeSlot(held: seq<HeldSlot>, i: nat): (r: nat)
    requires i <= |held|
    ensures i <= r <= |held|
    ensures r < |held| ==> held[r].Free?
    ensures forall j :: i <= j < r ==> held[j].Holding?
    decreases |held| - i
  {
    if i == |held| || held[i].Free? then i else FindFreeSlot(held, i + 1)
  }

  datatype Ruling = Ruling(h: Hook, deferred: bool)

  /** A sequenced receive of entry i completed. */
  function RuleAt(h: Hook, i: nat, comp: Completion, sn: u32, from: Endpoint, now: nat): Ruling
    requires i < |h.rx.tbl|
  {
    var p := h.rx.tbl[i];
    if !p.init || sn == Next(p.last) then
      Ruling(h.(rx := NoteAt(h.rx, i, sn, now, now, if p.init then InOrder else First),
                inOrder := h.inOrder + 1), false)
    else if Cmp(sn, p.last) <= 0 then
      Ruling(h.(rx := h.rx.(stats := h.rx.stats.(stale := h.rx.stats.stale + 1))), false)
    else
      var c := AdaptAt(h.rx, i, sn, now);
      var slot := FindFreeSlot(h.held, 0);
      if slot == |h.held| then
        Ruling(h.(rx := NoteAt(c, i, sn, now, now, Forced), forced := h.forced + 1), false)
      else
        Ruling(h.(rx := c, held := h.held[slot := Holding(comp, sn, now, from)], deferred := h.deferred + 1), true)
  }

  /** One of our receives completed, long enough to carry a sequence, with its packet in place. */
  predicate Sequences(h: Hook, t: Turn) {
    var i := FindRecv(h.recvs, t.comp.ov, 0);
    i < |h.recvs| && t.comp.bytes >= SEQ_MIN_PAY && h.recvs[i].place in t.memory
  }

  /** What lies where that receive was posted to land. */
  function PacketOf(h: Hook, t: Turn): Landed
    requires Sequences(h, t)
  {
    t.memory[h.recvs[FindRecv(h.recvs, t.comp.ov, 0)].place]
  }

  /** A sequenced receive completed: look up its peer. */
  function RuleSequenced(h: Hook, comp: Completion, landed: Landed, now: nat): Ruling
    requires |h.rx.tbl| > 0 && |landed.data| >= SEQ_MIN_PAY
  {
    var (c, at) := GetPeer(h.rx, landed.from, now);
    match at
    case TableFull => Ruling(h.(rx := c, inOrder := h.inOrder + 1), false)
    case Found(i) => RuleAt(h.(rx := c), i, comp, SeqOf(landed.data), landed.from, now)
  }

  /** Is this completion for the game now, or deferred? */
  function Rule(h: Hook, t: Turn): Ruling
    requires |h.rx.tbl| > 0 && TurnOk(t)
  {
    var g := h.(recvs := Untrack(h.recvs, t.comp.ov));
    if !t.comp.ok || !Sequences(h, t) then Ruling(g, false)
    else RuleSequenced(g.(completed := h.completed + 1), t.comp, PacketOf(h, t), t.at)
  }

  lemma RuleUnfolds(h: Hook, g: Hook, t: Turn)
    requires |h.rx.tbl| > 0 && TurnOk(t) && t.comp.ok && Sequences(h, t)
    requires g == h.(recvs := Untrack(h.recvs, t.comp.ov), completed := h.completed + 1)
    ensures Rule(h, t) == RuleSequenced(g, t.comp, PacketOf(h, t), t.at)
  {
  }

  // ---- One call by the game ---------------------------------------------------------------

  /** How many of the first n slots are free. */
  function FreeSlots(held: seq<HeldSlot>, n: nat): nat
    requires n <= |held|
  {
    if n == 0 then 0 else FreeSlots(held, n - 1) + (if held[n - 1].Free? then 1 else 0)
  }

  function Room(h: Hook): nat { FreeSlots(h.held, |h.held|) }

  datatype StepResult = Return(h: Hook, out: Completion, asked: bool) | Again(h: Hook)

  /** One round.  asked says whether the real call was made; Again that its completion was deferred. */
  function Round(h: Hook, t: Turn): StepResult
    requires |h.rx.tbl| > 0 && TurnOk(t)
  {
    var p := PickReady(h.rx, h.held, t.now, 0, |h.held|);
    var g := h.(rx := p.rx);
    if p.slot < |h.held| then Return(Release(g, p.slot, t.now, p.kind), h.held[p.slot].comp, false)
    else if t.comp.ov == 0 then
      var oldest := PickOldest(h.held, 0, |h.held|);
      if oldest < |h.held| then Return(Release(g, oldest, t.at, Forced), h.held[oldest].comp, true)
      else Return(g, t.comp, true)
    else
      var r := Rule(g, t);
      if r.deferred then Again(r.h) else Return(r.h, t.comp, true)
  }

  /** used is one past the last turn whose real call was made; dogged says the watchdog ended the call
      with one more; waits is how long each real call was allowed to wait. */
  datatype Result = Result(h: Hook, out: Completion, used: nat, dogged: bool, waits: seq<Timeout>)

  lemma {:induction false} TakeRoom(held: seq<HeldSlot>, i: nat, s: HeldSlot, n: nat)
    requires i < |held| && n <= |held|
    ensures FreeSlots(held[i := s], n) ==
            FreeSlots(held, n) + (if i < n then (if s.Free? then 1 else 0) - (if held[i].Free? then 1 else 0) else 0)
  {
    if n == 0 {
    } else {
      TakeRoom(held, i, s, n - 1);
    }
  }

  /** A deferral takes a free slot. */
  lemma DeferTakesRoom(h: Hook, t: Turn)
    requires |h.rx.tbl| > 0 && TurnOk(t) && Round(h, t).Again?
    ensures Room(Round(h, t).h) == Room(h) - 1 && |Round(h, t).h.rx.tbl| > 0
    ensures |Round(h, t).h.held| == |h.held| && t.comp.ov != 0
  {
    var slot := FindFreeSlot(h.held, 0);
    var after := Round(h, t).h.held;
    TakeRoom(h.held, slot, after[slot], |h.held|);
  }

  predicate TurnsOk(turns: seq<Turn>) {
    forall k :: 0 <= k < |turns| ==> TurnOk(turns[k])
  }

  function DequeueFrom(h: Hook, turns: seq<Turn>, i: nat, entered: nat, budget: nat, last: Completion): (r: Result)
    requires |h.rx.tbl| > 0 && TurnsOk(turns) && i + Room(h) < |turns|
    ensures i <= r.used <= |turns|
    decreases Room(h)
  {
    var wait := Ms(Remaining(turns[i].now, entered + budget));
    match Round(h, turns[i])
    case Return(g, out, asked) =>
      if asked then Result(g, out, i + 1, false, [wait]) else Result(g, out, i, false, [])
    case Again(g) =>
      DeferTakesRoom(h, turns[i]);
      if turns[i].end - entered > budget * WATCHDOG then
        Result(g.(disabled := true), last, i + 1, true, [wait, Ms(0)])
      else
        var rest := DequeueFrom(g, turns, i + 1, entered, budget, last);
        rest.(waits := [wait] + rest.waits)
  }

  /** The rounds of turns i up to k all defer. */
  predicate Defers(h: Hook, turns: seq<Turn>, i: nat, k: nat)
    requires |h.rx.tbl| > 0 && TurnsOk(turns) && i <= k <= |turns|
    decreases k - i
  {
    i == k
    || (Round(h, turns[i]).Again? && (DeferTakesRoom(h, turns[i]); Defers(Round(h, turns[i]).h, turns, i + 1, k)))
  }

  /** The hook as round k finds it. */
  function HookAt(h: Hook, turns: seq<Turn>, i: nat, k: nat): (g: Hook)
    requires |h.rx.tbl| > 0 && TurnsOk(turns) && i <= k <= |turns| && Defers(h, turns, i, k)
    ensures |g.rx.tbl| > 0
    decreases k - i
  {
    if i == k then h
    else
      DeferTakesRoom(h, turns[i]);
      HookAt(Round(h, turns[i]).h, turns, i + 1, k)
  }

  /** The game asks for a completion.  turns are what the outside does, last what the watchdog's final
      real call returns; ready says that the hook is on and set up and the game wants every result. */
  function Dequeue(h: Hook, ready: bool, turns: seq<Turn>, entered: nat, timeout: Timeout, last: Completion):
    (r: Result)
    requires |h.rx.tbl| > 0 && TurnsOk(turns) && Room(h) < |turns|
    ensures r.used <= |turns|
  {
    if !ready || h.disabled then Result(h, turns[0].comp, 1, false, [timeout])
    else DequeueFrom(h, turns, 0, entered, Budget(h.rx.cfg, timeout), last)
  }
}
