/** The completion-port hook over every run: nothing obtained is lost, changed or handed over twice, a
    call makes few real calls, and what the watchdog strands. */
module IocpConservation {
  import opened Serial
  import opened ReorderModel
  import opened ReorderRings
  import opened HookModel
  import opened IocpModel

  // ---- Counting -----------------------------------------------------------------------

  /** Whether c is the completion x; the null result of a timeout is none. */
  function Is(c: Completion, x: Completion): nat { if c.ov != 0 && c == x then 1 else 0 }

  function InSlot(s: HeldSlot, x: Completion): nat { if s.Holding? then Is(s.comp, x) else 0 }

  /** How many of the first n slots hold x. */
  function HeldCount(held: seq<HeldSlot>, x: Completion, n: nat): nat
    requires n <= |held|
  {
    if n == 0 then 0 else HeldCount(held, x, n - 1) + InSlot(held[n - 1], x)
  }

  function HeldOf(h: Hook, x: Completion): nat { HeldCount(h.held, x, |h.held|) }

  /** How often the real calls of turns i up to j returned x. */
  function Obtained(turns: seq<Turn>, i: nat, j: nat, x: Completion): nat
    requires j <= |turns|
    decreases j
  {
    if j <= i then 0 else Obtained(turns, i, j - 1, x) + Is(turns[j - 1].comp, x)
  }

  lemma {:induction false} UpdateHeld(held: seq<HeldSlot>, i: nat, s: HeldSlot, x: Completion, n: nat)
    requires i < |held| && n <= |held|
    ensures HeldCount(held[i := s], x, n) ==
              HeldCount(held, x, n) + (if i < n then InSlot(s, x) - InSlot(held[i], x) else 0)
  {
    if n == 0 {
    } else {
      UpdateHeld(held, i, s, x, n - 1);
    }
  }

  lemma {:induction false} ObtainedSplit(turns: seq<Turn>, i: nat, j: nat, x: Completion)
    requires i < j <= |turns|
    ensures Obtained(turns, i, j, x) == Is(turns[i].comp, x) + Obtained(turns, i + 1, j, x)
    decreases j
  {
    if j == i + 1 {
    } else {
      ObtainedSplit(turns, i, j - 1, x);
    }
  }

  /** Only real, successful completions of known sources are ever held. */
  ghost predicate HeldOk(held: seq<HeldSlot>) {
    forall i :: 0 <= i < |held| && held[i].Holding? ==>
      held[i].comp.ok && held[i].comp.ov != 0 && KeyOf(held[i].from) != 0
  }

  ghost predicate HookInv(h: Hook) {
    CtxInv(h.rx) && HeldOk(h.held)
  }

  // ---- What keeps the peer table sound ----------------------------------------------------

  lemma NoteAtKeeps(c: Ctx, i: nat, sn: u32, ts: nat, now: nat, kind: Kind)
    requires CtxInv(c) && i < |c.tbl| && c.tbl[i].key != 0
    ensures CtxInv(NoteAt(c, i, sn, ts, now, kind))
  {
    Entry(c, i);
    NoteKeeps(c.tbl[i], sn, now);
    SetEntry(c, NoteAt(c, i, sn, ts, now, kind), i, NoteDelivery(c.tbl[i], sn, now));
  }

  lemma AdaptAtKeeps(c: Ctx, i: nat, sn: u32, now: nat)
    requires CtxInv(c) && i < |c.tbl| && c.tbl[i].key != 0
    ensures CtxInv(AdaptAt(c, i, sn, now)) && AdaptAt(c, i, sn, now).tbl[i].key == c.tbl[i].key
  {
    Entry(c, i);
    WindowKept(c.cfg, c.tbl[i], sn, now);
    SetEntry(c, AdaptAt(c, i, sn, now), i, Adapt(c.cfg, c.tbl[i], sn, now));
  }

  lemma {:induction false} PickKeeps(c: Ctx, held: seq<HeldSlot>, now: nat, i: nat, oldest: nat)
    requires CtxInv(c) && i <= |held| && oldest <= |held| && (oldest < |held| ==> held[oldest].Holding?)
    ensures CtxInv(PickReady(c, held, now, i, oldest).rx) && PickReady(c, held, now, i, oldest).rx.cfg == c.cfg
    decreases |held| - i
  {
    if i == |held| {
    } else {
      if held[i].Free? {
        PickKeeps(c, held, now, i + 1, oldest);
      } else {
        var h := held[i];
        LookupKeeps(c, h.from, now);
        var (d, at) := GetPeer(c, h.from, now);
        if !IsSuccessor(d, at, h.sn) {
          var due := now < h.ts || now - h.ts >= HoldFor(d, at);
          PickKeeps(d, held, now, i + 1, if due && (oldest == |held| || h.ts < held[oldest].ts) then i else oldest);
        }
      }
    }
  }

  lemma ReleaseKeeps(h: Hook, slot: nat, now: nat, kind: Kind)
    requires HookInv(h) && slot < |h.held| && h.held[slot].Holding?
    ensures HookInv(Release(h, slot, now, kind)) && Release(h, slot, now, kind).rx.cfg == h.rx.cfg
  {
    var s := h.held[slot];
    LookupKeeps(h.rx, s.from, now);
    var (c, at) := GetPeer(h.rx, s.from, now);
    if at.Found? {
      NoteAtKeeps(c, at.at, s.sn, s.ts, now, kind);
    }
  }

  lemma SameTables(h: Hook, g: Hook)
    requires HookInv(h) && g.held == h.held && g.rx == h.rx
    ensures HookInv(g)
  {
  }

  lemma RuleKeeps(h: Hook, t: Turn)
    requires HookInv(h) && TurnOk(t) && t.comp.ov != 0
    ensures HookInv(Rule(h, t).h) && Rule(h, t).h.rx.cfg == h.rx.cfg
  {
    if t.comp.ok && Sequences(h, t) {
      var g := h.(recvs := Untrack(h.recvs, t.comp.ov), completed := h.completed + 1);
      SameTables(h, g);
      RuleSequencedKeeps(g, t.comp, PacketOf(h, t), t.at);
    }
  }

  lemma RuleSequencedKeeps(h: Hook, comp: Completion, landed: Landed, now: nat)
    requires HookInv(h) && comp.ok && comp.ov != 0 && |landed.data| >= SEQ_MIN_PAY && KeyOf(landed.from) != 0
    ensures HookInv(RuleSequenced(h, comp, landed, now).h)
    ensures RuleSequenced(h, comp, landed, now).h.rx.cfg == h.rx.cfg
  {
    LookupKeeps(h.rx, landed.from, now);
    var (c, at) := GetPeer(h.rx, landed.from, now);
    if at.Found? {
      RuleAtKeeps(h.(rx := c), at.at, comp, SeqOf(landed.data), landed.from, now);
    }
  }

  lemma RuleAtKeeps(h: Hook, i: nat, comp: Completion, sn: u32, from: Endpoint, now: nat)
    requires HookInv(h) && i < |h.rx.tbl| && h.rx.tbl[i].key != 0
    requires comp.ok && comp.ov != 0 && KeyOf(from) != 0
    ensures HookInv(RuleAt(h, i, comp, sn, from, now).h) && RuleAt(h, i, comp, sn, from, now).h.rx.cfg == h.rx.cfg
  {
    var p := h.rx.tbl[i];
    if !p.init || sn == Next(p.last) {
      NoteAtKeeps(h.rx, i, sn, now, now, if p.init then InOrder else First);
    } else if Cmp(sn, p.last) > 0 {
      AdaptAtKeeps(h.rx, i, sn, now);
      NoteAtKeeps(AdaptAt(h.rx, i, sn, now), i, sn, now, now, Forced);
    }
  }

  // ---- One round ---------------------------------------------------------------------------

  lemma RuleHolds(h: Hook, t: Turn, x: Completion)
    requires |h.rx.tbl| > 0 && TurnOk(t) && t.comp.ov != 0
    ensures var r := Rule(h, t); HeldOf(r.h, x) == HeldOf(h, x) + (if r.deferred then Is(t.comp, x) else 0)
  {
    var r := Rule(h, t);
    if r.deferred {
      var slot := FindFreeSlot(h.held, 0);
      UpdateHeld(h.held, slot, r.h.held[slot], x, |h.held|);
    }
  }

  /** A round that returns hands over either what the real call just returned, or something held,
      which is then held no more; one that goes on holds what the real call returned. */
  lemma RoundConserves(h: Hook, t: Turn, x: Completion)
    requires HookInv(h) && TurnOk(t)
    ensures match Round(h, t)
            case Return(g, out, asked) =>
              HeldOf(h, x) + (if asked then Is(t.comp, x) else 0) == HeldOf(g, x) + Is(out, x)
            case Again(g) => HeldOf(h, x) + Is(t.comp, x) == HeldOf(g, x)
  {
    var p := PickReady(h.rx, h.held, t.now, 0, |h.held|);
    var g := h.(rx := p.rx);
    if p.slot < |h.held| {
      UpdateHeld(h.held, p.slot, Free, x, |h.held|);
    } else if t.comp.ov == 0 {
      var oldest := PickOldest(h.held, 0, |h.held|);
      if oldest < |h.held| {
        UpdateHeld(h.held, oldest, Free, x, |h.held|);
      }
    } else {
      RuleHolds(g, t, x);
    }
  }

  lemma RoundKeeps(h: Hook, t: Turn)
    requires HookInv(h) && TurnOk(t)
    ensures HookInv(Round(h, t).h) && Round(h, t).h.rx.cfg == h.rx.cfg
  {
    PickKeeps(h.rx, h.held, t.now, 0, |h.held|);
    var p := PickReady(h.rx, h.held, t.now, 0, |h.held|);
    var g := h.(rx := p.rx);
    if p.slot < |h.held| {
      ReleaseKeeps(g, p.slot, t.now, p.kind);
    } else if t.comp.ov == 0 {
      var oldest := PickOldest(h.held, 0, |h.held|);
      if oldest < |h.held| {
        ReleaseKeeps(g, oldest, t.at, Forced);
      }
    } else {
      RuleKeeps(g, t);
    }
  }

  /** The game is told of a timeout only when nothing is held. */
  lemma TimeoutIff(h: Hook, t: Turn)
    requires HookInv(h) && TurnOk(t)
    ensures Round(h, t).Return? && Round(h, t).out.ov == 0 <==>
              t.comp.ov == 0 && forall i :: 0 <= i < |h.held| ==> h.held[i].Free?
  {
  }

  // ---- One call ------------------------------------------------------------------------------

  /** What a call got from the real one: the turns it used, and the watchdog's last call. */
  function Got(r: Result, turns: seq<Turn>, i: nat, last: Completion, x: Completion): nat
    requires r.used <= |turns|
  {
    Obtained(turns, i, r.used, x) + (if r.dogged then Is(last, x) else 0)
  }

  ghost predicate Conserves(h: Hook, r: Result, turns: seq<Turn>, i: nat, last: Completion, x: Completion) {
    && i <= r.used <= |turns|
    && HeldOf(h, x) + Got(r, turns, i, last, x) == HeldOf(r.h, x) + Is(r.out, x)
  }

  lemma OneTurn(turns: seq<Turn>, i: nat, x: Completion)
    requires i < |turns|
    ensures Obtained(turns, i, i, x) == 0 && Obtained(turns, i, i + 1, x) == Is(turns[i].comp, x)
  {
  }

  /** A deferral and a conserving rest conserve. */
  lemma DeferConserves(h: Hook, g: Hook, r: Result, turns: seq<Turn>, i: nat, last: Completion, x: Completion)
    requires i < |turns| && HeldOf(h, x) + Is(turns[i].comp, x) == HeldOf(g, x)
    requires Conserves(g, r, turns, i + 1, last, x)
    ensures Conserves(h, r, turns, i, last, x)
  {
    ObtainedSplit(turns, i, r.used, x);
  }

  lemma {:induction false} DequeueFromConserves(h: Hook, turns: seq<Turn>, i: nat, entered: nat, budget: nat,
                                                last: Completion, x: Completion)
    requires HookInv(h) && TurnsOk(turns) && i + Room(h) < |turns|
    ensures var r := DequeueFrom(h, turns, i, entered, budget, last);
            && HookInv(r.h) && Conserves(h, r, turns, i, last, x)
            && r.used - i + (if r.dogged then 1 else 0) <= Room(h) + 1
    decreases Room(h)
  {
    RoundConserves(h, turns[i], x);
    RoundKeeps(h, turns[i]);
    OneTurn(turns, i, x);
    if Round(h, turns[i]).Return? {
    } else {
      var g := Round(h, turns[i]).h;
      DeferTakesRoom(h, turns[i]);
      if !(turns[i].end - entered > budget * WATCHDOG) {
        DequeueFromConserves(g, turns, i + 1, entered, budget, last, x);
        DeferConserves(h, g, DequeueFrom(g, turns, i + 1, entered, budget, last), turns, i, last, x);
      }
    }
  }

  /** One call: everything the real calls returned, and everything held before, is either the one thing
      the game gets, unchanged, or held now; and there are at most one more real calls than free
      slots. */
  lemma DequeueConserves(h: Hook, ready: bool, turns: seq<Turn>, entered: nat, timeout: Timeout, last: Completion,
                         x: Completion)
    requires HookInv(h) && TurnsOk(turns) && Room(h) < |turns|
    ensures var r := Dequeue(h, ready, turns, entered, timeout, last);
            && HookInv(r.h) && Conserves(h, r, turns, 0, last, x)
            && r.used + (if r.dogged then 1 else 0) <= Room(h) + 1 <= |h.held| + 1
  {
    RoomBounded(h.held, |h.held|);
    if !ready || h.disabled {
      assert Obtained(turns, 0, 0, x) == 0 && Obtained(turns, 0, 1, x) == Is(turns[0].comp, x);
    } else {
      DequeueFromConserves(h, turns, 0, entered, Budget(h.rx.cfg, timeout), last, x);
    }
  }

  lemma {:induction false} RoomBounded(held: seq<HeldSlot>, n: nat)
    requires n <= |held|
    ensures FreeSlots(held, n) <= n
    ensures FreeSlots(held, n) == n <==> forall k :: 0 <= k < n ==> held[k].Free?
  {
    if n == 0 {
    } else {
      RoomBounded(held, n - 1);
    }
  }

  // ---- Over whole runs --------------------------------------------------------------------------

  datatype Op =
    | Posting(ready: bool, ov: nat, place: Place)
    | Asking(ready: bool, turns: seq<Turn>, entered: nat, timeout: Timeout, last: Completion)

  ghost predicate OpOk(h: Hook, op: Op) {
    |h.rx.tbl| > 0 && (op.Asking? ==> TurnsOk(op.turns) && Room(h) < |op.turns|)
  }

  function Answer(h: Hook, op: Op): Result
    requires OpOk(h, op) && op.Asking?
  {
    Dequeue(h, op.ready, op.turns, op.entered, op.timeout, op.last)
  }

  function Step(h: Hook, op: Op): Hook
    requires OpOk(h, op)
  {
    match op
    case Posting(ready, ov, place) => Track(h, ready, ov, place)
    case Asking(_, _, _, _, _) => Answer(h, op).h
  }

  ghost predicate StepAt(ops: seq<Op>, hs: seq<Hook>, i: nat)
    requires i < |ops| && |hs| == |ops| + 1
  {
    OpOk(hs[i], ops[i]) && hs[i + 1] == Step(hs[i], ops[i])
  }

  /** The result of the call that is operation i. */
  ghost function ResultAt(ops: seq<Op>, hs: seq<Hook>, i: nat): Result
    requires i < |ops| && |hs| == |ops| + 1 && StepAt(ops, hs, i) && ops[i].Asking?
  {
    Answer(hs[i], ops[i])
  }

  /** hs are the states of a run of the hook from a sound one. */
  ghost predicate IsRunFrom(ops: seq<Op>, hs: seq<Hook>) {
    && |hs| == |ops| + 1 && HookInv(hs[0])
    && forall i :: 0 <= i < |ops| ==> StepAt(ops, hs, i)
  }

  /** A run from a hook that holds nothing. */
  ghost predicate IsRun(ops: seq<Op>, hs: seq<Hook>) {
    IsRunFrom(ops, hs) && forall s :: s in hs[0].held ==> s.Free?
  }

  /** How often the real calls returned x to the first n operations. */
  ghost function GotTotal(ops: seq<Op>, hs: seq<Hook>, n: nat, x: Completion): nat
    requires IsRun(ops, hs) && n <= |ops|
  {
    if n == 0 then 0
    else
      assert StepAt(ops, hs, n - 1);
      GotTotal(ops, hs, n - 1, x)
      + if ops[n - 1].Posting? then 0
        else Got(ResultAt(ops, hs, n - 1), ops[n - 1].turns, 0, ops[n - 1].last, x)
  }

  /** How often the first n operations handed x to the game. */
  ghost function GivenTotal(ops: seq<Op>, hs: seq<Hook>, n: nat, x: Completion): nat
    requires IsRun(ops, hs) && n <= |ops|
  {
    if n == 0 then 0
    else
      assert StepAt(ops, hs, n - 1);
      GivenTotal(ops, hs, n - 1, x) + if ops[n - 1].Posting? then 0 else Is(ResultAt(ops, hs, n - 1).out, x)
  }

  lemma {:induction false} NoneHeld(held: seq<HeldSlot>, x: Completion, n: nat)
    requires n <= |held| && forall s :: s in held ==> s.Free?
    ensures HeldCount(held, x, n) == 0
  {
    if n == 0 {
    } else {
      NoneHeld(held, x, n - 1);
      assert held[n - 1] in held;
    }
  }

  /** In every run, of every completion: the real calls returned it exactly as often as the game got it
      unchanged, plus as often as it is held now. */
  lemma {:induction false} RunConserves(ops: seq<Op>, hs: seq<Hook>, n: nat, x: Completion)
    requires IsRun(ops, hs) && n <= |ops|
    ensures HookInv(hs[n])
    ensures GotTotal(ops, hs, n, x) == GivenTotal(ops, hs, n, x) + HeldOf(hs[n], x)
  {
    if n == 0 {
      NoneHeld(hs[0].held, x, |hs[0].held|);
    } else {
      RunConserves(ops, hs, n - 1, x);
      var op := ops[n - 1];
      assert StepAt(ops, hs, n - 1);
      if op.Asking? {
        DequeueConserves(hs[n - 1], op.ready, op.turns, op.entered, op.timeout, op.last, x);
      }
    }
  }

  // ---- What is deferred, and what is released in order --------------------------------------------

  /** Exactly these completions are held back: sequenced receives of a known peer whose sequence lies
      beyond the awaited one, while there is room. */
  lemma DefersIff(h: Hook, t: Turn)
    requires |h.rx.tbl| > 0 && TurnOk(t)
    ensures Rule(h, t).deferred <==>
              && t.comp.ok && Sequences(h, t) && Room(h) > 0
              && var (c, at) := GetPeer(h.rx, PacketOf(h, t).from, t.at);
                 at.Found? && c.tbl[at.at].init && Cmp(SeqOf(PacketOf(h, t).data), c.tbl[at.at].last) > 1
  {
    RoomIff(h.held, |h.held|);
    if Sequences(h, t) {
      var (c, at) := GetPeer(h.rx, PacketOf(h, t).from, t.at);
      if at.Found? {
        NextIsOne(SeqOf(PacketOf(h, t).data), c.tbl[at.at].last);
      }
    }
  }

  lemma NextIsOne(sn: u32, last: u32)
    ensures sn == Next(last) <==> Cmp(sn, last) == 1
  {
  }

  lemma {:induction false} RoomIff(held: seq<HeldSlot>, n: nat)
    requires n <= |held|
    ensures FreeSlots(held, n) > 0 <==> FindFreeSlot(held, 0) < n
  {
    if n == 0 {
    } else {
      RoomIff(held, n - 1);
    }
  }

  /** What is picked as in order is the awaited packet of its peer. */
  lemma {:induction false} PickedInOrder(c: Ctx, held: seq<HeldSlot>, now: nat, i: nat, oldest: nat)
    requires |c.tbl| > 0 && i <= |held| && oldest <= |held| && (oldest < |held| ==> held[oldest].Holding?)
    ensures var p := PickReady(c, held, now, i, oldest);
            p.kind == InOrder ==>
              && p.slot < |held|
              && var at := FindKey(p.rx.tbl, KeyOf(held[p.slot].from), 0);
                 at < |p.rx.tbl| && p.rx.tbl[at].init && held[p.slot].sn == Next(p.rx.tbl[at].last)
    decreases |held| - i
  {
    if i == |held| {
    } else {
      if held[i].Free? {
        PickedInOrder(c, held, now, i + 1, oldest);
      } else {
        var h := held[i];
        var (d, at) := GetPeer(c, h.from, now);
        LookupFinds(c, h.from, now);
        if !IsSuccessor(d, at, h.sn) {
          var due := now < h.ts || now - h.ts >= HoldFor(d, at);
          PickedInOrder(d, held, now, i + 1, if due && (oldest == |held| || h.ts < held[oldest].ts) then i else oldest);
        }
      }
    }
  }

  /** After a lookup the entry found is the first of its source. */
  lemma LookupFinds(c: Ctx, ep: Endpoint, now: nat)
    requires |c.tbl| > 0
    ensures var (d, at) := GetPeer(c, ep, now); at.Found? ==> FindKey(d.tbl, KeyOf(ep), 0) == at.at
  {
    var (d, at) := GetPeer(c, ep, now);
    if at.Found? {
      FirstWithKey(d.tbl, KeyOf(ep), at.at, 0);
    }
  }

  lemma {:induction false} FirstWithKey(tbl: seq<Peer>, key: nat, at: nat, i: nat)
    requires i <= at < |tbl| && tbl[at].key == key && forall j :: i <= j < at ==> tbl[j].key != key
    ensures FindKey(tbl, key, i) == at
    decreases at - i
  {
    if i == at {
    } else {
      FirstWithKey(tbl, key, at, i + 1);
    }
  }
}
