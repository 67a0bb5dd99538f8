/** The completion-port hook as it runs: the tables of outstanding receives and held completions
    updated in place beside the reorder buffer's peer table. */
module IocpCore {
  import opened Serial
  import opened ReorderModel
  import opened ReorderCore
  import opened HookModel
  import opened IocpModel
  import opened IocpConservation

  class IocpHook {
    const rx: ReorderCtx
    const held: array<HeldSlot>
    const recvs: array<Recv>
    var disabled: bool
    var posted: nat
    var completed: nat
    var deferred: nat
    var inOrder: nat
    var forced: nat

    ghost predicate Valid()
      reads this, rx, rx.tbl, set p | p in rx.tbl :: p.slots
    {
      && rx.Valid()
      && held as object !in rx.Footprint() && recvs as object !in rx.Footprint()
    }

    ghost function State(): Hook
      reads this, rx, held, recvs
    {
      Hook(held[..], recvs[..], rx.State(), disabled, posted, completed, deferred, inOrder, forced)
    }

    constructor (rx: ReorderCtx, cap: nat, track: nat)
      requires rx.Valid()
      ensures Valid() && fresh(held) && fresh(recvs) && this.rx == rx
      ensures State() == Hook(seq(cap, _ => Free), seq(track, _ => NO_RECV), rx.State(), false, 0, 0, 0, 0, 0)
    {
      this.rx := rx;
      disabled, posted, completed, deferred, inOrder, forced := false, 0, 0, 0, 0, 0;
      held := new HeldSlot[cap](_ => Free);
      recvs := new Recv[track](_ => NO_RECV);
    }

    method FindOutstanding(ov: nat) returns (r: nat)
      ensures r == FindRecv(recvs[..], ov, 0)
    {
      r := 0;
      while r < recvs.Length && recvs[r].ov != ov
        invariant r <= recvs.Length
        invariant FindRecv(recvs[..], ov, 0) == FindRecv(recvs[..], ov, r)
      {
        r := r + 1;
      }
    }

    /** Note the place an overlapped receive is to fill, so that its completion can be read there. */
    method TrackRecv(ready: bool, ov: nat, place: Place)
      requires Valid()
      modifies this`posted, recvs
      ensures Valid() && State() == Track(old(State()), ready, ov, place)
    {
      if !ready || ov == 0 {
        return;
      }
      posted := posted + 1;
      var slot := FindOutstanding(ov);
      if slot == recvs.Length {
        slot := FindOutstanding(0);
      }
      if slot < recvs.Length {
        recvs[slot] := Recv(ov, place);
      }
    }

    method ForgetRecv(ov: nat) returns (at: nat)
      modifies recvs
      ensures at == FindRecv(old(recvs[..]), ov, 0)
      ensures recvs[..] == Untrack(old(recvs[..]), ov)
    {
      at := FindOutstanding(ov);
      if at < recvs.Length {
        recvs[at] := recvs[at].(ov := 0);
      }
    }

    /** Look at the completion held in slot i: is it its peer's awaited one, and has it waited long
        enough? */
    method Inspect(i: nat, now: nat) returns (successor: bool, due: bool)
      requires Valid() && i < held.Length && held[i].Holding?
      modifies rx`stats, rx`table, rx.Footprint()
      ensures Valid() && rx.State() == GetPeer(old(rx.State()), held[i].from, now).0
      ensures var (d, at) := GetPeer(old(rx.State()), held[i].from, now);
              && successor == IsSuccessor(d, at, held[i].sn)
              && due == (now < held[i].ts || now - held[i].ts >= HoldFor(d, at))
    {
      var h := held[i];
      var at := rx.GetPeer(h.from, now);
      if at.Found? {
        assert rx.tbl[at.at].State() == rx.table[at.at];
      }
      successor := at.Found? && rx.tbl[at.at].seqInit && h.sn == Next(rx.tbl[at.at].lastSeq);
      var win := if at.Found? then rx.tbl[at.at].winMs else rx.cfg.winMin;
      due := now < h.ts || now - h.ts >= HoldWindow(rx.cfg, win);
    }

    /** Scan what is held for the next completion to release. */
    method PickReadySlot(now: nat) returns (slot: nat, kind: Kind)
      requires Valid()
      modifies rx`stats, rx`table, rx.Footprint()
      ensures Valid()
      ensures Pick(rx.State(), slot, kind) == PickReady(old(rx.State()), held[..], now, 0, held.Length)
    {
      ghost var hs := held[..];
      ghost var goal := PickReady(rx.State(), hs, now, 0, |hs|);
      slot, kind := held.Length, Forced;
      var i, stop := 0, false;
      while i < held.Length && !stop
        invariant Valid() && held[..] == hs && i <= |hs| && slot <= |hs|
        invariant slot < |hs| ==> hs[slot].Holding?
        invariant !stop ==> kind == Forced && goal == PickReady(rx.State(), hs, now, i, slot)
        invariant stop ==> goal == Pick(rx.State(), slot, kind)
      {
        slot, kind, stop := Consider(i, slot, now);
        i := i + 1;
      }
    }

    /** One step of that scan. */
    method Consider(i: nat, oldest: nat, now: nat) returns (slot: nat, kind: Kind, stop: bool)
      requires Valid() && i < held.Length && oldest <= held.Length && (oldest < held.Length ==> held[oldest].Holding?)
      modifies rx`stats, rx`table, rx.Footprint()
      ensures Valid() && slot <= held.Length && (slot < held.Length ==> held[slot].Holding?)
      ensures !stop ==> kind == Forced
      ensures PickReady(old(rx.State()), held[..], now, i, oldest)
              == if stop then Pick(rx.State(), slot, kind) else PickReady(rx.State(), held[..], now, i + 1, slot)
    {
      slot, kind, stop := oldest, Forced, false;
      if held[i].Holding? {
        var successor, due := Inspect(i, now);
        if successor {
          return i, InOrder, true;
        }
        if due && (oldest == held.Length || held[i].ts < held[oldest].ts) {
          slot := i;
        }
      }
    }

    method PickOldestSlot() returns (r: nat)
      ensures r == PickOldest(held[..], 0, held.Length)
    {
      r := held.Length;
      for i := 0 to held.Length
        invariant r <= held.Length && (r < held.Length ==> held[r].Holding?)
        invariant PickOldest(held[..], 0, held.Length) == PickOldest(held[..], i, r)
      {
        if held[i].Holding? && (r == held.Length || held[i].ts < held[r].ts) {
          r := i;
        }
      }
    }

    /** Give the game what a slot holds, exactly as it was deferred. */
    method ReleaseSlot(slot: nat, now: nat, kind: Kind) returns (out: Completion)
      requires Valid() && CtxInv(rx.State()) && slot < held.Length && held[slot].Holding?
      modifies this, held, rx`stats, rx`table, rx.Footprint()
      ensures Valid() && State() == Release(old(State()), slot, now, kind)
      ensures out == old(held[slot].comp)
    {
      var h := held[slot];
      out := h.comp;
      FreeUp(slot, kind);
      assert Valid() && rx.State() == old(rx.State());
      NoteRelease(h.from, h.sn, h.ts, now, kind);
    }

    method FreeUp(slot: nat, kind: Kind)
      requires slot < held.Length
      modifies this`inOrder, this`forced, held
      ensures held[..] == old(held[..])[slot := Free]
      ensures inOrder == old(inOrder) + (if kind == InOrder then 1 else 0)
      ensures forced == old(forced) + (if kind == InOrder then 0 else 1)
    {
      held[slot] := Free;
      if kind == InOrder {
        inOrder := inOrder + 1;
      } else {
        forced := forced + 1;
      }
    }

    method NoteRelease(from: Endpoint, sn: u32, ts: nat, now: nat, kind: Kind)
      requires Valid() && CtxInv(rx.State())
      modifies rx`stats, rx`table, rx.Footprint()
      ensures Valid() && rx.State() == NoteFor(old(rx.State()), from, sn, ts, now, kind)
    {
      LookupKeeps(rx.State(), from, now);
      var at := rx.GetPeer(from, now);
      if at.Found? {
        Entry(rx.State(), at.at);
        rx.NoteEntry(at.at, sn, ts, now, kind);
      }
    }

    method FindSpare() returns (r: nat)
      ensures r == FindFreeSlot(held[..], 0)
    {
      r := 0;
      while r < held.Length && held[r].Holding?
        invariant r <= held.Length
        invariant FindFreeSlot(held[..], 0) == FindFreeSlot(held[..], r)
      {
        r := r + 1;
      }
    }

    /** A sequence beyond the awaited one: its completion takes a free slot, or passes as forced. */
    method DeferOrForce(i: nat, comp: Completion, sn: u32, from: Endpoint, now: nat) returns (deferred: bool)
      requires Valid() && HookInv(State()) && i < |rx.tbl| && rx.table[i].key != 0
      requires rx.table[i].init && Cmp(sn, rx.table[i].last) > 1
      modifies this, held, rx`stats, rx`table, rx.Footprint()
      ensures Valid() && Ruling(State(), deferred) == RuleAt(old(State()), i, comp, sn, from, now)
    {
      NextIsOne(sn, rx.table[i].last);
      AdaptAtKeeps(rx.State(), i, sn, now);
      rx.InFootprint(i);
      rx.AdaptEntry(i, sn, now);
      deferred := HoldOrForce(i, comp, sn, from, now);
    }

    method HoldOrForce(i: nat, comp: Completion, sn: u32, from: Endpoint, now: nat) returns (deferred: bool)
      requires Valid() && CtxInv(rx.State()) && i < |rx.tbl|
      modifies this, held, rx`stats, rx`table, rx.Footprint()
      ensures Valid()
      ensures var was, slot := old(State()), FindFreeSlot(old(held[..]), 0);
              if slot == held.Length then
                !deferred && State() == was.(rx := NoteAt(was.rx, i, sn, now, now, Forced), forced := was.forced + 1)
              else
                deferred && State() == was.(held := was.held[slot := Holding(comp, sn, now, from)],
                  deferred := was.deferred + 1)
    {
      var slot := FindSpare();
      if slot == held.Length {
        Entry(rx.State(), i);
        rx.NoteEntry(i, sn, now, now, Forced);
        forced := forced + 1;
        return false;
      }
      held[slot] := Holding(comp, sn, now, from);
      deferred := true;
      this.deferred := this.deferred + 1;
    }

    /** A sequenced receive of peer entry i completed. */
    method ClassifyAt(i: nat, comp: Completion, sn: u32, from: Endpoint, now: nat) returns (deferred: bool)
      requires Valid() && HookInv(State()) && i < |rx.tbl| && rx.table[i].key != 0
      modifies this, held, rx`stats, rx`table, rx.Footprint()
      ensures Valid() && Ruling(State(), deferred) == RuleAt(old(State()), i, comp, sn, from, now)
    {
      var p := rx.tbl[i];
      assert p.State() == rx.table[i];
      NextIsOne(sn, p.lastSeq);
      if !p.seqInit || sn == Next(p.lastSeq) {
        Entry(rx.State(), i);
        rx.NoteEntry(i, sn, now, now, if p.seqInit then InOrder else First);
        inOrder := inOrder + 1;
        return false;
      }
      if Cmp(sn, p.lastSeq) <= 0 {
        rx.stats := rx.stats.(stale := rx.stats.stale + 1);
        return false;
      }
      deferred := DeferOrForce(i, comp, sn, from, now);
    }

    /** Forget the receive that completed, if it is one of ours; is there a sequenced packet where it
        was to land? */
    method Settle(t: Turn) returns (sequenced: bool, landed: Landed)
      modifies recvs
      ensures State() == old(State()).(recvs := Untrack(old(recvs[..]), t.comp.ov))
      ensures sequenced == (t.comp.ok && Sequences(old(State()), t))
      ensures sequenced ==> landed == PacketOf(old(State()), t)
    {
      var at := ForgetRecv(t.comp.ov);
      sequenced, landed := false, Landed(Endpoint(0, 0), []);
      if t.comp.ok && at < recvs.Length && t.comp.bytes >= SEQ_MIN_PAY && recvs[at].place in t.memory {
        sequenced, landed := true, t.memory[recvs[at].place];
      }
    }

    /** Is the completion just obtained for the game now, or deferred? */
    method Classify(t: Turn) returns (deferred: bool)
      requires Valid() && HookInv(State()) && TurnOk(t) && t.comp.ov != 0
      modifies this, held, recvs, rx`stats, rx`table, rx.Footprint()
      ensures Valid() && Ruling(State(), deferred) == Rule(old(State()), t)
    {
      ghost var h := State();
      var sequenced, landed := Settle(t);
      deferred := false;
      if sequenced {
        completed := completed + 1;
        ghost var g := h.(recvs := Untrack(h.recvs, t.comp.ov), completed := h.completed + 1);
        assert State() == g;
        SameTables(h, g);
        deferred := ClassifySequenced(t.comp, landed, t.at);
        RuleUnfolds(h, g, t);
      } else {
        assert Ruling(State(), deferred) == Rule(h, t);
      }
    }

    method ClassifySequenced(comp: Completion, landed: Landed, now: nat) returns (deferred: bool)
      requires Valid() && HookInv(State()) && comp.ok && comp.ov != 0
      requires |landed.data| >= SEQ_MIN_PAY && KeyOf(landed.from) != 0
      modifies this, held, rx`stats, rx`table, rx.Footprint()
      ensures Valid() && Ruling(State(), deferred) == RuleSequenced(old(State()), comp, landed, now)
    {
      LookupKeeps(rx.State(), landed.from, now);
      var at := rx.GetPeer(landed.from, now);
      if at == TableFull {
        inOrder := inOrder + 1;
        return false;
      }
      deferred := ClassifyAt(at.at, comp, SeqOf(landed.data), landed.from, now);
    }

    /** One round of the loop. */
    method RunRound(t: Turn) returns (again: bool, out: Completion, asked: bool)
      requires Valid() && HookInv(State()) && TurnOk(t)
      modifies this, held, recvs, rx`stats, rx`table, rx.Footprint()
      ensures Valid()
      ensures Round(old(State()), t) == if again then Again(State()) else Return(State(), out, asked)
    {
      again, asked, out := false, false, t.comp;
      PickKeeps(rx.State(), held[..], t.now, 0, held.Length);
      var slot, kind := PickReadySlot(t.now);
      if slot < held.Length {
        out := ReleaseSlot(slot, t.now, kind);
        return;
      }
      asked := true;
      if t.comp.ov == 0 {
        slot := PickOldestSlot();
        if slot < held.Length {
          out := ReleaseSlot(slot, t.at, Forced);
        }
        return;
      }
      again := Classify(t);
    }

    /** The game asks for a completion; waits are the real calls made for it. */
    method GetStatus(ready: bool, turns: seq<Turn>, entered: nat, timeout: Timeout, last: Completion)
      returns (out: Completion, used: nat, dogged: bool, waits: seq<Timeout>)
      requires Valid() && HookInv(State()) && TurnsOk(turns) && Room(State()) < |turns|
      modifies this, held, recvs, rx`stats, rx`table, rx.Footprint()
      ensures Valid()
      ensures Result(State(), out, used, dogged, waits) == Dequeue(old(State()), ready, turns, entered, timeout, last)
    {
      if !ready || disabled {
        return turns[0].comp, 1, false, [timeout];
      }
      var budget := Budget(rx.cfg, timeout);
      ghost var goal := DequeueFrom(State(), turns, 0, entered, budget, last);
      PrefixedNone(goal);
      used, waits := 0, [];
      while true
        invariant Valid() && HookInv(State()) && used + Room(State()) < |turns|
        invariant goal == Prefixed(waits, DequeueFrom(State(), turns, used, entered, budget, last))
        decreases Room(State())
      {
        var again;
        again, out, used, dogged, waits := NextRound(turns, used, entered, budget, last, waits);
        if !again {
          return;
        }
      }
    }

    /** One round of a call that has made the real calls of waits so far. */
    method NextRound(turns: seq<Turn>, i: nat, entered: nat, budget: nat, last: Completion, was: seq<Timeout>)
      returns (again: bool, out: Completion, used: nat, dogged: bool, waits: seq<Timeout>)
      requires Valid() && HookInv(State()) && TurnsOk(turns) && i + Room(State()) < |turns|
      modifies this, held, recvs, rx`stats, rx`table, rx.Footprint()
      ensures Valid() && HookInv(State())
      ensures again ==> used + Room(State()) < |turns| && Room(State()) < Room(old(State()))
      ensures Prefixed(was, DequeueFrom(old(State()), turns, i, entered, budget, last)) ==
                if again then Prefixed(waits, DequeueFrom(State(), turns, used, entered, budget, last))
                else Result(State(), out, used, dogged, waits)
    {
      ghost var h := State();
      RoundKeeps(h, turns[i]);
      RoundResult(h, turns, i, entered, budget, last, was);
      var wait := Ms(Remaining(turns[i].now, entered + budget));
      var asked;
      again, out, asked := RunRound(turns[i]);
      used, dogged, waits := if asked then i + 1 else i, false, if asked then was + [wait] else was;
      if again {
        used, waits := i + 1, was + [wait];
        if turns[i].end - entered > budget * WATCHDOG {
          disabled := true;
          again, out, dogged, waits := false, last, true, waits + [Ms(0)];
        }
      }
    }
  }

  /** A result with real calls made before it. */
  ghost function Prefixed(waits: seq<Timeout>, r: Result): Result {
    r.(waits := waits + r.waits)
  }

  lemma PrefixedNone(r: Result)
    ensures Prefixed([], r) == r
  {
  }

  lemma PrefixedStep(waits: seq<Timeout>, wait: Timeout, r: Result)
    ensures Prefixed(waits, r.(waits := [wait] + r.waits)) == Prefixed(waits + [wait], r)
  {
    assert waits + ([wait] + r.waits) == (waits + [wait]) + r.waits;
  }

  /** How round i goes into the result of the call. */
  lemma RoundResult(h: Hook, turns: seq<Turn>, i: nat, entered: nat, budget: nat, last: Completion, was: seq<Timeout>)
    requires |h.rx.tbl| > 0 && TurnsOk(turns) && i + Room(h) < |turns|
    ensures var r := Prefixed(was, DequeueFrom(h, turns, i, entered, budget, last));
            var wait := Ms(Remaining(turns[i].now, entered + budget));
            match Round(h, turns[i])
            case Return(g, out, asked) =>
              r == Result(g, out, if asked then i + 1 else i, false, if asked then was + [wait] else was)
            case Again(g) =>
              && |g.rx.tbl| > 0 && Room(g) == Room(h) - 1
              && r == if turns[i].end - entered > budget * WATCHDOG
                      then Result(g.(disabled := true), last, i + 1, true, was + [wait] + [Ms(0)])
                      else Prefixed(was + [wait], DequeueFrom(g, turns, i + 1, entered, budget, last))
  {
    var wait := Ms(Remaining(turns[i].now, entered + budget));
    if Round(h, turns[i]).Again? {
      DeferTakesRoom(h, turns[i]);
      var g := Round(h, turns[i]).h;
      if turns[i].end - entered > budget * WATCHDOG {
        assert was + [wait, Ms(0)] == was + [wait] + [Ms(0)];
      } else {
        PrefixedStep(was, wait, DequeueFrom(g, turns, i + 1, entered, budget, last));
      }
    }
  }
}
