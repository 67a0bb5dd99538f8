/** The receive hook as it runs: drain the kernel into the rings, hand over at most one datagram,
    and copy its bytes into the caller's buffers. */
module ReceiveHook {
  import opened Serial
  import opened ReorderModel
  import opened ReorderRings
  import opened ReorderCore
  import opened HookModel

  /** Offer one sequenced datagram to the buffer; WouldBlock means it was buffered. */
  method Accept(rx: ReorderCtx, d: Dgram, now: nat) returns (out: Outcome)
    requires rx.Valid() && CtxInv(rx.State()) && |d.data| >= SEQ_MIN_PAY && KeyOf(d.from) != 0
    requires !Saturated(rx.State())
    modifies rx`stats, rx`table, rx.Footprint()
    ensures rx.Valid()
    ensures rx.State() == Arrive(old(rx.State()), d, now).c
    ensures out == Arrive(old(rx.State()), d, now).out && !out.Displaced?
  {
    NeverEvicts(rx.State(), d, now);
    LookupKeeps(rx.State(), d.from, now);
    var at := rx.GetPeer(d.from, now);
    if at == TableFull {
      rx.stats := rx.stats.(tableFull := rx.stats.tableFull + 1);
      return TableIsFull(d);
    }
    Entry(rx.State(), at.at);
    out := AcceptAt(rx, at.at, d, now);
  }

  /** The source has entry i. */
  method AcceptAt(rx: ReorderCtx, i: nat, d: Dgram, now: nat) returns (out: Outcome)
    requires rx.Valid() && i < |rx.tbl| && |rx.table[i].slots| > 0 && |d.data| >= SEQ_MIN_PAY
    requires !ArriveAt(rx.State(), i, d, now).out.Displaced?
    modifies rx`stats, rx`table, rx.Footprint()
    ensures rx.Valid()
    ensures rx.State() == ArriveAt(old(rx.State()), i, d, now).c && out == ArriveAt(old(rx.State()), i, d, now).out
  {
    var r := rx.Offer(i, d, now);
    rx.stats := CountInsert(rx.stats, r);
    out := if r == Buffered then WouldBlock else PassedThrough(d);
  }

  /** Act on what one receive call returned: keep draining, or stop with an outcome. */
  method Receive(rx: ReorderCtx, r: Read) returns (more: bool, out: Outcome)
    requires rx.Valid() && CtxInv(rx.State()) && ReadOk(r) && !Saturated(rx.State())
    modifies rx`stats, rx`table, rx.Footprint()
    ensures rx.Valid()
    ensures rx.State() == OnRead(old(rx.State()), r).c
    ensures more == OnRead(old(rx.State()), r).GoOn?
    ensures out == if more then WouldBlock else OnRead(old(rx.State()), r).out
  {
    more, out := false, WouldBlock;
    match r
    case Stop =>
    case TooBig =>
      rx.stats := rx.stats.(emsgsize := rx.stats.emsgsize + 1);
      more := true;
    case Packet(d, ipv4, at) =>
      if d.data == [] {
      } else if d.data == WAKE_MAGIC {
        more := true;
      } else if !ipv4 || |d.data| < SEQ_MIN_PAY {
        rx.stats := rx.stats.(short := rx.stats.short + 1);
        out := Bypassed(d);
      } else {
        out := Accept(rx, d, at);
        more := out == WouldBlock;
      }
  }

  ghost predicate SameResult(a: Drained, b: Drained) {
    a.c == b.c && a.used == b.used && a.out == b.out
  }

  /** One call by the game. */
  method Call(rx: ReorderCtx, input: seq<Read>, cap: nat, now: nat) returns (used: nat, out: Outcome)
    requires rx.Valid() && CtxInv(rx.State()) && InputOk(input)
    modifies rx, rx.Footprint()
    ensures rx.Valid()
    ensures rx.State() == HookModel.Call(old(rx.State()), input, cap, now).c
    ensures used == HookModel.Call(old(rx.State()), input, cap, now).used
    ensures out == HookModel.Call(old(rx.State()), input, cap, now).out
  {
    used, out := DrainKernel(rx, input, cap);
    DrainKeeps(old(rx.State()), input, 0, cap);
    if out != WouldBlock {
      return;
    }
    out := ReleaseOne(rx, now);
  }

  method ReleaseOne(rx: ReorderCtx, now: nat) returns (out: Outcome)
    requires rx.Valid() && CtxInv(rx.State())
    modifies rx, rx.Footprint()
    ensures rx.Valid()
    ensures var c := old(rx.State());
            match ReadyFrom(c, now, 0)
            case NoneReady => rx.State() == c && out == WouldBlock
            case ReadyAt(i, s, k) =>
              rx.State() == TakeAt(c, ReadyAt(i, s, k), now) && out == Released(c.tbl[i].slots[s].pkt)
  {
    ghost var c := rx.State();
    ReadyIsHeld(c, now, 0);
    var r := rx.NextReady(now);
    if r == NoneReady {
      return WouldBlock;
    }
    Entry(c, r.peer);
    PickHeld(c.cfg, c.tbl[r.peer], now);
    var pkt := rx.TakeReady(r, now);
    out := Released(pkt.pkt);
  }

  /** Make one more receive call if the guard allows it. */
  method DrainStep(rx: ReorderCtx, input: seq<Read>, at: nat, cap: nat)
    returns (more: bool, used: nat, out: Outcome)
    requires rx.Valid() && CtxInv(rx.State()) && InputOk(input) && at < |input| && cap > 0
    modifies rx`stats, rx`table, rx.Footprint()
    ensures rx.Valid() && CtxInv(rx.State()) && at <= used <= at + 1 <= |input|
    ensures more ==> used == at + 1
    ensures SameResult(Drain(old(rx.State()), input, at, cap),
                       if more then Drain(rx.State(), input, at + 1, cap - 1)
                       else Drained(rx.State(), used, out, NO_LOSS))
  {
    var full := rx.DrainSaturated();
    if full {
      return false, at, WouldBlock;
    }
    OnReadKeeps(rx.State(), input[at]);
    more, out := Receive(rx, input[at]);
    used := at + 1;
  }

  method DrainKernel(rx: ReorderCtx, input: seq<Read>, cap: nat) returns (used: nat, out: Outcome)
    requires rx.Valid() && CtxInv(rx.State()) && InputOk(input)
    modifies rx, rx.Footprint()
    ensures rx.Valid()
    ensures SameResult(Drain(old(rx.State()), input, 0, cap), Drained(rx.State(), used, out, NO_LOSS))
  {
    ghost var goal := Drain(rx.State(), input, 0, cap);
    used, out := 0, WouldBlock;
    var left := cap;
    while left > 0 && used < |input|
      invariant rx.Valid() && CtxInv(rx.State()) && used <= |input|
      invariant SameResult(goal, Drain(rx.State(), input, used, left))
    {
      var more, n, o := DrainStep(rx, input, used, left);
      if !more {
        return n, o;
      }
      used, left := used + 1, left - 1;
    }
    out := WouldBlock;
  }

  // ---- Handing the bytes over -------------------------------------------------

  /** Bytes the first k buffers can take, given their sizes. */
  function Room(sizes: seq<nat>, k: nat): nat
    requires k <= |sizes|
  {
    if k == 0 then 0 else Room(sizes, k - 1) + sizes[k - 1]
  }

  /** A missing buffer takes nothing. */
  function Sizes(bufs: seq<array?<u8>>): (r: seq<nat>)
    ensures |r| == |bufs| && forall b :: 0 <= b < |bufs| ==> r[b] == if bufs[b] == null then 0 else bufs[b].Length
  {
    seq(|bufs|, b requires 0 <= b < |bufs| => if bufs[b] == null then 0 else bufs[b].Length)
  }

  /** A buffer that held was, after the bytes of src from off on were copied over its start. */
  function Filled(was: seq<u8>, src: seq<u8>, off: nat): seq<u8> {
    seq(|was|, j requires 0 <= j < |was| => if off + j < |src| then src[off + j] else was[j])
  }

  /** What an array that held was holds after the first k buffers were copied to: each stretch that went to
      it, the later ones over the earlier where several buffers are the same array. */
  ghost function Written(bufs: seq<array?<u8>>, a: array<u8>, was: seq<u8>, src: seq<u8>, k: nat): (r: seq<u8>)
    requires k <= |bufs|
    ensures |r| == |was|
  {
    if k == 0 then was
    else
      var front := Written(bufs, a, was, src, k - 1);
      if bufs[k - 1] == a then Filled(front, src, Room(Sizes(bufs), k - 1)) else front
  }

  ghost function Snapshot(bufs: seq<array?<u8>>): (r: seq<seq<u8>>)
    reads bufs
    ensures |r| == |bufs| && forall b :: 0 <= b < |bufs| && bufs[b] != null ==> r[b] == bufs[b][..]
  {
    seq(|bufs|, b requires 0 <= b < |bufs| reads bufs => if bufs[b] == null then [] else bufs[b][..])
  }

  /** Buffer b has what the first k copies leave in its array. */
  ghost predicate Placed(bufs: seq<array?<u8>>, was: seq<seq<u8>>, src: seq<u8>, k: nat, b: nat)
    requires b < |bufs| == |was| && k <= |bufs|
    reads bufs
  {
    bufs[b] != null ==> bufs[b][..] == Written(bufs, bufs[b], was[b], src, k)
  }

  ghost predicate AllPlaced(bufs: seq<array?<u8>>, was: seq<seq<u8>>, src: seq<u8>, k: nat)
    requires |bufs| == |was| && k <= |bufs|
    reads bufs
  {
    forall b :: 0 <= b < |bufs| ==> Placed(bufs, was, src, k, b)
  }

  /** Copy a datagram across the caller's buffers in order, skipping missing ones.  The count is short of
      |src| exactly when the buffers are too small, which the hook reports as a truncated datagram. */
  method ScatterCopy(bufs: seq<array?<u8>>, src: seq<u8>) returns (done: nat)
    modifies bufs
    ensures done == Min(|src|, Room(Sizes(bufs), |bufs|))
    ensures AllPlaced(bufs, old(Snapshot(bufs)), src, |bufs|)
  {
    ghost var was, sizes := Snapshot(bufs), Sizes(bufs);
    done := 0;
    var b := 0;
    while b < |bufs| && done < |src|
      invariant b <= |bufs| && done == Min(|src|, Room(sizes, b))
      invariant AllPlaced(bufs, was, src, b)
    {
      done := CopyOne(bufs, src, b, done, was);
      b := b + 1;
    }
    PlacedPast(bufs, was, src, b);
    RoomGrows(sizes, b, |bufs|);
  }

  /** The copy to buffer b, if there is one. */
  method CopyOne(bufs: seq<array?<u8>>, src: seq<u8>, b: nat, off: nat, ghost was: seq<seq<u8>>) returns (done: nat)
    requires b < |bufs| == |was| && off == Min(|src|, Room(Sizes(bufs), b)) && off < |src|
    requires AllPlaced(bufs, was, src, b)
    modifies bufs
    ensures done == Min(|src|, Room(Sizes(bufs), b + 1)) && AllPlaced(bufs, was, src, b + 1)
  {
    done := off;
    if bufs[b] != null {
      CopyInto(bufs[b], src, off);
      done := off + Min(|src| - off, bufs[b].Length);
    }
    ghost var next := b + 1;
    forall i | 0 <= i < |bufs| ensures Placed(bufs, was, src, next, i) {
      assert old(Placed(bufs, was, src, b, i));
    }
  }

  lemma PlacedPast(bufs: seq<array?<u8>>, was: seq<seq<u8>>, src: seq<u8>, b: nat)
    requires b <= |bufs| == |was| && AllPlaced(bufs, was, src, b)
    requires b == |bufs| || Room(Sizes(bufs), b) >= |src|
    ensures AllPlaced(bufs, was, src, |bufs|)
  {
    forall i | 0 <= i < |bufs| ensures Placed(bufs, was, src, |bufs|, i) {
      assert Placed(bufs, was, src, b, i);
      if bufs[i] != null {
        WrittenPast(bufs, bufs[i], was[i], src, b, |bufs|);
      }
    }
  }

  /** Once the datagram is used up nothing more is written. */
  lemma {:induction false} WrittenPast(bufs: seq<array?<u8>>, a: array<u8>, was: seq<u8>, src: seq<u8>, b: nat, k: nat)
    requires b <= k <= |bufs| && (b == |bufs| || Room(Sizes(bufs), b) >= |src|)
    ensures Written(bufs, a, was, src, k) == Written(bufs, a, was, src, b)
    decreases k
  {
    if k == b {
    } else {
      WrittenPast(bufs, a, was, src, b, k - 1);
      RoomGrows(Sizes(bufs), b, k - 1);
      FilledPast(Written(bufs, a, was, src, k - 1), src, Room(Sizes(bufs), k - 1));
    }
  }

  /** A buffer that is no other one gets just its own stretch. */
  lemma {:induction false} WrittenOnce(bufs: seq<array?<u8>>, a: array<u8>, was: seq<u8>, src: seq<u8>, b: nat, k: nat)
    requires b < |bufs| && k <= |bufs| && bufs[b] == a && forall i :: 0 <= i < |bufs| && i != b ==> bufs[i] != a
    ensures Written(bufs, a, was, src, k) == if b < k then Filled(was, src, Room(Sizes(bufs), b)) else was
    decreases k
  {
    if k == 0 {
    } else {
      WrittenOnce(bufs, a, was, src, b, k - 1);
    }
  }

  lemma FilledPast(was: seq<u8>, src: seq<u8>, off: nat)
    requires off >= |src|
    ensures Filled(was, src, off) == was
  {
  }

  lemma {:induction false} RoomGrows(sizes: seq<nat>, i: nat, j: nat)
    requires i <= j <= |sizes|
    ensures Room(sizes, i) <= Room(sizes, j)
    decreases j
  {
    if i == j {
    } else {
      RoomGrows(sizes, i, j - 1);
    }
  }

  /** Copy as much of src from off on as the buffer takes. */
  method CopyInto(buf: array<u8>, src: seq<u8>, off: nat)
    requires off <= |src|
    modifies buf
    ensures buf[..] == Filled(old(buf[..]), src, off)
  {
    for i := 0 to Min(|src| - off, buf.Length)
      invariant forall j :: 0 <= j < buf.Length ==> buf[j] == if j < i then src[off + j] else old(buf[j])
    {
      buf[i] := src[off + i];
    }
  }
}
