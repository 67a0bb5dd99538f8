/** A fixed table of per-peer records, the way the sampler and the suppressor both keep theirs: a peer
    is found by its address, takes the first free record, or takes over the one touched longest ago.
    Address 0 marks a free record. */
module PeerTable {
  datatype Entry<R> = Entry(addr: nat, lastUse: nat, rec: R)

  function FindAddr<R>(t: seq<Entry<R>>, addr: nat, i: nat): (r: nat)
    requires i <= |t|
    ensures i <= r <= |t|
    ensures r < |t| ==> t[r].addr == addr
    ensures forall j :: i <= j < r ==> t[j].addr != addr
    decreases |t| - i
  {
    if i == |t| || t[i].addr == addr then i else FindAddr(t, addr, i + 1)
  }

  /** The record touched longest ago, ties to the lowest index. */
  function Oldest<R>(t: seq<Entry<R>>, i: nat, best: nat): (r: nat)
    requires i <= |t| && best < |t|
    ensures r < |t| && t[r].lastUse <= t[best].lastUse
    ensures forall j :: i <= j < |t| ==> t[r].lastUse <= t[j].lastUse
    decreases |t| - i
  {
    if i == |t| then best
    else Oldest(t, i + 1, if t[i].lastUse < t[best].lastUse then i else best)
  }

  /** Every record belongs to some other peer, so a lookup evicts one. */
  predicate Crowded<R>(t: seq<Entry<R>>, addr: nat) {
    FindAddr(t, addr, 0) == |t| && FindAddr(t, 0, 0) == |t|
  }

  /** The record a lookup settles on. */
  function PlaceOf<R>(t: seq<Entry<R>>, addr: nat): (r: nat)
    requires |t| > 0
    ensures r < |t|
  {
    var at, free := FindAddr(t, addr, 0), FindAddr(t, 0, 0);
    if at < |t| then at else if free < |t| then free else Oldest(t, 1, 0)
  }

  /** The table after a lookup: the record touched, or wiped and given to the peer. */
  function Lookup<R>(t: seq<Entry<R>>, blank: R, addr: nat, now: nat): (u: seq<Entry<R>>)
    requires |t| > 0
    ensures |u| == |t| && u[PlaceOf(t, addr)].addr == addr
  {
    var i := PlaceOf(t, addr);
    t[i := if t[i].addr == addr then t[i].(lastUse := now) else Entry(addr, now, blank)]
  }

  function Store<R>(t: seq<Entry<R>>, i: nat, rec: R): seq<Entry<R>>
    requires i < |t|
  {
    t[i := t[i].(rec := rec)]
  }

  function Forget<R>(t: seq<Entry<R>>, blank: R, addr: nat): seq<Entry<R>> {
    var at := FindAddr(t, addr, 0);
    if at == |t| then t else t[at := Entry(0, 0, blank)]
  }

  /** No two records are of the same real peer. */
  ghost predicate Unique<R>(t: seq<Entry<R>>) {
    forall i, j :: 0 <= i < j < |t| && t[i].addr == t[j].addr ==> t[i].addr == 0
  }

  lemma LookupUnique<R>(t: seq<Entry<R>>, blank: R, addr: nat, now: nat)
    requires |t| > 0 && Unique(t)
    ensures Unique(Lookup(t, blank, addr, now))
  {
    var i, u := PlaceOf(t, addr), Lookup(t, blank, addr, now);
    forall j, k | 0 <= j < k < |u| && u[j].addr == u[k].addr ensures u[j].addr == 0 {
      assert j != i && k != i ==> u[j] == t[j] && u[k] == t[k];
    }
  }

  lemma StoreUnique<R>(t: seq<Entry<R>>, i: nat, rec: R)
    requires i < |t| && Unique(t)
    ensures Unique(Store(t, i, rec))
  {
  }

  lemma ForgetUnique<R>(t: seq<Entry<R>>, blank: R, addr: nat)
    requires Unique(t)
    ensures Unique(Forget(t, blank, addr))
  {
  }

  // ---- Runs of a table -------------------------------------------------------------

  /** What happens to a table: a peer's record is used, claimed if need be; an event is noted if the
      peer is known; a peer is forgotten; or nothing. */
  datatype Op<E> =
    | Using(addr: nat, at: nat, e: E)
    | Noting(addr: nat, e: E)
    | Purging(addr: nat)
    | Ignored

  /** One operation, where f is what an event does to a record. */
  function Apply<R, E>(f: (R, E) -> R, blank: R, t: seq<Entry<R>>, op: Op<E>): (u: seq<Entry<R>>)
    requires |t| > 0
    ensures |u| == |t|
  {
    match op
    case Using(addr, at, e) =>
      var i, u := PlaceOf(t, addr), Lookup(t, blank, addr, at);
      Store(u, i, f(u[i].rec, e))
    case Noting(addr, e) =>
      var i := FindAddr(t, addr, 0);
      if i == |t| then t else Store(t, i, f(t[i].rec, e))
    case Purging(addr) => Forget(t, blank, addr)
    case Ignored => t
  }

  lemma ApplyUnique<R, E>(f: (R, E) -> R, blank: R, t: seq<Entry<R>>, op: Op<E>)
    requires |t| > 0 && Unique(t)
    ensures Unique(Apply(f, blank, t, op))
  {
    match op
    case Using(addr, at, e) =>
      var i, u := PlaceOf(t, addr), Lookup(t, blank, addr, at);
      LookupUnique(t, blank, addr, at);
      StoreUnique(u, i, f(u[i].rec, e));
    case Noting(addr, e) =>
      var i := FindAddr(t, addr, 0);
      if i < |t| {
        StoreUnique(t, i, f(t[i].rec, e));
      }
    case Purging(addr) => ForgetUnique(t, blank, addr);
    case Ignored =>
  }

  ghost predicate StepAt<R, E>(f: (R, E) -> R, blank: R, ops: seq<Op<E>>, ts: seq<seq<Entry<R>>>, k: nat)
    requires k < |ops| && |ts| == |ops| + 1
  {
    |ts[k]| > 0 && ts[k + 1] == Apply(f, blank, ts[k], ops[k])
  }

  /** ts are the tables of a run from a table with a record per peer. */
  ghost predicate IsRun<R, E>(f: (R, E) -> R, blank: R, ops: seq<Op<E>>, ts: seq<seq<Entry<R>>>) {
    && |ts| == |ops| + 1 && |ts[0]| > 0 && Unique(ts[0])
    && forall k :: 0 <= k < |ops| ==> StepAt(f, blank, ops, ts, k)
  }

  lemma {:induction false} RunUnique<R, E>(f: (R, E) -> R, blank: R, ops: seq<Op<E>>, ts: seq<seq<Entry<R>>>, n: nat)
    requires IsRun(f, blank, ops, ts) && n <= |ops|
    ensures |ts[n]| == |ts[0]| && Unique(ts[n])
  {
    if n == 0 {
    } else {
      RunUnique(f, blank, ops, ts, n - 1);
      assert StepAt(f, blank, ops, ts, n - 1);
      ApplyUnique(f, blank, ts[n - 1], ops[n - 1]);
    }
  }

  // ---- Which record is given up --------------------------------------------------------

  /** The last of the first n operations to use the peer's record, or -1. */
  function LastUsing<E>(ops: seq<Op<E>>, addr: nat, n: nat): (k: int)
    requires n <= |ops|
    ensures -1 <= k < n && (k >= 0 ==> ops[k].Using? && ops[k].addr == addr)
    ensures forall j :: k < j < n ==> !(ops[j].Using? && ops[j].addr == addr)
  {
    if n == 0 then -1
    else if ops[n - 1].Using? && ops[n - 1].addr == addr then n - 1 else LastUsing(ops, addr, n - 1)
  }

  /** A real peer's record was last touched when the peer was last used. */
  ghost predicate Touched<R, E>(ops: seq<Op<E>>, e: Entry<R>, n: nat)
    requires n <= |ops|
  {
    e.addr != 0 ==> var k := LastUsing(ops, e.addr, n); k >= 0 && e.lastUse == ops[k].at
  }

  lemma ApplyTouches<R, E>(f: (R, E) -> R, blank: R, t: seq<Entry<R>>, ops: seq<Op<E>>, n: nat, i: nat)
    requires |t| > 0 && Unique(t) && n < |ops| && i < |t| && Touched(ops, t[i], n)
    ensures Touched(ops, Apply(f, blank, t, ops[n])[i], n + 1)
  {
    var u := Apply(f, blank, t, ops[n]);
    ApplyUnique(f, blank, t, ops[n]);
    if ops[n].Using? && u[i].addr == ops[n].addr != 0 {
      assert u[PlaceOf(t, ops[n].addr)].addr == ops[n].addr;
    }
  }

  lemma {:induction false} RunTouched<R, E>(f: (R, E) -> R, blank: R, ops: seq<Op<E>>, ts: seq<seq<Entry<R>>>, n: nat,
                                            i: nat)
    requires IsRun(f, blank, ops, ts) && n <= |ops| && i < |ts[n]|
    requires forall j :: 0 <= j < |ts[0]| ==> ts[0][j].addr == 0
    ensures Touched(ops, ts[n][i], n)
  {
    if n == 0 {
    } else {
      RunUnique(f, blank, ops, ts, n - 1);
      RunUnique(f, blank, ops, ts, n);
      RunTouched(f, blank, ops, ts, n - 1, i);
      assert StepAt(f, blank, ops, ts, n - 1);
      ApplyTouches(f, blank, ts[n - 1], ops, n - 1, i);
    }
  }

  /** In every run, a lookup that finds every record taken gives up that of the peer whose own last use is the
      longest ago, whatever was used how often before. */
  lemma {:induction false} GivesUpLeastRecent<R, E>(f: (R, E) -> R, blank: R, ops: seq<Op<E>>, ts: seq<seq<Entry<R>>>,
                                                    n: nat, i: nat)
    requires IsRun(f, blank, ops, ts) && forall j :: 0 <= j < |ts[0]| ==> ts[0][j].addr == 0
    requires n < |ops| && ops[n].Using? && |ts[n]| > 0 && Crowded(ts[n], ops[n].addr) && i < |ts[n]|
    ensures var gone := ts[n][PlaceOf(ts[n], ops[n].addr)].addr;
            var a, b := LastUsing(ops, gone, n), LastUsing(ops, ts[n][i].addr, n);
            gone != 0 && 0 <= a && 0 <= b && ops[a].at <= ops[b].at
  {
    RunTouched(f, blank, ops, ts, n, PlaceOf(ts[n], ops[n].addr));
    RunTouched(f, blank, ops, ts, n, i);
  }

  // ---- The life of one record ---------------------------------------------------------

  predicate Concerns<E>(op: Op<E>, addr: nat) {
    (op.Using? || op.Noting?) && op.addr == addr
  }

  /** A peer's own events among operations m to n, in order. */
  function Traffic<E>(ops: seq<Op<E>>, addr: nat, m: nat, n: nat): seq<E>
    requires n <= |ops|
    decreases n
  {
    if n <= m then []
    else Traffic(ops, addr, m, n - 1) + (if Concerns(ops[n - 1], addr) then [ops[n - 1].e] else [])
  }

  /** A record after the first n events. */
  function Fold<R, E>(f: (R, E) -> R, r: R, es: seq<E>, n: nat): R
    requires n <= |es|
  {
    if n == 0 then r else f(Fold(f, r, es, n - 1), es[n - 1])
  }

  lemma {:induction false} FoldPrefix<R, E>(f: (R, E) -> R, r: R, es: seq<E>, fs: seq<E>, n: nat)
    requires n <= |es| <= |fs| && forall k :: 0 <= k < |es| ==> es[k] == fs[k]
    ensures Fold(f, r, es, n) == Fold(f, r, fs, n)
  {
    if n == 0 {
    } else {
      FoldPrefix(f, r, es, fs, n - 1);
    }
  }

  lemma FoldAppend<R, E>(f: (R, E) -> R, r: R, es: seq<E>, e: E)
    ensures Fold(f, r, es + [e], |es| + 1) == f(Fold(f, r, es, |es|), e)
  {
    FoldPrefix(f, r, es, es + [e], |es|);
  }

  /** Operation m claims record i for a real peer, whose it still is after each one up to n. */
  ghost predicate Lives<R, E>(ops: seq<Op<E>>, ts: seq<seq<Entry<R>>>, addr: nat, i: nat, m: nat, n: nat) {
    && m < n <= |ops| && |ts| == |ops| + 1 && addr != 0
    && ops[m].Using? && ops[m].addr == addr
    && |ts[m]| > 0 && FindAddr(ts[m], addr, 0) == |ts[m]| && PlaceOf(ts[m], addr) == i
    && forall j :: m < j <= n ==> i < |ts[j]| && ts[j][i].addr == addr
  }

  /** A record that becomes a peer's is claimed for it by that operation. */
  lemma ChangedHands<R, E>(f: (R, E) -> R, blank: R, t: seq<Entry<R>>, op: Op<E>, addr: nat, i: nat)
    requires |t| > 0 && i < |t| && addr != 0 && t[i].addr != addr && Apply(f, blank, t, op)[i].addr == addr
    ensures op.Using? && op.addr == addr && FindAddr(t, addr, 0) == |t| && PlaceOf(t, addr) == i
  {
  }

  /** Every record of a real peer has a life that began with a claim. */
  lemma {:induction false} LifeExists<R, E>(f: (R, E) -> R, blank: R, ops: seq<Op<E>>, ts: seq<seq<Entry<R>>>,
                                            addr: nat, i: nat, n: nat) returns (m: nat)
    requires IsRun(f, blank, ops, ts) && n <= |ops| && addr != 0
    requires forall j :: 0 <= j < |ts[0]| ==> ts[0][j].addr == 0
    requires i < |ts[n]| && ts[n][i].addr == addr
    ensures Lives(ops, ts, addr, i, m, n)
  {
    if n == 0 {
      assert false;
    } else {
      RunUnique(f, blank, ops, ts, n - 1);
      RunUnique(f, blank, ops, ts, n);
      assert StepAt(f, blank, ops, ts, n - 1);
      if ts[n - 1][i].addr == addr {
        m := LifeExists(f, blank, ops, ts, addr, i, n - 1);
      } else {
        ChangedHands(f, blank, ts[n - 1], ops[n - 1], addr, i);
        m := n - 1;
      }
    }
  }

  lemma ClaimBegins<R, E>(f: (R, E) -> R, blank: R, t: seq<Entry<R>>, op: Op<E>)
    requires |t| > 0 && op.Using? && op.addr != 0 && FindAddr(t, op.addr, 0) == |t|
    ensures Apply(f, blank, t, op)[PlaceOf(t, op.addr)].rec == f(blank, op.e)
  {
  }

  /** An operation on a peer that keeps its record makes its event happen to it; any other leaves it. */
  lemma RecordMoves<R, E>(f: (R, E) -> R, blank: R, t: seq<Entry<R>>, op: Op<E>, addr: nat, i: nat)
    requires |t| > 0 && Unique(t) && addr != 0 && i < |t| && t[i].addr == addr
    requires Apply(f, blank, t, op)[i].addr == addr
    ensures Apply(f, blank, t, op)[i].rec == if Concerns(op, addr) then f(t[i].rec, op.e) else t[i].rec
  {
    if Concerns(op, addr) {
      assert FindAddr(t, addr, 0) == i;
    }
  }

  /** Between its claim and its end a record is where its own peer's events take it, whatever the other
      peers do. */
  lemma {:induction false} LifeIsFold<R, E>(f: (R, E) -> R, blank: R, ops: seq<Op<E>>, ts: seq<seq<Entry<R>>>,
                                            addr: nat, i: nat, m: nat, n: nat)
    requires IsRun(f, blank, ops, ts) && Lives(ops, ts, addr, i, m, n)
    ensures var es := Traffic(ops, addr, m, n);
            |es| > 0 && i < |ts[n]| && ts[n][i].rec == Fold(f, blank, es, |es|)
    decreases n
  {
    assert StepAt(f, blank, ops, ts, n - 1);
    if n == m + 1 {
      ClaimBegins(f, blank, ts[m], ops[m]);
      assert Traffic(ops, addr, m, m) == [];
      FoldAppend(f, blank, [], ops[m].e);
      assert Traffic(ops, addr, m, n) == [] + [ops[m].e];
      assert Fold(f, blank, [], 0) == blank;
    } else {
      LifeIsFold(f, blank, ops, ts, addr, i, m, n - 1);
      RunUnique(f, blank, ops, ts, n - 1);
      RecordMoves(f, blank, ts[n - 1], ops[n - 1], addr, i);
      FoldStep(f, blank, ops, addr, m, n);
    }
  }

  lemma FoldStep<R, E>(f: (R, E) -> R, blank: R, ops: seq<Op<E>>, addr: nat, m: nat, n: nat)
    requires m < n <= |ops|
    ensures var es, fs := Traffic(ops, addr, m, n - 1), Traffic(ops, addr, m, n);
            Fold(f, blank, fs, |fs|) ==
              if Concerns(ops[n - 1], addr) then f(Fold(f, blank, es, |es|), ops[n - 1].e) else Fold(f, blank, es, |es|)
  {
    var es := Traffic(ops, addr, m, n - 1);
    if Concerns(ops[n - 1], addr) {
      FoldAppend(f, blank, es, ops[n - 1].e);
      assert Traffic(ops, addr, m, n) == es + [ops[n - 1].e];
    } else {
      assert Traffic(ops, addr, m, n) == es;
    }
  }

  lemma {:induction false} TrafficGrows<E>(ops: seq<Op<E>>, addr: nat, m: nat, k: nat, n: nat)
    requires m <= k <= n <= |ops|
    ensures Traffic(ops, addr, m, k) <= Traffic(ops, addr, m, n)
    decreases n
  {
    if k == n {
    } else {
      TrafficGrows(ops, addr, m, k, n - 1);
    }
  }
}
