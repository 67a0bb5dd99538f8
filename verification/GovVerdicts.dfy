/** The verdict automaton over every run: each bump earns exactly one verdict, in time, and the
    verdict says what the reads said. */
module GovVerdicts {
  import opened GovModel

  function Verdicts(es: seq<Event>, n: nat): nat
    requires n <= |es|
  {
    Count(es, n, Clamped) + Count(es, n, Held)
  }

  ghost predicate Tallied(s: State, es: seq<Event>, n: nat)
    requires n <= |es|
  {
    && s.polls == n
    && s.bumps == Count(es, n, Bumped) && s.clamps == Count(es, n, Clamped) && s.rescues == Count(es, n, FloorRescue)
    && (if s.armed then 1 else 0) == s.bumps - Verdicts(es, n)
    && (s.lowSeen ==> s.armed)
  }

  lemma StepTallied(c: Cfg, s: State, u: State, p: Poll, es: seq<Event>, n: nat)
    requires n < |es| && Tallied(s, es, n) && (u, es[n]) == Step(c, s, p.live, p.at)
    ensures Tallied(u, es, n + 1)
  {
    StepMoves(c, s, p);
  }

  function One(b: bool): nat { if b then 1 else 0 }

  /** The counters move with the event, and arming goes up with a bump and down with a verdict. */
  lemma StepMoves(c: Cfg, s: State, p: Poll)
    ensures var (u, e) := Step(c, s, p.live, p.at);
            && u.polls == s.polls + 1 && u.bumps == s.bumps + One(e == Bumped)
            && u.clamps == s.clamps + One(e == Clamped) && u.rescues == s.rescues + One(e == FloorRescue)
            && One(u.armed) - One(s.armed) == One(e == Bumped) - One(IsVerdict(e))
            && ((s.lowSeen ==> s.armed) ==> (u.lowSeen ==> u.armed))
  {
  }

  /** Armed is always the bumps less the verdicts, and the totals count the events. */
  lemma {:induction false} TalliesHold(c: Cfg, t0: nat, ps: seq<Poll>, r: Run, n: nat)
    requires IsRun(c, t0, ps, r) && n <= |ps|
    ensures Tallied(r.ss[n], r.es, n)
  {
    if n == 0 {
    } else {
      TalliesHold(c, t0, ps, r, n - 1);
      assert StepAt(c, ps, r, n - 1);
      StepTallied(c, r.ss[n - 1], r.ss[n], ps[n - 1], r.es, n - 1);
    }
  }

  lemma {:induction false} CountSteady(es: seq<Event>, i: nat, j: nat, e: Event)
    requires i <= j <= |es| && forall k :: i <= k < j ==> es[k] != e
    ensures Count(es, j, e) == Count(es, i, e)
  {
    if i == j {
    } else {
      CountSteady(es, i, j - 1, e);
    }
  }

  lemma BumpArms(c: Cfg, s: State, p: Poll)
    requires Step(c, s, p.live, p.at).1 == Bumped
    ensures !s.armed && p.live == c.coldStart
    ensures var u := Step(c, s, p.live, p.at).0; u.armed && u.bumpedAt == p.at
  {
  }

  /** Between two successive bumps there is exactly one verdict. */
  lemma OneVerdictPerBump(c: Cfg, t0: nat, ps: seq<Poll>, r: Run, i: nat, j: nat)
    requires IsRun(c, t0, ps, r) && i < j < |ps| && r.es[i] == r.es[j] == Bumped
    requires forall k :: i < k < j ==> r.es[k] != Bumped
    ensures Verdicts(r.es, j) - Verdicts(r.es, i + 1) == 1
  {
    TalliesHold(c, t0, ps, r, i + 1);
    TalliesHold(c, t0, ps, r, j);
    assert StepAt(c, ps, r, i) && StepAt(c, ps, r, j);
    BumpArms(c, r.ss[i], ps[i]);
    BumpArms(c, r.ss[j], ps[j]);
    CountSteady(r.es, i + 1, j, Bumped);
  }

  predicate IsVerdict(e: Event) { e == Clamped || e == Held }

  lemma StaysArmed(c: Cfg, s: State, p: Poll)
    requires s.armed && !IsVerdict(Step(c, s, p.live, p.at).1)
    ensures Step(c, s, p.live, p.at).0.armed && Step(c, s, p.live, p.at).0.bumpedAt == s.bumpedAt
    ensures p.at - s.bumpedAt < c.verifyMs
  {
  }

  lemma {:induction false} ArmedUntilVerdict(c: Cfg, t0: nat, ps: seq<Poll>, r: Run, i: nat, n: nat)
    requires IsRun(c, t0, ps, r) && i < n <= |ps| && r.es[i] == Bumped
    requires forall k :: i < k < n ==> !IsVerdict(r.es[k])
    ensures r.ss[n].armed && r.ss[n].bumpedAt == ps[i].at
  {
    assert StepAt(c, ps, r, n - 1);
    if n == i + 1 {
      BumpArms(c, r.ss[i], ps[i]);
    } else {
      ArmedUntilVerdict(c, t0, ps, r, i, n - 1);
      StaysArmed(c, r.ss[n - 1], ps[n - 1]);
    }
  }

  /** The verdict on a bump comes no later than the first poll at or past the deadline. */
  lemma VerdictInTime(c: Cfg, t0: nat, ps: seq<Poll>, r: Run, i: nat, n: nat)
    requires IsRun(c, t0, ps, r) && i < n < |ps| && r.es[i] == Bumped && ps[n].at - ps[i].at >= c.verifyMs
    ensures exists k :: i < k <= n && IsVerdict(r.es[k])
  {
    if forall k :: i < k < n ==> !IsVerdict(r.es[k]) {
      ArmedUntilVerdict(c, t0, ps, r, i, n);
      assert StepAt(c, ps, r, n);
      assert IsVerdict(r.es[n]) by {
        if !IsVerdict(r.es[n]) {
          StaysArmed(c, r.ss[n], ps[n]);
        }
      }
    }
  }

  /** Every verdict is on a bump, with nothing but polls in between. */
  lemma {:induction false} ArmedFrom(c: Cfg, t0: nat, ps: seq<Poll>, r: Run, n: nat) returns (i: nat)
    requires IsRun(c, t0, ps, r) && n <= |ps| && r.ss[n].armed
    ensures i < n && r.es[i] == Bumped && r.ss[n].bumpedAt == ps[i].at
    ensures forall k :: i < k < n ==> r.es[k] != Bumped && !IsVerdict(r.es[k])
  {
    assert StepAt(c, ps, r, n - 1);
    if r.es[n - 1] == Bumped {
      i := n - 1;
    } else {
      ArmedOnlyByBump(c, r.ss[n - 1], ps[n - 1]);
      i := ArmedFrom(c, t0, ps, r, n - 1);
    }
  }

  lemma ArmedOnlyByBump(c: Cfg, s: State, p: Poll)
    requires Step(c, s, p.live, p.at).0.armed && Step(c, s, p.live, p.at).1 != Bumped
    ensures s.armed && !IsVerdict(Step(c, s, p.live, p.at).1)
    ensures Step(c, s, p.live, p.at).0.bumpedAt == s.bumpedAt
  {
  }

  /** Low seen means the read just before was low, and came after the bump. */
  lemma LowSeenIff(c: Cfg, t0: nat, ps: seq<Poll>, r: Run, n: nat)
    requires IsRun(c, t0, ps, r) && n <= |ps| && r.ss[n].armed
    ensures r.ss[n].lowSeen <==> n > 0 && r.es[n - 1] != Bumped && Low(c, ps[n - 1].live)
  {
    TalliesHold(c, t0, ps, r, n);
    if n > 0 {
      assert StepAt(c, ps, r, n - 1);
      TalliesHold(c, t0, ps, r, n - 1);
      LowSeenStep(c, r.ss[n - 1], ps[n - 1]);
    }
  }

  lemma LowSeenStep(c: Cfg, s: State, p: Poll)
    requires (s.lowSeen ==> s.armed) && Step(c, s, p.live, p.at).0.armed
    ensures Step(c, s, p.live, p.at).0.lowSeen <==> Step(c, s, p.live, p.at).1 != Bumped && Low(c, p.live)
  {
  }

  /** A rate at or under the unpatched floor and further below the target than the governor steps. */
  predicate Reverted(c: Cfg, live: int) { live <= c.clampFloor && live + c.downSlack < c.target }

  /** What the verdicts mean, in terms of the reads alone, for the bump i being judged at poll n.
      Clamped: this read is reverted, and either so was the one before or the deadline has come.  Held:
      the deadline has come and this read is not reverted. */
  lemma VerdictIff(c: Cfg, t0: nat, ps: seq<Poll>, r: Run, i: nat, n: nat)
    requires IsRun(c, t0, ps, r) && i < n < |ps| && r.es[i] == Bumped
    requires forall k :: i < k < n ==> !IsVerdict(r.es[k])
    ensures r.es[n] == Clamped <==>
              && Reverted(c, ps[n].live)
              && (ps[n].at - ps[i].at >= c.verifyMs || (n - 1 > i && Reverted(c, ps[n - 1].live)))
    ensures r.es[n] == Held <==> !Reverted(c, ps[n].live) && ps[n].at - ps[i].at >= c.verifyMs
  {
    ArmedUntilVerdict(c, t0, ps, r, i, n);
    LowSeenIff(c, t0, ps, r, n);
    if n - 1 > i {
      ArmedUntilVerdict(c, t0, ps, r, i, n - 1);
      assert StepAt(c, ps, r, n - 1);
    }
    assert StepAt(c, ps, r, n);
    JudgedIff(c, r.ss[n], ps[n]);
  }

  lemma JudgedIff(c: Cfg, s: State, p: Poll)
    requires s.armed
    ensures Step(c, s, p.live, p.at).1 == Clamped <==>
              Low(c, p.live) && (p.at - s.bumpedAt >= c.verifyMs || s.lowSeen)
    ensures Step(c, s, p.live, p.at).1 == Held <==> !Low(c, p.live) && p.at - s.bumpedAt >= c.verifyMs
    ensures Step(c, s, p.live, p.at).1 != Bumped && Step(c, s, p.live, p.at).1 != FloorRescue
  {
  }
}
