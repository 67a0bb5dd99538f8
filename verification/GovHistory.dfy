/** How the sentinel was arrived at: the few remembered fields against the whole history of polls, and
    how often bumps and rescues can come. */
module GovHistory {
  import opened GovModel
  import opened GovVerdicts

  /** Where the run of equal observations ending with poll n - 1 starts. */
  function RunStart(ps: seq<Poll>, n: nat): (b: nat)
    requires 0 < n <= |ps|
    ensures b < n
  {
    if n == 1 || ps[n - 2].live != ps[n - 1].live then n - 1 else RunStart(ps, n - 1)
  }

  /** It is the longest run of equal observations there. */
  lemma {:induction false} RunStartExact(ps: seq<Poll>, n: nat)
    requires 0 < n <= |ps|
    ensures var b := RunStart(ps, n);
            && (forall k :: b <= k < n ==> ps[k].live == ps[n - 1].live)
            && (b > 0 ==> ps[b - 1].live != ps[n - 1].live)
  {
    if n == 1 || ps[n - 2].live != ps[n - 1].live {
    } else {
      RunStartExact(ps, n - 1);
    }
  }

  /** When the run starting at poll k began; the first is taken to begin with the monitor. */
  function Began(t0: nat, ps: seq<Poll>, k: nat): nat
    requires k < |ps|
  {
    if k == 0 then t0 else ps[k].at
  }

  /** The remembered arrival is the value of the run before the current one, how long that run lasted,
      and when the current one began. */
  ghost predicate Remembers(s: State, t0: nat, ps: seq<Poll>, n: nat)
    requires n <= |ps|
  {
    && s.polls == n
    && if n == 0 then s.prevDistinct == 0 && s.prevHold == 0 && s.lastChange == t0
       else
         var b := RunStart(ps, n);
         && s.lastSeen == ps[n - 1].live
         && s.lastChange == Began(t0, ps, b)
         && s.prevDistinct == (if b == 0 then 0 else ps[b - 1].live)
         && s.prevHold == (if b == 0 then 0 else Began(t0, ps, b) - Began(t0, ps, RunStart(ps, b)))
  }

  lemma ArriveRemembers(s: State, t0: nat, ps: seq<Poll>, n: nat)
    requires n < |ps| && Remembers(s, t0, ps, n)
    ensures Remembers(Arrive(s, ps[n].live, ps[n].at), t0, ps, n + 1)
  {
  }

  lemma StepArrives(c: Cfg, s: State, p: Poll)
    ensures var u, t := Step(c, s, p.live, p.at).0, Arrive(s, p.live, p.at);
            && u.polls == t.polls && u.lastSeen == t.lastSeen && u.lastChange == t.lastChange
            && u.prevDistinct == t.prevDistinct && u.prevHold == t.prevHold && u.peak == t.peak
  {
  }

  lemma {:induction false} HistoryRemembered(c: Cfg, t0: nat, ps: seq<Poll>, r: Run, n: nat)
    requires IsRun(c, t0, ps, r) && n <= |ps|
    ensures Remembers(r.ss[n], t0, ps, n)
  {
    if n == 0 {
    } else {
      HistoryRemembered(c, t0, ps, r, n - 1);
      assert StepAt(c, ps, r, n - 1);
      ArriveRemembers(r.ss[n - 1], t0, ps, n - 1);
      StepArrives(c, r.ss[n - 1], ps[n - 1]);
    }
  }

  /** In the history: the sentinel observed, in a run that came off a value just above it which had
      itself lasted only briefly. */
  predicate WalkedOnto(c: Cfg, t0: nat, ps: seq<Poll>, n: nat)
    requires n < |ps|
  {
    ps[n].live == c.coldStart
    && var b := RunStart(ps, n + 1);
       && b > 0 && c.coldStart < ps[b - 1].live <= c.coldStart + c.descentBand
       && Began(t0, ps, b) - Began(t0, ps, RunStart(ps, b)) <= c.descentMs
  }

  lemma DescendsIff(c: Cfg, s: State, t0: nat, ps: seq<Poll>, n: nat)
    requires n < |ps| && Remembers(s, t0, ps, n)
    ensures Descends(c, s, Arrive(s, ps[n].live, ps[n].at), ps[n].live) <==> WalkedOnto(c, t0, ps, n)
  {
    ArriveRemembers(s, t0, ps, n);
  }

  // ---- How often ------------------------------------------------------------------

  /** Nothing of its kind happened after the remembered time; there is none while the count is 0; and
      the counts times their intervals fit in the time since the start. */
  ghost predicate Spaced(c: Cfg, t0: nat, ps: seq<Poll>, es: seq<Event>, s: State, n: nat)
    requires n <= |ps| == |es|
  {
    && (forall k :: 0 <= k < n && es[k] == Bumped ==> s.bumps > 0 && ps[k].at <= s.bumpedAt)
    && (forall k :: 0 <= k < n && es[k] == FloorRescue ==> s.rescues > 0 && ps[k].at <= s.lastRescue)
    && (s.bumps > 0 ==> (s.bumps - 1) * c.verifyMs <= s.bumpedAt - t0)
    && (s.rescues > 0 ==> (s.rescues - 1) * c.descentMs <= s.lastRescue - t0)
  }

  lemma StepTimes(c: Cfg, s: State, p: Poll)
    ensures var (u, e) := Step(c, s, p.live, p.at);
            && (if e == Bumped then u.bumps == s.bumps + 1 && u.bumpedAt == p.at && BumpDue(c, s, p.at)
                else u.bumps == s.bumps && u.bumpedAt == s.bumpedAt)
            && (if e == FloorRescue then u.rescues == s.rescues + 1 && u.lastRescue == p.at && RescueDue(c, s, p.at)
                else u.rescues == s.rescues && u.lastRescue == s.lastRescue)
  {
  }

  /** n intervals after t0 and one more. */
  lemma OneMore(n: nat, interval: nat, t0: int, last: int, now: int)
    requires n > 0 && (n - 1) * interval <= last - t0 && now - last >= interval
    ensures n * interval <= now - t0
  {
    assert n * interval == (n - 1) * interval + interval;
  }

  lemma StepSpaced(c: Cfg, t0: nat, ps: seq<Poll>, r: Run, n: nat)
    requires n < |ps| == |r.es| && |r.ss| == |ps| + 1 && StepAt(c, ps, r, n) && ClockOk(t0, ps)
    requires Spaced(c, t0, ps, r.es, r.ss[n], n)
    ensures Spaced(c, t0, ps, r.es, r.ss[n + 1], n + 1)
  {
    var s, p := r.ss[n], ps[n];
    StepTimes(c, s, p);
    if r.es[n] == Bumped && s.bumps > 0 {
      OneMore(s.bumps, c.verifyMs, t0, s.bumpedAt, p.at);
    }
    if r.es[n] == FloorRescue && s.rescues > 0 {
      OneMore(s.rescues, c.descentMs, t0, s.lastRescue, p.at);
    }
  }

  lemma {:induction false} RunSpaced(c: Cfg, t0: nat, ps: seq<Poll>, r: Run, n: nat)
    requires IsRun(c, t0, ps, r) && ClockOk(t0, ps) && n <= |ps|
    ensures Spaced(c, t0, ps, r.es, r.ss[n], n)
  {
    if n == 0 {
    } else {
      RunSpaced(c, t0, ps, r, n - 1);
      assert StepAt(c, ps, r, n - 1);
      StepSpaced(c, t0, ps, r, n - 1);
    }
  }

  /** Any two bumps are a verify window apart, any two rescues a descent window; so by time now there
      are at most one more of each than windows elapsed. */
  lemma EventsAreSpaced(c: Cfg, t0: nat, ps: seq<Poll>, r: Run, i: nat, j: nat)
    requires IsRun(c, t0, ps, r) && ClockOk(t0, ps) && i < j < |ps|
    ensures r.es[i] == r.es[j] == Bumped ==> ps[j].at - ps[i].at >= c.verifyMs
    ensures r.es[i] == r.es[j] == FloorRescue ==> ps[j].at - ps[i].at >= c.descentMs
    ensures r.es[j] == Bumped ==> r.ss[j].bumps * c.verifyMs <= ps[j].at - t0
    ensures r.es[j] == FloorRescue ==> r.ss[j].rescues * c.descentMs <= ps[j].at - t0
  {
    RunSpaced(c, t0, ps, r, j);
    RunSpaced(c, t0, ps, r, j + 1);
    assert StepAt(c, ps, r, j);
    StepTimes(c, r.ss[j], ps[j]);
  }

  /** The peak is the greatest rate ever observed. */
  lemma {:induction false} PeakIsGreatest(c: Cfg, t0: nat, ps: seq<Poll>, r: Run, n: nat)
    requires IsRun(c, t0, ps, r) && n <= |ps|
    ensures forall k :: 0 <= k < n ==> ps[k].live <= r.ss[n].peak
    ensures n > 0 ==> r.ss[n].peak == 0 || exists k :: 0 <= k < n && ps[k].live == r.ss[n].peak
  {
    if n == 0 {
    } else {
      PeakIsGreatest(c, t0, ps, r, n - 1);
      assert StepAt(c, ps, r, n - 1);
      StepArrives(c, r.ss[n - 1], ps[n - 1]);
    }
  }

  // ---- When each event last came ----------------------------------------------------------

  /** When the last event of a kind among the first n came, or that time if there was none. */
  function LastOf(ps: seq<Poll>, es: seq<Event>, n: nat, e: Event, none: nat): nat
    requires n <= |ps| == |es|
  {
    if n == 0 then none else if es[n - 1] == e then ps[n - 1].at else LastOf(ps, es, n - 1, e, none)
  }

  /** The times a state remembers are those of its last bump, rescue, clamp and trace line. */
  ghost predicate TimesTrue(s: State, t0: nat, ps: seq<Poll>, es: seq<Event>, n: nat)
    requires n <= |ps| == |es|
  {
    && s.bumpedAt == LastOf(ps, es, n, Bumped, 0) && s.lastRescue == LastOf(ps, es, n, FloorRescue, 0)
    && s.lastClamp == LastOf(ps, es, n, Clamped, 0) && s.lastTrace == LastOf(ps, es, n, Trace, t0)
  }

  lemma StepRemembers(c: Cfg, s: State, p: Poll)
    ensures var (u, e) := Step(c, s, p.live, p.at);
            && u.bumpedAt == (if e == Bumped then p.at else s.bumpedAt)
            && u.lastRescue == (if e == FloorRescue then p.at else s.lastRescue)
            && u.lastClamp == (if e == Clamped then p.at else s.lastClamp)
            && u.lastTrace == (if e == Trace then p.at else s.lastTrace)
  {
  }

  lemma {:induction false} TimesRemembered(c: Cfg, t0: nat, ps: seq<Poll>, r: Run, n: nat)
    requires IsRun(c, t0, ps, r) && n <= |ps|
    ensures TimesTrue(r.ss[n], t0, ps, r.es, n)
  {
    if n == 0 {
    } else {
      TimesRemembered(c, t0, ps, r, n - 1);
      assert StepAt(c, ps, r, n - 1);
      StepRemembers(c, r.ss[n - 1], ps[n - 1]);
    }
  }

  // ---- What each poll reports -------------------------------------------------------------

  /** No bump so far awaits its verdict. */
  predicate Judged(es: seq<Event>, n: nat)
    requires n <= |es|
  {
    Count(es, n, Bumped) == Verdicts(es, n)
  }

  /** No event of that kind yet, or none for that long. */
  predicate Quiet(ps: seq<Poll>, es: seq<Event>, n: nat, e: Event, ms: nat)
    requires n < |ps| == |es|
  {
    Count(es, n, e) == 0 || ps[n].at - LastOf(ps, es, n, e, 0) >= ms
  }

  lemma StepReports(c: Cfg, s: State, p: Poll)
    ensures var e, d := Step(c, s, p.live, p.at).1, Descends(c, s, Arrive(s, p.live, p.at), p.live);
            && (e == Bumped <==> p.live == c.coldStart && !d && BumpDue(c, s, p.at))
            && (e == FloorRescue <==> d && RescueDue(c, s, p.at))
  {
  }

  /** A sentinel read is a match start or a floor rescue as the whole history says.  Each is reported exactly when
      every bump so far has its verdict and the last of its kind, if any, is a verify window or a descent window
      ago. */
  lemma {:induction false} ClassifiedByHistory(c: Cfg, t0: nat, ps: seq<Poll>, r: Run, n: nat)
    requires IsRun(c, t0, ps, r) && n < |ps|
    ensures r.es[n] == Bumped <==>
              && ps[n].live == c.coldStart && !WalkedOnto(c, t0, ps, n)
              && Judged(r.es, n) && Quiet(ps, r.es, n, Bumped, c.verifyMs)
    ensures r.es[n] == FloorRescue <==>
              WalkedOnto(c, t0, ps, n) && Judged(r.es, n) && Quiet(ps, r.es, n, FloorRescue, c.descentMs)
  {
    HistoryRemembered(c, t0, ps, r, n);
    DescendsIff(c, r.ss[n], t0, ps, n);
    TalliesHold(c, t0, ps, r, n);
    TimesRemembered(c, t0, ps, r, n);
    assert StepAt(c, ps, r, n);
    StepReports(c, r.ss[n], ps[n]);
  }

  lemma StepTraces(c: Cfg, s: State, p: Poll)
    ensures var e := Step(c, s, p.live, p.at).1;
            e == Trace || e == None ==> (e == Trace <==> c.traceMs > 0 && p.at - s.lastTrace >= c.traceMs)
  {
  }

  /** A poll with nothing else to report is traced exactly when tracing is on and a trace interval has passed since
      the last line, or since the monitor began. */
  lemma {:induction false} TraceIff(c: Cfg, t0: nat, ps: seq<Poll>, r: Run, n: nat)
    requires IsRun(c, t0, ps, r) && n < |ps| && (r.es[n] == Trace || r.es[n] == None)
    ensures r.es[n] == Trace <==> c.traceMs > 0 && ps[n].at - LastOf(ps, r.es, n, Trace, t0) >= c.traceMs
  {
    TimesRemembered(c, t0, ps, r, n);
    assert StepAt(c, ps, r, n);
    StepTraces(c, r.ss[n], ps[n]);
  }

  lemma {:induction false} LastIsLater(t0: nat, ps: seq<Poll>, es: seq<Event>, i: nat, n: nat, e: Event, none: nat)
    requires i < n <= |ps| == |es| && es[i] == e && ClockOk(t0, ps)
    ensures LastOf(ps, es, n, e, none) >= ps[i].at
    decreases n
  {
    if n == i + 1 {
    } else {
      LastIsLater(t0, ps, es, i, n - 1, e, none);
    }
  }

  /** So any two trace lines are an interval apart. */
  lemma {:induction false} TracesAreSpaced(c: Cfg, t0: nat, ps: seq<Poll>, r: Run, i: nat, j: nat)
    requires IsRun(c, t0, ps, r) && ClockOk(t0, ps) && i < j < |ps| && r.es[i] == r.es[j] == Trace
    ensures ps[j].at - ps[i].at >= c.traceMs > 0
  {
    TraceIff(c, t0, ps, r, j);
    LastIsLater(t0, ps, r.es, i, j, Trace, t0);
  }

  lemma StepDetails(c: Cfg, s: State, p: Poll)
    ensures var (u, e) := Step(c, s, p.live, p.at);
            && u.observed == (if e == None then s.observed else p.live)
            && (e == Clamped || e == Held ==> u.sinceBump == p.at - s.bumpedAt)
  {
  }

  /** Every report carries the rate just read, and a verdict the time since its bump. */
  lemma {:induction false} ReportsWhatWasRead(c: Cfg, t0: nat, ps: seq<Poll>, r: Run, n: nat)
    requires IsRun(c, t0, ps, r) && n < |ps| && r.es[n] != None
    ensures r.ss[n + 1].observed == ps[n].live
    ensures r.es[n] == Clamped || r.es[n] == Held ==>
              r.ss[n + 1].sinceBump == ps[n].at - LastOf(ps, r.es, n, Bumped, 0)
  {
    TimesRemembered(c, t0, ps, r, n);
    assert StepAt(c, ps, r, n);
    StepDetails(c, r.ss[n], ps[n]);
  }

  // ---- The spread of the window -------------------------------------------------------------

  /** A read that is neither a bump nor a rescue belongs to the window. */
  predicate Steady(e: Event) { e != Bumped && e != FloorRescue }

  /** The window spans exactly the steady reads among the first n, its ends being two of them. */
  ghost predicate Spans(w: Window, ps: seq<Poll>, es: seq<Event>, n: nat)
    requires n <= |ps| == |es|
  {
    && w.samples == n - Count(es, n, Bumped) - Count(es, n, FloorRescue)
    && (forall k :: 0 <= k < n && Steady(es[k]) ==> w.min <= ps[k].live <= w.max)
    && (w.samples == 0 ==> w == EMPTY_WINDOW)
    && (w.samples > 0 ==> exists a, b :: 0 <= a < n && 0 <= b < n && IsLeast(w, ps, es, a) && IsGreatest(w, ps, es, b))
  }

  ghost predicate IsLeast(w: Window, ps: seq<Poll>, es: seq<Event>, a: nat)
    requires a < |ps| == |es|
  {
    Steady(es[a]) && ps[a].live == w.min
  }

  ghost predicate IsGreatest(w: Window, ps: seq<Poll>, es: seq<Event>, a: nat)
    requires a < |ps| == |es|
  {
    Steady(es[a]) && ps[a].live == w.max
  }

  lemma StepWidens(c: Cfg, s: State, p: Poll)
    ensures var (u, e) := Step(c, s, p.live, p.at); u.win == if Steady(e) then Widen(s.win, p.live) else s.win
  {
  }

  lemma WidenSpans(w: Window, ps: seq<Poll>, es: seq<Event>, n: nat, m: nat, v: Window)
    requires n < |ps| == |es| && m == n + 1 && Spans(w, ps, es, n)
    requires v == if Steady(es[n]) then Widen(w, ps[n].live) else w
    ensures Spans(v, ps, es, m)
  {
    if Steady(es[n]) {
      if w.samples == 0 {
        assert IsLeast(v, ps, es, n) && IsGreatest(v, ps, es, n);
      } else {
        var a, b :| 0 <= a < n && 0 <= b < n && IsLeast(w, ps, es, a) && IsGreatest(w, ps, es, b);
        assert IsLeast(v, ps, es, if ps[n].live < w.min then n else a);
        assert IsGreatest(v, ps, es, if ps[n].live > w.max then n else b);
      }
    } else if w.samples > 0 {
      var a, b :| 0 <= a < n && 0 <= b < n && IsLeast(w, ps, es, a) && IsGreatest(w, ps, es, b);
      assert IsLeast(v, ps, es, a) && IsGreatest(v, ps, es, b);
    }
  }

  /** The window counts every steady read and spans exactly those. */
  lemma {:induction false} WindowSpans(c: Cfg, t0: nat, ps: seq<Poll>, r: Run, n: nat)
    requires IsRun(c, t0, ps, r) && n <= |ps|
    ensures Spans(r.ss[n].win, ps, r.es, n)
  {
    if n == 0 {
    } else {
      WindowSpans(c, t0, ps, r, n - 1);
      assert StepAt(c, ps, r, n - 1);
      StepWidens(c, r.ss[n - 1], ps[n - 1]);
      WidenSpans(r.ss[n - 1].win, ps, r.es, n - 1, n, r.ss[n].win);
    }
  }
}
