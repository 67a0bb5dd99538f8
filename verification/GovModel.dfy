/** The governor read-back as a function on values: one observation in, at most one event out. */
module GovModel {
  import opened Serial

  datatype Cfg = Cfg(target: u32, coldStart: u32, verifyMs: nat, traceMs: nat, clampFloor: u32,
                     downSlack: nat, descentBand: nat, descentMs: nat)

  datatype Event = None | Bumped | Clamped | Held | Trace | FloorRescue

  const NO_MIN: u32 := 0xffff_ffff

  datatype Window = Window(min: u32, max: u32, samples: nat)

  const EMPTY_WINDOW := Window(NO_MIN, 0, 0)

  datatype State = State(
    bumpedAt: nat, armed: bool, lowSeen: bool, lastClamp: nat, lastTrace: nat, win: Window,
    observed: u32, sinceBump: int,
    polls: nat, prevDistinct: u32, lastChange: nat, prevHold: int, lastRescue: nat,
    bumps: nat, clamps: nat, rescues: nat, peak: u32, lastSeen: u32)

  function Init(now: nat): State {
    State(0, false, false, 0, now, EMPTY_WINDOW, 0, 0, 0, 0, now, 0, 0, 0, 0, 0, 0, 0)
  }

  /** The value last seen is about to be replaced by another. */
  function Change(s: State, now: nat): State {
    s.(prevDistinct := s.lastSeen, prevHold := now - s.lastChange, lastChange := now)
  }

  /** Note the value, where it came from and how long that was held. */
  function Arrive(s: State, live: u32, now: nat): State {
    var t := if s.polls > 0 && live != s.lastSeen then Change(s, now) else s;
    t.(polls := s.polls + 1, lastSeen := live, peak := if live > s.peak then live else s.peak)
  }

  /** The sentinel was walked onto from just above, off a value held only briefly.  s is the state
      before the observation, t after noting it. */
  predicate Descends(c: Cfg, s: State, t: State, live: u32) {
    live == c.coldStart && s.polls > 0
    && var from := if live != s.lastSeen then s.lastSeen else t.prevDistinct;
       from > c.coldStart && from - c.coldStart <= c.descentBand && t.prevHold <= c.descentMs
  }

  predicate BumpDue(c: Cfg, s: State, now: nat) {
    !s.armed && (s.bumps == 0 || now - s.bumpedAt >= c.verifyMs)
  }

  predicate RescueDue(c: Cfg, s: State, now: nat) {
    !s.armed && (s.rescues == 0 || now - s.lastRescue >= c.descentMs)
  }

  /** Too low to be the governor stepping down from the target: no higher than the unpatched floor, and
      further under the target than it could have stepped. */
  predicate Low(c: Cfg, live: u32) {
    live < c.target && live <= c.clampFloor && c.target - live > c.downSlack
  }

  function Widen(w: Window, live: u32): Window {
    Window(if live < w.min then live else w.min, if live > w.max then live else w.max, w.samples + 1)
  }

  function Convict(s: State, live: u32, now: nat): State {
    s.(armed := false, clamps := s.clamps + 1, lastClamp := now, observed := live,
       sinceBump := now - s.bumpedAt, lowSeen := false)
  }

  function Acquit(s: State, live: u32, now: nat): State {
    s.(armed := false, observed := live, sinceBump := now - s.bumpedAt)
  }

  /** At the deadline a low read, noted in s, convicts and any other acquits; else a line may be due. */
  function Close(c: Cfg, s: State, live: u32, now: nat): (State, Event) {
    if s.armed && now - s.bumpedAt >= c.verifyMs then
      if s.lowSeen then (Convict(s, live, now), Clamped) else (Acquit(s, live, now), Held)
    else if c.traceMs > 0 && now - s.lastTrace >= c.traceMs then
      (s.(lastTrace := now, observed := live), Trace)
    else (s, None)
  }

  /** Has the poke survived?  A clamp needs a second consecutive low read, or one at the deadline. */
  function Judge(c: Cfg, s: State, live: u32, now: nat): (State, Event) {
    var low := s.armed && Low(c, live);
    if low && s.lowSeen then (Convict(s, live, now), Clamped)
    else Close(c, s.(lowSeen := low), live, now)
  }

  function Bump(s: State, live: u32, now: nat): State {
    s.(bumps := s.bumps + 1, bumpedAt := now, armed := true, observed := live)
  }

  function Rescue(s: State, live: u32, now: nat): State {
    s.(rescues := s.rescues + 1, lastRescue := now, observed := live)
  }

  /** What comes of an observation already noted in t. */
  function React(c: Cfg, t: State, descent: bool, live: u32, now: nat): (State, Event) {
    if live == c.coldStart && !descent && BumpDue(c, t, now) then (Bump(t, live, now), Bumped)
    else if descent && RescueDue(c, t, now) then (Rescue(t, live, now), FloorRescue)
    else Judge(c, t.(win := Widen(t.win, live)), live, now)
  }

  function Step(c: Cfg, s: State, live: u32, now: nat): (State, Event) {
    var t := Arrive(s, live, now);
    React(c, t, Descends(c, s, t, live), live, now)
  }

  // ---- Runs -------------------------------------------------------------------

  datatype Poll = Poll(live: u32, at: nat)

  /** The states and the events of a run. */
  datatype Run = Run(ss: seq<State>, es: seq<Event>)

  ghost predicate StepAt(c: Cfg, ps: seq<Poll>, r: Run, i: nat)
    requires i < |ps| == |r.es| && |r.ss| == |ps| + 1
  {
    (r.ss[i + 1], r.es[i]) == Step(c, r.ss[i], ps[i].live, ps[i].at)
  }

  ghost predicate IsRun(c: Cfg, t0: nat, ps: seq<Poll>, r: Run) {
    && |r.es| == |ps| && |r.ss| == |ps| + 1 && r.ss[0] == Init(t0)
    && forall i :: 0 <= i < |ps| ==> StepAt(c, ps, r, i)
  }

  /** The clock does not run backwards. */
  ghost predicate ClockOk(t0: nat, ps: seq<Poll>) {
    && (forall i :: 0 <= i < |ps| ==> t0 <= ps[i].at)
    && (forall i, j :: 0 <= i < j < |ps| ==> ps[i].at <= ps[j].at)
  }

  /** How many of the first n events are of a kind. */
  function Count(es: seq<Event>, n: nat, e: Event): nat
    requires n <= |es|
  {
    if n == 0 then 0 else Count(es, n - 1, e) + (if es[n - 1] == e then 1 else 0)
  }
}
