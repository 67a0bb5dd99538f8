/** The governor read-back as it runs: one object whose fields each poll updates in place. */
module GovCore {
  import opened Serial
  import opened GovModel

  class GovTrace {
    const cfg: Cfg
    var bumpedAt: nat
    var armed: bool
    var lowSeen: bool
    var lastClampMs: nat
    var lastTraceMs: nat
    var winMin: u32
    var winMax: u32
    var winSamples: nat
    var observed: u32
    var sinceBumpMs: int
    var polls: nat
    var prevDistinct: u32
    var lastChangeMs: nat
    var prevHoldMs: int
    var lastRescueMs: nat
    var bumps: nat
    var clamps: nat
    var floorRescues: nat
    var peak: u32
    var lastSeen: u32

    ghost function State(): GovModel.State
      reads this
    {
      GovModel.State.State(bumpedAt, armed, lowSeen, lastClampMs, lastTraceMs, Window(winMin, winMax, winSamples),
                  observed, sinceBumpMs, polls, prevDistinct, lastChangeMs, prevHoldMs, lastRescueMs,
                  bumps, clamps, floorRescues, peak, lastSeen)
    }

    constructor (cfg: Cfg, now: nat)
      ensures this.cfg == cfg && State() == Init(now)
    {
      this.cfg := cfg;
      bumpedAt, armed, lowSeen, lastClampMs, lastTraceMs := 0, false, false, 0, now;
      winMin, winMax, winSamples, observed, sinceBumpMs := NO_MIN, 0, 0, 0, 0;
      polls, prevDistinct, lastChangeMs, prevHoldMs, lastRescueMs := 0, 0, now, 0, 0;
      bumps, clamps, floorRescues, peak, lastSeen := 0, 0, 0, 0, 0;
    }

    /** Note the observation, and where it came from if it is a change. */
    method Note(live: u32, now: nat)
      modifies this
      ensures State() == Arrive(old(State()), live, now)
    {
      if polls > 0 && live != lastSeen {
        NoteChange(now);
      }
      polls, lastSeen := polls + 1, live;
      if live > peak {
        peak := live;
      }
    }

    method NoteChange(now: nat)
      modifies this`prevDistinct, this`prevHoldMs, this`lastChangeMs
      ensures State() == Change(old(State()), now)
    {
      prevDistinct := lastSeen;
      prevHoldMs := now - lastChangeMs;
      lastChangeMs := now;
    }

    /** Was the sentinel just noted walked down to, one step at a time? */
    method ByDescent(live: u32, prev: u32, first: bool) returns (descent: bool)
      ensures descent == (live == cfg.coldStart && !first
                          && var from := if live != prev then prev else prevDistinct;
                             from > cfg.coldStart && from - cfg.coldStart <= cfg.descentBand
                               && prevHoldMs <= cfg.descentMs)
    {
      descent := false;
      if live == cfg.coldStart && !first {
        var from := if live != prev then prev else prevDistinct;
        if from > cfg.coldStart && from - cfg.coldStart <= cfg.descentBand && prevHoldMs <= cfg.descentMs {
          descent := true;
        }
      }
    }

    method ConvictPoke(live: u32, now: nat)
      modifies this`armed, this`clamps, this`lastClampMs, this`observed, this`sinceBumpMs, this`lowSeen
      ensures State() == Convict(old(State()), live, now)
    {
      armed, clamps, lastClampMs, observed := false, clamps + 1, now, live;
      sinceBumpMs := now - bumpedAt;
      lowSeen := false;
    }

    /** Judge an armed bump, or note that a periodic line is due. */
    method JudgePoke(live: u32, now: nat) returns (e: Event)
      modifies this
      ensures (State(), e) == Judge(cfg, old(State()), live, now)
    {
      var low := armed && live < cfg.target && live <= cfg.clampFloor && cfg.target - live > cfg.downSlack;
      if low && lowSeen {
        ConvictPoke(live, now);
        return Clamped;
      }
      lowSeen := low;
      e := CloseVerify(live, now);
    }

    /** At the deadline a low read convicts and any other acquits. */
    method CloseVerify(live: u32, now: nat) returns (e: Event)
      modifies this
      ensures (State(), e) == Close(cfg, old(State()), live, now)
    {
      if armed && now - bumpedAt >= cfg.verifyMs {
        if lowSeen {
          ConvictPoke(live, now);
          return Clamped;
        }
        armed, observed := false, live;
        sinceBumpMs := now - bumpedAt;
        return Held;
      }
      if cfg.traceMs > 0 && now - lastTraceMs >= cfg.traceMs {
        lastTraceMs, observed := now, live;
        return Trace;
      }
      e := None;
    }

    /** One poll: note what was read, classify it, and report what it means, if anything. */
    method Step(live: u32, now: nat) returns (e: Event)
      modifies this
      ensures (State(), e) == GovModel.Step(cfg, old(State()), live, now)
    {
      var prev, first := lastSeen, polls == 0;
      Note(live, now);
      var descent := ByDescent(live, prev, first);
      e := React(live, now, descent);
    }

    method StartBump(live: u32, now: nat)
      modifies this`bumps, this`bumpedAt, this`armed, this`observed
      ensures State() == Bump(old(State()), live, now)
    {
      bumps, bumpedAt, armed, observed := bumps + 1, now, true, live;
    }

    method StartRescue(live: u32, now: nat)
      modifies this`floorRescues, this`lastRescueMs, this`observed
      ensures State() == Rescue(old(State()), live, now)
    {
      floorRescues, lastRescueMs, observed := floorRescues + 1, now, live;
    }

    method WidenWindow(live: u32)
      modifies this`winMin, this`winMax, this`winSamples
      ensures State() == old(State()).(win := Widen(old(State()).win, live))
    {
      if live < winMin {
        winMin := live;
      }
      if live > winMax {
        winMax := live;
      }
      winSamples := winSamples + 1;
    }

    /** Report a bump or a rescue if one is due, else widen the window and judge. */
    method React(live: u32, now: nat, descent: bool) returns (e: Event)
      modifies this
      ensures (State(), e) == GovModel.React(cfg, old(State()), descent, live, now)
    {
      if live == cfg.coldStart && !descent && !armed && (bumps == 0 || now - bumpedAt >= cfg.verifyMs) {
        StartBump(live, now);
        return Bumped;
      }
      if descent && !armed && (floorRescues == 0 || now - lastRescueMs >= cfg.descentMs) {
        StartRescue(live, now);
        return FloorRescue;
      }
      WidenWindow(live);
      e := JudgePoke(live, now);
    }

    /** The spread since the last periodic line, which starts anew. */
    method ReadWindow() returns (lo: u32, hi: u32, n: nat)
      modifies this`winMin, this`winMax, this`winSamples
      ensures n == old(winSamples) && hi == old(winMax) && lo == (if n > 0 then old(winMin) else 0)
      ensures State() == old(State()).(win := EMPTY_WINDOW)
    {
      lo := if winSamples > 0 then winMin else 0;
      hi, n := winMax, winSamples;
      winMin, winMax, winSamples := NO_MIN, 0, 0;
    }
  }
}
