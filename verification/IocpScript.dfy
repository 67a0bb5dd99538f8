/** The beginning shared by the concrete runs of the completion-port hook: from idle, packet 1 of a source
    arrives and sets its cursor, and another receive is posted. */
module IocpScript {
  import opened Serial
  import opened ReorderModel
  import opened HookModel
  import opened IocpModel
  import opened IocpConservation

  const SOURCE := Endpoint(1, 1)
  const SPOT := Place(1, 1, 18, 1, 1)
  const DONE := Completion(true, 18, 0, 1)
  const NONE := Completion(false, 0, 0, 0)

  /** A packet with that sequence. */
  function Numbered(sn: u8): (r: seq<u8>)
    ensures |r| == 18 && SeqOf(r) == sn
  {
    [0, 0, 0, 0, 0, 0, 0, 0, 0, 0, 0, 0, 0, sn, 0, 0, 0, 0]
  }

  /** Receive 1 completes with packet sn, and the round takes until end. */
  function Completing(sn: u8, end: nat): Turn {
    Turn(0, DONE, map[SPOT := Landed(SOURCE, Numbered(sn))], 0, end)
  }

  predicate Single(cfg: Config) {
    ConfigOk(cfg) && cfg.depth == 1 && cfg.peers == 1
  }

  /** Room for one held completion, one outstanding receive and one source. */
  function Idle(cfg: Config): Hook {
    var empty := Peer(0, false, 0, 0, 0, 0, 0, 0, 0, [EMPTY_SLOT]);
    Hook([Free], [NO_RECV], Ctx(cfg, [empty], 0, NO_STATS), false, 0, 0, 0, 0, 0)
  }

  lemma IdleSound(cfg: Config)
    requires Single(cfg)
    ensures HookInv(Idle(cfg)) && forall s :: s in Idle(cfg).held ==> s.Free?
  {
    var c := Idle(cfg).rx;
    assert CountTo([EMPTY_SLOT], 1) == 0;
    assert EntryInv(c.cfg, c.tbl[0]);
  }

  /** Receive 1 is outstanding and its source awaits packet 2. */
  ghost predicate Awaiting(h: Hook, cfg: Config) {
    h.recvs == [Recv(1, SPOT)] && Served(h, cfg)
  }

  /** Nothing is held, and the one source was served packet 1 and has its first window. */
  ghost predicate Served(h: Hook, cfg: Config) {
    && h.held == [Free] && |h.recvs| == 1 && !h.disabled && |h.rx.tbl| == 1 && h.rx.cfg == cfg
    && h.rx.tbl[0].key == KeyOf(SOURCE) && h.rx.tbl[0].init && h.rx.tbl[0].last == 1
    && h.rx.tbl[0].win == (if cfg.adapt then cfg.winMin else cfg.winMax)
  }

  lemma CallOk(h: Hook, op: Op)
    requires |h.rx.tbl| > 0 && |h.held| == 1 && op.Asking? && TurnsOk(op.turns) && |op.turns| == 2
    ensures OpOk(h, op)
  {
    RoomBounded(h.held, 1);
  }

  /** The first packet of a source goes through and its sequence becomes the cursor. */
  lemma FirstGoesThrough(cfg: Config, h: Hook, op: Op)
    requires Single(cfg) && h == Step(Idle(cfg), Posting(true, 1, SPOT)) && OpOk(h, op)
    requires op == Asking(true, [Completing(1, 0), Completing(1, 0)], 0, Infinite, NONE)
    ensures var g := Step(h, op); Served(g, cfg) && g.recvs == [Recv(0, SPOT)]
  {
    assert h.recvs == [Recv(1, SPOT)];
    var t := Completing(1, 0);
    assert PacketOf(h, t) == Landed(SOURCE, Numbered(1));
    assert !Rule(h, t).deferred;
    assert Round(h, t) == Return(Rule(h, t).h, DONE, true);
  }

  /** From there packet 3 is deferred. */
  lemma DeferredAhead(h: Hook, t: Turn)
    requires Awaiting(h, h.rx.cfg) && t == Completing(3, t.end)
    ensures Round(h, t).Again? && Room(h) == 1
    ensures var g := Round(h, t).h;
            && g.held == [Holding(DONE, 3, 0, SOURCE)] && |g.rx.tbl| == 1 && g.rx.cfg == h.rx.cfg
            && g.rx.tbl[0].key == KeyOf(SOURCE) && g.rx.tbl[0].init && g.rx.tbl[0].last == 1
            && g.rx.tbl[0].win == h.rx.tbl[0].win
  {
    assert PacketOf(h, t) == Landed(SOURCE, Numbered(3));
    assert Room(h) == 1 by {
      assert FreeSlots(h.held, 1) == FreeSlots(h.held, 0) + 1;
    }
    DefersIff(h, t);
    assert PickReady(h.rx, h.held, 0, 0, 1) == Pick(h.rx, 1, Forced) && h.(rx := h.rx) == h;
    assert Round(h, t) == Again(Rule(h, t).h);
  }

  /** The shared beginning, as the first three of four operations. */
  lemma Opened(cfg: Config, ops: seq<Op>) returns (hs: seq<Hook>)
    requires Single(cfg) && |ops| == 4 && ops[0] == ops[2] == Posting(true, 1, SPOT)
    requires ops[1] == Asking(true, [Completing(1, 0), Completing(1, 0)], 0, Infinite, NONE)
    ensures IsRun(ops[..3], hs) && Awaiting(hs[3], cfg) && |hs| == 4
  {
    var h0 := Idle(cfg);
    IdleSound(cfg);
    var h1 := Step(h0, ops[0]);
    CallOk(h1, ops[1]);
    var h2 := Step(h1, ops[1]);
    FirstGoesThrough(cfg, h1, ops[1]);
    var h3 := Step(h2, ops[2]);
    hs := [h0, h1, h2, h3];
    ThreeSteps(ops[..3], h0, h1, h2, h3);
  }

  lemma ThreeSteps(ops: seq<Op>, h0: Hook, h1: Hook, h2: Hook, h3: Hook)
    requires |ops| == 3 && HookInv(h0) && OpOk(h0, ops[0]) && h1 == Step(h0, ops[0])
    requires OpOk(h1, ops[1]) && h2 == Step(h1, ops[1]) && OpOk(h2, ops[2]) && h3 == Step(h2, ops[2])
    ensures IsRunFrom(ops, [h0, h1, h2, h3])
  {
  }

  /** The fourth operation on top. */
  lemma Appended(ops: seq<Op>, front: seq<Hook>) returns (hs: seq<Hook>)
    requires |ops| == 4 && IsRun(ops[..3], front) && OpOk(front[3], ops[3])
    ensures IsRun(ops, hs) && hs[3] == front[3] && StepAt(ops, hs, 3) && hs[4] == Step(front[3], ops[3])
  {
    hs := front + [Step(front[3], ops[3])];
    forall i | 0 <= i < 4 ensures StepAt(ops, hs, i) {
      if i < 3 {
        assert StepAt(ops[..3], front, i);
      }
    }
  }
}
