/** What a tape callback does: it happens, it polls into a record of its own, and by what it finds the
    tape goes on or stops. */
module Callbacks {
  import opened Wrappers
  import opened Ctrl
  import opened Requests
  import opened Lazy
  import opened Cell
  import opened SingleWriter
  import opened Server
  import opened Schedules
  import opened Guarantees
  import opened RealTime

  lemma CallbackBegins(s: Sys)
    requires Open(s) && s.market == MarketRun
    ensures |s.cell.threads| == 4 && |s.cell.history| > 0 && SoloInv(s.cell, IN) && s.cell.threads[TAPE].pc == Idle
    ensures Step(s, NxCoreCalls) == s.(cell := Begin(s.cell, TAPE), market := MarketCallback)
    ensures SoloInv(Begin(s.cell, TAPE), IN) && |Begin(s.cell, TAPE).threads| == 4
    ensures Begin(s.cell, TAPE).owner == None && Begin(s.cell, TAPE).history == s.cell.history
  {
    hide SoloInv; hide CoreOk; hide Begin;
    OpenShape(s);
    OpenCore(s);
    MarketIdle(s);
    CellBegin(s.cell, TAPE);
    BeginOwner(s.cell, TAPE);
  }

  /** A schedule in which only NxCore and the thread it calls back on run. */
  predicate OnlyCallback(es: seq<Event>) {
    forall i :: 0 <= i < |es| ==> es[i] == NxCoreCalls || es[i] == MarketRuns
  }

  /** NxCore calls back, and the callback polls. */
  lemma CallbackPolls(s: Sys) returns (es: seq<Event>)
    requires Open(s) && s.market == MarketRun
    ensures |s.cell.threads| == 4 && |s.cell.history| > 0
    ensures OnlyCallback(es)
    ensures var s' := Play(s, es);
            PollDone(s, s'.cell, TAPE) && s' == s.(cell := s'.cell, market := MarketCallback)
  {
    hide Open; hide Begin; hide SoloInv; hide Step; hide CallDone; hide PollDone;
    CallbackBegins(s);
    GoesOn(s);
    PlayOne(s, NxCoreCalls);
    var s1 := Step(s, NxCoreCalls);
    var rest := Finish(s1, TAPE);
    es := [NxCoreCalls] + rest;
    PlayConcat(s, [NxCoreCalls], rest);
    PollFrom(s, Play(s1, rest).cell, TAPE);
  }

  /** The callback's poll is over. */
  lemma CallbackEnds(s: Sys)
    requires |s.cell.threads| == 4 && s.market == MarketCallback && !s.out.OutOverrun?
    requires s.cell.threads[TAPE].pc == Idle
    ensures Step(s, MarketRuns) ==
            if TapeVerdict(s.cell.threads[TAPE].loc.cmd) then s.(market := MarketRun, continues := s.continues + 1)
            else s.(market := MarketPoll)
  {
  }

  /** A finished poll shows the latest publication. */
  lemma PollShows(s: Sys, s': Sys, t: nat)
    requires |s.cell.threads| == 4 && 0 < t < 4 && |s.cell.history| > 0 && PollDone(s, s'.cell, t) && CoreOk(s')
    ensures View(s'.cell.threads[t].loc) == s.cell.history[s.cell.Latest()]
    ensures s'.cell.threads[t].Last() == s.cell.Latest()
  {
    hide CoreOk; hide SoloInv;
    CoreSolo(s');
    ReaderShows(s'.cell, t);
  }

  /** While a tape plays, what is in force is not INIT. */
  lemma PlayingNotInit(s: Sys)
    requires CoreOk(s) && s.market == MarketRun
    ensures |s.cell.threads| == 4 && |s.cell.history| > 0 && s.cell.history[s.cell.Latest()].cmd != CMD_INIT
  {
    CoreShape(s);
    HistoryOk(s);
    CoreSolo(s);
    InitIs(s);
    MarketIdle(s);
    hide CoreOk; hide SoloInv;
    ReaderShows(s.cell, MARKET);
  }

  lemma MarketIdle(s: Sys)
    requires CoreOk(s) && s.market == MarketRun
    ensures |s.cell.threads| == 4 && s.cell.threads[TAPE].pc == Idle
    ensures var m := s.cell.threads[MARKET]; m.pc == Idle && m.loc.cmd == CMD_RUN
  {
  }

  /** NxCore calls back, and the callback runs to its end: its own record then shows the latest
      publication, and the tape goes on, counted as one more CONTINUE, exactly if that is a RUN. */
  lemma CallbackTurn(s: Sys) returns (es: seq<Event>)
    requires Open(s) && s.market == MarketRun
    ensures |s.cell.threads| == 4 && |s.cell.history| > 0
    ensures OnlyCallback(es)
    ensures var s' := Play(s, es); var latest := s.cell.history[s.cell.Latest()];
            && PollDone(s, s'.cell, TAPE)
            && View(s'.cell.threads[TAPE].loc) == latest && s'.cell.threads[TAPE].Last() == s.cell.Latest()
            && s' == if latest.cmd == CMD_RUN then s.(cell := s'.cell, continues := s.continues + 1)
                     else s.(cell := s'.cell, market := MarketPoll)
  {
    hide Open; hide Step; hide CoreOk; hide PollDone; hide TapeVerdict;
    OpenCore(s);
    GoesOn(s);
    LatestKnown(s);
    var calls := CallbackPolls(s);
    var s1 := Play(s, calls);
    es := calls + [MarketRuns];
    PlayConcat(s, calls, [MarketRuns]);
    PlayOne(s1, MarketRuns);
    PlayCoreOk(s, calls);
    PollShows(s, s1, TAPE);
    PollIdle(s, s1.cell, TAPE);
    CallbackEnds(s1);
  }

  lemma PollIdle(s: Sys, c': State, t: nat)
    requires |s.cell.threads| == 4 && t < 4 && |s.cell.history| > 0 && PollDone(s, c', t)
    ensures |c'.threads| == 4 && c'.threads[t].pc == Idle
  {
  }

  lemma LatestKnown(s: Sys)
    requires CoreOk(s) && s.market == MarketRun
    ensures |s.cell.threads| == 4 && |s.cell.history| > 0
    ensures var cmd := s.cell.history[s.cell.Latest()].cmd; TapeVerdict(cmd) <==> cmd == CMD_RUN
  {
    hide CoreOk;
    PlayingNotInit(s);
    CoreShape(s);
    HistoryOk(s);
  }

  /** In every run: while a tape plays and nobody holds the mutex, NxCore can call back, and this is what
      comes of it. */
  lemma CallbackHappens(init: Sys, es: seq<Event>) returns (more: seq<Event>)
    requires Start(init) && Bounded(Play(init, es))
    requires var s := Play(init, es); s.market == MarketRun && s.cell.owner == None && !s.out.OutOverrun?
    ensures |Play(init, es).cell.history| > 0
    ensures OnlyCallback(more)
    ensures var s, s' := Play(init, es), Play(Play(init, es), more);
            var latest, tape := s.cell.history[s.cell.Latest()], s'.cell.threads[TAPE];
            && tape.pc == Idle && tape.Last() == s.cell.Latest() && View(tape.loc) == latest
            && s'.cell.threads[MARKET] == s.cell.threads[MARKET] && s'.cell.history == s.cell.history
            && (s'.market == MarketRun <==> latest.cmd == CMD_RUN)
            && (s'.market == MarketPoll <==> latest.cmd != CMD_RUN)
            && s'.continues == s.continues + (if latest.cmd == CMD_RUN then 1 else 0)
  {
    StartSysOk(init);
    PlayCoreOk(init, es);
    hide CoreOk; hide Step; hide PollDone;
    more := CallbackTurn(Play(init, es));
    PollLeaves(Play(init, es), Play(Play(init, es), more).cell);
  }

  lemma PollLeaves(s: Sys, c': State)
    requires |s.cell.threads| == 4 && |s.cell.history| > 0 && PollDone(s, c', TAPE)
    ensures |c'.threads| == 4 && c'.history == s.cell.history
    ensures c'.threads[TAPE].pc == Idle && c'.threads[MARKET] == s.cell.threads[MARKET]
  {
  }

  // ---------- both outcomes happen ----------

  lemma StartServed(base: string, local: Record, id: int)
    requires local.cmd == CMD_INIT
    ensures var xs := [Input(Request(id, MarketStart, None), true)];
            && AllFit(base, xs)
            && var sv := Serve(base, local, xs); TapelessStart(sv) && |sv.pubs| == 1
  {
    var x := Input(Request(id, MarketStart, None), true);
    ServeSnoc(base, local, [], x);
    assert [] + [x] == [x];
  }

  /** A tape that is started plays, and its first callback lets it go on. */
  lemma CallbackContinues(init: Sys, id: int) returns (before: seq<Event>, call: seq<Event>)
    requires Start(init)
    ensures var s := Play(init, before);
            && Open(s) && s.inn == InRecv && s.market == MarketRun
            && s.inputs == [Input(Request(id, MarketStart, None), true)] && s.cell.Latest() == 1
            && Play(s, call).market == MarketRun && Play(s, call).continues == s.continues + 1
  {
    var xs := [Input(Request(id, MarketStart, None), true)];
    StartRecord(init);
    StartServed(init.base, init.cell.threads[IN].init, id);
    hide Step; hide Serve; hide TapelessStart; hide CaughtUp; hide HistoryOf;
    before := CopiesEverything(init, xs);
    var s := Play(init, before);
    CopiedPlays(init, s, xs);
    PlayingOne(init, s, xs);
    hide Start; hide Open;
    call := CallbackTurn(s);
  }

  lemma PlayingOne(init: Sys, s: Sys, xs: seq<Input>)
    requires Start(init) && AllFit(init.base, xs) && CopiedAll(init, s, xs)
    requires var sv := Serve(init.base, init.cell.threads[IN].init, xs); TapelessStart(sv) && |sv.pubs| == 1
    ensures Open(s) && s.inn == InRecv && s.cell.Latest() == 1
    ensures s.cell.history[1].cmd == CMD_RUN
  {
    StartRecord(init);
    TapelessPublication(init.base, init.cell.threads[IN].init, xs);
    CaughtUpServed(s);
    hide Serve; hide Start;
  }

  /** After a STOP, the next callback stops the tape. */
  lemma CallbackStops(init: Sys, id: int, stop: int) returns (before: seq<Event>, call: seq<Event>)
    requires Start(init)
    ensures var s := Play(init, before);
            && s.market == MarketRun
            && s.inputs == [Input(Request(id, MarketStart, None), true), Input(Request(stop, MarketStop, None), true)]
            && Play(s, call).market == MarketPoll && Play(s, call).continues == s.continues
  {
    hide Step; hide Open; hide CoreOk; hide Handle;
    var a, _ := CallbackContinues(init, id);
    var s := Play(init, a);
    var x := Input(Request(stop, MarketStop, None), true);
    StopHandled(s.base, s.cell.threads[IN].loc, stop);
    var b := RequestTurn(s, x);
    before := a + b;
    PlayConcat(init, a, b);
    OpenCore(s);
    PlayCoreOk(s, b);
    StopOpen(s, Play(s, b), Handle(s.base, s.cell.threads[IN].loc, x));
    call := CallbackTurn(Play(s, b));
  }

  lemma StopHandled(base: string, local: Record, id: int)
    ensures var x := Input(Request(id, MarketStop, None), true);
            && Fits(base, x)
            && Handle(base, local, x) == Outcome(Response(id, StopOk, ""), local.(cmd := CMD_STOP), true)
  {
  }

  lemma StopOpen(s: Sys, s': Sys, o: Outcome)
    requires Open(s) && s.cell.Latest() == 1 && |s.cell.threads| == 4 && CoreOk(s') && s'.out == s.out
    requires RequestDone(s, s'.cell, o) && o.publish && o.local.cmd == CMD_STOP
    ensures Open(s') && s'.cell.history[s'.cell.Latest()].cmd == CMD_STOP
  {
    hide CoreOk;
  }
}
