/** Starts without a tape. A comment in the source promises real-time data for them, that is an empty
    path; this is exactly when NxCore gets one. */
module RealTime {
  import opened Wrappers
  import opened Ctrl
  import opened Requests
  import opened Lazy
  import opened Cell
  import opened SingleWriter
  import opened Server
  import opened Schedules
  import opened Guarantees
  import opened Tapes

  // ---------- a market thread that copies every publication ----------

  /** Between requests, with the market thread up to date and having copied everything so far. */
  ghost predicate CaughtUp(s: Sys) {
    && Open(s) && s.inn == InRecv
    && |s.cell.threads| == 4 && |s.cell.history| > 0
    && var m := s.cell.threads[MARKET];
       && m.pc == Idle && m.Last() == s.cell.Latest() && m.got == s.cell.history
       && s.market == MarketVerdict(s.cell.history[s.cell.Latest()].cmd)
  }

  /** The market thread's turn, when it is one publication behind. */
  lemma CatchUp(s: Sys) returns (es: seq<Event>)
    requires Open(s) && s.inn == InRecv && s.market == MarketPoll && |s.cell.threads| == 4 && |s.cell.history| > 0
    requires var m := s.cell.threads[MARKET];
             m.Last() != s.cell.Latest() && m.got + [s.cell.history[s.cell.Latest()]] == s.cell.history
    ensures var s' := Play(s, es); CaughtUp(s') && s' == s.(cell := s'.cell, market := s'.market)
    ensures Play(s, es).cell.threads[MARKET].init == s.cell.threads[MARKET].init
    ensures Play(s, es).cell.threads[IN] == s.cell.threads[IN]
    ensures Play(s, es).cell.history == s.cell.history
  {
    hide CoreOk; hide SoloInv; hide PollDone; hide CaughtUp; hide Step;
    OpenCore(s);
    es := MarketTurn(s);
    PlayCoreOk(s, es);
    CatchesUp(s, Play(s, es));
  }

  lemma CatchesUp(s: Sys, s': Sys)
    requires Open(s) && s.inn == InRecv && |s.cell.threads| == 4 && |s.cell.history| > 0
    requires var m := s.cell.threads[MARKET];
             m.Last() != s.cell.Latest() && m.got + [s.cell.history[s.cell.Latest()]] == s.cell.history
    requires CoreOk(s') && PollDone(s, s'.cell, MARKET)
    requires s' == s.(cell := s'.cell, market := MarketVerdict(s'.cell.threads[MARKET].loc.cmd))
    ensures CaughtUp(s')
    ensures s'.cell.threads[MARKET].init == s.cell.threads[MARKET].init
    ensures s'.cell.threads[IN] == s.cell.threads[IN] && s'.cell.history == s.cell.history
  {
    hide CoreOk; hide SoloInv;
    CoreSolo(s');
    ReaderShows(s'.cell, MARKET);
  }

  lemma FirstCatchUp(init: Sys) returns (es: seq<Event>)
    requires Start(init)
    ensures var s := Play(init, es); CaughtUp(s) && s == init.(cell := s.cell, market := s.market)
    ensures Play(init, es).cell.threads[MARKET].init == init.cell.threads[MARKET].init
    ensures Play(init, es).cell.threads[IN] == init.cell.threads[IN]
  {
    hide Open; hide CaughtUp; hide Step;
    StartOpen(init);
    StartMarket(init);
    hide Start;
    es := CatchUp(init);
  }

  lemma StartMarket(init: Sys)
    requires Start(init)
    ensures |init.cell.threads| == 4 && init.inn == InRecv && init.market == MarketPoll
    ensures |init.cell.history| == 1
    ensures var m := init.cell.threads[MARKET]; m.Last() == -1 && m.got == []
  {
  }

  lemma Sends(s: Sys)
    requires |s.cell.threads| == 4 && s.inn.InSend? && CMD_SHUTDOWN < s.cell.threads[IN].loc.cmd && !s.out.OutOverrun?
    ensures Step(s, InRuns)
            == s.(inn := InRecv, fifo := s.fifo + [s.inn.res], produced := s.produced + [s.inn.res])
  {
  }

  lemma TapeEnds(s: Sys)
    requires |s.cell.threads| == 4 && s.market == MarketRun && !s.out.OutOverrun?
    ensures Step(s, NxCoreEnds) == s.(market := MarketPoll)
  {
  }

  /** Between requests, with the market thread between calls. */
  ghost predicate Waiting(s: Sys) {
    && Open(s) && s.inn == InRecv && |s.cell.threads| == 4
    && (s.market == MarketPoll || s.market == MarketRun)
  }

  /** The request is handled and answered; a tape that plays is let end. */
  lemma Answer(s: Sys, x: Input) returns (es: seq<Event>)
    requires Waiting(s) && Fits(s.base, x)
    requires var o := Handle(s.base, s.cell.threads[IN].loc, x);
             CMD_SHUTDOWN < o.local.cmd && (o.publish ==> s.cell.Latest() < LAST_EXACT)
    ensures var s' := Play(s, es); var o := Handle(s.base, s.cell.threads[IN].loc, x);
            && Waiting(s') && RequestDone(s, s'.cell, o)
            && s' == s.(cell := s'.cell, inputs := s.inputs + [x], fifo := s.fifo + [o.res],
                        produced := s.produced + [o.res],
                        market := if o.publish && s.market == MarketRun then MarketPoll else s.market)
  {
    OpenCore(s);
    GoesOn(s);
    hide Open; hide CoreOk; hide Handle; hide Step;
    var a := RequestTurn(s, x);
    var s1 := Play(s, a);
    Sends(s1);
    PlayConcat(s, a, [InRuns]);
    PlayOne(s1, InRuns);
    es := a + [InRuns];
    var s2 := Play(s, es);
    if Handle(s.base, s.cell.threads[IN].loc, x).publish && s.market == MarketRun {
      TapeEnds(s2);
      PlayConcat(s, es, [NxCoreEnds]);
      PlayOne(s2, NxCoreEnds);
      es := es + [NxCoreEnds];
    }
    PlayCoreOk(s, es);
    StaysOpen(s, Play(s, es));
  }

  lemma StaysOpen(s: Sys, s': Sys)
    requires Open(s) && CoreOk(s') && s'.out == s.out && s'.cell.owner == None && Bounded(s')
    ensures Open(s')
  {
  }

  /** One request more, and the market thread catches up with what it publishes. */
  lemma NextCatchUp(s: Sys, x: Input) returns (es: seq<Event>)
    requires CaughtUp(s) && Fits(s.base, x)
    requires var o := Handle(s.base, s.cell.threads[IN].loc, x);
             CMD_SHUTDOWN < o.local.cmd && (o.publish ==> s.cell.Latest() < LAST_EXACT)
    ensures var s' := Play(s, es);
            && CaughtUp(s') && s'.inputs == s.inputs + [x] && s'.base == s.base
            && s'.cell.threads[MARKET].init == s.cell.threads[MARKET].init
            && s'.cell.threads[IN].init == s.cell.threads[IN].init
  {
    hide CaughtUp; hide Waiting; hide Handle; hide Fits; hide Step; hide RequestDone;
    CaughtUpWaits(s);
    var o := Handle(s.base, s.cell.threads[IN].loc, x);
    var a := Answer(s, x);
    var s1 := Play(s, a);
    if !o.publish {
      StillCaughtUp(s, s1, o);
      es := a;
    } else {
      OneBehind(s, s1, o);
      var b := CatchUp(s1);
      es := a + b;
      PlayConcat(s, a, b);
    }
  }

  /** A refusal publishes nothing to catch up with. */
  lemma StillCaughtUp(s: Sys, s1: Sys, o: Outcome)
    requires CaughtUp(s) && Waiting(s1) && RequestDone(s, s1.cell, o) && !o.publish && s1.market == s.market
    ensures CaughtUp(s1)
    ensures s1.cell.threads[MARKET].init == s.cell.threads[MARKET].init
    ensures s1.cell.threads[IN].init == s.cell.threads[IN].init
  {
    hide Open;
  }

  lemma OneBehind(s: Sys, s1: Sys, o: Outcome)
    requires CaughtUp(s) && Waiting(s1) && RequestDone(s, s1.cell, o) && o.publish
    requires s1.market == if s.market == MarketRun then MarketPoll else s.market
    ensures |s1.cell.threads| == 4 && |s1.cell.history| > 0 && Open(s1) && s1.inn == InRecv
    ensures s1.market == MarketPoll
    ensures var m := s1.cell.threads[MARKET];
            m.Last() != s1.cell.Latest() && m.got + [s1.cell.history[s1.cell.Latest()]] == s1.cell.history
    ensures s1.cell.threads[MARKET].init == s.cell.threads[MARKET].init
    ensures s1.cell.threads[IN].init == s.cell.threads[IN].init
  {
    hide Open;
  }

  lemma CaughtUpWaits(s: Sys)
    requires CaughtUp(s)
    ensures Waiting(s) && |s.cell.threads| == 4
  {
    HistoryOk(s);
  }

  /** The last request of a series that ends without a shutdown. */
  lemma LastRequest(base: string, local: Record, xs: seq<Input>)
    requires |xs| > 0 && AllFit(base, xs) && CMD_SHUTDOWN < Serve(base, local, xs).local.cmd
    ensures var n := |xs| - 1;
            && AllFit(base, xs[..n]) && Fits(base, xs[n])
            && var sv0, sv := Serve(base, local, xs[..n]), Serve(base, local, xs);
               var o := Handle(base, sv0.local, xs[n]);
               && CMD_SHUTDOWN < sv0.local.cmd && o.local == sv.local
               && sv.responses == sv0.responses + [o.res]
               && sv.pubs == sv0.pubs + (if o.publish then [View(o.local)] else [])
  {
    hide Handle;
  }

  lemma CaughtUpServed(s: Sys)
    requires CaughtUp(s)
    ensures |s.cell.threads| == 4 && AllFit(s.base, s.inputs)
    ensures s.cell.threads[IN].loc == ServedBy(s).local && s.cell.history == HistoryOf(ServedBy(s))
  {
    hide Serve; hide SoloInv;
  }

  /** The state after a series of requests of which the market thread copied every publication. */
  ghost predicate CopiedAll(init: Sys, s: Sys, xs: seq<Input>)
    requires |init.cell.threads| == 4
  {
    && CaughtUp(s) && s.inputs == xs && s.base == init.base
    && s.cell.threads[MARKET].init == init.cell.threads[MARKET].init
    && s.cell.threads[IN].init == init.cell.threads[IN].init
  }

  lemma CopiesNothing(init: Sys) returns (es: seq<Event>)
    requires Start(init)
    ensures CopiedAll(init, Play(init, es), [])
  {
    es := FirstCatchUp(init);
    hide CaughtUp;
  }

  lemma CopiesOneMore(init: Sys, s: Sys, xs: seq<Input>) returns (es: seq<Event>)
    requires |init.cell.threads| == 4 && |xs| > 0 && AllFit(init.base, xs)
    requires CopiedAll(init, s, xs[..|xs| - 1])
    requires var sv := Serve(init.base, init.cell.threads[IN].init, xs);
             CMD_SHUTDOWN < sv.local.cmd && |sv.pubs| <= LAST_EXACT
    ensures |s.cell.threads| == 4 && CopiedAll(init, Play(s, es), xs)
  {
    hide CaughtUp; hide Handle; hide Serve; hide Fits;
    CaughtUpServed(s);
    LastRequest(init.base, init.cell.threads[IN].init, xs);
    assert xs[..|xs| - 1] == s.inputs;
    es := NextCatchUp(s, xs[|xs| - 1]);
    assert xs[..|xs| - 1] + [xs[|xs| - 1]] == xs;
  }

  /** There is a run in which the market thread copies every publication of a series of requests. */
  lemma {:induction false} CopiesEverything(init: Sys, xs: seq<Input>) returns (es: seq<Event>)
    requires Start(init) && AllFit(init.base, xs)
    requires var sv := Serve(init.base, init.cell.threads[IN].init, xs);
             CMD_SHUTDOWN < sv.local.cmd && |sv.pubs| <= LAST_EXACT
    ensures CopiedAll(init, Play(init, es), xs)
  {
    if |xs| == 0 {
      es := CopiesNothing(init);
    } else {
      LastRequest(init.base, init.cell.threads[IN].init, xs);
      hide CopiedAll; hide Start; hide Serve; hide Handle;
      var before := CopiesEverything(init, xs[..|xs| - 1]);
      var rest := CopiesOneMore(init, Play(init, before), xs);
      es := before + rest;
      PlayConcat(init, before, rest);
    }
  }

  // ---------- what a start without a tape plays ----------

  /** The request behind the last publication is a start without a tape. */
  predicate TapelessStart(sv: Served) {
    sv.local.cmd == CMD_RUN && |sv.origins| > 0 && sv.origins[|sv.origins| - 1].tape == None
  }

  /** NxCore plays for a start without a tape. */
  predicate PlaysTapeless(s: Sys) {
    |s.cell.threads| == 4 && Playing(s) && s.cell.threads[MARKET].loc.size == 0
  }

  lemma TapelessPublication(base: string, local: Record, xs: seq<Input>)
    requires AllFit(base, xs) && local.cmd == CMD_INIT && local.size == 0 && TapelessStart(Serve(base, local, xs))
    ensures var h := HistoryOf(Serve(base, local, xs)); h[|h| - 1] == Pub(CMD_RUN, [])
  {
    hide Serve; hide ResponsesOk; hide WellFormed; hide PayloadsOk;
    ServeAccounted(base, local, xs);
  }

  lemma CaughtUpPlays(s: Sys)
    requires CaughtUp(s) && s.cell.history[s.cell.Latest()] == Pub(CMD_RUN, [])
    ensures PlaysTapeless(s) && s.market == MarketRun && s.cell.threads[MARKET].got == s.cell.history
  {
    OpenShape(s);
    hide Open; hide SoloInv;
    ReaderShows(s.cell, MARKET);
  }

  lemma CopiedPlays(init: Sys, s: Sys, xs: seq<Input>)
    requires Start(init) && AllFit(init.base, xs) && CopiedAll(init, s, xs)
    requires TapelessStart(Serve(init.base, init.cell.threads[IN].init, xs))
    ensures PlaysTapeless(s) && s.cell.threads[MARKET].got == s.cell.history
    ensures s.market == MarketRun
  {
    hide Serve; hide CaughtUp; hide TapelessStart;
    StartRecord(init);
    TapelessPublication(init.base, init.cell.threads[IN].init, xs);
    CaughtUpServed(s);
    hide Start;
    CaughtUpPlays(s);
  }

  lemma StartRecord(init: Sys)
    requires Start(init)
    ensures init.cell.threads[IN].init.cmd == CMD_INIT && init.cell.threads[IN].init.size == 0
  {
  }

  // ---------- a market thread that sleeps through the rest ----------

  /** The state after a series of requests, with the market thread's record as it was given. */
  ghost predicate Slept(init: Sys, m: Thread, s: Sys, xs: seq<Input>)
    requires |init.cell.threads| == 4
  {
    && Waiting(s) && s.inputs == xs && s.base == init.base && s.cell.threads[MARKET] == m
    && s.cell.threads[IN].init == init.cell.threads[IN].init
  }

  lemma WaitingServed(s: Sys)
    requires Waiting(s)
    ensures |s.cell.threads| == 4 && AllFit(s.base, s.inputs)
    ensures s.cell.threads[IN].loc == ServedBy(s).local && s.cell.history == HistoryOf(ServedBy(s))
  {
    hide Serve; hide SoloInv;
  }

  lemma SleepsOnce(init: Sys, m: Thread, s: Sys, xs: seq<Input>) returns (es: seq<Event>)
    requires |init.cell.threads| == 4 && |xs| > 0 && AllFit(init.base, xs)
    requires Slept(init, m, s, xs[..|xs| - 1])
    requires var sv := Serve(init.base, init.cell.threads[IN].init, xs);
             CMD_SHUTDOWN < sv.local.cmd && |sv.pubs| <= LAST_EXACT
    ensures |s.cell.threads| == 4 && Slept(init, m, Play(s, es), xs)
    ensures s.market == MarketPoll ==> Play(s, es).market == MarketPoll
    ensures var local := init.cell.threads[IN].init;
            |Serve(init.base, local, xs[..|xs| - 1]).pubs| < |Serve(init.base, local, xs).pubs| ==>
              Play(s, es).market == MarketPoll
  {
    hide Waiting; hide Handle; hide Serve; hide Fits;
    WaitingServed(s);
    LastRequest(init.base, init.cell.threads[IN].init, xs);
    WaitingMarket(s);
    assert xs[..|xs| - 1] == s.inputs;
    es := Answer(s, xs[|xs| - 1]);
    assert xs[..|xs| - 1] + [xs[|xs| - 1]] == xs;
  }

  lemma WaitingMarket(s: Sys)
    requires Waiting(s)
    ensures s.market == MarketPoll || s.market == MarketRun
  {
  }

  /** From a series of requests on to a longer one, without a turn of the market thread. */
  lemma {:induction false} Sleeps(init: Sys, m: Thread, s: Sys, n: nat, xs: seq<Input>) returns (es: seq<Event>)
    requires |init.cell.threads| == 4 && n <= |xs| && AllFit(init.base, xs) && Slept(init, m, s, xs[..n])
    requires var sv := Serve(init.base, init.cell.threads[IN].init, xs);
             CMD_SHUTDOWN < sv.local.cmd && |sv.pubs| <= LAST_EXACT
    ensures |s.cell.threads| == 4 && Slept(init, m, Play(s, es), xs)
    ensures s.market == MarketPoll ==> Play(s, es).market == MarketPoll
    ensures var local := init.cell.threads[IN].init;
            |Serve(init.base, local, xs[..n]).pubs| < |Serve(init.base, local, xs).pubs| ==>
              Play(s, es).market == MarketPoll
    decreases |xs|
  {
    hide Slept; hide Serve; hide Handle; hide Fits;
    SleptShape(init, m, s, xs[..n]);
    if n == |xs| {
      es := [];
      assert xs[..n] == xs;
    } else {
      LastRequest(init.base, init.cell.threads[IN].init, xs);
      assert xs[..|xs| - 1][..n] == xs[..n];
      var before := Sleeps(init, m, s, n, xs[..|xs| - 1]);
      var last := SleepsOnce(init, m, Play(s, before), xs);
      es := before + last;
      PlayConcat(s, before, last);
    }
  }

  lemma SleptShape(init: Sys, m: Thread, s: Sys, xs: seq<Input>)
    requires |init.cell.threads| == 4 && Slept(init, m, s, xs)
    ensures |s.cell.threads| == 4
  {
  }

  /** The market thread wakes up to a start without a tape: it adds nothing to what is in its buffer. */
  lemma WakesUp(s: Sys) returns (es: seq<Event>)
    requires Waiting(s) && s.market == MarketPoll && |s.cell.history| > 0
    requires s.cell.history[s.cell.Latest()] == Pub(CMD_RUN, [])
    requires s.cell.threads[MARKET].Last() != s.cell.Latest()
    ensures var s' := Play(s, es); var m, m' := s.cell.threads[MARKET], s'.cell.threads[MARKET];
            && s'.inputs == s.inputs && PlaysTapeless(s')
            && m'.init == m.init && m'.got == m.got + [Pub(CMD_RUN, [])] && m'.loc == Overlay(m'.init, m'.got)
  {
    hide CoreOk; hide SoloInv; hide Overlay; hide Step;
    WaitingIsOpen(s);
    hide Waiting;
    OpenCore(s);
    es := MarketTurn(s);
    PlayCoreOk(s, es);
    hide Open;
    WokenShows(Play(s, es));
  }

  lemma WaitingIsOpen(s: Sys)
    requires Waiting(s)
    ensures Open(s) && |s.cell.threads| == 4
  {
  }

  lemma WokenShows(s: Sys)
    requires CoreOk(s) && |s.cell.threads| == 4 && s.cell.threads[MARKET].pc == Idle
    ensures var m := s.cell.threads[MARKET];
            && m.loc == Overlay(m.init, m.got) && m.Last() <= s.cell.Latest()
            && (m.Last() >= 0 ==> View(m.loc) == s.cell.history[m.Last()])
  {
    hide CoreOk; hide SoloInv;
    CoreSolo(s);
    ReaderShows(s.cell, MARKET);
    ReaderRecords(s.cell, MARKET);
  }

  /** A first byte is what is left of the latest payload, or of the beginning. */
  lemma FirstByte(r: Record, got: seq<Pub>)
    ensures var data := Overlay(r, got + [Pub(CMD_RUN, [])]).data;
            && (LatestPayload(got) < 0 ==> data[0] == r.data[0])
            && (LatestPayload(got) >= 0 ==> data[0] == got[LatestPayload(got)].bytes[0])
  {
    var got', j := got + [Pub(CMD_RUN, [])], LatestPayload(got);
    hide Overlay; hide LatestPayload;
    if j < 0 {
      OverlayKeeps(r, got', 0);
    } else {
      OverlayByte(r, got', 0, j);
    }
  }

  // ---------- the exact condition ----------

  /** An accepted start named a tape whose path is not the empty C string. */
  ghost predicate PathAccepted(base: string, inputs: seq<Input>, rs: seq<Response>) {
    exists k :: AcceptedAt(inputs, rs, k) && NamesTape(inputs[k].req)
                && CString(base + inputs[k].req.tape.value) != ""
  }

  lemma MadeFor(init: Sys, es: seq<Event>)
    requires Start(init)
    ensures var s := Play(init, es);
            && AllFit(init.base, s.inputs) && s.base == init.base
            && Made(s) == Serve(init.base, init.cell.threads[IN].init, s.inputs).responses
            && s.cell.threads[MARKET].init == init.cell.threads[MARKET].init
  {
    StartInOk(init);
    PlayInOk(init, es);
    InitStays(init, es);
    BaseStays(init, es);
    hide Handled; hide Step; hide Serve;
    MadeIs(Play(init, es));
  }

  lemma HeldIsAccepted(s: Sys, u: int)
    requires HandledOk(s) && |s.cell.threads| == 4 && AllFit(s.base, s.inputs) && HoldsTape(s, u)
    requires !PathAccepted(s.base, s.inputs, Made(s))
    ensures CString(s.cell.threads[MARKET].loc.data) == ""
  {
    hide Handled; hide Serve; hide CString;
    OriginAccepted(s, u);
    var k :| AcceptedAt(s.inputs, Made(s), k) && s.inputs[k].req == Origin(s, u);
  }

  /** Without such a start, and with a NUL in the buffer to begin with, the path is always empty. */
  lemma AlwaysEmpty(init: Sys, es: seq<Event>)
    requires Start(init) && Playing(Play(init, es)) && init.cell.threads[MARKET].init.data[0] == '\0'
    requires !PathAccepted(init.base, Play(init, es).inputs, Made(Play(init, es)))
    ensures CString(Play(init, es).cell.threads[MARKET].loc.data) == ""
  {
    hide Serve; hide Step; hide CoreOk; hide LatestPayload; hide Accepted;
    MadeFor(init, es);
    TapeHandedOver(init, es);
    StartOpen(init);
    PlayCoreOk(init, es);
    var s := Play(init, es);
    var m := s.cell.threads[MARKET];
    if LatestPayload(m.got) >= 0 {
      var u :| LatestStart(s.cell.history, m.seen[LatestPayload(m.got)], u) && HoldsTape(s, u);
      CoreShape(s);
      HeldIsAccepted(s, u);
    }
  }

  /** A run in which the market thread first polls when the start without a tape is in force. */
  lemma SleepsFromStart(init: Sys, xs: seq<Input>) returns (es: seq<Event>)
    requires Start(init) && AllFit(init.base, xs)
    requires var sv := Serve(init.base, init.cell.threads[IN].init, xs); TapelessStart(sv) && |sv.pubs| <= LAST_EXACT
    ensures var s := Play(init, es);
            && s.inputs == xs && PlaysTapeless(s)
            && (CString(s.cell.threads[MARKET].loc.data) == "" ==> init.cell.threads[MARKET].init.data[0] == '\0')
  {
    hide Serve; hide Overlay; hide Waiting; hide AllFit;
    StartRecord(init);
    StartWaits(init);
    var m := init.cell.threads[MARKET];
    assert xs[..0] == [];
    TapelessPublication(init.base, init.cell.threads[IN].init, xs);
    NothingPublished(init.base, init.cell.threads[IN].init, xs);
    var a := Sleeps(init, m, init, 0, xs);
    var s1 := Play(init, a);
    SleptServed(init, m, s1, xs);
    hide Start;
    var b := WakesUp(s1);
    es := a + b;
    PlayConcat(init, a, b);
    FirstByte(m.init, []);
  }

  lemma NothingPublished(base: string, local: Record, xs: seq<Input>)
    requires AllFit(base, xs) && local.cmd == CMD_INIT && local.size == 0 && TapelessStart(Serve(base, local, xs))
    ensures |Serve(base, local, []).pubs| < |Serve(base, local, xs).pubs|
  {
    assert Serve(base, local, []).pubs == [];
    hide Serve; hide ResponsesOk; hide WellFormed; hide PayloadsOk;
    ServeAccounted(base, local, xs);
  }

  lemma SleptServed(init: Sys, m: Thread, s: Sys, xs: seq<Input>)
    requires |init.cell.threads| == 4 && Slept(init, m, s, xs)
    ensures |s.cell.threads| == 4 && Waiting(s) && s.inputs == xs && s.cell.threads[MARKET] == m
    ensures AllFit(init.base, xs) && s.cell.history == HistoryOf(Serve(init.base, init.cell.threads[IN].init, xs))
  {
    hide Waiting; hide Serve;
    WaitingServed(s);
  }

  lemma StartWaits(init: Sys)
    requires Start(init)
    ensures Waiting(init) && init.market == MarketPoll && init.inputs == []
    ensures var m := init.cell.threads[MARKET]; m.Last() == -1 && m.got == []
  {
    StartOpen(init);
  }

  /** What has been answered and published stays. */
  lemma {:induction false} ServePrefix(base: string, local: Record, xs: seq<Input>, n: nat)
    requires AllFit(base, xs) && CMD_SHUTDOWN < Serve(base, local, xs).local.cmd && n <= |xs|
    ensures AllFit(base, xs[..n])
    ensures var sv0, sv := Serve(base, local, xs[..n]), Serve(base, local, xs);
            && CMD_SHUTDOWN < sv0.local.cmd && |sv0.responses| == n
            && sv0.responses <= sv.responses && sv0.pubs <= sv.pubs
    decreases |xs|
  {
    if |xs| == 0 {
      assert xs[..n] == xs;
    } else {
      LastRequest(base, local, xs);
      hide Serve; hide Handle; hide Fits;
      if n == |xs| {
        ServePrefix(base, local, xs[..n - 1], n - 1);
        assert xs[..n - 1][..n - 1] == xs[..n - 1];
        assert xs[..n] == xs;
      } else {
        ServePrefix(base, local, xs[..|xs| - 1], n);
        assert xs[..|xs| - 1][..n] == xs[..n];
      }
    }
  }

  /** An accepted request's publication is the last one of the series up to it. */
  lemma AcceptedPublishes(base: string, local: Record, xs: seq<Input>, k: nat)
    requires AllFit(base, xs) && CMD_SHUTDOWN < Serve(base, local, xs).local.cmd
    requires AcceptedAt(xs, Serve(base, local, xs).responses, k)
    ensures k < |xs| && AllFit(base, xs[..k + 1])
    ensures var sv, sv1 := Serve(base, local, xs), Serve(base, local, xs[..k + 1]);
            && CMD_SHUTDOWN < sv1.local.cmd && 0 < |sv1.pubs| && sv1.pubs <= sv.pubs
            && Publishes(base, xs[k].req, sv1.pubs[|sv1.pubs| - 1])
  {
    hide Serve; hide Handle; hide Fits; hide Publishes; hide AllFit;
    ServePrefix(base, local, xs, k);
    ServePrefix(base, local, xs, k + 1);
    LastRequest(base, local, xs[..k + 1]);
    assert xs[..k + 1][..k] == xs[..k];
    HandleVerdict(base, Serve(base, local, xs[..k]).local, xs[k]);
  }

  lemma CopiedSlept(init: Sys, s: Sys, xs: seq<Input>)
    requires |init.cell.threads| == 4 && CopiedAll(init, s, xs)
    ensures |s.cell.threads| == 4 && Slept(init, s.cell.threads[MARKET], s, xs)
    ensures var m := s.cell.threads[MARKET];
            && m.got == s.cell.history && m.Last() == s.cell.Latest() && m.init == init.cell.threads[MARKET].init
  {
    CaughtUpWaits(s);
    hide Open;
  }

  lemma CopiedServed(init: Sys, s: Sys, xs: seq<Input>)
    requires |init.cell.threads| == 4 && CopiedAll(init, s, xs)
    ensures AllFit(init.base, xs) && s.cell.history == HistoryOf(Serve(init.base, init.cell.threads[IN].init, xs))
  {
    hide CaughtUp; hide Serve;
    CaughtUpServed(s);
  }

  /** The tape of an accepted request k is the latest payload right after it, and more is published
      before the start without a tape is in force. */
  lemma TapeBehind(base: string, local: Record, xs: seq<Input>, k: nat)
    requires AllFit(base, xs) && local.cmd == CMD_INIT && local.size == 0 && TapelessStart(Serve(base, local, xs))
    requires AcceptedAt(xs, Serve(base, local, xs).responses, k)
    requires NamesTape(xs[k].req) && CString(base + xs[k].req.tape.value) != ""
    ensures AllFit(base, xs[..k + 1])
    ensures var sv, sv1 := Serve(base, local, xs), Serve(base, local, xs[..k + 1]);
            var h := HistoryOf(sv1);
            && |sv1.pubs| < |sv.pubs| && CMD_SHUTDOWN < sv1.local.cmd
            && LatestPayload(h) == |h| - 1 && h[|h| - 1].bytes[0] != '\0'
  {
    hide Serve; hide AllFit; hide Publishes; hide HistoryOf; hide LatestPayload; hide AcceptedAt; hide CString;
    AcceptedPublishes(base, local, xs, k);
    TapelessPublication(base, local, xs);
    var sv, sv1 := Serve(base, local, xs), Serve(base, local, xs[..k + 1]);
    PathPublished(base, xs[k].req, sv1.pubs[|sv1.pubs| - 1]);
    HistoryEnds(sv);
    HistoryEnds(sv1);
  }

  lemma PathPublished(base: string, req: Request, p: Pub)
    requires Publishes(base, req, p) && NamesTape(req) && CString(base + req.tape.value) != ""
    ensures p.bytes != [] && p.bytes[0] != '\0'
  {
    assert p.bytes[0] == (base + req.tape.value)[0];
  }

  lemma HistoryEnds(sv: Served)
    ensures var h := HistoryOf(sv);
            && |h| == |sv.pubs| + 1 && (|sv.pubs| > 0 ==> h[|h| - 1] == sv.pubs[|sv.pubs| - 1])
            && (h[|h| - 1].bytes != [] ==> LatestPayload(h) == |h| - 1)
  {
  }

  /** A run in which the market thread copies the tape of request k, and then sleeps. */
  lemma SleepsFromTape(init: Sys, xs: seq<Input>, k: nat) returns (es: seq<Event>)
    requires Start(init) && AllFit(init.base, xs)
    requires var sv := Serve(init.base, init.cell.threads[IN].init, xs);
             TapelessStart(sv) && |sv.pubs| <= LAST_EXACT && AcceptedAt(xs, sv.responses, k)
    requires NamesTape(xs[k].req) && CString(init.base + xs[k].req.tape.value) != ""
    ensures var s := Play(init, es);
            && s.inputs == xs && PlaysTapeless(s) && CString(s.cell.threads[MARKET].loc.data) != ""
  {
    hide Serve; hide Overlay; hide Waiting; hide AllFit; hide CopiedAll; hide Slept;
    var base, local := init.base, init.cell.threads[IN].init;
    StartRecord(init);
    TapelessPublication(base, local, xs);
    TapeBehind(base, local, xs, k);
    var a := CopiesEverything(init, xs[..k + 1]);
    var s1 := Play(init, a);
    CopiedSlept(init, s1, xs[..k + 1]);
    CopiedServed(init, s1, xs[..k + 1]);
    var m := s1.cell.threads[MARKET];
    var b := Sleeps(init, m, s1, k + 1, xs);
    var s2 := Play(s1, b);
    SleptServed(init, m, s2, xs);
    hide Start;
    var c := WakesUp(s2);
    es := a + b + c;
    PlayConcat(init, a, b);
    PlayConcat(init, a + b, c);
    FirstByte(m.init, m.got);
  }

  /** After any series of requests that ends with a start without a tape in force, NxCore gets an empty
      path however the threads interleaved, exactly if no start naming a tape, with a path that is not
      itself empty, was accepted and the market thread's buffer happened to begin with a NUL. */
  lemma RealTimeExactly(init: Sys, xs: seq<Input>)
    requires Start(init) && AllFit(init.base, xs)
    requires var sv := Serve(init.base, init.cell.threads[IN].init, xs); TapelessStart(sv) && |sv.pubs| <= LAST_EXACT
    ensures var sv := Serve(init.base, init.cell.threads[IN].init, xs);
            (forall es :: Play(init, es).inputs == xs && PlaysTapeless(Play(init, es)) ==>
                            CString(Play(init, es).cell.threads[MARKET].loc.data) == "") <==>
            init.cell.threads[MARKET].init.data[0] == '\0' && !PathAccepted(init.base, xs, sv.responses)
  {
    hide Serve; hide Step; hide CString;
    var rs := Serve(init.base, init.cell.threads[IN].init, xs).responses;
    if PathAccepted(init.base, xs, rs) {
      var k :| AcceptedAt(xs, rs, k) && NamesTape(xs[k].req) && CString(init.base + xs[k].req.tape.value) != "";
      var es := SleepsFromTape(init, xs, k);
    } else if init.cell.threads[MARKET].init.data[0] != '\0' {
      var es := SleepsFromStart(init, xs);
    } else {
      forall es | Play(init, es).inputs == xs && PlaysTapeless(Play(init, es))
        ensures CString(Play(init, es).cell.threads[MARKET].loc.data) == ""
      {
        MadeFor(init, es);
        AlwaysEmpty(init, es);
      }
    }
  }

  /** The smallest case: start a tape, stop, start without one. NxCore is handed the first tape again. */
  lemma RealTimeReplaysTape(init: Sys, a: int, b: int, c: int, f: string) returns (es: seq<Event>)
    requires Start(init) && |init.base| + |f| + 1 <= CAPACITY
    ensures var s := Play(init, es);
            && s.inputs == [Input(Request(a, MarketStart, Some(f)), true), Input(Request(b, MarketStop, None), true),
                            Input(Request(c, MarketStart, None), true)]
            && PlaysTapeless(s) && s.market == MarketRun
            && CString(s.cell.threads[MARKET].loc.data) == CString(init.base + f)
  {
    var xs := [Input(Request(a, MarketStart, Some(f)), true), Input(Request(b, MarketStop, None), true),
               Input(Request(c, MarketStart, None), true)];
    ReplayServed(init.base, init.cell.threads[IN].init, a, b, c, f) by {
      StartRecord(init);
    }
    hide Serve; hide Step; hide CaughtUp; hide HistoryOf;
    es := CopiesEverything(init, xs);
    CopiedPlays(init, Play(init, es), xs);
    CaughtUpServed(Play(init, es));
    ReplayHandedOver(init, es, xs, f);
  }

  /** The publications of those three requests, and where they come from. */
  lemma ReplayServed(base: string, local: Record, a: int, b: int, c: int, f: string)
    requires |base| + |f| + 1 <= CAPACITY && local.cmd == CMD_INIT
    ensures var xs := [Input(Request(a, MarketStart, Some(f)), true), Input(Request(b, MarketStop, None), true),
                       Input(Request(c, MarketStart, None), true)];
            && AllFit(base, xs)
            && var sv := Serve(base, local, xs); var path := base + f + ['\0'];
               && TapelessStart(sv)
               && sv.pubs == [Pub(CMD_RUN, path), Pub(CMD_STOP, path), Pub(CMD_RUN, [])]
               && sv.origins == [xs[0].req, xs[1].req, xs[2].req]
  {
    var x, y, z := Input(Request(a, MarketStart, Some(f)), true), Input(Request(b, MarketStop, None), true),
                   Input(Request(c, MarketStart, None), true);
    ServeSnoc(base, local, [], x);
    ServeSnoc(base, local, [x], y);
    ServeSnoc(base, local, [x, y], z);
    assert [] + [x] == [x] && [x] + [y] == [x, y] && [x, y] + [z] == [x, y, z];
  }

  lemma ReplayHandedOver(init: Sys, es: seq<Event>, xs: seq<Input>, f: string)
    requires Start(init) && Playing(Play(init, es)) && AllFit(init.base, xs)
    requires var s := Play(init, es); var sv := Serve(init.base, init.cell.threads[IN].init, xs);
             && s.inputs == xs && s.cell.threads[MARKET].got == s.cell.history == HistoryOf(sv)
             && |sv.origins| == 3 && sv.origins[0].tape == Some(f) && sv.origins[1].tape == sv.origins[2].tape == None
             && |sv.pubs| == 3 && sv.pubs[0].bytes != []
    ensures CString(Play(init, es).cell.threads[MARKET].loc.data) == CString(init.base + f)
  {
    hide Serve; hide Step; hide AllFit;
    var s := Play(init, es);
    TapeHandedOver(init, es);
    BaseStays(init, es);
    InitStays(init, es);
    hide Start;
    var m := s.cell.threads[MARKET];
    assert m.got[1].bytes != [];
    var u :| LatestStart(s.cell.history, m.seen[LatestPayload(m.got)], u) && HoldsTape(s, u);
  }
}
