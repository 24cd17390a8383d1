/** Shutting the server down: the output thread never waits for a response that will not come, every
    step after SHUTDOWN is published brings the end nearer, and until the end some step is possible. */
module ShutdownProtocol {
  import opened Wrappers
  import opened Ctrl
  import opened Requests
  import opened Lazy
  import opened Cell
  import opened SingleWriter
  import opened Wire
  import opened Server
  import opened Schedules

  // ---------- the handshake ----------

  predicate HasShutdownOk(rs: seq<Response>) {
    exists i :: 0 <= i < |rs| && rs[i].kind == ShutdownOk
  }

  /** The control thread still holds the response to the shutdown. */
  predicate YetToSend(inn: InPc) {
    (inn.InCall? || inn.InSend?) && inn.res.kind == ShutdownOk
  }

  /** Once SHUTDOWN is published the control thread never reads again, and the last response it makes
      is the one to the shutdown. */
  lemma PublishedMeansLast(s: Sys)
    requires HandledOk(s) && ShutdownPublished(s.cell)
    ensures Settled(s.cell.threads[IN].pc) && s.cell.threads[IN].loc.cmd == CMD_SHUTDOWN
    ensures s.inn != InRecv
    ensures s.inn == InDone ==> |s.produced| > 0 && s.produced[|s.produced| - 1].kind == ShutdownOk
    ensures s.inn != InDone ==> YetToSend(s.inn)
  {
    hide Handled; hide Serve; hide HistoryOf; hide WellFormed; hide Answers; hide Publishes; hide PayloadsOk;
    HandlerAhead(s);
    HistoryOk(s);
    var sv := Serve(s.base, s.cell.threads[IN].init, s.inputs);
    ServeAccounted(s.base, s.cell.threads[IN].init, s.inputs);
    HistoryIs(sv);
    LastOnly(HistoryOf(sv));
    var n := s.cell.Latest();
    assert s.cell.history[n] == HistoryOf(sv)[n];
  }

  lemma LastOnly(h: seq<Pub>)
    requires WellFormed(h)
    ensures forall i :: 0 <= i < |h| && h[i].cmd == CMD_SHUTDOWN ==> i == |h| - 1
  {
  }

  /** The output thread, waiting on the queue after SHUTDOWN is published, will get the shutdown's
      response: it is in the queue, or the control thread has yet to send it. */
  lemma ResponseComes(s: Sys)
    requires HandledOk(s) && QueueOk(s) && ShutdownPublished(s.cell) && s.out == OutRecv
    requires s.inn == InDone ==> |s.fifo| > 0
    ensures HasShutdownOk(s.fifo) || YetToSend(s.inn)
  {
    hide Handled;
    PublishedMeansLast(s);
    if s.inn == InDone {
      assert s.fifo[|s.fifo| - 1] == s.produced[|s.produced| - 1];
    }
  }

  lemma FindsResponse(s: Sys)
    requires SysOk(s) && s.out == OutRecv && s.inn == InDone
    ensures |s.fifo| > 0
  {
  }

  lemma NeverWaitsInVain(init: Sys, es: seq<Event>)
    requires Start(init) && Bounded(Play(init, es))
    ensures var s := Play(init, es);
            ShutdownPublished(s.cell) && s.out == OutRecv ==> HasShutdownOk(s.fifo) || YetToSend(s.inn)
  {
    hide Step; hide SysOk;
    StartSysOk(init);
    StartInOk(init);
    PlaySysOk(init, es);
    PlayInOk(init, es);
    var s := Play(init, es);
    if ShutdownPublished(s.cell) && s.out == OutRecv {
      if s.inn == InDone {
        FindsResponse(s);
      }
      ResponseComes(s);
    }
  }

  // ---------- the measure ----------

  /** A poll that took effect before the latest publication. */
  predicate Stale(c: State, t: nat)
    requires t < |c.threads|
  {
    Settled(c.threads[t].pc) && c.threads[t].Last() < c.Latest()
  }

  function InRank(c: State, inn: InPc): int
    requires |c.threads| == 4
  {
    match inn
    case InRecv => 0
    case InCall(_) => 2 + Cost(c.threads[IN].pc)
    case InSend(_) => 1
    case InDone => 0
  }

  function MarketRank(c: State, market: MarketPc): int
    requires |c.threads| == 4
  {
    match market
    case MarketPoll => CAPACITY + 10
    case MarketPolling => (if Stale(c, MARKET) then 2 * CAPACITY + 31 else 1) + Cost(c.threads[MARKET].pc)
    case MarketRun => 2 * CAPACITY + 20
    case MarketCallback => (if Stale(c, TAPE) then 2 * CAPACITY + 21 else CAPACITY + 11) + Cost(c.threads[TAPE].pc)
    case MarketDone => 0
  }

  function OutRank(c: State, out: OutPc): int
    requires |c.threads| == 4
  {
    match out
    case OutPoll => CAPACITY + 10
    case OutPolling => (if Stale(c, OUT) then CAPACITY + 13 else 1) + Cost(c.threads[OUT].pc)
    case OutRecv => CAPACITY + 12
    case OutSend(_) => CAPACITY + 11
    case OutDone => 0
    case OutOverrun(_) => 0
  }

  function Rank(s: Sys): int
    requires |s.cell.threads| == 4
  {
    InRank(s.cell, s.inn) + MarketRank(s.cell, s.market) + OutRank(s.cell, s.out) + (4 - s.joined)
  }

  lemma CostsBoundRank(s: Sys)
    requires |s.cell.threads| == 4 && s.joined <= 4
    requires forall t :: 0 <= t < 4 ==> 0 <= Cost(s.cell.threads[t].pc)
    ensures 0 <= Rank(s)
  {
    hide Cost; hide Stale;
  }

  lemma RankNonNegative(s: Sys)
    requires SysOk(s)
    ensures 0 <= Rank(s)
  {
    Shape(s);
    forall t | 0 <= t < 4
      ensures 0 <= Cost(s.cell.threads[t].pc)
    {
      SoloOf(s);
      CostBound(s.cell, t);
    }
    hide SysOk; hide Cost; hide Rank;
    CostsBoundRank(s);
  }

  lemma InRankFalls(s: Sys)
    requires SysOk(s) && ShutdownPublished(s.cell)
    ensures InStep(s).cell.history == s.cell.history
    ensures InStep(s) == s || Rank(InStep(s)) < Rank(s)
  {
    hide Handled; hide SoloInv; hide Tick; hide Cost;
    SoloOf(s);
    PublishedMeansLast(s);
    CostBound(s.cell, IN);
    WriterTick(s.cell);
    TickCost(s.cell, IN);
  }

  /** A reader's step keeps its poll stale or fresh. */
  lemma StaleStays(c: State, t: nat)
    requires SoloInv(c, IN) && t < |c.threads| && t != IN && c.Latest() <= LAST_EXACT
    ensures Tick(c, t).history == c.history && |Tick(c, t).threads| == |c.threads|
    ensures Stale(Tick(c, t), t) == Stale(c, t)
    ensures forall r :: 0 <= r < |c.threads| && r != t ==> Tick(c, t).threads[r] == c.threads[r]
  {
    hide SoloInv; hide Tick;
    ReaderTick(c, t);
    ReaderEffect(c, t);
  }

  /** A reader between calls whose poll is not stale knows about the shutdown. */
  lemma FreshKnows(s: Sys, t: nat)
    requires HandledOk(s) && ShutdownPublished(s.cell) && 0 < t < 4
    requires s.cell.threads[t].pc == Idle && !Stale(s.cell, t)
    ensures s.cell.threads[t].loc.cmd == CMD_SHUTDOWN
  {
    hide SoloInv; hide Handled;
    SoloOf(s);
    ReaderShows(s.cell, t);
  }

  /** A reader between calls that missed the last publication does not hold SHUTDOWN. */
  lemma StaleIsOld(s: Sys, t: nat)
    requires HandledOk(s) && 0 < t < 4 && s.cell.threads[t].pc == Idle && s.cell.threads[t].Last() < s.cell.Latest()
    ensures s.cell.threads[t].loc.cmd != CMD_SHUTDOWN
  {
    SoloOf(s);
    HistoryOk(s);
    ReaderShows(s.cell, t);
    LastOnly(s.cell.history);
    InitIs(s);
    hide Handled; hide SoloInv;
  }

  lemma CostIdle()
    ensures Cost(Idle) == 0 && Cost(Check) == CAPACITY + 8
  {
  }

  lemma MarketRankFalls(s: Sys)
    requires SysOk(s) && Bounded(s) && ShutdownPublished(s.cell)
    ensures MarketStep(s).cell.history == s.cell.history
    ensures MarketStep(s) == s || Rank(MarketStep(s)) < Rank(s)
  {
    hide Handled; hide SoloInv; hide Tick; hide Begin; hide BufferOk; hide OutOk; hide Cost;
    CostIdle();
    SoloOf(s);
    match s.market
    case MarketPoll => CellBegin(s.cell, MARKET);
    case MarketPolling =>
      CostBound(s.cell, MARKET);
      TickCost(s.cell, MARKET);
      StaleStays(s.cell, MARKET);
      if s.cell.threads[MARKET].pc == Idle && !Stale(s.cell, MARKET) {
        FreshKnows(s, MARKET);
      }
    case MarketRun =>
    case MarketCallback =>
      CostBound(s.cell, TAPE);
      TickCost(s.cell, TAPE);
      StaleStays(s.cell, TAPE);
      if s.cell.threads[TAPE].pc == Idle && !Stale(s.cell, TAPE) {
        FreshKnows(s, TAPE);
      }
    case MarketDone =>
  }

  lemma CallbackRankFalls(s: Sys)
    requires SysOk(s)
    ensures Callback(s).cell.history == s.cell.history
    ensures Callback(s) == s || Rank(Callback(s)) < Rank(s)
  {
    hide Handled; hide SoloInv;
    SoloOf(s);
    if s.market == MarketRun {
      CellBegin(s.cell, TAPE);
    }
  }

  lemma OutRankFalls(s: Sys)
    requires SysOk(s) && Bounded(s) && ShutdownPublished(s.cell)
    ensures OutStep(s).cell.history == s.cell.history
    ensures OutStep(s) == s || Rank(OutStep(s)) < Rank(s)
  {
    hide Handled; hide SoloInv; hide Tick; hide Begin; hide FitsReceiveBuffer; hide BufferOk; hide MarketOk;
    SoloOf(s);
    match s.out
    case OutPoll => CellBegin(s.cell, OUT);
    case OutPolling =>
      CostBound(s.cell, OUT);
      TickCost(s.cell, OUT);
      StaleStays(s.cell, OUT);
      if s.cell.threads[OUT].pc == Idle && !Stale(s.cell, OUT) {
        FreshKnows(s, OUT);
      }
    case OutRecv =>
    case OutSend(_) =>
    case OutDone =>
    case OutOverrun(_) =>
  }

  /** After SHUTDOWN is published, every event that has any effect brings the end nearer, and nothing
      more is published. */
  lemma RankFalls(s: Sys, e: Event)
    requires SysOk(s) && Bounded(s) && ShutdownPublished(s.cell)
    ensures Step(s, e).cell.history == s.cell.history
    ensures Step(s, e).inputs == s.inputs && Step(s, e).base == s.base
    ensures Step(s, e) == s || Rank(Step(s, e)) < Rank(s)
  {
    NothingRead(s, e);
    hide SysOk; hide InStep; hide MarketStep; hide Callback; hide OutStep;
    match e
    case Arrival(_) => NothingArrives(s);
    case InRuns => InRankFalls(s);
    case MarketRuns => MarketRankFalls(s);
    case NxCoreCalls => CallbackRankFalls(s);
    case NxCoreEnds =>
    case OutRuns => OutRankFalls(s);
    case OutFails =>
    case MainRuns =>
  }

  lemma NothingRead(s: Sys, e: Event)
    requires SysOk(s) && ShutdownPublished(s.cell)
    ensures Step(s, e).inputs == s.inputs && Step(s, e).base == s.base
  {
    hide SysOk; hide SoloInv; hide Handled; hide Tick; hide Begin; hide Receive; hide FitsReceiveBuffer;
    Shape(s);
    NothingArrives(s);
    if e.Arrival? {
      ReceiveNothing(s, e.input);
    }
  }

  lemma NothingArrives(s: Sys)
    requires SysOk(s) && ShutdownPublished(s.cell)
    ensures s.inn != InRecv
  {
    PublishedMeansLast(s);
  }

  // ---------- progress ----------

  /** The thread that holds the mutex, if one does, is inside a call. */
  lemma HolderInCall(s: Sys)
    requires SysOk(s) && s.cell.owner.Some?
    ensures var t := s.cell.owner.value;
            && t < 4 && Critical(s.cell.threads[t].pc)
            && (t == IN ==> s.inn.InCall?)
            && (t == MARKET ==> s.market == MarketPolling)
            && (t == TAPE ==> s.market == MarketCallback)
            && (t == OUT ==> s.out == OutPolling)
  {
    hide SoloInv; hide Handled;
    CoreShape(s);
    HandlerAhead(s);
    SoloOf(s);
    HolderCritical(s.cell);
  }

  lemma HolderCritical(c: State)
    requires SoloInv(c, IN) && c.owner.Some?
    ensures c.owner.value < |c.threads| && Critical(c.threads[c.owner.value].pc)
  {
  }

  /** The next event of a thread that is not waiting for anything: the mutex holder first, then the
      control, market, output and main thread. */
  function Choose(s: Sys): Event
    requires |s.cell.threads| == 4
  {
    if s.cell.owner == Some(IN) then InRuns
    else if s.cell.owner == Some(OUT) then OutRuns
    else if s.cell.owner.Some? then MarketRuns
    else if s.inn != InDone then InRuns
    else if s.market == MarketRun then NxCoreEnds
    else if s.market != MarketDone then MarketRuns
    else if s.out != OutDone then OutRuns
    else MainRuns
  }

  /** After SHUTDOWN is published some event always has an effect, until the teardown is over. */
  lemma NeverStuck(s: Sys)
    requires SysOk(s) && Bounded(s) && ShutdownPublished(s.cell) && s.joined < 4 && !s.out.OutOverrun?
    ensures Step(s, Choose(s)) != s
  {
    hide Handled; hide SoloInv; hide Tick; hide Begin;
    SoloOf(s);
    PublishedMeansLast(s);
    if s.cell.owner.Some? {
      HolderInCall(s);
      TickMoves(s.cell, s.cell.owner.value);
    } else {
      IdleOrMoves(s.cell, IN);
      IdleOrMoves(s.cell, MARKET);
      IdleOrMoves(s.cell, TAPE);
      IdleOrMoves(s.cell, OUT);
      if s.market == MarketPoll {
        CellBegin(s.cell, MARKET);
      }
      if s.out == OutPoll {
        CellBegin(s.cell, OUT);
      }
    }
  }

  lemma IdleOrMoves(c: State, t: nat)
    requires t < |c.threads| && c.owner == None
    ensures c.threads[t].pc == Idle || Tick(c, t) != c
  {
  }

  // ---------- termination ----------

  lemma Shape(s: Sys)
    requires SysOk(s)
    ensures |s.cell.threads| == 4 && |s.cell.history| > 0 && s.joined <= 4
  {
  }

  /** Every event of a schedule has an effect. */
  predicate Effective(s: Sys, es: seq<Event>)
    requires |s.cell.threads| == 4
  {
    |es| > 0 ==>
      var before := es[..|es| - 1];
      Effective(s, before) && Step(Play(s, before), es[|es| - 1]) != Play(s, before)
  }

  lemma {:induction false} EffectiveIsShort(s: Sys, es: seq<Event>)
    requires SysOk(s) && Bounded(s) && ShutdownPublished(s.cell) && Effective(s, es)
    ensures SysOk(Play(s, es)) && Play(s, es).cell.history == s.cell.history
    ensures Play(s, es).inputs == s.inputs && Play(s, es).base == s.base
    ensures |es| <= Rank(s) - Rank(Play(s, es))
  {
    hide SysOk; hide Step; hide Rank;
    Shape(s);
    if |es| > 0 {
      var n := |es| - 1;
      EffectiveIsShort(s, es[..n]);
      var mid := Play(s, es[..n]);
      StepSysOk(mid, es[n]);
      RankFalls(mid, es[n]);
    }
  }

  lemma ChooseSucceeds(s: Sys)
    requires SysOk(s)
    ensures |s.cell.threads| == 4 && Choose(s) != OutFails
  {
    hide CoreOk;
    CoreShape(s);
  }

  /** Nothing has been received that was too long, and nothing will be. */
  lemma NoOverrun(s: Sys)
    requires SysOk(s) && AllAnswerable(s.base, s.inputs)
    ensures !s.out.OutOverrun?
  {
  }

  lemma {:induction false} CanFinish(s: Sys) returns (es: seq<Event>)
    requires SysOk(s) && Bounded(s) && ShutdownPublished(s.cell) && AllAnswerable(s.base, s.inputs)
    ensures SysOk(Play(s, es)) && Play(s, es).joined == 4 && OutFails !in es
    decreases Rank(s)
  {
    hide SysOk; hide Step; hide Rank; hide Choose; hide AllAnswerable;
    ChooseSucceeds(s);
    Shape(s);
    NoOverrun(s);
    RankNonNegative(s);
    if s.joined == 4 {
      es := [];
    } else {
      var e := Choose(s);
      NeverStuck(s);
      RankFalls(s, e);
      StepSysOk(s, e);
      RankNonNegative(Step(s, e));
      var rest := CanFinish(Step(s, e));
      es := [e] + rest;
      PlayFirst(s, e, rest);
    }
  }

  /** When the main thread has joined all three threads the mutex it destroys is free, and nobody is
      inside a call. */
  lemma TeardownIsClean(init: Sys, es: seq<Event>)
    requires Start(init) && Bounded(Play(init, es))
    ensures var s := Play(init, es);
            s.joined >= 3 ==>
              && s.cell.owner == None
              && (forall t :: 0 <= t < 4 ==> s.cell.threads[t].pc == Idle)
              && s.inn == InDone && s.market == MarketDone && s.out == OutDone
              && ShutdownPublished(s.cell)
  {
    hide Step; hide Handled;
    StartSysOk(init);
    PlaySysOk(init, es);
    var s := Play(init, es);
    if s.joined >= 3 {
      PublishedMeansIdle(s);
    }
  }

  lemma PublishedMeansIdle(s: Sys)
    requires SysOk(s) && s.joined >= 3
    ensures s.cell.owner == None
    ensures forall t :: 0 <= t < 4 ==> s.cell.threads[t].pc == Idle
    ensures ShutdownPublished(s.cell)
  {
    hide Handled; hide SoloInv; hide ShutdownPublished;
    DoneMeansShutdown(s);
    HistoryOk(s);
    if s.cell.owner.Some? {
      HolderInCall(s);
    }
  }

  /** From the moment SHUTDOWN is published, in whatever state that happens, the server makes at most
      Rank more effective steps; until its threads are joined and torn down some step is effective,
      unless a response overran its buffer; and if every missing tape's path was within the limit none
      does, and some schedule does finish. So every schedule that keeps taking effective steps then ends
      joined. */
  lemma ShutdownTerminates(init: Sys, before: seq<Event>, after: seq<Event>)
    requires Start(init) && Bounded(Play(init, before))
    ensures var s := Play(init, before); var s' := Play(s, after);
            ShutdownPublished(s.cell) && Effective(s, after) ==>
              && |after| <= Rank(s)
              && s'.cell.history == s.cell.history
              && (s'.joined == 4 || s'.out.OutOverrun? || Step(s', Choose(s')) != s')
              && (AllAnswerable(s.base, s.inputs) ==>
                    !s'.out.OutOverrun? && exists es :: Play(s', es).joined == 4)
  {
    hide SysOk; hide Step; hide Rank; hide Choose; hide Effective; hide Answerable;
    StartSysOk(init);
    PlaySysOk(init, before);
    var s := Play(init, before);
    if ShutdownPublished(s.cell) && Effective(s, after) {
      EffectiveIsShort(s, after);
      var s' := Play(s, after);
      RankNonNegative(s');
      Shape(s');
      if s'.joined < 4 && !s'.out.OutOverrun? {
        NeverStuck(s');
      }
      if AllAnswerable(s.base, s.inputs) {
        NoOverrun(s');
        var es := CanFinish(s');
      }
    }
  }

  // ---------- what may still happen after the last word ----------

  /** The output thread may send one response more without asking again. */
  function OutCredit(s: Sys): nat
    requires |s.cell.threads| == 4
  {
    if s.out == OutRecv || s.out.OutSend? || (s.out == OutPolling && Stale(s.cell, OUT)) then 1 else 0
  }

  lemma OutCreditFrame(s: Sys, s': Sys)
    requires |s.cell.threads| == 4 && |s'.cell.threads| == 4 && s'.out == s.out && s'.forwarded == s.forwarded
    requires s'.cell.threads[OUT] == s.cell.threads[OUT] && s'.cell.history == s.cell.history
    ensures |s'.forwarded| + OutCredit(s') == |s.forwarded| + OutCredit(s)
  {
  }

  lemma OnlyOutForwards(s: Sys, e: Event)
    requires |s.cell.threads| == 4 && !e.OutRuns?
    ensures Step(s, e).forwarded == s.forwarded
  {
    hide Tick; hide Begin; hide Handle; hide Fits;
  }

  lemma FailureSpends(s: Sys)
    requires |s.cell.threads| == 4
    ensures |Step(s, OutFails).forwarded| + OutCredit(Step(s, OutFails)) <= |s.forwarded| + OutCredit(s)
  {
  }

  lemma OutCreditSpent(s: Sys, e: Event)
    requires SysOk(s) && Bounded(s) && ShutdownPublished(s.cell)
    ensures |Step(s, e).forwarded| + OutCredit(Step(s, e)) <= |s.forwarded| + OutCredit(s)
    ensures e != OutFails && !Step(s, e).out.OutOverrun? ==>
              |Step(s, e).forwarded| + OutCredit(Step(s, e)) == |s.forwarded| + OutCredit(s)
  {
    hide SysOk; hide OutCredit; hide OutStep;
    Shape(s);
    match e
    case OutRuns => OutCreditOwn(s);
    case OutFails => FailureSpends(s);
    case _ =>
      hide Step;
      RankFalls(s, e);
      StepFrame(s, e);
      OnlyOutForwards(s, e);
      OutCreditFrame(s, Step(s, e));
  }

  lemma ReceiveNothing(s: Sys, input: Input)
    requires |s.cell.threads| == 4 && s.inn != InRecv
    ensures Receive(s, input) == s
  {
  }

  lemma OutCreditOwn(s: Sys)
    requires SysOk(s) && Bounded(s) && ShutdownPublished(s.cell)
    ensures |OutStep(s).forwarded| + OutCredit(OutStep(s)) <= |s.forwarded| + OutCredit(s)
    ensures !OutStep(s).out.OutOverrun? ==>
              |OutStep(s).forwarded| + OutCredit(OutStep(s)) == |s.forwarded| + OutCredit(s)
  {
    hide Handled; hide SoloInv; hide Tick; hide Begin;
    SoloOf(s);
    BeginFrame(s.cell, OUT);
    StaleStays(s.cell, OUT);
    if s.out == OutPolling && s.cell.threads[OUT].pc == Idle {
      if Stale(s.cell, OUT) {
        StaleIsOld(s, OUT);
      } else {
        FreshKnows(s, OUT);
      }
    }
  }

  lemma {:induction false} OutCreditOverRun(s: Sys, es: seq<Event>)
    requires SysOk(s) && Bounded(s) && ShutdownPublished(s.cell)
    ensures SysOk(Play(s, es)) && Play(s, es).cell.history == s.cell.history && Play(s, es).inputs == s.inputs
    ensures |Play(s, es).forwarded| + OutCredit(Play(s, es)) <= |s.forwarded| + OutCredit(s)
    ensures OutFails !in es && !Play(s, es).out.OutOverrun? ==>
              |Play(s, es).forwarded| + OutCredit(Play(s, es)) == |s.forwarded| + OutCredit(s)
  {
    hide SysOk; hide Step; hide OutCredit;
    Shape(s);
    if |es| > 0 {
      var mid := Play(s, es[..|es| - 1]);
      OutCreditOverRun(s, es[..|es| - 1]);
      StepSysOk(mid, es[|es| - 1]);
      RankFalls(mid, es[|es| - 1]);
      OutCreditSpent(mid, es[|es| - 1]);
      if mid.out.OutOverrun? {
        OverrunStays(mid, es[|es| - 1]);
      }
    }
  }

  /** At most one response reaches the client after SHUTDOWN is published. */
  lemma AtMostOneForwarded(init: Sys, before: seq<Event>, after: seq<Event>)
    requires Start(init) && Bounded(Play(init, before)) && ShutdownPublished(Play(init, before).cell)
    ensures |Play(Play(init, before), after).forwarded| <= |Play(init, before).forwarded| + 1
  {
    hide SysOk; hide Step;
    StartSysOk(init);
    PlaySysOk(init, before);
    OutCreditOverRun(Play(init, before), after);
  }

  lemma OverrunStays(s: Sys, e: Event)
    requires |s.cell.threads| == 4 && s.out.OutOverrun?
    ensures Step(s, e) == s
  {
  }

  /** The proto file promises a response for every request. From the moment SHUTDOWN is published, a run
      that gets joined sends the client exactly as many more responses as the output thread has credit
      for, none or one; so every request is answered to the client exactly if that is all it was still
      owed. */
  lemma RepliesExactly(init: Sys, before: seq<Event>, after: seq<Event>)
    requires Start(init) && Bounded(Play(init, before)) && ShutdownPublished(Play(init, before).cell)
    requires OutFails !in after && Play(Play(init, before), after).joined >= 3
    ensures var s := Play(init, before); var s' := Play(s, after);
            && |s'.forwarded| == |s.forwarded| + OutCredit(s)
            && |s'.produced| == |s'.inputs| == |s.inputs|
            && (s'.forwarded == s'.produced <==> |s.inputs| == |s.forwarded| + OutCredit(s))
  {
    hide SysOk; hide Step; hide InOk;
    StartSysOk(init);
    StartInOk(init);
    PlaySysOk(init, before);
    PlayInOk(init, before);
    var s := Play(init, before);
    PlayInOk(s, after);
    OutCreditOverRun(s, after);
    JoinedAnswers(Play(s, after));
  }

  lemma JoinedAnswers(s: Sys)
    requires SysOk(s) && InOk(s) && s.joined >= 3
    ensures s.out == OutDone && OutCredit(s) == 0
    ensures |s.produced| == |s.inputs| && s.forwarded <= s.produced
  {
    HandlerAhead(s);
    hide Handled; hide Serve;
  }

  /** It may be owed more: if the output thread has not polled before the shutdown, not even the
      shutdown's own response reaches the client. */
  lemma ReplyDropped(init: Sys, id: int) returns (before: seq<Event>, after: seq<Event>)
    requires Start(init)
    ensures var s := Play(init, before); var s' := Play(s, after);
            && s.inputs == [Input(Request(id, Shutdown, None), false)] && ShutdownPublished(s.cell) && Bounded(s)
            && OutFails !in after && s'.joined == 4 && |s'.produced| == 1 && s'.forwarded == []
  {
    hide Open; hide Handle; hide Fits; hide Answerable; hide Step; hide SysOk; hide ShutdownPublished;
    var x := Input(Request(id, Shutdown, None), false);
    StartOpen(init);
    ShutdownHandled(init.base, init.cell.threads[IN].loc, id);
    before := RequestTurn(init, x);
    var s := Play(init, before);
    assert [] + [x] == [x];
    StartSysOk(init);
    ShutdownIsLast(init, s.cell, Handle(init.base, init.cell.threads[IN].loc, x));
    PlaySysOk(init, before);
    after := CanFinish(s);
    RepliesExactly(init, before, after);
  }

  lemma ShutdownHandled(base: string, local: Record, id: int)
    ensures var x := Input(Request(id, Shutdown, None), false);
            && Fits(base, x) && AllAnswerable(base, [x])
            && Handle(base, local, x)
               == Outcome(Response(id, ShutdownOk, ""), local.(cmd := CMD_SHUTDOWN), true)
  {
  }

  lemma ShutdownIsLast(s: Sys, c': State, o: Outcome)
    requires |s.cell.threads| == 4 && RequestDone(s, c', o) && o.publish && o.local.cmd == CMD_SHUTDOWN
    ensures ShutdownPublished(c') && c'.Latest() == s.cell.Latest() + 1
  {
  }

  /** Nothing from publication n on is a RUN. */
  predicate NoRunFrom(h: seq<Pub>, n: int) {
    forall i :: 0 <= i < |h| && n <= i ==> h[i].cmd < CMD_RUN
  }

  /** No RUN is in force. */
  predicate Quiet(c: State) {
    |c.history| > 0 && c.history[|c.history| - 1].cmd < CMD_RUN
  }

  /** A callback in progress may still let the tape go on, on an old RUN. */
  function TapeCredit(s: Sys): nat
    requires |s.cell.threads| == 4
  {
    var n := s.cell.threads[TAPE];
    if s.market == MarketCallback && Settled(n.pc)
       && 0 <= n.Last() < |s.cell.history| && s.cell.history[n.Last()].cmd >= CMD_RUN then 1 else 0
  }

  lemma TapeCreditOwn(s: Sys)
    requires SysOk(s) && Bounded(s) && Quiet(s.cell)
    ensures MarketStep(s).continues + TapeCredit(MarketStep(s)) <= s.continues + TapeCredit(s)
  {
    hide Handled; hide SoloInv; hide Tick; hide Begin;
    SoloOf(s);
    ReaderTick(s.cell, TAPE);
    ReaderEffect(s.cell, TAPE);
    if s.market == MarketCallback && s.cell.threads[TAPE].pc == Idle {
      ReaderReturns(s, TAPE);
    }
  }

  lemma TapeCreditSpent(s: Sys, e: Event)
    requires SysOk(s) && Bounded(s) && Quiet(s.cell)
    ensures Step(s, e).continues + TapeCredit(Step(s, e)) <= s.continues + TapeCredit(s)
  {
    hide Handled; hide SoloInv; hide Tick; hide Begin; hide MarketStep;
    SoloOf(s);
    match e
    case Arrival(_) => ReceiveFrame(s, e.input);
    case InRuns => WriterTick(s.cell); LastExists(s);
    case MarketRuns => TapeCreditOwn(s);
    case NxCoreCalls => BeginFrame(s.cell, TAPE); CallbackFresh(s);
    case NxCoreEnds =>
    case OutRuns => StaleStays(s.cell, OUT); BeginFrame(s.cell, OUT);
    case OutFails =>
    case MainRuns =>
  }

  lemma LastExists(s: Sys)
    requires HandledOk(s)
    ensures s.cell.threads[TAPE].Last() <= s.cell.Latest()
  {
  }

  lemma CallbackFresh(s: Sys)
    requires SysOk(s)
    ensures TapeCredit(Callback(s)) <= TapeCredit(s)
  {
  }

  lemma {:induction false} TapeCreditOverRun(s: Sys, es: seq<Event>)
    requires SysOk(s) && Bounded(Play(s, es))
    requires NoRunFrom(Play(s, es).cell.history, s.cell.Latest())
    ensures SysOk(Play(s, es)) && s.cell.history <= Play(s, es).cell.history
    ensures Play(s, es).continues + TapeCredit(Play(s, es)) <= s.continues + TapeCredit(s)
  {
    hide SysOk; hide Step; hide TapeCredit;
    Shape(s);
    if |es| > 0 {
      var mid := Play(s, es[..|es| - 1]);
      StepGrown(mid, es[|es| - 1]);
      TapeCreditOverRun(s, es[..|es| - 1]);
      StepSysOk(mid, es[|es| - 1]);
      TapeCreditSpent(mid, es[|es| - 1]);
    }
  }

  /** Once STOP or SHUTDOWN is published, and as long as no RUN follows, at most one callback lets a
      tape go on. */
  lemma AtMostOneContinue(init: Sys, before: seq<Event>, after: seq<Event>)
    requires Start(init) && Bounded(Play(Play(init, before), after)) && Bounded(Play(init, before))
    requires NoRunFrom(Play(Play(init, before), after).cell.history, Play(init, before).cell.Latest())
    ensures Play(Play(init, before), after).continues <= Play(init, before).continues + 1
  {
    hide SysOk; hide Step;
    StartSysOk(init);
    PlaySysOk(init, before);
    TapeCreditOverRun(Play(init, before), after);
  }
}
