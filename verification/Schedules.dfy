/** Schedules that let one thread's call run to its end, and the whole turns built from them. They make
    up the runs that show what can happen. */
module Schedules {
  import opened Wrappers
  import opened Ctrl
  import opened Requests
  import opened Lazy
  import opened Cell
  import opened SingleWriter
  import Solo
  import opened Wire
  import opened Server

  // ---------- the measure of a call ----------

  /** The steps a call may still take. */
  function Cost(pc: Pc): int {
    match pc
    case Idle => 0
    case Ret => 1
    case Unlock => 2
    case Refused => 2
    case Copy(stage) => 3 + Solo.CopyLeft(stage)
    case Stamp => CAPACITY + 6
    case Lock => CAPACITY + 7
    case Check => CAPACITY + 8
  }

  /** Copies stay within the buffer, so every call has a bound. */
  lemma CostBound(c: State, t: nat)
    requires SoloInv(c, IN) && t < |c.threads|
    ensures 0 <= Cost(c.threads[t].pc)
  {
  }

  lemma TickCost(c: State, t: nat)
    requires SoloInv(c, IN) && t < |c.threads|
    ensures Tick(c, t) == c || Cost(Tick(c, t).threads[t].pc) < Cost(c.threads[t].pc)
  {
    if c.threads[t].pc.Copy? {
      hide SoloInv; hide Tick;
      CopyCost(c, t);
    } else {
      hide SoloInv;
      PlainCost(c, t);
    }
  }

  lemma PlainCost(c: State, t: nat)
    requires t < |c.threads| && !c.threads[t].pc.Copy?
    ensures Tick(c, t) == c || Cost(Tick(c, t).threads[t].pc) < Cost(c.threads[t].pc)
  {
    hide TickCopy; hide Inc32; hide View;
  }

  lemma CopyCost(c: State, t: nat)
    requires SoloInv(c, IN) && t < |c.threads| && c.threads[t].pc.Copy?
    ensures 0 <= Cost(c.threads[t].pc)
    ensures Cost(Tick(c, t).threads[t].pc) < Cost(c.threads[t].pc)
  {
    hide Tick;
    Solo.CopyTick(c, t);
  }

  /** A call can take a step unless it waits for the mutex. */
  lemma TickMoves(c: State, t: nat)
    requires t < |c.threads| && c.threads[t].pc != Idle
    requires c.threads[t].pc == Lock ==> c.owner == None
    ensures Tick(c, t).threads[t].pc != c.threads[t].pc
  {
  }

  // ---------- playing schedules one after the other ----------

  lemma {:induction false} PlayFirst(s: Sys, e: Event, es: seq<Event>)
    requires |s.cell.threads| == 4
    ensures Play(s, [e] + es) == Play(Step(s, e), es)
  {
    hide Step;
    if |es| == 0 {
      assert [e] + es == [e];
      assert [e][..0] == [];
      assert Play(s, []) == s;
    } else {
      assert ([e] + es)[..|es|] == [e] + es[..|es| - 1];
      PlayFirst(s, e, es[..|es| - 1]);
    }
  }

  lemma {:induction false} PlayConcat(s: Sys, a: seq<Event>, b: seq<Event>)
    requires |s.cell.threads| == 4
    ensures Play(s, a + b) == Play(Play(s, a), b)
  {
    hide Step;
    if |b| == 0 {
      assert a + b == a;
    } else {
      var n := |b| - 1;
      assert (a + b)[..|a + b| - 1] == a + b[..n];
      PlayConcat(s, a, b[..n]);
    }
  }

  lemma PlayOne(s: Sys, e: Event)
    requires |s.cell.threads| == 4
    ensures Play(s, [e]) == Step(s, e)
  {
    hide Step;
    assert [e][..0] == [];
  }

  lemma PlayTwo(s: Sys, a: seq<Event>, b: seq<Event>, e: Event)
    requires |s.cell.threads| == 4
    ensures Play(s, a + b + [e]) == Step(Play(Play(s, a), b), e)
  {
    hide Step;
    PlayConcat(s, a, b);
    PlayConcat(s, a + b, [e]);
    PlayOne(Play(Play(s, a), b), e);
  }

  // ---------- a call, left alone ----------

  function Turn(t: nat): Event {
    if t == IN then InRuns else if t == OUT then OutRuns else MarketRuns
  }

  predicate Calling(s: Sys, t: nat) {
    || (t == IN && s.inn.InCall?)
    || (t == MARKET && s.market == MarketPolling)
    || (t == TAPE && s.market == MarketCallback)
    || (t == OUT && s.out == OutPolling)
  }

  predicate FreeFor(c: State, t: nat) {
    c.owner == None || c.owner == Some(t)
  }

  /** A reader has copied the latest publication, unless it had it before. */
  predicate Copied(c: State, th: Thread, th': Thread)
    requires |c.history| > 0
  {
    if th.Last() == c.Latest() then th'.seen == th.seen && th'.got == th.got
    else th'.seen == th.seen + [c.Latest()] && th'.got == th.got + [c.history[c.Latest()]]
  }

  /** What thread t's call, from wherever it stood, has done by its end. */
  predicate CallDone(c: State, c': State, t: nat)
    requires t < |c.threads| && |c.history| > 0
  {
    && |c'.threads| == |c.threads| && c'.init == c.init
    && (forall r :: 0 <= r < |c.threads| && r != t ==> c'.threads[r] == c.threads[r])
    && var th, th' := c.threads[t], c'.threads[t];
       && th'.init == th.init
       && if t == IN then
            && th'.loc == th.loc
            && c'.history == if Settled(th.pc) then c.history else c.history + [View(th.loc)]
          else
            && c'.history == c.history
            && if Settled(th.pc) then th'.seen == th.seen && th'.got == th.got else Copied(c, th, th')
  }

  /** One step of a reader, by what it copies. */
  lemma ReaderTickCopies(c: State, t: nat)
    requires SoloInv(c, IN) && t < |c.threads| && t != IN && c.Latest() <= LAST_EXACT
    ensures |c.history| > 0
    ensures var th, th' := c.threads[t], Tick(c, t).threads[t];
            && (Settled(th.pc) || th.Last() == c.Latest() ==>
                  Settled(th'.pc) && th'.seen == th.seen && th'.got == th.got)
            && (!Settled(th.pc) && th.Last() != c.Latest() ==>
                  if Settled(th'.pc) then Copied(c, th, th') else th'.seen == th.seen && th'.got == th.got)
  {
    var th := c.threads[t];
    assert ReaderVer(|c.history|, th);
    if th.pc == Check && th.tv == c.version {
      VerInjective(th.Last(), c.Latest());
    }
  }

  lemma CallDoneFrom(c: State, t: nat, c': State)
    requires SoloInv(c, IN) && t < |c.threads| && |c.history| > 0 && (t != IN ==> c.Latest() <= LAST_EXACT)
    requires |Tick(c, t).history| > 0 && CallDone(Tick(c, t), c', t)
    ensures CallDone(c, c', t)
  {
    hide SoloInv; hide Tick;
    if t == IN {
      WriterTick(c);
    } else {
      ReaderTick(c, t);
      ReaderTickCopies(c, t);
    }
  }

  lemma TickFree(c: State, t: nat)
    requires SoloInv(c, IN) && t < |c.threads| && FreeFor(c, t)
    ensures FreeFor(Tick(c, t), t)
    ensures c.threads[t].pc == Idle ==> c.owner == None
    ensures c.threads[t].pc == Lock ==> c.owner == None
    ensures |c.history| > 0
  {
  }

  lemma TurnTicks(s: Sys, t: nat)
    requires |s.cell.threads| == 4 && t < 4 && Calling(s, t) && s.cell.threads[t].pc != Idle && !s.out.OutOverrun?
    ensures Step(s, Turn(t)) == s.(cell := Tick(s.cell, t))
  {
  }

  lemma TickSolid(c: State, t: nat)
    requires SoloInv(c, IN) && t < |c.threads|
    ensures SoloInv(Tick(c, t), IN) && |Tick(c, t).history| > 0
    ensures t != IN ==> Tick(c, t).history == c.history
  {
    hide Tick;
    TickSolo(c, IN, t);
    if t != IN {
      ReaderTick(c, t);
    }
  }

  /** A call that nothing blocks runs to its end. */
  lemma {:induction false} Finish(s: Sys, t: nat) returns (es: seq<Event>)
    requires |s.cell.threads| == 4 && SoloInv(s.cell, IN) && |s.cell.history| > 0 && (t != IN ==> Bounded(s))
    requires t < 4 && Calling(s, t) && FreeFor(s.cell, t) && !s.out.OutOverrun?
    ensures var s' := Play(s, es);
            && s' == s.(cell := s'.cell)
            && CallDone(s.cell, s'.cell, t) && s'.cell.owner == None && s'.cell.threads[t].pc == Idle
    ensures forall i :: 0 <= i < |es| ==> es[i] == Turn(t)
    decreases Cost(s.cell.threads[t].pc)
  {
    hide SoloInv; hide Tick; hide Step; hide Cost;
    TickFree(s.cell, t);
    if s.cell.threads[t].pc == Idle {
      es := [];
    } else {
      CostBound(s.cell, t);
      TickCost(s.cell, t);
      TickMoves(s.cell, t);
      TickSolid(s.cell, t);
      TurnTicks(s, t);
      var s1 := Step(s, Turn(t));
      CostBound(s1.cell, t);
      var rest := Finish(s1, t);
      es := [Turn(t)] + rest;
      PlayFirst(s, Turn(t), rest);
      CallDoneFrom(s.cell, t, Play(s1, rest).cell);
    }
  }

  // ---------- whole turns ----------

  /** Nobody holds the mutex, and the server goes on. */
  ghost predicate Open(s: Sys) {
    CoreOk(s) && Bounded(s) && s.cell.owner == None && !s.out.OutOverrun?
  }

  lemma OpenShape(s: Sys)
    requires Open(s)
    ensures |s.cell.threads| == 4 && SoloInv(s.cell, IN) && |s.cell.history| > 0
    ensures s.market == MarketPoll ==> s.cell.threads[MARKET].pc == Idle
    ensures s.out == OutPoll ==> s.cell.threads[OUT].pc == Idle
    ensures s.inn == InRecv ==> s.cell.threads[IN].pc == Idle
    ensures s.cell.threads[IN].writer
  {
  }

  lemma OpenCore(s: Sys)
    requires Open(s)
    ensures CoreOk(s)
  {
  }

  /** A reader's poll from beginning to end. */
  predicate PollDone(s: Sys, c': State, t: nat)
    requires |s.cell.threads| == 4 && t < 4 && |s.cell.history| > 0
  {
    && |c'.threads| == 4 && c'.init == s.cell.init && c'.history == s.cell.history
    && c'.owner == None && c'.threads[t].pc == Idle
    && (forall r :: 0 <= r < 4 && r != t ==> c'.threads[r] == s.cell.threads[r])
    && c'.threads[t].init == s.cell.threads[t].init
    && Copied(s.cell, s.cell.threads[t], c'.threads[t])
  }

  lemma BeginOwner(c: State, t: nat)
    requires t < |c.threads|
    ensures Begin(c, t).owner == c.owner
  {
  }

  /** A poll that begins here and is left alone. */
  lemma PollFrom(s: Sys, c': State, t: nat)
    requires |s.cell.threads| == 4 && 0 < t < 4 && SoloInv(s.cell, IN) && s.cell.threads[t].pc == Idle
    requires |s.cell.history| > 0 && CallDone(Begin(s.cell, t), c', t) && c'.owner == None && c'.threads[t].pc == Idle
    ensures PollDone(s, c', t)
  {
    hide SoloInv; hide Begin;
    CellBegin(s.cell, t);
  }

  /** The market thread polls and decides. */
  lemma MarketTurn(s: Sys) returns (es: seq<Event>)
    requires Open(s) && s.market == MarketPoll
    ensures |s.cell.threads| == 4 && |s.cell.history| > 0
    ensures var s' := Play(s, es);
            && PollDone(s, s'.cell, MARKET)
            && s' == s.(cell := s'.cell, market := MarketVerdict(s'.cell.threads[MARKET].loc.cmd))
  {
    OpenShape(s);
    PlayOne(s, MarketRuns);
    var s1 := Step(s, MarketRuns);
    assert s1 == s.(cell := Begin(s.cell, MARKET), market := MarketPolling);
    CellBegin(s.cell, MARKET);
    BeginOwner(s.cell, MARKET);
    hide Open; hide Begin; hide SoloInv; hide Tick; hide CallDone; hide PollDone; hide FitsReceiveBuffer;
    var rest := Finish(s1, MARKET);
    es := [MarketRuns] + rest + [MarketRuns];
    PlayTwo(s, [MarketRuns], rest, MarketRuns);
    PollFrom(s, Play(s1, rest).cell, MARKET);
  }

  lemma OutBegins(s: Sys)
    requires Open(s) && s.out == OutPoll
    ensures |s.cell.threads| == 4 && |s.cell.history| > 0 && SoloInv(s.cell, IN) && s.cell.threads[OUT].pc == Idle
    ensures Step(s, OutRuns) == s.(cell := Begin(s.cell, OUT), out := OutPolling)
    ensures SoloInv(Begin(s.cell, OUT), IN)
    ensures Begin(s.cell, OUT).owner == None && Begin(s.cell, OUT).history == s.cell.history
  {
    hide SoloInv; hide Tick; hide FitsReceiveBuffer; hide CoreOk;
    OpenShape(s);
    CellBegin(s.cell, OUT);
  }

  /** The output thread polls, up to the end of its call. */
  lemma OutTurn(s: Sys) returns (es: seq<Event>)
    requires Open(s) && s.out == OutPoll
    ensures |s.cell.threads| == 4 && |s.cell.history| > 0
    ensures var s' := Play(s, es);
            PollDone(s, s'.cell, OUT) && s' == s.(cell := s'.cell, out := OutPolling)
  {
    OutBegins(s);
    hide Begin; hide SoloInv; hide Step; hide CallDone; hide PollDone;
    PlayOne(s, OutRuns);
    var s1 := Step(s, OutRuns);
    var rest := Finish(s1, OUT) by {
      OpenShape(s);
    }
    es := [OutRuns] + rest;
    PlayConcat(s, [OutRuns], rest);
    PollFrom(s, Play(s1, rest).cell, OUT);
  }

  /** What handling one request has done by the time its response is to be sent. */
  predicate RequestDone(s: Sys, c': State, o: Outcome)
    requires |s.cell.threads| == 4
  {
    && |c'.threads| == 4 && c'.init == s.cell.init && c'.owner == None
    && (forall r :: 0 < r < 4 ==> c'.threads[r] == s.cell.threads[r])
    && c'.threads[IN].pc == Idle && c'.threads[IN].loc == o.local && c'.threads[IN].init == s.cell.threads[IN].init
    && c'.history == if o.publish then s.cell.history + [View(o.local)] else s.cell.history
  }

  lemma AssignIs(c: State, rec: Record)
    requires |c.threads| == 4 && c.threads[IN].pc == Idle && c.threads[IN].writer
    ensures Assign(c, IN, rec) == c.Put(IN, c.threads[IN].(loc := rec))
  {
  }

  /** A request that is refused is only edited into the record. */
  lemma RefusedTurn(s: Sys, input: Input)
    requires Open(s) && s.inn == InRecv && Fits(s.base, input)
    requires |s.cell.threads| == 4 && !Handle(s.base, s.cell.threads[IN].loc, input).publish
    ensures var s' := Step(s, Arrival(input)); var o := Handle(s.base, s.cell.threads[IN].loc, input);
            && RequestDone(s, s'.cell, o)
            && s' == s.(cell := s'.cell, inn := InSend(o.res), inputs := s.inputs + [input])
  {
    OpenShape(s);
    hide Open; hide SoloInv; hide Handle; hide Assign;
    AssignIs(s.cell, Handle(s.base, s.cell.threads[IN].loc, input).local);
  }

  /** The publication of an accepted one begins. */
  lemma PublishedTurn(s: Sys, input: Input)
    requires Open(s) && s.inn == InRecv && Fits(s.base, input)
    requires |s.cell.threads| == 4 && Handle(s.base, s.cell.threads[IN].loc, input).publish
    ensures var s1 := Step(s, Arrival(input)); var o := Handle(s.base, s.cell.threads[IN].loc, input);
            && s1 == s.(cell := s1.cell, inn := InCall(o.res), inputs := s.inputs + [input])
            && |s1.cell.threads| == 4 && SoloInv(s1.cell, IN)
            && s1.cell.owner == None && s1.cell.history == s.cell.history && s1.cell.init == s.cell.init
            && (forall r :: 0 < r < 4 ==> s1.cell.threads[r] == s.cell.threads[r])
            && var th := s1.cell.threads[IN]; th.pc == Check && th.loc == o.local && th.init == s.cell.threads[IN].init
  {
    OpenShape(s);
    hide Open; hide Begin; hide SoloInv; hide Handle; hide Assign;
    var o := Handle(s.base, s.cell.threads[IN].loc, input);
    AssignIs(s.cell, o.local);
    AssignSolo(s.cell, IN, IN, o.local);
    CellBegin(Assign(s.cell, IN, o.local), IN);
    BeginOwner(Assign(s.cell, IN, o.local), IN);
  }

  lemma RequestFrom(s: Sys, c1: State, c': State, o: Outcome)
    requires |s.cell.threads| == 4 && |c1.threads| == 4 && |c1.history| > 0 && o.publish
    requires c1.history == s.cell.history && c1.init == s.cell.init
    requires forall r :: 0 < r < 4 ==> c1.threads[r] == s.cell.threads[r]
    requires var th := c1.threads[IN]; th.pc == Check && th.loc == o.local && th.init == s.cell.threads[IN].init
    requires CallDone(c1, c', IN) && c'.owner == None && c'.threads[IN].pc == Idle
    ensures RequestDone(s, c', o)
  {
  }

  /** A request arrives, is handled and published. */
  lemma RequestTurn(s: Sys, input: Input) returns (es: seq<Event>)
    requires Open(s) && s.inn == InRecv && Fits(s.base, input)
    ensures |s.cell.threads| == 4
    ensures var s' := Play(s, es); var o := Handle(s.base, s.cell.threads[IN].loc, input);
            && RequestDone(s, s'.cell, o)
            && s' == s.(cell := s'.cell, inn := InSend(o.res), inputs := s.inputs + [input])
  {
    hide Open; hide SoloInv; hide Handle; hide Fits; hide CallDone; hide RequestDone; hide Step;
    OpenShape(s);
    var o := Handle(s.base, s.cell.threads[IN].loc, input);
    PlayOne(s, Arrival(input));
    if !o.publish {
      RefusedTurn(s, input);
      es := [Arrival(input)];
    } else {
      PublishedTurn(s, input);
      GoesOn(s);
      var s1 := Step(s, Arrival(input));
      var rest := Finish(s1, IN);
      es := [Arrival(input)] + rest + [InRuns];
      PlayTwo(s, [Arrival(input)], rest, InRuns);
      RequestFrom(s, s1.cell, Play(s1, rest).cell, o);
      Returns(Play(s1, rest));
    }
  }

  lemma GoesOn(s: Sys)
    requires Open(s)
    ensures Bounded(s) && !s.out.OutOverrun?
  {
  }

  /** The publish is over; the response is next. */
  lemma Returns(s: Sys)
    requires |s.cell.threads| == 4 && s.inn.InCall? && s.cell.threads[IN].pc == Idle && !s.out.OutOverrun?
    ensures Step(s, InRuns) == s.(inn := InSend(s.inn.res))
  {
  }

  // ---------- the output thread's first pass ----------

  lemma StartOpen(init: Sys)
    requires Start(init)
    ensures CoreOk(init) && Open(init) && |init.cell.history| == 1 && init.cell.history[0].cmd == CMD_INIT
  {
    StartSysOk(init);
  }

  /** It polls and finds INIT. */
  lemma FirstPoll(init: Sys) returns (es: seq<Event>)
    requires Start(init)
    ensures var s := Play(init, es);
            && Open(s) && s == init.(cell := s.cell, out := OutPolling) && |s.cell.threads| == 4
            && s.cell.threads[OUT].pc == Idle && s.cell.threads[OUT].Last() == 0
            && s.cell.threads[OUT].loc.cmd == CMD_INIT
            && s.cell.threads[IN] == init.cell.threads[IN] && s.cell.history == init.cell.history
  {
    StartOpen(init);
    es := OutTurn(init);
    PlayCoreOk(init, es);
    hide CoreOk; hide SoloInv;
    var s := Play(init, es);
    OpenShape(s);
    ReaderShows(s.cell, OUT);
  }

  /** A poll that did not find SHUTDOWN leads to the queue. */
  lemma ThenWaits(s: Sys)
    requires |s.cell.threads| == 4 && s.out == OutPolling
    requires s.cell.threads[OUT].pc == Idle && s.cell.threads[OUT].loc.cmd != CMD_SHUTDOWN
    ensures Step(s, OutRuns) == s.(out := OutRecv)
  {
  }
}
