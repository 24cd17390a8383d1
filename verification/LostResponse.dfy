/** What failed pushes cost: the control thread only logs them, and goes on as if they had succeeded. */
module LostResponse {
  import opened Wrappers
  import opened Ctrl
  import opened Requests
  import opened Lazy
  import opened Cell
  import opened SingleWriter
  import opened Wire
  import opened Server
  import opened Schedules
  import opened ShutdownProtocol

  /** The control thread's push fails: the response has been made, and is gone. */
  function SendFails(s: Sys): Sys
    requires |s.cell.threads| == 4 && s.inn.InSend?
  {
    s.(produced := s.produced + [s.inn.res],
       inn := if CMD_SHUTDOWN < s.cell.threads[IN].loc.cmd then InRecv else InDone)
  }

  lemma SendFailsCoreOk(s: Sys)
    requires CoreOk(s) && s.inn.InSend?
    ensures CoreOk(SendFails(s))
  {
    hide SoloInv; hide Serve; hide FitsReceiveBuffer; hide Answerable;
  }

  // ---------- runs in which pushes may fail ----------

  datatype Lossy = Normal(e: Event) | PushFails

  function LossyStep(s: Sys, l: Lossy): (s': Sys)
    requires |s.cell.threads| == 4
    ensures |s'.cell.threads| == 4
  {
    match l
    case Normal(e) => Step(s, e)
    case PushFails => if Pushing(s) then SendFails(s) else s
  }

  function LossyPlay(s: Sys, ls: seq<Lossy>): (s': Sys)
    requires |s.cell.threads| == 4
    ensures |s'.cell.threads| == 4
  {
    if |ls| == 0 then s else LossyStep(LossyPlay(s, ls[..|ls| - 1]), ls[|ls| - 1])
  }

  lemma {:induction false} LossyPlayCoreOk(s: Sys, ls: seq<Lossy>)
    requires |s.cell.threads| == 4 && CoreOk(s)
    ensures CoreOk(LossyPlay(s, ls))
  {
    hide CoreOk; hide Step; hide SendFails;
    if |ls| > 0 {
      var mid := LossyPlay(s, ls[..|ls| - 1]);
      LossyPlayCoreOk(s, ls[..|ls| - 1]);
      match ls[|ls| - 1]
      case Normal(e) => StepCoreOk(mid, e);
      case PushFails =>
        if mid.inn.InSend? {
          SendFailsCoreOk(mid);
        }
    }
  }

  /** A schedule in which every push succeeds. */
  function Succeeding(es: seq<Event>): seq<Lossy> {
    seq(|es|, i requires 0 <= i < |es| => Normal(es[i]))
  }

  lemma {:induction false} SucceedingPlays(s: Sys, es: seq<Event>)
    requires |s.cell.threads| == 4
    ensures LossyPlay(s, Succeeding(es)) == Play(s, es)
    ensures OutFails !in es ==> Normal(OutFails) !in Succeeding(es)
  {
    hide Step;
    if |es| > 0 {
      var n := |es| - 1;
      assert Succeeding(es)[..n] == Succeeding(es[..n]);
      SucceedingPlays(s, es[..n]);
    }
  }

  // ---------- what is lost ----------

  /** The push of a response succeeds or fails. */
  predicate Finishes(s: Sys, l: Lossy) {
    Pushing(s) && (l == Normal(InRuns) || l == PushFails)
  }

  /** For every response produced in a run, whether its push succeeded. */
  function Pushed(s: Sys, ls: seq<Lossy>): seq<bool>
    requires |s.cell.threads| == 4
  {
    if |ls| == 0 then []
    else
      var before, l := ls[..|ls| - 1], ls[|ls| - 1];
      Pushed(s, before) + (if Finishes(LossyPlay(s, before), l) then [l != PushFails] else [])
  }

  /** The responses that are marked, in order. */
  function Marked(rs: seq<Response>, marks: seq<bool>): seq<Response>
    requires |rs| == |marks|
  {
    if |rs| == 0 then []
    else Marked(rs[..|rs| - 1], marks[..|rs| - 1]) + (if marks[|rs| - 1] then [rs[|rs| - 1]] else [])
  }

  lemma MarkedSnoc(rs: seq<Response>, marks: seq<bool>, r: Response, mark: bool)
    requires |rs| == |marks|
    ensures Marked(rs + [r], marks + [mark]) == Marked(rs, marks) + (if mark then [r] else [])
  {
    assert (rs + [r])[..|rs|] == rs && (marks + [mark])[..|rs|] == marks;
  }

  lemma LossyOutgoing(s: Sys, l: Lossy)
    requires |s.cell.threads| == 4
    ensures Finishes(s, l) ==> s.inn.InSend?
    ensures LossyStep(s, l).produced == s.produced + (if Finishes(s, l) then [s.inn.res] else [])
    ensures Outgoing(LossyStep(s, l)) ==
            Outgoing(s) + (if Finishes(s, l) && l != PushFails then [s.inn.res] else [])
  {
    hide Step;
    if l.Normal? {
      StepOutgoing(s, l.e);
    }
  }

  lemma NothingYet(init: Sys)
    requires Start(init)
    ensures |init.cell.threads| == 4 && init.produced == [] && Outgoing(init) == []
  {
  }

  lemma {:induction false} OutgoingMarked(s: Sys, ls: seq<Lossy>)
    requires |s.cell.threads| == 4 && s.produced == [] && Outgoing(s) == []
    ensures |Pushed(s, ls)| == |LossyPlay(s, ls).produced|
    ensures Outgoing(LossyPlay(s, ls)) == Marked(LossyPlay(s, ls).produced, Pushed(s, ls))
  {
    hide LossyStep; hide Outgoing; hide Finishes;
    if |ls| > 0 {
      var before, l := ls[..|ls| - 1], ls[|ls| - 1];
      var mid, marks := LossyPlay(s, before), Pushed(s, before);
      OutgoingMarked(s, before);
      LossyOutgoing(mid, l);
      if Finishes(mid, l) {
        MarkedSnoc(mid.produced, marks, mid.inn.res, l != PushFails);
      } else {
        assert marks + [] == marks && mid.produced + [] == mid.produced && Outgoing(mid) + [] == Outgoing(mid);
      }
    }
  }

  /** A failed push loses its own response and nothing else: what has been sent to the client, is in the
      output thread's hand or waits in the queue is what was produced without the responses whose push
      failed, in order. */
  lemma OnlyFailedLost(init: Sys, ls: seq<Lossy>)
    requires Start(init)
    ensures var s, marks := LossyPlay(init, ls), Pushed(init, ls);
            |marks| == |s.produced| && s.forwarded + InFlight(s.out) + s.fifo == Marked(s.produced, marks)
  {
    NothingYet(init);
    OutgoingMarked(init, ls);
  }

  // ---------- stranded ----------

  /** The control thread is through, the queue is empty, and the output thread is about to wait on it. */
  ghost predicate Stranded(s: Sys) {
    CoreOk(s) && s.inn == InDone && OutStale(s.cell, s.out) && s.fifo == [] && s.joined <= 1
  }

  lemma StrandedOutStep(s: Sys)
    requires Stranded(s) && Bounded(s)
    ensures var s' := OutStep(s);
            && OutStale(s'.cell, s'.out) && s'.fifo == [] && s'.cell.history == s.cell.history && s'.joined == s.joined
            && s'.inn == InDone
  {
    SoloOf(s);
    if s.out == OutPolling {
      if s.cell.threads[OUT].pc == Idle {
        StaleIsOld(s, OUT);
      } else {
        hide SoloInv; hide Handled; hide Tick;
        ReaderTick(s.cell, OUT);
        ReaderEffect(s.cell, OUT);
      }
    }
  }

  lemma StrandedStep(s: Sys, e: Event)
    requires Stranded(s) && Bounded(s) && e != OutFails
    ensures Stranded(Step(s, e)) && Step(s, e).cell.history == s.cell.history
  {
    CoreShape(s);
    StepCoreOk(s, e);
    StepFrame(s, e);
    hide CoreOk;
    match e
    case OutRuns =>
      hide OutStep;
      StrandedOutStep(s);
    case MarketRuns =>
      hide MarketStep;
      StrandedMarketStep(s);
    case _ =>
      hide OutStep; hide MarketStep; hide Tick; hide Begin; hide Receive;
      StrandedOthers(s, e);
  }

  /** The control thread, NxCore and the main thread have nothing to do for it. */
  lemma StrandedOthers(s: Sys, e: Event)
    requires Stranded(s) && |s.cell.threads| == 4 && !e.OutRuns? && !e.OutFails? && !e.MarketRuns?
    ensures var s' := Step(s, e);
            && s'.inn == InDone && s'.fifo == [] && s'.out == s.out && s'.cell.history == s.cell.history
            && s'.cell.threads[OUT] == s.cell.threads[OUT] && s'.joined <= 1 && |s'.cell.threads| == 4
  {
    hide CoreOk; hide Handle; hide Fits;
    BeginFrame(s.cell, TAPE);
    hide Begin;
  }

  lemma StrandedMarketStep(s: Sys)
    requires Stranded(s)
    ensures var s' := MarketStep(s);
            && s'.inn == s.inn && s'.fifo == s.fifo && s'.cell.history == s.cell.history && s'.joined == s.joined
  {
    MarketStepFrame(s);
  }

  /** It waits for ever, and is never joined. */
  lemma {:induction false} StrandedForEver(s: Sys, ls: seq<Lossy>)
    requires |s.cell.threads| == 4 && Stranded(s) && Bounded(s) && Normal(OutFails) !in ls
    ensures Stranded(LossyPlay(s, ls)) && LossyPlay(s, ls).cell.history == s.cell.history
  {
    hide Stranded; hide Step; hide SendFails;
    if |ls| > 0 {
      var mid, l := LossyPlay(s, ls[..|ls| - 1]), ls[|ls| - 1];
      StrandedForEver(s, ls[..|ls| - 1]);
      StrandedShape(mid);
      if l.Normal? {
        StrandedStep(mid, l.e);
      }
    }
  }

  /** Left alone, it gets to its wait. */
  lemma {:induction false} ComesToWait(s: Sys) returns (es: seq<Event>)
    requires |s.cell.threads| == 4 && Stranded(s) && Bounded(s)
    ensures Stranded(Play(s, es)) && Play(s, es).out == OutRecv && Play(s, es).cell.history == s.cell.history
    ensures Play(s, es).inputs == s.inputs && Play(s, es).base == s.base
    decreases Cost(s.cell.threads[OUT].pc) + (if s.out == OutRecv then 0 else 1)
  {
    hide Tick; hide Cost;
    CoreSolo(s);
    CostBound(s.cell, OUT);
    if s.out == OutRecv {
      es := [];
    } else {
      StrandedStep(s, OutRuns);
      var s1 := Step(s, OutRuns);
      WaitsNearer(s);
      CoreSolo(s1);
      CostBound(s1.cell, OUT);
      hide Stranded; hide Step;
      var rest := ComesToWait(s1);
      es := [OutRuns] + rest;
      PlayFirst(s, OutRuns, rest);
    }
  }

  lemma WaitsNearer(s: Sys)
    requires |s.cell.threads| == 4 && Stranded(s) && s.out == OutPolling
    ensures var s1 := Step(s, OutRuns);
            && s1.inputs == s.inputs && s1.base == s.base
            && if s.cell.threads[OUT].pc == Idle then s1.out == OutRecv && s1.cell == s.cell
               else s1.out == OutPolling && Cost(s1.cell.threads[OUT].pc) < Cost(s.cell.threads[OUT].pc)
  {
    CoreSolo(s);
    hide SoloInv; hide Tick; hide Cost; hide FitsReceiveBuffer;
    if s.cell.threads[OUT].pc == Idle {
      StaleIsOld(s, OUT);
    } else {
      TickCost(s.cell, OUT);
      TickMoves(s.cell, OUT);
    }
  }

  /** A receive that fails lets it poll again, and then the server can finish. */
  lemma FailureFrees(s: Sys) returns (es: seq<Event>)
    requires |s.cell.threads| == 4 && Stranded(s) && Bounded(s) && AllAnswerable(s.base, s.inputs)
    ensures Play(s, es).joined == 4
  {
    hide Step; hide Answerable; hide Stranded;
    var a := ComesToWait(s);
    var s1 := Play(s, a);
    PollsAgain(s1);
    var b := CanFinish(Step(s1, OutFails));
    es := a + ([OutFails] + b);
    PlayConcat(s, a, [OutFails] + b);
    PlayFirst(s1, OutFails, b);
  }

  lemma PollsAgain(s: Sys)
    requires |s.cell.threads| == 4 && Stranded(s) && s.out == OutRecv
    ensures var s1 := Step(s, OutFails);
            && SysOk(s1) && ShutdownPublished(s1.cell)
            && s1.cell == s.cell && s1.inputs == s.inputs && s1.base == s.base
  {
    hide CoreOk; hide ShutdownPublished;
    CoreShape(s);
    DoneMeansShutdown(s);
    StepCoreOk(s, OutFails);
    hide OutStep; hide InStep; hide MarketStep; hide Receive;
  }

  lemma StrandedShape(s: Sys)
    requires Stranded(s)
    ensures |s.cell.threads| == 4 && s.inn == InDone && s.joined <= 1
  {
  }

  // ---------- the exact condition ----------

  /** The control thread has handled the shutdown and its push is about to fail. */
  predicate AboutToLose(s: Sys) {
    |s.cell.threads| == 4 && s.inn.InSend? && s.cell.threads[IN].loc.cmd == CMD_SHUTDOWN
  }

  lemma LostIsPublished(s: Sys)
    requires HandledOk(s) && AboutToLose(s)
    ensures ShutdownPublished(s.cell)
  {
    HistoryOk(s);
    hide Handled; hide SoloInv;
  }

  /** The control thread is through, and nothing is left for an output thread about to wait. */
  predicate NothingLeft(s: Sys)
    requires |s.cell.threads| == 4
  {
    s.inn == InDone && OutStale(s.cell, s.out) && s.fifo == []
  }

  lemma StrandedOrNot(s: Sys)
    requires CoreOk(s)
    ensures |s.cell.threads| == 4
    ensures if NothingLeft(s) then Stranded(s) else SysOk(s)
  {
    hide HandledOk; hide BufferOk;
    CoreShape(s);
  }

  /** In every run, however many pushes have failed: once SHUTDOWN is published the server can still be
      joined and torn down exactly if the control thread has yet to finish, or the output thread is not
      about to wait on an old command with nothing in the queue; a failing receive aside. */
  lemma LostResponsesExactly(init: Sys, ls: seq<Lossy>)
    requires Start(init) && Bounded(LossyPlay(init, ls)) && ShutdownPublished(LossyPlay(init, ls).cell)
    requires AllAnswerable(LossyPlay(init, ls).base, LossyPlay(init, ls).inputs)
    ensures var s := LossyPlay(init, ls);
            (exists after :: Normal(OutFails) !in after && LossyPlay(s, after).joined == 4) <==> !NothingLeft(s)
  {
    StartSysOk(init);
    LossyPlayCoreOk(init, ls);
    hide LossyStep; hide CoreOk; hide Answerable; hide Stranded;
    var s := LossyPlay(init, ls);
    StrandedOrNot(s);
    if NothingLeft(s) {
      forall after | Normal(OutFails) !in after
        ensures LossyPlay(s, after).joined <= 1
      {
        StrandedForEver(s, after);
        StrandedShape(LossyPlay(s, after));
      }
    } else {
      var es := CanFinish(s);
      SucceedingPlays(s, es);
    }
  }

  lemma StillReceiving(s: Sys)
    requires CoreOk(s) && AllAnswerable(s.base, s.inputs)
    ensures !s.out.OutOverrun?
  {
  }

  /** If it is the shutdown's response that is lost, the server can still be joined and torn down exactly
      if the output thread is not about to wait on an old command with nothing in the queue. */
  lemma LostResponseExactly(init: Sys, ls: seq<Lossy>)
    requires Start(init) && Bounded(LossyPlay(init, ls)) && AboutToLose(LossyPlay(init, ls))
    requires AllAnswerable(LossyPlay(init, ls).base, LossyPlay(init, ls).inputs)
    ensures var l := SendFails(LossyPlay(init, ls));
            (exists after :: Normal(OutFails) !in after && LossyPlay(l, after).joined == 4) <==>
            !(OutStale(l.cell, l.out) && l.fifo == [])
  {
    StartSysOk(init);
    LossyPlayCoreOk(init, ls);
    var s := LossyPlay(init, ls);
    StillReceiving(s);
    assert (ls + [PushFails])[..|ls|] == ls;
    assert LossyPlay(init, ls + [PushFails]) == SendFails(s);
    hide LossyStep; hide CoreOk; hide Answerable;
    CoreShape(s);
    LostIsPublished(s);
    LostResponsesExactly(init, ls + [PushFails]);
  }

  /** The shutdown's response is about to be lost, and nothing else is in the way. */
  predicate OnlyThisLost(s: Sys) {
    AboutToLose(s) && Bounded(s) && AllAnswerable(s.base, s.inputs) && s.fifo == []
  }

  lemma LosesShutdown(s: Sys, s': Sys, id: int)
    requires |s.cell.threads| == 4 && |s.cell.history| == 1 && s.inputs == [] && s.fifo == [] && s.out == OutPolling
    requires s.cell.threads[OUT].pc == Idle && s.cell.threads[OUT].Last() == 0
    requires var o := Outcome(Response(id, ShutdownOk, ""), s.cell.threads[IN].loc.(cmd := CMD_SHUTDOWN), true);
             && RequestDone(s, s'.cell, o)
             && s' == s.(cell := s'.cell, inn := InSend(o.res), inputs := [Input(Request(id, Shutdown, None), false)])
    ensures OnlyThisLost(s') && OutStale(s'.cell, s'.out)
  {
  }

  /** The output thread polls before the shutdown, whose response is then to be sent. */
  lemma PollsBeforeShutdown(init: Sys, id: int) returns (polled: seq<Event>)
    requires Start(init)
    ensures var s := Play(init, polled);
            && OnlyThisLost(s) && s.out == OutPolling && OutStale(s.cell, s.out) && s.forwarded == []
            && s.cell.threads[OUT].pc == Idle && s.cell.threads[OUT].loc.cmd != CMD_SHUTDOWN
  {
    hide Open; hide Handle; hide Fits; hide Answerable; hide Step; hide OnlyThisLost; hide OutStale;
    var x := Input(Request(id, Shutdown, None), false);
    StartOpen(init);
    var a := FirstPoll(init);
    var s1 := Play(init, a);
    ShutdownHandled(s1.base, s1.cell.threads[IN].loc, id);
    var b := RequestTurn(s1, x);
    assert [] + [x] == [x];
    LosesShutdown(s1, Play(s1, b), id);
    polled := a + b;
    PlayConcat(init, a, b);
  }

  /** Both ways of being stranded happen: the output thread polls before the shutdown and its response
      is lost, either while its poll has yet to return, or when it already waits. Then nothing is left
      for it, and the client has been sent nothing. */
  lemma LostResponseReachable(init: Sys, id: int) returns (polled: seq<Event>)
    requires Start(init)
    ensures var s := Play(init, polled);
            && OnlyThisLost(s) && s.out == OutPolling && OutStale(s.cell, s.out)
            && NothingLeft(LossyStep(s, PushFails)) && LossyStep(s, PushFails).forwarded == []
    ensures var s := Play(init, polled + [OutRuns]);
            && OnlyThisLost(s) && s.out == OutRecv
            && NothingLeft(LossyStep(s, PushFails)) && LossyStep(s, PushFails).forwarded == []
  {
    polled := PollsBeforeShutdown(init, id);
    hide Step; hide OnlyThisLost; hide OutStale; hide LossyStep; hide Start; hide NothingLeft;
    var s := Play(init, polled);
    LostShape(s);
    PlayConcat(init, polled, [OutRuns]);
    PlayOne(s, OutRuns);
    ThenWaits(s);
    StillLost(s);
    ThenNothingLeft(s);
    ThenNothingLeft(s.(out := OutRecv));
  }

  lemma LostShape(s: Sys)
    requires OnlyThisLost(s)
    ensures |s.cell.threads| == 4
  {
  }

  lemma StillLost(s: Sys)
    requires OnlyThisLost(s)
    ensures OnlyThisLost(s.(out := OutRecv)) && OutStale(s.cell, OutRecv)
  {
  }

  lemma ThenNothingLeft(s: Sys)
    requires OnlyThisLost(s) && OutStale(s.cell, s.out) && s.forwarded == []
    ensures var l := LossyStep(s, PushFails); NothingLeft(l) && l.forwarded == []
  {
  }
}
