/** What every run of the server guarantees, whatever the interleaving. */
module Guarantees {
  import opened Ctrl
  import opened Requests
  import opened Lazy
  import opened Cell
  import opened SingleWriter
  import opened Wire
  import opened Server
  import opened Schedules

  /** The sequential handler's results for the requests a server has parsed. */
  function ServedBy(s: Sys): Served
    requires |s.cell.threads| == 4 && AllFit(s.base, s.inputs)
  {
    Serve(s.base, s.cell.threads[IN].init, s.inputs)
  }

  /** The control thread is at the head of its loop, or past it for good. */
  predicate AtHead(s: Sys) {
    s.inn == InRecv || s.inn == InDone
  }

  lemma AnswersPrefix(inputs: seq<Input>, rs: seq<Response>, n: nat)
    requires Answers(inputs, rs) && n <= |rs|
    ensures Answers(inputs, rs[..n])
  {
    forall i | 0 <= i < n
      ensures rs[..n][i].kind == Verdict(Replay(rs[..n][..i]), inputs[i])
    {
      assert rs[..n][..i] == rs[..i];
    }
  }

  /** The requests read so far have been answered, except the one in hand. */
  lemma AnswersSoFar(s: Sys)
    requires InOk(s)
    ensures Answers(s.inputs, s.produced)
    ensures AllSay(s.base, s.inputs, s.produced)
    ensures |s.produced| <= |s.inputs| <= |s.produced| + 1
    ensures AtHead(s) ==> |s.inputs| == |s.produced|
  {
    hide Handled; hide Serve; hide HistoryOf; hide Answers; hide Says;
    HandlerAhead(s);
    var sv := ServedBy(s);
    ServeAccounted(s.base, s.cell.threads[IN].init, s.inputs);
    AnswersPrefix(s.inputs, sv.responses, |s.produced|);
    assert sv.responses[..|s.produced|] == s.produced;
  }

  /** At the loop head the published history holds one publication per OK response. */
  lemma HeadAccounts(s: Sys)
    requires InOk(s) && AtHead(s)
    ensures |s.cell.history| > 0
    ensures s.cell.version == Ver(CountOk(s.produced))
    ensures s.cell.history[s.cell.Latest()].cmd == Replay(s.produced) == s.cell.threads[IN].loc.cmd
    ensures s.cell.threads[IN].ver == s.cell.version
  {
    hide Serve;
    ServeAccounted(s.base, s.cell.threads[IN].init, s.inputs);
    HistoryOk(s);
  }

  /** Every parsed request gets exactly one response, in order, with its own id, the verdict the
      earlier responses imply, and the text that goes with it; the published history is well formed at
      every moment; and at the loop head the version counts the OK responses and the command in force can
      be replayed from them. */
  lemma Accounting(init: Sys, es: seq<Event>)
    requires Start(init)
    ensures var s := Play(init, es);
            && WellFormed(s.cell.history)
            && Answers(s.inputs, s.produced) && AllSay(s.base, s.inputs, s.produced)
            && |s.produced| <= |s.inputs| <= |s.produced| + 1
            && (AtHead(s) ==>
                  && |s.inputs| == |s.produced|
                  && s.cell.version == Ver(CountOk(s.produced))
                  && s.cell.history[s.cell.Latest()].cmd == Replay(s.produced) == s.cell.threads[IN].loc.cmd
                  && s.cell.threads[IN].ver == s.cell.version)
  {
    hide Handled; hide Answers; hide AllSay; hide WellFormed; hide Step; hide SoloInv;
    StartInOk(init);
    PlayInOk(init, es);
    var s := Play(init, es);
    HistoryOk(s);
    AnswersSoFar(s);
    if AtHead(s) {
      HeadAccounts(s);
    }
  }

  /** The threads' interleaving does not matter: the responses and the published history are those
      of handling the parsed requests one after the other, at the loop head exactly, and otherwise up
      to the request in hand. */
  lemma SameAsSequential(init: Sys, es: seq<Event>)
    requires Start(init)
    ensures var s := Play(init, es);
            && AllFit(s.base, s.inputs)
            && var sv := ServedBy(s);
               && s.produced <= sv.responses
               && s.cell.history <= HistoryOf(sv)
               && (AtHead(s) ==> s.produced == sv.responses && s.cell.history == HistoryOf(sv))
  {
    StartInOk(init);
    PlayInOk(init, es);
  }

  /** What the client is sent is always a prefix of what the control thread produced, and nothing
      is lost between the two: it is in the queue or in the output thread's hand. If every missing tape's
      path is within the limit, every response fits the buffer it passes through. */
  lemma Forwarding(init: Sys, es: seq<Event>)
    requires Start(init)
    ensures var s := Play(init, es);
            && s.forwarded <= s.produced && s.produced == s.forwarded + InFlight(s.out) + s.fifo
            && (AllAnswerable(s.base, s.inputs) ==> !s.out.OutOverrun? && AllFitReceiveBuffer(s.produced))
  {
    hide Handled; hide Step; hide FitsReceiveBuffer; hide Answerable;
    StartInOk(init);
    StartSysOk(init);
    PlayInOk(init, es);
    PlayCoreOk(init, es);
  }

  /** A request whose refusal is too long is handled like any other. */
  lemma OverlongHandled(base: string, local: Record, x: Input)
    requires !Answerable(base, x) && local.cmd == CMD_INIT
    ensures Fits(base, x)
    ensures var o := Handle(base, local, x); !o.publish && !FitsReceiveBuffer(o.res) && CMD_SHUTDOWN < o.local.cmd
  {
    AnswerFits(base, local, x);
    hide FitsReceiveBuffer;
  }

  /** The output thread has polled, found INIT, and waits on its queue. */
  lemma FirstWait(init: Sys) returns (es: seq<Event>)
    requires Start(init)
    ensures var s := Play(init, es);
            && Open(s) && s == init.(cell := s.cell, out := OutRecv) && |s.cell.threads| == 4
            && s.cell.threads[IN] == init.cell.threads[IN]
  {
    var a := FirstPoll(init);
    var s := Play(init, a);
    ThenWaits(s);
    WaitingOpen(s);
    hide Open; hide Step; hide Start;
    es := a + [OutRuns];
    PlayConcat(init, a, [OutRuns]);
    PlayOne(s, OutRuns);
  }

  lemma WaitingOpen(s: Sys)
    requires Open(s) && s.out == OutPolling && |s.cell.threads| == 4 && Step(s, OutRuns) == s.(out := OutRecv)
    ensures Open(Step(s, OutRuns))
  {
    StepCoreOk(s, OutRuns);
    hide CoreOk;
  }

  /** A response too long for the buffer is pushed and received. */
  lemma ReceivesOverlong(s: Sys)
    requires |s.cell.threads| == 4 && s.inn.InSend? && s.out == OutRecv && s.fifo == [] && !FitsReceiveBuffer(s.inn.res)
    ensures var s' := Step(Step(s, InRuns), OutRuns); s'.inputs == s.inputs && s'.out == OutOverrun(s.inn.res)
  {
    hide FitsReceiveBuffer;
    assert Step(s, InRuns).fifo == [s.inn.res];
  }

  /** As the very first request, it overruns the output thread's buffer. */
  lemma OverrunReachable(init: Sys, x: Input) returns (es: seq<Event>)
    requires Start(init) && !Answerable(init.base, x)
    ensures Play(init, es).inputs == [x] && Play(init, es).out.OutOverrun?
  {
    OverlongHandled(init.base, init.cell.threads[IN].init, x);
    hide FitsReceiveBuffer; hide Answerable; hide Handle; hide Fits; hide Open; hide Step;
    var a := FirstWait(init);
    var s := Play(init, a);
    var b := RequestTurn(s, x);
    hide Start;
    var s' := Play(s, b);
    ReceivesOverlong(s');
    PlayConcat(init, a, b);
    PlayTwo(init, a + b, [InRuns], OutRuns);
    PlayOne(s', InRuns);
    es := a + b + [InRuns] + [OutRuns];
  }

  /** Whatever the client sends out of a set of requests, and however the threads interleave, no response
      overruns the output thread's buffer, exactly when every missing tape in the set has a path within
      the limit. */
  lemma OverrunExactly(init: Sys, xs: set<Input>)
    requires Start(init)
    ensures (forall es :: DrawnFrom(Play(init, es).inputs, xs) ==> !Play(init, es).out.OutOverrun?) <==>
            (forall x :: x in xs ==> Answerable(init.base, x))
  {
    hide Step; hide Answerable;
    if forall x :: x in xs ==> Answerable(init.base, x) {
      forall es | DrawnFrom(Play(init, es).inputs, xs)
        ensures !Play(init, es).out.OutOverrun?
      {
        Forwarding(init, es);
        BaseStays(init, es);
      }
    } else {
      var x :| x in xs && !Answerable(init.base, x);
      var es := OverrunReachable(init, x);
    }
  }

  lemma {:induction false} BaseStays(s: Sys, es: seq<Event>)
    requires |s.cell.threads| == 4
    ensures Play(s, es).base == s.base
  {
    if |es| > 0 {
      BaseStays(s, es[..|es| - 1]);
      hide Tick; hide Begin; hide Handle; hide Fits; hide FitsReceiveBuffer;
    }
  }

  // ---------- the callback nested in a tape run ----------

  /** A callback whose poll has returned sees a publication at least as new as the one that started
      the run: never INIT, and older than the run's start never; it stops the tape exactly when that
      publication is not a RUN. */
  lemma CallbackSees(init: Sys, es: seq<Event>)
    requires Start(init) && Bounded(Play(init, es))
    ensures var s := Play(init, es);
            s.market == MarketCallback && s.cell.threads[TAPE].pc == Idle ==>
              var m, n := s.cell.threads[MARKET], s.cell.threads[TAPE];
              && 1 <= m.Last() <= n.Last() <= s.cell.Latest()
              && n.loc.cmd == s.cell.history[n.Last()].cmd != CMD_INIT
              && (MarketStep(s).market == MarketRun <==> s.cell.history[n.Last()].cmd == CMD_RUN)
  {
    hide Step; hide SoloInv; hide Handled;
    StartSysOk(init);
    PlaySysOk(init, es);
    var s := Play(init, es);
    if s.market == MarketCallback && s.cell.threads[TAPE].pc == Idle {
      SoloOf(s);
      HistoryOk(s);
      ReaderShows(s.cell, MARKET);
      ReaderReturns(s, TAPE);
      InitIs(s);
    }
  }

  /** Every poll that begins after SHUTDOWN is published comes back with SHUTDOWN, in any of the three
      readers. */
  lemma ShutdownSeen(init: Sys, es: seq<Event>, t: nat)
    requires Start(init) && Bounded(Play(init, es)) && 0 < t < 4
    ensures var s := Play(init, es); var th := s.cell.threads[t];
            ShutdownPublished(s.cell) && th.pc == Idle && th.floor == s.cell.Latest() ==> th.loc.cmd == CMD_SHUTDOWN
  {
    hide Step; hide SoloInv; hide Handled;
    StartSysOk(init);
    PlaySysOk(init, es);
    var s := Play(init, es);
    var th := s.cell.threads[t];
    if ShutdownPublished(s.cell) && th.pc == Idle && th.floor == s.cell.Latest() {
      ReaderReturns(s, t);
    }
  }

  /** A market or output thread whose poll has returned acts on a publication no older than the poll:
      the market thread plays exactly on a RUN and ends exactly on SHUTDOWN, the output thread ends
      exactly on SHUTDOWN and waits on its queue otherwise. */
  lemma PollsDecide(init: Sys, es: seq<Event>)
    requires Start(init) && Bounded(Play(init, es))
    ensures var s := Play(init, es);
            s.market == MarketPolling && s.cell.threads[MARKET].pc == Idle ==>
              var m := s.cell.threads[MARKET];
              && 0 <= m.floor <= m.Last() <= s.cell.Latest()
              && var cmd := s.cell.history[m.Last()].cmd;
                 && (MarketStep(s).market == MarketRun <==> cmd == CMD_RUN)
                 && (MarketStep(s).market == MarketDone <==> cmd == CMD_SHUTDOWN)
                 && (MarketStep(s).market == MarketPoll <==> cmd == CMD_INIT || cmd == CMD_STOP)
    ensures var s := Play(init, es);
            s.out == OutPolling && s.cell.threads[OUT].pc == Idle ==>
              var o := s.cell.threads[OUT];
              && 0 <= o.floor <= o.Last() <= s.cell.Latest()
              && (OutStep(s).out == OutDone <==> s.cell.history[o.Last()].cmd == CMD_SHUTDOWN)
              && (OutStep(s).out == OutRecv <==> s.cell.history[o.Last()].cmd != CMD_SHUTDOWN)
  {
    hide Step; hide SoloInv; hide Handled;
    StartSysOk(init);
    PlaySysOk(init, es);
    var s := Play(init, es);
    SoloOf(s);
    HistoryOk(s);
    if s.market == MarketPolling && s.cell.threads[MARKET].pc == Idle {
      ReaderReturns(s, MARKET);
    }
    if s.out == OutPolling && s.cell.threads[OUT].pc == Idle {
      ReaderReturns(s, OUT);
    }
  }
}
