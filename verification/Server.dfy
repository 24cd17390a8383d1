/** The whole server: the control thread, the market thread with the tape callback nested in it, the
    output thread, and the main thread that joins them, all interleaved at every access to the shared
    cell and every queue operation. As in the cell, a label that cannot take effect changes nothing. */
module Server {
  import opened Ctrl
  import opened Requests
  import opened Lazy
  import opened Cell
  import opened SingleWriter
  import opened Wire

  // The cell's threads. The tape callback has a record and a version of its own.
  const IN: nat := 0
  const MARKET: nat := 1
  const TAPE: nat := 2
  const OUT: nat := 3

  datatype InPc =
    | InRecv                 // waiting for a request
    | InCall(res: Response)  // publishing, with the response prepared
    | InSend(res: Response)  // about to push the response into the queue
    | InDone

  datatype MarketPc =
    | MarketPoll      // about to poll
    | MarketPolling   // inside its poll
    | MarketRun       // NxCore is playing a tape
    | MarketCallback  // NxCore called back: the callback is inside its poll
    | MarketDone

  datatype OutPc =
    | OutPoll                 // about to poll
    | OutPolling              // inside its poll
    | OutRecv                 // waiting on the queue
    | OutSend(msg: Response)  // about to send to the client
    | OutDone
    | OutOverrun(msg: Response)  // received a response longer than its buffer

  /** `joined` counts what the main thread got through: three joins, then the teardown.
      `inputs`, `produced`, `forwarded` and `continues` only record: requests parsed, responses
      queued, responses sent to the client, callbacks that returned CONTINUE. */
  datatype Sys = Sys(base: string, cell: State, inn: InPc, market: MarketPc, out: OutPc, joined: nat,
                     fifo: seq<Response>, inputs: seq<Input>, produced: seq<Response>,
                     forwarded: seq<Response>, continues: nat)

  predicate Start(s: Sys) {
    && Init(s.cell)
    && |s.cell.threads| == 4
    && (forall t :: 0 <= t < 4 ==> (s.cell.threads[t].writer <==> t == IN) && s.cell.threads[t].init.cmd == CMD_INIT)
    && s.cell.threads[IN].init.size == 0
    && s.cell.init.cmd == CMD_INIT && s.cell.init.size == 0
    && s.inn == InRecv && s.market == MarketPoll && s.out == OutPoll && s.joined == 0
    && s.fifo == [] && s.inputs == [] && s.produced == [] && s.forwarded == [] && s.continues == 0
  }

  // ---------- steps ----------

  /** A request arrives and is handled up to its publication, if it has one. */
  function Receive(s: Sys, input: Input): (s': Sys)
    requires |s.cell.threads| == 4
    ensures |s'.cell.threads| == 4
  {
    if s.inn != InRecv || !Fits(s.base, input) then s
    else
      var o := Handle(s.base, s.cell.threads[IN].loc, input);
      var edited := Assign(s.cell, IN, o.local);
      if o.publish then
        s.(cell := Begin(edited, IN), inn := InCall(o.res), inputs := s.inputs + [input])
      else
        s.(cell := edited, inn := InSend(o.res), inputs := s.inputs + [input])
  }

  function InStep(s: Sys): (s': Sys)
    requires |s.cell.threads| == 4
    ensures |s'.cell.threads| == 4
  {
    match s.inn
    case InRecv => s
    case InCall(res) =>
      if s.cell.threads[IN].pc == Idle then s.(inn := InSend(res)) else s.(cell := Tick(s.cell, IN))
    case InSend(res) =>
      s.(fifo := s.fifo + [res], produced := s.produced + [res],
         inn := if CMD_SHUTDOWN < s.cell.threads[IN].loc.cmd then InRecv else InDone)
    case InDone => s
  }

  /** What the market thread does after a poll that left it with `cmd`. */
  function MarketVerdict(cmd: int): MarketPc {
    if cmd == CMD_STOP then MarketPoll
    else if cmd == CMD_SHUTDOWN then MarketDone
    else if cmd == CMD_RUN then MarketRun
    else MarketPoll
  }

  /** Whether the tape callback returns CONTINUE. */
  predicate TapeVerdict(cmd: int) {
    !(cmd < CMD_RUN)
  }

  function OutVerdict(cmd: int): OutPc {
    if cmd == CMD_SHUTDOWN then OutDone else OutRecv
  }

  /** How the four commands are told apart: a callback stops on STOP and SHUTDOWN, the threads that end
      do so on SHUTDOWN, and a tape is started on RUN. */
  lemma CommandsDecide(cmd: int)
    requires KnownCommand(cmd)
    ensures TapeVerdict(cmd) <==> cmd == CMD_INIT || cmd == CMD_RUN
    ensures OutVerdict(cmd) == OutDone <==> cmd == CMD_SHUTDOWN
    ensures MarketVerdict(cmd) == MarketDone <==> cmd == CMD_SHUTDOWN
    ensures MarketVerdict(cmd) == MarketRun <==> cmd == CMD_RUN
    ensures CMD_SHUTDOWN < cmd <==> cmd != CMD_SHUTDOWN
  {
  }

  function MarketStep(s: Sys): (s': Sys)
    requires |s.cell.threads| == 4
    ensures |s'.cell.threads| == 4
  {
    match s.market
    case MarketPoll => s.(cell := Begin(s.cell, MARKET), market := MarketPolling)
    case MarketPolling =>
      var th := s.cell.threads[MARKET];
      if th.pc != Idle then s.(cell := Tick(s.cell, MARKET))
      else s.(market := MarketVerdict(th.loc.cmd))
    case MarketRun => s
    case MarketCallback =>
      var th := s.cell.threads[TAPE];
      if th.pc != Idle then s.(cell := Tick(s.cell, TAPE))
      else if TapeVerdict(th.loc.cmd) then s.(market := MarketRun, continues := s.continues + 1)
      else s.(market := MarketPoll)
    case MarketDone => s
  }

  /** NxCore's own choices while a tape plays: call back, or come to the end. */
  function Callback(s: Sys): (s': Sys)
    requires |s.cell.threads| == 4
    ensures |s'.cell.threads| == 4
  {
    if s.market == MarketRun then s.(cell := Begin(s.cell, TAPE), market := MarketCallback) else s
  }

  function TapeEnd(s: Sys): Sys {
    if s.market == MarketRun then s.(market := MarketPoll) else s
  }

  function OutStep(s: Sys): (s': Sys)
    requires |s.cell.threads| == 4
    ensures |s'.cell.threads| == 4
  {
    match s.out
    case OutPoll => s.(cell := Begin(s.cell, OUT), out := OutPolling)
    case OutPolling =>
      var th := s.cell.threads[OUT];
      if th.pc != Idle then s.(cell := Tick(s.cell, OUT))
      else s.(out := OutVerdict(th.loc.cmd))
    case OutRecv =>
      if |s.fifo| == 0 then s
      else
        var msg := s.fifo[0];
        s.(fifo := s.fifo[1..], out := if FitsReceiveBuffer(msg) then OutSend(msg) else OutOverrun(msg))
    case OutSend(msg) => s.(forwarded := s.forwarded + [msg], out := OutPoll)
    case OutDone => s
    case OutOverrun(_) => s
  }

  /** The queue reports an error: nothing is taken and the loop starts over. */
  function OutRecvFails(s: Sys): Sys {
    if s.out == OutRecv then s.(out := OutPoll) else s
  }

  /** The main thread joins market, output and control thread in that order, then tears down. */
  function MainStep(s: Sys): Sys {
    if (s.joined == 0 && s.market == MarketDone) || (s.joined == 1 && s.out == OutDone)
       || (s.joined == 2 && s.inn == InDone) || s.joined == 3
    then s.(joined := s.joined + 1) else s
  }

  datatype Event =
    | Arrival(input: Input) | InRuns | MarketRuns | NxCoreCalls | NxCoreEnds
    | OutRuns | OutFails | MainRuns

  /** One event. A response copied past the end of its buffer ends the run: C says nothing about what
      follows. */
  function Step(s: Sys, e: Event): (s': Sys)
    requires |s.cell.threads| == 4
    ensures |s'.cell.threads| == 4
  {
    if s.out.OutOverrun? then s else
    match e
    case Arrival(input) => Receive(s, input)
    case InRuns => InStep(s)
    case MarketRuns => MarketStep(s)
    case NxCoreCalls => Callback(s)
    case NxCoreEnds => TapeEnd(s)
    case OutRuns => OutStep(s)
    case OutFails => OutRecvFails(s)
    case MainRuns => MainStep(s)
  }

  function Play(s: Sys, es: seq<Event>): (s': Sys)
    requires |s.cell.threads| == 4
    ensures |s'.cell.threads| == 4
  {
    if |es| == 0 then s
    else Step(Play(s, es[..|es| - 1]), es[|es| - 1])
  }

  // ---------- what a cell step means for the server ----------

  /** A reader's step: the publications stay, and its poll takes effect at most once, on the latest
      one. */
  lemma ReaderTick(c: State, t: nat)
    requires SoloInv(c, IN) && t < |c.threads| && t != IN
    ensures var c' := Tick(c, t); var th, th' := c.threads[t], c'.threads[t];
            && SoloInv(c', IN)
            && c'.history == c.history && c'.init == c.init && |c'.threads| == |c.threads|
            && (forall r :: 0 <= r < |c.threads| && r != t ==> c'.threads[r] == c.threads[r])
            && th'.init == th.init
  {
    TickSolo(c, IN, t);
    TickFrame(c, t);
  }

  lemma ReaderEffect(c: State, t: nat)
    requires SoloInv(c, IN) && t < |c.threads| && t != IN
    ensures var th, th' := c.threads[t], Tick(c, t).threads[t];
            && th'.floor == th.floor
            && (Settled(th.pc) ==> Settled(th'.pc) && th'.Last() == th.Last())
            && (!Settled(th.pc) && !Settled(th'.pc) ==> th'.Last() == th.Last())
            && (!Settled(th.pc) && Settled(th'.pc) && c.Latest() <= LAST_EXACT ==> th'.Last() == c.Latest())
  {
    var th := c.threads[t];
    assert ReaderVer(|c.history|, th);
    if th.pc == Check && th.tv == c.version && c.Latest() <= LAST_EXACT {
      VerInjective(th.Last(), c.Latest());
    }
  }

  lemma WriterTick(c: State)
    requires SoloInv(c, IN)
    ensures var c' := Tick(c, IN); var th, th' := c.threads[IN], c'.threads[IN];
            && SoloInv(c', IN)
            && c'.init == c.init && |c'.threads| == |c.threads|
            && (forall r :: 0 <= r < |c.threads| && r != IN ==> c'.threads[r] == c.threads[r])
            && th'.init == th.init && th'.loc == th.loc
            && (Settled(th.pc) ==> Settled(th'.pc) && c'.history == c.history)
            && (!Settled(th.pc) ==> c'.history == if Settled(th'.pc) then c.history + [View(th.loc)] else c.history)
  {
    assert WriterVer(c.version, c.threads[IN]);
    hide SoloInv; hide Tick;
    TickSolo(c, IN, IN);
    WriterEffect(c);
  }

  lemma WriterEffect(c: State)
    requires |c.threads| > IN && c.threads[IN].writer && c.threads[IN].pc != Refused
    requires WriterVer(c.version, c.threads[IN])
    ensures var c' := Tick(c, IN); var th, th' := c.threads[IN], c'.threads[IN];
            && c'.init == c.init && |c'.threads| == |c.threads|
            && (forall r :: 0 <= r < |c.threads| && r != IN ==> c'.threads[r] == c.threads[r])
            && th'.init == th.init && th'.loc == th.loc
            && (Settled(th.pc) ==> Settled(th'.pc) && c'.history == c.history)
            && (!Settled(th.pc) ==> c'.history == if Settled(th'.pc) then c.history + [View(th.loc)] else c.history)
  {
  }

  lemma BeginFrame(c: State, t: nat)
    requires t < |c.threads|
    ensures Begin(c, t).history == c.history
    ensures forall r :: 0 <= r < |c.threads| && r != t ==> Begin(c, t).threads[r] == c.threads[r]
    ensures Begin(c, t).threads[t].init == c.threads[t].init
    ensures c.threads[t].pc == Idle ==> Begin(c, t).threads[t].pc == Check
  {
  }

  lemma CellBegin(c: State, t: nat)
    requires SoloInv(c, IN) && t < |c.threads| && c.threads[t].pc == Idle
    ensures var c' := Begin(c, t); var th, th' := c.threads[t], c'.threads[t];
            && SoloInv(c', IN)
            && c'.history == c.history && c'.init == c.init && |c'.threads| == |c.threads|
            && (forall r :: 0 <= r < |c.threads| && r != t ==> c'.threads[r] == c.threads[r])
            && th' == th.(pc := Check, tv := th.ver, floor := c.Latest())
  {
    BeginSolo(c, IN, t);
  }

  /** What a reader's record shows outside a copy. */
  lemma ReaderShows(c: State, t: nat)
    requires SoloInv(c, IN) && t < |c.threads| && t != IN && !c.threads[t].pc.Copy?
    ensures var th := c.threads[t];
            && -1 <= th.Last() <= c.Latest()
            && (th.Last() >= 0 ==> View(th.loc) == c.history[th.Last()])
            && (th.Last() < 0 ==> th.loc == th.init)
  {
  }

  /** What it has copied. */
  lemma ReaderRecords(c: State, t: nat)
    requires SoloInv(c, IN) && t < |c.threads| && t != IN && !c.threads[t].pc.Copy?
    ensures var th := c.threads[t];
            && th.loc == Overlay(th.init, th.got) && |th.seen| == |th.got|
            && (forall i :: 0 <= i < |th.seen| ==>
                  0 <= th.seen[i] < |c.history| && th.got[i] == c.history[th.seen[i]] && th.seen[i] <= th.Last())
  {
    assert ReaderOk(c.history, c.shared, c.threads[t]) && ReaderVer(|c.history|, c.threads[t]);
  }

  // ---------- the control thread: the published history is the sequential handler's ----------

  function HistoryOf(sv: Served): seq<Pub> {
    [Pub(CMD_INIT, [])] + sv.pubs
  }

  function InFlight(out: OutPc): seq<Response> {
    if out.OutSend? || out.OutOverrun? then [out.msg] else []
  }

  /** The control thread's record, its responses and the published history are what the
      sequential handler makes of the requests parsed so far, up to the call in progress. */
  ghost predicate Handled(base: string, inputs: seq<Input>, c: State, inn: InPc, produced: seq<Response>) {
    && |c.threads| == 4
    && SoloInv(c, IN)
    && (forall t :: 0 <= t < 4 ==> c.threads[t].init.cmd == CMD_INIT)
    && c.threads[IN].init.size == 0
    && AllFit(base, inputs)
    && var th, sv := c.threads[IN], Serve(base, c.threads[IN].init, inputs);
       && th.loc == sv.local
       && |sv.responses| == |inputs|
       && match inn
          case InRecv =>
            && th.pc == Idle && CMD_SHUTDOWN < th.loc.cmd
            && produced == sv.responses && c.history == HistoryOf(sv)
          case InCall(res) =>
            && produced + [res] == sv.responses
            && (if Settled(th.pc) then c.history else c.history + [View(th.loc)]) == HistoryOf(sv)
          case InSend(res) =>
            && th.pc == Idle
            && produced + [res] == sv.responses && c.history == HistoryOf(sv)
          case InDone =>
            && th.pc == Idle && th.loc.cmd <= CMD_SHUTDOWN
            && produced == sv.responses && c.history == HistoryOf(sv)
  }

  ghost predicate HandledOk(s: Sys) {
    Handled(s.base, s.inputs, s.cell, s.inn, s.produced)
  }

  /** The responses on their way to the client or there already. */
  function Outgoing(s: Sys): seq<Response> {
    s.forwarded + InFlight(s.out) + s.fifo
  }

  /** Nothing is lost between the control thread and the client. */
  predicate QueueOk(s: Sys) {
    s.produced == Outgoing(s)
  }

  ghost predicate InOk(s: Sys) {
    HandledOk(s) && QueueOk(s)
  }

  lemma StartInOk(s: Sys)
    requires Start(s)
    ensures InOk(s)
  {
    InitSolo(s.cell, IN);
  }

  /** A request that changes the record only. */
  lemma RefusedHandled(s: Sys, input: Input)
    requires HandledOk(s) && s.inn == InRecv && Fits(s.base, input)
    requires !Handle(s.base, s.cell.threads[IN].loc, input).publish
    ensures HandledOk(Receive(s, input))
  {
    assert s.cell.threads[IN].writer;
    hide Handle; hide SoloInv;
    ServeSnoc(s.base, s.cell.threads[IN].init, s.inputs, input);
    hide Serve; hide Fits;
    AssignSolo(s.cell, IN, IN, Handle(s.base, s.cell.threads[IN].loc, input).local);
  }

  /** A request that begins a publication. */
  lemma PublishedHandled(s: Sys, input: Input)
    requires HandledOk(s) && s.inn == InRecv && Fits(s.base, input)
    requires Handle(s.base, s.cell.threads[IN].loc, input).publish
    ensures HandledOk(Receive(s, input))
  {
    assert s.cell.threads[IN].writer;
    hide Handle; hide SoloInv;
    ServeSnoc(s.base, s.cell.threads[IN].init, s.inputs, input);
    hide Serve; hide Fits;
    var o := Handle(s.base, s.cell.threads[IN].loc, input);
    AssignSolo(s.cell, IN, IN, o.local);
    CellBegin(Assign(s.cell, IN, o.local), IN);
    hide Begin;
  }

  lemma ReceiveHandled(s: Sys, input: Input)
    requires HandledOk(s)
    ensures HandledOk(Receive(s, input))
  {
    hide Handle; hide Handled; hide Serve;
    if s.inn == InRecv && Fits(s.base, input) {
      HandlerThreads(s);
      if Handle(s.base, s.cell.threads[IN].loc, input).publish {
        PublishedHandled(s, input);
      } else {
        RefusedHandled(s, input);
      }
    }
  }

  lemma HandlerThreads(s: Sys)
    requires HandledOk(s)
    ensures |s.cell.threads| == 4
  {
  }

  lemma InStepHandled(s: Sys)
    requires HandledOk(s)
    ensures HandledOk(InStep(s))
  {
    hide SoloInv; hide Tick; hide Serve;
    SoloOf(s);
    WriterTick(s.cell);
  }

  /** The readers leave the control thread's side alone. */
  lemma ReaderHandled(s: Sys, t: nat)
    requires HandledOk(s) && 0 < t < 4
    ensures Handled(s.base, s.inputs, Tick(s.cell, t), s.inn, s.produced)
    ensures Handled(s.base, s.inputs, Begin(s.cell, t), s.inn, s.produced)
  {
    hide SoloInv; hide Tick;
    ReaderTick(s.cell, t);
    BeginSolo(s.cell, IN, t);
  }

  lemma StepHandled(s: Sys, e: Event)
    requires HandledOk(s)
    ensures HandledOk(Step(s, e))
  {
    hide Handled; hide Tick; hide Begin; hide Receive; hide InStep;
    HandlerThreads(s);
    match e
    case Arrival(input) => ReceiveHandled(s, input);
    case InRuns => InStepHandled(s);
    case MarketRuns => ReaderHandled(s, MARKET); ReaderHandled(s, TAPE);
    case NxCoreCalls => ReaderHandled(s, TAPE);
    case NxCoreEnds =>
    case OutRuns => ReaderHandled(s, OUT);
    case OutFails =>
    case MainRuns =>
  }

  /** The control thread's next step pushes a response. */
  predicate Pushing(s: Sys) {
    s.inn.InSend? && !s.out.OutOverrun?
  }

  /** A push adds its response at the end, both to what was produced and to what is on its way; nothing
      else changes either. */
  lemma StepOutgoing(s: Sys, e: Event)
    requires |s.cell.threads| == 4
    ensures var more := if e == InRuns && Pushing(s) then [s.inn.res] else [];
            Outgoing(Step(s, e)) == Outgoing(s) + more && Step(s, e).produced == s.produced + more
  {
    assert s.produced + [] == s.produced && Outgoing(s) + [] == Outgoing(s);
    hide InStep; hide OutStep; hide MarketStep; hide Receive; hide Begin; hide Outgoing;
    match e
    case Arrival(input) => ReceiveOutgoing(s, input);
    case InRuns => InStepOutgoing(s);
    case MarketRuns => MarketStepOutgoing(s);
    case OutRuns => OutStepOutgoing(s);
    case _ => OtherOutgoing(s, e);
  }

  lemma ReceiveOutgoing(s: Sys, input: Input)
    requires |s.cell.threads| == 4
    ensures Outgoing(Receive(s, input)) == Outgoing(s) && Receive(s, input).produced == s.produced
  {
    hide Handle; hide Fits;
  }

  lemma InStepOutgoing(s: Sys)
    requires |s.cell.threads| == 4
    ensures var more := if s.inn.InSend? then [s.inn.res] else [];
            Outgoing(InStep(s)) == Outgoing(s) + more && InStep(s).produced == s.produced + more
  {
    hide Tick;
    if s.inn.InSend? {
      assert Outgoing(s) + [s.inn.res] == s.forwarded + InFlight(s.out) + (s.fifo + [s.inn.res]);
    }
  }

  lemma MarketStepOutgoing(s: Sys)
    requires |s.cell.threads| == 4
    ensures Outgoing(MarketStep(s)) == Outgoing(s) && MarketStep(s).produced == s.produced
  {
    hide Tick; hide Begin;
  }

  lemma OutStepOutgoing(s: Sys)
    requires |s.cell.threads| == 4
    ensures Outgoing(OutStep(s)) == Outgoing(s) && OutStep(s).produced == s.produced
  {
    hide Tick; hide Begin; hide FitsReceiveBuffer;
    if s.out == OutRecv && |s.fifo| > 0 {
      assert s.fifo == [s.fifo[0]] + s.fifo[1..];
    }
  }

  lemma OtherOutgoing(s: Sys, e: Event)
    requires |s.cell.threads| == 4 && (e == NxCoreCalls || e == NxCoreEnds || e == OutFails || e == MainRuns)
    ensures Outgoing(Step(s, e)) == Outgoing(s) && Step(s, e).produced == s.produced
  {
    hide Begin;
  }

  lemma StepQueueOk(s: Sys, e: Event)
    requires |s.cell.threads| == 4 && QueueOk(s)
    ensures QueueOk(Step(s, e))
  {
    hide Step;
    StepOutgoing(s, e);
  }

  lemma StepInOk(s: Sys, e: Event)
    requires InOk(s)
    ensures InOk(Step(s, e))
  {
    hide Handled; hide QueueOk; hide Step;
    HandlerThreads(s);
    StepHandled(s, e);
    StepQueueOk(s, e);
  }

  lemma {:induction false} PlayInOk(s: Sys, es: seq<Event>)
    requires InOk(s)
    ensures InOk(Play(s, es))
  {
    if |es| > 0 {
      PlayInOk(s, es[..|es| - 1]);
      StepInOk(Play(s, es[..|es| - 1]), es[|es| - 1]);
    }
  }

  // ---------- the readers: what the market and the output thread know ----------

  /** The market thread's record, its own callback's poll, and how they relate. */
  ghost predicate MarketOk(c: State, market: MarketPc) {
    && |c.threads| == 4
    && var m, n := c.threads[MARKET], c.threads[TAPE];
       match market
       case MarketPoll => m.pc == Idle && n.pc == Idle
       case MarketPolling => n.pc == Idle && 0 <= m.floor
       case MarketRun => m.pc == Idle && n.pc == Idle && m.loc.cmd == CMD_RUN
       case MarketCallback => m.pc == Idle && m.loc.cmd == CMD_RUN && m.Last() <= n.floor && 0 <= n.floor
       case MarketDone => m.pc == Idle && n.pc == Idle && m.loc.cmd == CMD_SHUTDOWN
  }

  ghost predicate OutOk(c: State, out: OutPc) {
    && |c.threads| == 4
    && var o := c.threads[OUT];
       match out
       case OutPoll => o.pc == Idle
       case OutPolling => 0 <= o.floor
       case OutRecv => o.pc == Idle && o.loc.cmd != CMD_SHUTDOWN
       case OutSend(_) => o.pc == Idle
       case OutOverrun(_) => o.pc == Idle
       case OutDone => o.pc == Idle && o.loc.cmd == CMD_SHUTDOWN
  }

  /** The output thread has polled, or its poll has taken effect, before the latest publication:
      its next wait is decided on an old command. */
  predicate OutStale(c: State, out: OutPc)
    requires |c.threads| == 4
  {
    out == OutRecv ||
    (out == OutPolling && Settled(c.threads[OUT].pc) && c.threads[OUT].Last() < c.Latest())
  }

  /** SHUTDOWN has been published: its version write has happened. */
  predicate ShutdownPublished(c: State) {
    |c.history| > 0 && c.history[|c.history| - 1].cmd == CMD_SHUTDOWN
  }

  /** The handshake: once the control thread is through, an output thread about to wait on an old
      command finds a response waiting. */
  ghost predicate Handshake(s: Sys) {
    && |s.cell.threads| == 4
    && (s.inn == InDone && OutStale(s.cell, s.out) ==> |s.fifo| > 0)
  }

  ghost predicate JoinOk(s: Sys) {
    && (s.joined >= 1 ==> s.market == MarketDone)
    && (s.joined >= 2 ==> s.out == OutDone)
    && (s.joined >= 3 ==> s.inn == InDone)
    && s.joined <= 4
  }

  /** If every missing tape has a path within the limit, nothing received is longer than its buffer. */
  predicate BufferOk(s: Sys) {
    AllAnswerable(s.base, s.inputs) ==>
      !s.out.OutOverrun? && AllFitReceiveBuffer(Outgoing(s))
  }

  /** What holds whether or not the control thread's sends succeed. */
  ghost predicate CoreOk(s: Sys) {
    && HandledOk(s)
    && MarketOk(s.cell, s.market)
    && OutOk(s.cell, s.out)
    && JoinOk(s)
    && BufferOk(s)
  }

  ghost predicate SysOk(s: Sys) {
    CoreOk(s) && Handshake(s)
  }

  predicate Bounded(s: Sys) {
    s.cell.Latest() <= LAST_EXACT
  }

  /** How far the sequential handler is ahead of the server: by the call in progress at most. */
  lemma HandlerAhead(s: Sys)
    requires HandledOk(s)
    ensures |s.cell.threads| == 4 && AllFit(s.base, s.inputs) && s.cell.threads[IN].init.cmd == CMD_INIT
    ensures s.cell.threads[IN].init.size == 0
    ensures var th, sv := s.cell.threads[IN], Serve(s.base, s.cell.threads[IN].init, s.inputs);
            && th.loc == sv.local
            && s.produced <= sv.responses
            && |sv.responses| == |s.inputs| <= |s.produced| + 1
            && 0 < |s.cell.history| && s.cell.history <= HistoryOf(sv)
            && (Settled(th.pc) ==> s.cell.history == HistoryOf(sv))
            && (!Settled(th.pc) ==> |s.cell.history| < |HistoryOf(sv)|)
            && (!s.inn.InCall? ==> th.pc == Idle)
            && (s.inn == InRecv ==> CMD_SHUTDOWN < th.loc.cmd)
            && (s.inn == InDone ==> th.loc.cmd <= CMD_SHUTDOWN)
            && (match s.inn
                case InRecv => s.produced == sv.responses
                case InDone => s.produced == sv.responses
                case InCall(res) => s.produced + [res] == sv.responses
                case InSend(res) => s.produced + [res] == sv.responses)
  {
  }

  lemma WellFormedPrefix(h: seq<Pub>, n: nat)
    requires WellFormed(h) && 0 < n <= |h|
    ensures WellFormed(h[..n])
  {
  }

  lemma LastCommand(sv: Served)
    requires sv.local.cmd == (if |sv.pubs| == 0 then CMD_INIT else sv.pubs[|sv.pubs| - 1].cmd)
    ensures HistoryOf(sv)[|HistoryOf(sv)| - 1].cmd == sv.local.cmd
  {
  }

  /** The published history of a running server is well formed; between publications its last
      command is the one in the control thread's record. */
  lemma HistoryOk(s: Sys)
    requires HandledOk(s)
    ensures WellFormed(s.cell.history)
    ensures Settled(s.cell.threads[IN].pc) ==>
              s.cell.history[s.cell.Latest()].cmd == s.cell.threads[IN].loc.cmd
    ensures !s.inn.InCall? ==> s.cell.threads[IN].pc == Idle
  {
    hide Handled; hide Serve; hide WellFormed; hide HistoryOf; hide ResponsesOk; hide Publishes; hide PayloadsOk;
    HandlerAhead(s);
    ServeAccounted(s.base, s.cell.threads[IN].init, s.inputs);
    var sv := Serve(s.base, s.cell.threads[IN].init, s.inputs);
    var h := s.cell.history;
    HistoryIs(sv);
    LastCommand(sv);
    WellFormedPrefix(HistoryOf(sv), |h|);
    assert h == HistoryOf(sv)[..|h|];
  }

  lemma HistoryIs(sv: Served)
    ensures HistoryOf(sv) == [Pub(CMD_INIT, [])] + sv.pubs
  {
  }

  lemma InitIs(s: Sys)
    requires HandledOk(s)
    ensures |s.cell.threads| == 4
    ensures forall t :: 0 <= t < 4 ==> s.cell.threads[t].init.cmd == CMD_INIT
  {
  }

  lemma StartSysOk(s: Sys)
    requires Start(s)
    ensures SysOk(s)
  {
    StartInOk(s);
  }

  // The control thread's steps, seen by the readers.

  lemma MarketFrame(c: State, c': State, market: MarketPc)
    requires MarketOk(c, market) && |c'.threads| == 4
    requires c'.threads[MARKET] == c.threads[MARKET] && c'.threads[TAPE] == c.threads[TAPE]
    ensures MarketOk(c', market)
  {
  }

  lemma OutFrame(c: State, c': State, out: OutPc)
    requires OutOk(c, out) && |c'.threads| == 4 && c'.threads[OUT] == c.threads[OUT]
    ensures OutOk(c', out)
    ensures c'.history == c.history ==> OutStale(c', out) == OutStale(c, out)
  {
  }

  /** A reader between calls whose call began when something was published shows a publication at
      least that new. */
  lemma ReaderReturns(s: Sys, t: nat)
    requires HandledOk(s) && Bounded(s) && 0 < t < 4 && s.cell.threads[t].pc == Idle && 0 <= s.cell.threads[t].floor
    ensures var th := s.cell.threads[t];
            && th.floor <= th.Last() <= s.cell.Latest()
            && th.loc.cmd == s.cell.history[th.Last()].cmd
  {
  }

  lemma SoloOf(s: Sys)
    requires HandledOk(s)
    ensures SoloInv(s.cell, IN) && |s.cell.threads| == 4 && |s.cell.history| > 0
  {
  }

  lemma MarketStepOk(s: Sys)
    requires CoreOk(s)
    ensures MarketOk(MarketStep(s).cell, MarketStep(s).market)
  {
    hide SoloInv; hide Handled; hide Tick; hide Begin;
    SoloOf(s);
    match s.market
    case MarketPoll => CellBegin(s.cell, MARKET);
    case MarketPolling => ReaderTick(s.cell, MARKET); ReaderEffect(s.cell, MARKET);
    case MarketRun =>
    case MarketCallback => ReaderTick(s.cell, TAPE); ReaderEffect(s.cell, TAPE);
    case MarketDone =>
  }

  lemma OutStepOk(s: Sys)
    requires CoreOk(s)
    ensures OutOk(OutStep(s).cell, OutStep(s).out)
  {
    hide SoloInv; hide Handled; hide Tick; hide Begin;
    SoloOf(s);
    match s.out
    case OutPoll => CellBegin(s.cell, OUT);
    case OutPolling => ReaderTick(s.cell, OUT); ReaderEffect(s.cell, OUT);
    case OutRecv =>
    case OutSend(_) =>
    case OutDone =>
    case OutOverrun(_) =>
  }

  /** A call on behalf of one thread does not move the others. */
  lemma StepFrame(s: Sys, e: Event)
    requires |s.cell.threads| == 4
    ensures var s' := Step(s, e);
            && (e.MarketRuns? || e.NxCoreCalls? || e.NxCoreEnds? ||
                (s'.market == s.market && s'.cell.threads[MARKET] == s.cell.threads[MARKET]
                 && s'.cell.threads[TAPE] == s.cell.threads[TAPE]))
            && (e.OutRuns? || e.OutFails? || (s'.out == s.out && s'.cell.threads[OUT] == s.cell.threads[OUT]))
            && (e.InRuns? || e.MarketRuns? || e.OutRuns? || s'.cell.history == s.cell.history)
  {
    hide Tick; hide Begin; hide Receive; hide FitsReceiveBuffer;
    TickFrame(s.cell, IN);
    TickFrame(s.cell, MARKET);
    TickFrame(s.cell, TAPE);
    TickFrame(s.cell, OUT);
    BeginFrame(s.cell, MARKET);
    BeginFrame(s.cell, TAPE);
    BeginFrame(s.cell, OUT);
    if e.Arrival? {
      ReceiveFrame(s, e.input);
    }
  }

  lemma ReceiveFrame(s: Sys, input: Input)
    requires |s.cell.threads| == 4
    ensures var s' := Receive(s, input);
            && (forall t :: 0 < t < 4 ==> s'.cell.threads[t] == s.cell.threads[t])
            && s'.cell.threads[IN].init == s.cell.threads[IN].init
            && s'.cell.history == s.cell.history && s'.market == s.market && s'.continues == s.continues
            && s'.out == s.out
  {
    hide Handle; hide Fits;
  }

  lemma StepMarketOk(s: Sys, e: Event)
    requires CoreOk(s)
    ensures MarketOk(Step(s, e).cell, Step(s, e).market)
  {
    HandlerThreads(s);
    StepFrame(s, e);
    hide Handled; hide MarketStep; hide InStep; hide OutStep; hide Receive; hide Begin;
    match e
    case MarketRuns => MarketStepOk(s);
    case NxCoreCalls => CallbackMarketOk(s);
    case NxCoreEnds =>
    case _ => MarketFrame(s.cell, Step(s, e).cell, s.market);
  }

  lemma CallbackMarketOk(s: Sys)
    requires CoreOk(s)
    ensures MarketOk(Callback(s).cell, Callback(s).market)
  {
    if s.market == MarketRun {
      SoloOf(s);
      hide SoloInv; hide Handled; hide Begin;
      ReaderLast(s.cell, MARKET);
      CellBegin(s.cell, TAPE);
    }
  }

  lemma ReaderLast(c: State, t: nat)
    requires SoloInv(c, IN) && t < |c.threads| && t != IN && !c.threads[t].pc.Copy?
    ensures c.threads[t].Last() <= c.Latest()
  {
    ReaderShows(c, t);
  }

  lemma StepOutOk(s: Sys, e: Event)
    requires CoreOk(s)
    ensures OutOk(Step(s, e).cell, Step(s, e).out)
  {
    HandlerThreads(s);
    StepFrame(s, e);
    hide Handled; hide MarketStep; hide InStep; hide OutStep; hide Receive; hide Callback;
    match e
    case OutRuns => OutStepOk(s);
    case OutFails =>
    case _ => OutFrame(s.cell, Step(s, e).cell, s.out);
  }

  /** The answer the control thread is about to send fits, if every missing tape is within the limit. */
  lemma SendFits(s: Sys)
    requires HandledOk(s) && s.inn.InSend? && AllAnswerable(s.base, s.inputs)
    ensures FitsReceiveBuffer(s.inn.res)
  {
    hide SoloInv; hide Serve; hide FitsReceiveBuffer; hide Answerable;
    var sv := Serve(s.base, s.cell.threads[IN].init, s.inputs);
    ServeFits(s.base, s.cell.threads[IN].init, s.inputs);
    assert sv.responses[|sv.responses| - 1] == s.inn.res;
  }

  lemma InStepBufferOk(s: Sys)
    requires HandledOk(s) && BufferOk(s)
    ensures BufferOk(InStep(s))
  {
    HandlerThreads(s);
    if s.inn.InSend? && AllAnswerable(s.base, s.inputs) {
      SendFits(s);
      hide Handled; hide FitsReceiveBuffer;
      assert Outgoing(InStep(s)) == Outgoing(s) + [s.inn.res];
    }
  }

  lemma OutStepBufferOk(s: Sys)
    requires |s.cell.threads| == 4 && BufferOk(s)
    ensures BufferOk(OutStep(s))
  {
    hide FitsReceiveBuffer; hide Answerable; hide Tick; hide Begin;
    if AllAnswerable(s.base, s.inputs) {
      if s.out == OutRecv && |s.fifo| > 0 {
        assert FitsReceiveBuffer(Outgoing(s)[|s.forwarded|]);
        assert Outgoing(OutStep(s)) == Outgoing(s);
      } else if s.out.OutSend? {
        assert Outgoing(OutStep(s)) == Outgoing(s);
      }
    }
  }

  lemma StepBufferOk(s: Sys, e: Event)
    requires HandledOk(s) && BufferOk(s)
    ensures BufferOk(Step(s, e))
  {
    HandlerThreads(s);
    hide Handled; hide MarketStep; hide FitsReceiveBuffer; hide Answerable; hide Begin;
    match e
    case Arrival(input) => ReceiveBufferOk(s, input);
    case InRuns => InStepBufferOk(s);
    case MarketRuns => MarketStepBuffer(s);
    case OutRuns => OutStepBufferOk(s);
    case _ =>
  }

  lemma MarketStepBuffer(s: Sys)
    requires |s.cell.threads| == 4
    ensures var s' := MarketStep(s);
            s'.inputs == s.inputs && s'.base == s.base && s'.out == s.out && Outgoing(s') == Outgoing(s)
  {
  }

  lemma ReceiveBufferOk(s: Sys, input: Input)
    requires |s.cell.threads| == 4 && BufferOk(s)
    ensures BufferOk(Receive(s, input))
  {
    hide Handle; hide Fits; hide Answerable; hide FitsReceiveBuffer; hide Begin;
    var s' := Receive(s, input);
    assert forall i :: 0 <= i < |s.inputs| ==> s'.inputs[i] == s.inputs[i];
  }

  lemma StepJoinOk(s: Sys, e: Event)
    requires CoreOk(s)
    ensures JoinOk(Step(s, e))
  {
    hide Handled; hide Tick; hide Begin; hide Handle; hide Fits; hide FitsReceiveBuffer;
  }

  lemma StepCoreOk(s: Sys, e: Event)
    requires CoreOk(s)
    ensures CoreOk(Step(s, e))
  {
    hide Handled; hide MarketOk; hide OutOk; hide JoinOk; hide BufferOk; hide Step;
    HandlerThreads(s);
    StepHandled(s, e);
    StepMarketOk(s, e);
    StepOutOk(s, e);
    StepBufferOk(s, e);
    StepJoinOk(s, e);
  }

  /** Once the control thread is through, the latest publication is SHUTDOWN. */
  lemma DoneMeansShutdown(s: Sys)
    requires HandledOk(s) && s.inn == InDone
    ensures ShutdownPublished(s.cell)
  {
    hide Handled; hide Serve; hide HistoryOf;
    HistoryOk(s);
    HandlerAhead(s);
  }

  lemma OutStepHandshake(s: Sys)
    requires SysOk(s) && Bounded(s)
    ensures Handshake(OutStep(s))
  {
    hide SoloInv; hide Handled; hide Tick; hide Begin;
    SoloOf(s);
    if s.inn == InDone {
      match s.out
      case OutPoll => CellBegin(s.cell, OUT);
      case OutPolling =>
        ReaderTick(s.cell, OUT);
        ReaderEffect(s.cell, OUT);
        DoneMeansShutdown(s);
        if s.cell.threads[OUT].pc == Idle {
          ReaderReturns(s, OUT);
        }
      case OutRecv =>
      case OutSend(_) =>
      case OutDone =>
      case OutOverrun(_) =>
    }
  }

  /** The control thread ends by pushing a response. */
  lemma InStepHandshake(s: Sys)
    requires SysOk(s)
    ensures Handshake(InStep(s))
  {
    hide SoloInv; hide Handled; hide Tick;
    SoloOf(s);
    WriterTick(s.cell);
    OutFrame(s.cell, Tick(s.cell, IN), s.out);
  }

  lemma StepHandshake(s: Sys, e: Event)
    requires SysOk(s) && Bounded(s)
    ensures Handshake(Step(s, e))
  {
    HandlerThreads(s);
    StepFrame(s, e);
    hide Handled; hide MarketStep; hide InStep; hide OutStep; hide Tick; hide Begin; hide Handle; hide Fits;
    match e
    case InRuns => InStepHandshake(s);
    case OutRuns => OutStepHandshake(s);
    case MarketRuns => MarketStepFrame(s); OutFrame(s.cell, MarketStep(s).cell, s.out);
    case _ => OutFrame(s.cell, Step(s, e).cell, s.out);
  }

  lemma MarketStepFrame(s: Sys)
    requires HandledOk(s)
    ensures var s' := MarketStep(s);
            && s'.inn == s.inn && s'.fifo == s.fifo && s'.cell.history == s.cell.history
            && |s'.cell.threads| == 4 && s'.cell.threads[OUT] == s.cell.threads[OUT]
  {
    hide Handled; hide SoloInv; hide Tick; hide Begin;
    SoloOf(s);
    BeginFrame(s.cell, MARKET);
    ReaderTick(s.cell, MARKET);
    ReaderTick(s.cell, TAPE);
  }

  lemma CoreShape(s: Sys)
    requires CoreOk(s)
    ensures |s.cell.threads| == 4 && HandledOk(s)
  {
  }

  lemma CoreSolo(s: Sys)
    requires CoreOk(s)
    ensures |s.cell.threads| == 4 && SoloInv(s.cell, IN)
  {
  }

  lemma StepSysOk(s: Sys, e: Event)
    requires SysOk(s) && Bounded(s)
    ensures SysOk(Step(s, e))
  {
    CoreShape(s);
    hide CoreOk; hide Handshake; hide Step;
    StepCoreOk(s, e);
    StepHandshake(s, e);
  }

  lemma {:induction false} PlayCoreOk(s: Sys, es: seq<Event>)
    requires CoreOk(s)
    ensures CoreOk(Play(s, es))
  {
    CoreShape(s);
    hide CoreOk; hide Step;
    if |es| > 0 {
      PlayCoreOk(s, es[..|es| - 1]);
      StepCoreOk(Play(s, es[..|es| - 1]), es[|es| - 1]);
    }
  }

  /** Publications are never taken back, and the records of the beginning never change. */
  predicate Grown(c: State, c': State) {
    && c.history <= c'.history && |c'.threads| == |c.threads|
    && forall t :: 0 <= t < |c.threads| ==> c'.threads[t].init == c.threads[t].init
  }

  lemma TickGrown(c: State, t: nat)
    requires t < |c.threads|
    ensures Grown(c, Tick(c, t)) && Grown(c, Begin(c, t)) && Grown(c, c)
  {
    hide Tick; hide Begin;
    TickFrame(c, t);
    BeginFrame(c, t);
  }

  lemma MarketStepGrown(s: Sys)
    requires |s.cell.threads| == 4
    ensures Grown(s.cell, MarketStep(s).cell) && Grown(s.cell, Callback(s).cell)
  {
    hide Tick; hide Begin; hide Grown;
    TickGrown(s.cell, MARKET);
    TickGrown(s.cell, TAPE);
  }

  lemma OutStepGrown(s: Sys)
    requires |s.cell.threads| == 4
    ensures Grown(s.cell, OutStep(s).cell)
  {
    hide Tick; hide Begin; hide Grown; hide FitsReceiveBuffer;
    TickGrown(s.cell, OUT);
  }

  lemma ReceiveGrown(s: Sys, input: Input)
    requires |s.cell.threads| == 4
    ensures Grown(s.cell, Receive(s, input).cell)
  {
    hide Receive;
    ReceiveFrame(s, input);
  }

  lemma StepGrown(s: Sys, e: Event)
    requires |s.cell.threads| == 4
    ensures Grown(s.cell, Step(s, e).cell)
  {
    hide Tick; hide Grown; hide Receive; hide MarketStep; hide Callback; hide OutStep;
    TickGrown(s.cell, IN);
    match e
    case Arrival(input) => ReceiveGrown(s, input);
    case MarketRuns => MarketStepGrown(s);
    case NxCoreCalls => MarketStepGrown(s);
    case OutRuns => OutStepGrown(s);
    case _ =>
  }

  lemma {:induction false} PlaySysOk(s: Sys, es: seq<Event>)
    requires SysOk(s) && Bounded(Play(s, es))
    ensures SysOk(Play(s, es))
  {
    if |es| > 0 {
      var mid := Play(s, es[..|es| - 1]);
      StepGrown(mid, es[|es| - 1]);
      PlaySysOk(s, es[..|es| - 1]);
      StepSysOk(mid, es[|es| - 1]);
    }
  }
}
