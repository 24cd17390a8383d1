/** The Java client's request/response correlation, composed with the server's handler: calls that
    register a processor and then enqueue, a sender, a lossy and reordering but never duplicating
    transport, and one receiver. Processors are numbers; running one is recorded. */
module Client {
  import opened Wrappers
  import opened Ctrl
  import opened Requests
  import opened Wire

  /** Capacity of the request queue. */
  const QUEUE_CAPACITY := 20

  datatype CallStage = Entered | Registered | Queued | Rejected

  /** One call of `put`. */
  datatype Call = Call(req: Request, proc: Option<int>, stage: CallStage)

  datatype Sender = Taking | Holding(req: Request) | Stopped

  /** `Removing(i)`: the map was found to contain the id of response i. */
  datatype Receiver = Receiving | Removing(i: nat)

  /** A processor that ran, and the response it was given. */
  datatype Ran = Ran(proc: int, i: nat)

  /** `order` lists the enqueued calls, `inputs` the requests the server has read; response i answers
      input i. `net` holds the responses under way. `consumed`, `ran`, `defaulted` and `crashed` record
      what the receiver did; it crashes if it removes an id that is not in the map. */
  datatype World = World(calls: seq<Call>, procs: map<int, int>, queue: seq<Request>, sender: Sender,
                         sent: seq<Request>, order: seq<nat>, base: string, server: Record, inputs: seq<Input>,
                         net: set<nat>, receiver: Receiver, consumed: set<nat>, ran: seq<Ran>,
                         defaulted: seq<nat>, crashed: bool)

  predicate Start(w: World) {
    && w.calls == [] && w.procs == map[] && w.queue == [] && w.sender == Taking && w.sent == []
    && w.order == [] && w.server.cmd == CMD_INIT && w.server.size == 0 && w.inputs == []
    && w.net == {} && w.receiver == Receiving
    && w.consumed == {} && w.ran == [] && w.defaulted == [] && !w.crashed
  }

  // ---------- the client's operations on its own data ----------

  function Register(procs: map<int, int>, id: int, proc: Option<int>): map<int, int> {
    if proc.Some? then procs[id := proc.value] else procs
  }

  /** ArrayBlockingQueue.add: refuses when the queue is full. */
  function Add(queue: seq<Request>, req: Request): Option<seq<Request>> {
    if |queue| < QUEUE_CAPACITY then Some(queue + [req]) else None
  }

  // ---------- steps ----------

  datatype Event =
    | Put(req: Request, proc: Option<int>)  // a call of put begins
    | CallRuns(j: nat)                      // call j registers, or enqueues
    | SenderRuns
    | ServerReads(found: bool)
    | Lose(i: nat)
    | Deliver(i: nat)                       // the receiver gets response i and looks it up
    | ReceiverRuns                          // it removes and runs the processor

  function CallStep(w: World, j: nat): World {
    if j >= |w.calls| then w else
    var c := w.calls[j];
    match c.stage
    case Entered =>
      w.(procs := Register(w.procs, c.req.id, c.proc), calls := w.calls[j := c.(stage := Registered)])
    case Registered =>
      (match Add(w.queue, c.req)
       case Some(q) => w.(queue := q, order := w.order + [j], calls := w.calls[j := c.(stage := Queued)])
       case None => w.(calls := w.calls[j := c.(stage := Rejected)]))
    case Queued => w
    case Rejected => w
  }

  function SenderStep(w: World): World {
    match w.sender
    case Taking => if |w.queue| == 0 then w else w.(sender := Holding(w.queue[0]), queue := w.queue[1..])
    case Holding(req) =>
      w.(sent := w.sent + [req], sender := if req.kind == Shutdown then Stopped else Taking)
    case Stopped => w
  }

  function Responses(w: World): seq<Response> {
    if AllFit(w.base, w.inputs) then Serve(w.base, w.server, w.inputs).responses else []
  }

  /** The server reads the next request, while it still reads any, and as long as neither the request
      nor its answer overruns a buffer. */
  function ServerStep(w: World, found: bool): World {
    if |w.inputs| >= |w.sent| || !AllFit(w.base, w.inputs) then w else
    var input := Input(w.sent[|w.inputs|], found);
    if !Fits(w.base, input) || !Answerable(w.base, input) then w
    else if Serve(w.base, w.server, w.inputs).local.cmd <= CMD_SHUTDOWN then w
    else w.(inputs := w.inputs + [input], net := w.net + {|w.inputs|})
  }

  function DeliverStep(w: World, i: nat): World {
    if w.receiver != Receiving || i !in w.net || i >= |Responses(w)| then w
    else if Responses(w)[i].id in w.procs then
      w.(net := w.net - {i}, consumed := w.consumed + {i}, receiver := Removing(i))
    else
      w.(net := w.net - {i}, consumed := w.consumed + {i}, defaulted := w.defaulted + [i])
  }

  function ReceiverStep(w: World): World {
    if !w.receiver.Removing? || w.receiver.i >= |Responses(w)| then w else
    var id := Responses(w)[w.receiver.i].id;
    if id !in w.procs then w.(crashed := true, receiver := Receiving)
    else w.(procs := w.procs - {id}, ran := w.ran + [Ran(w.procs[id], w.receiver.i)], receiver := Receiving)
  }

  function Step(w: World, e: Event): World {
    match e
    case Put(req, proc) => w.(calls := w.calls + [Call(req, proc, Entered)])
    case CallRuns(j) => CallStep(w, j)
    case SenderRuns => SenderStep(w)
    case ServerReads(found) => ServerStep(w, found)
    case Lose(i) => w.(net := w.net - {i})
    case Deliver(i) => DeliverStep(w, i)
    case ReceiverRuns => ReceiverStep(w)
  }

  function Play(w: World, es: seq<Event>): World {
    if |es| == 0 then w else Step(Play(w, es[..|es| - 1]), es[|es| - 1])
  }

  // ---------- sending ----------

  function InHand(s: Sender): seq<Request> {
    if s.Holding? then [s.req] else []
  }

  /** Requests go out in the order they were enqueued, none is lost on the way, none follows the
      first SHUTDOWN, and the queue never holds more than its capacity. */
  ghost predicate SendOk(w: World) {
    && (forall k :: 0 <= k < |w.order| ==> 0 <= w.order[k] < |w.calls| && w.calls[w.order[k]].stage == Queued)
    && |w.sent + InHand(w.sender) + w.queue| == |w.order|
    && (forall k :: 0 <= k < |w.order| ==>
          (w.sent + InHand(w.sender) + w.queue)[k] == w.calls[w.order[k]].req)
    && |w.queue| <= QUEUE_CAPACITY
    && (forall k :: 0 <= k < |w.sent| && w.sent[k].kind == Shutdown ==> k == |w.sent| - 1 && w.sender == Stopped)
  }

  lemma CallStepSendOk(w: World, j: nat)
    requires SendOk(w)
    ensures SendOk(CallStep(w, j))
  {
    if j < |w.calls| && w.calls[j].stage == Registered && |w.queue| < QUEUE_CAPACITY {
      var out, req := w.sent + InHand(w.sender), w.calls[j].req;
      assert out + (w.queue + [req]) == out + w.queue + [req];
    }
  }

  lemma SenderStepSendOk(w: World)
    requires SendOk(w)
    ensures SendOk(SenderStep(w))
  {
    if w.sender == Taking && |w.queue| > 0 {
      assert w.sent + [] + w.queue == w.sent + [w.queue[0]] + w.queue[1..];
    } else if w.sender.Holding? {
      assert w.sent + [w.sender.req] + w.queue == (w.sent + [w.sender.req]) + [] + w.queue;
    }
  }

  lemma StepSendOk(w: World, e: Event)
    requires SendOk(w)
    ensures SendOk(Step(w, e))
  {
    hide CallStep; hide SenderStep; hide Serve; hide Responses; hide Fits; hide AllFit; hide Answerable;
    match e
    case Put(req, proc) =>
    case CallRuns(j) => CallStepSendOk(w, j);
    case SenderRuns => SenderStepSendOk(w);
    case ServerReads(found) =>
    case Lose(i) =>
    case Deliver(i) =>
    case ReceiverRuns =>
  }

  lemma {:induction false} SendOrder(w: World, es: seq<Event>)
    requires Start(w)
    ensures SendOk(Play(w, es))
  {
    if |es| > 0 {
      SendOrder(w, es[..|es| - 1]);
      StepSendOk(Play(w, es[..|es| - 1]), es[|es| - 1]);
    }
  }

  // ---------- correlation ----------

  /** Calls share an id only if none of them came with a processor. */
  ghost predicate NoClash(calls: seq<Call>) {
    forall j, k :: 0 <= j < k < |calls| && calls[j].req.id == calls[k].req.id ==>
                     calls[j].proc == None && calls[k].proc == None
  }

  /** Response i answers the i-th enqueued call, and that call came with processor `proc`. */
  predicate Expects(w: World, i: nat, proc: Option<int>) {
    i < |w.order| && w.order[i] < |w.calls| && w.calls[w.order[i]].proc == proc
  }

  /** Call j's processor has run. */
  ghost predicate HasRun(w: World, j: nat) {
    exists k :: 0 <= k < |w.ran| && w.ran[k].i < |w.order| && w.order[w.ran[k].i] == j
  }

  /** The server has read a prefix of what was sent and made one response for each. */
  ghost predicate ServerOk(w: World) {
    && AllFit(w.base, w.inputs) && w.server.cmd == CMD_INIT && w.server.size == 0
    && |w.inputs| <= |w.sent|
    && (forall k :: 0 <= k < |w.inputs| ==> w.inputs[k].req == w.sent[k])
    && |Responses(w)| == |w.inputs|
  }

  /** No call is enqueued twice, and no response is both under way and consumed. */
  ghost predicate OrderOk(w: World) {
    && (forall k, l :: 0 <= k < l < |w.order| ==> w.order[k] != w.order[l])
    && (forall i :: i in w.net || i in w.consumed ==> i < |w.inputs|)
    && w.net !! w.consumed
  }

  predicate Waiting(c: Call) {
    c.proc.Some? && c.stage != Entered
  }

  /** The map holds exactly the processors of the calls that registered one and are not finished. */
  ghost predicate MapOk(w: World) {
    && (forall j :: 0 <= j < |w.calls| ==> CallOk(w, j))
    && (forall id :: id in w.procs ==> exists j :: 0 <= j < |w.calls| && w.calls[j].req.id == id)
  }

  ghost predicate CallOk(w: World, j: nat)
    requires j < |w.calls|
  {
    var c := w.calls[j];
    if Waiting(c) && !HasRun(w, j) then c.req.id in w.procs && w.procs[c.req.id] == c.proc.value
    else c.req.id !in w.procs
  }

  /** What the receiver did: each processor ran on its own call's response, each response was handled
      once, and the default got only responses of calls without a processor. */
  ghost predicate RanOk(w: World) {
    && !w.crashed
    && (forall k :: 0 <= k < |w.ran| ==> w.ran[k].i in w.consumed && Expects(w, w.ran[k].i, Some(w.ran[k].proc)))
    && (forall k, l :: 0 <= k < l < |w.ran| ==> w.ran[k].i != w.ran[l].i)
    && (forall k :: 0 <= k < |w.defaulted| ==> w.defaulted[k] in w.consumed && Expects(w, w.defaulted[k], None))
    && (forall k, l :: 0 <= k < l < |w.defaulted| ==> w.defaulted[k] != w.defaulted[l])
  }

  /** While the receiver is about to remove response i, that response has not been handled. */
  ghost predicate RemovingOk(w: World) {
    w.receiver.Removing? ==>
      var i := w.receiver.i;
      && i in w.consumed
      && i < |w.order| && w.order[i] < |w.calls| && w.calls[w.order[i]].proc.Some?
      && (forall k :: 0 <= k < |w.ran| ==> w.ran[k].i != i)
      && i !in w.defaulted
  }

  ghost predicate WorldOk(w: World) {
    SendOk(w) && ServerOk(w) && OrderOk(w) && MapOk(w) && RanOk(w) && RemovingOk(w)
  }

  /** A response carries the id of the call it answers. */
  lemma ResponseId(w: World, i: nat)
    requires SendOk(w) && ServerOk(w) && i < |w.inputs|
    ensures i < |w.order| && w.order[i] < |w.calls| && w.calls[w.order[i]].stage == Queued
    ensures Responses(w)[i].id == w.calls[w.order[i]].req.id
  {
    ServeAccounted(w.base, w.server, w.inputs);
    assert (w.sent + InHand(w.sender) + w.queue)[i] == w.sent[i];
  }

  /** What most steps leave alone: the map, what has run, and who is waiting for what. */
  ghost predicate SameMap(w: World, w': World) {
    && w'.procs == w.procs && w'.ran == w.ran && w'.defaulted == w.defaulted && w'.crashed == w.crashed
    && w'.receiver == w.receiver && w.order <= w'.order && w.consumed == w'.consumed
    && |w.calls| <= |w'.calls|
    && forall j :: 0 <= j < |w.calls| ==>
         && w'.calls[j].req == w.calls[j].req && w'.calls[j].proc == w.calls[j].proc
         && (Waiting(w'.calls[j]) <==> Waiting(w.calls[j]))
  }

  lemma ServerFrame(w: World, w': World)
    requires ServerOk(w) && w'.base == w.base && w'.server == w.server && w'.inputs == w.inputs && w.sent <= w'.sent
    ensures ServerOk(w')
  {
  }

  lemma RanFrame(w: World, w': World)
    requires RanOk(w) && RemovingOk(w)
    requires w'.ran == w.ran && w'.defaulted == w.defaulted && w'.crashed == w.crashed
    requires w'.receiver == w.receiver && w.order <= w'.order && w.consumed == w'.consumed && |w.calls| <= |w'.calls|
    requires forall j :: 0 <= j < |w.calls| ==> w'.calls[j].proc == w.calls[j].proc
    ensures RanOk(w') && RemovingOk(w')
  {
  }

  lemma CallFrame(w: World, w': World, j: nat)
    requires RanOk(w) && SameMap(w, w') && j < |w.calls| && CallOk(w, j)
    ensures CallOk(w', j)
  {
  }

  lemma MapFrame(w: World, w': World)
    requires RanOk(w) && SameMap(w, w') && MapOk(w) && |w'.calls| == |w.calls|
    ensures MapOk(w')
  {
    hide CallOk; hide RanOk; hide HasRun;
    forall j | 0 <= j < |w'.calls|
      ensures CallOk(w', j)
    {
      CallFrame(w, w', j);
    }
    forall id | id in w'.procs
      ensures exists j :: 0 <= j < |w'.calls| && w'.calls[j].req.id == id
    {
      var j :| 0 <= j < |w.calls| && w.calls[j].req.id == id;
      assert w'.calls[j].req.id == id;
    }
  }

  lemma PutOk(w: World, req: Request, proc: Option<int>)
    requires WorldOk(w) && NoClash(Step(w, Put(req, proc)).calls)
    ensures WorldOk(Step(w, Put(req, proc)))
  {
    var w' := Step(w, Put(req, proc));
    var n := |w.calls|;
    StepSendOk(w, Put(req, proc));
    RanFrame(w, w');
    assert forall j :: 0 <= j < n ==> w'.calls[j] == w.calls[j];
    assert forall j :: 0 <= j < n && w'.calls[j].req.id == w'.calls[n].req.id ==> w'.calls[j].proc == None;
    NewId(w, req.id);
    hide SendOk; hide RanOk; hide CallOk; hide HasRun;
    forall j | 0 <= j < n
      ensures CallOk(w', j)
    {
      CallFrame(w, w', j);
    }
    NewCallOk(w', n);
  }

  /** An id that only calls without a processor carry is not in the map. */
  lemma NewId(w: World, id: int)
    requires MapOk(w) && forall j :: 0 <= j < |w.calls| && w.calls[j].req.id == id ==> w.calls[j].proc == None
    ensures id !in w.procs
  {
    forall j | 0 <= j < |w.calls| && w.calls[j].req.id == id
      ensures id !in w.procs
    {
      UnregisteredId(w, j);
    }
  }

  lemma UnregisteredId(w: World, j: nat)
    requires j < |w.calls| && CallOk(w, j) && w.calls[j].proc == None
    ensures w.calls[j].req.id !in w.procs
  {
  }

  lemma NewCallOk(w: World, j: nat)
    requires j < |w.calls| && w.calls[j].stage == Entered && w.calls[j].req.id !in w.procs
    ensures CallOk(w, j)
  {
  }

  /** A call that has not been enqueued cannot have been answered. */
  lemma NotRun(w: World, j: nat)
    requires SendOk(w) && j < |w.calls| && w.calls[j].stage != Queued
    ensures !HasRun(w, j)
  {
  }

  lemma RegisterMapOk(w: World, j: nat)
    requires WorldOk(w) && NoClash(w.calls) && j < |w.calls| && w.calls[j].stage == Entered
    ensures MapOk(CallStep(w, j))
  {
    var w' := CallStep(w, j);
    NotRun(w, j);
    forall k | 0 <= k < |w.calls|
      ensures CallOk(w', k)
    {
      assert CallOk(w, k);
      assert HasRun(w', k) == HasRun(w, k);
      assert k < j && w.calls[j].proc.Some? ==> w.calls[k].req.id != w.calls[j].req.id;
      assert j < k && w.calls[j].proc.Some? ==> w.calls[j].req.id != w.calls[k].req.id;
    }
    forall id | id in w'.procs
      ensures exists k :: 0 <= k < |w'.calls| && w'.calls[k].req.id == id
    {
      if id == w.calls[j].req.id {
        assert w'.calls[j].req.id == id;
      } else {
        var k :| 0 <= k < |w.calls| && w.calls[k].req.id == id;
        assert w'.calls[k].req.id == id;
      }
    }
  }

  lemma RegisterOk(w: World, j: nat)
    requires WorldOk(w) && NoClash(w.calls) && j < |w.calls| && w.calls[j].stage == Entered
    ensures WorldOk(CallStep(w, j))
  {
    var w' := CallStep(w, j);
    CallStepSendOk(w, j);
    RegisterMapOk(w, j);
    hide SendOk; hide MapOk;
    RanFrame(w, w');
  }

  lemma NotInOrder(w: World, j: nat)
    requires SendOk(w) && j < |w.calls| && w.calls[j].stage != Queued
    ensures forall i :: 0 <= i < |w.order| ==> w.order[i] != j
  {
  }

  lemma EnqueueOk(w: World, j: nat)
    requires WorldOk(w) && j < |w.calls| && w.calls[j].stage == Registered
    ensures WorldOk(CallStep(w, j))
  {
    hide MapOk; hide RanOk; hide RemovingOk; hide ServerOk; hide Responses; hide SendOk; hide CallOk;
    var w' := CallStep(w, j);
    CallStepSendOk(w, j);
    ServerFrame(w, w');
    NotInOrder(w, j);
    RanFrame(w, w');
    MapFrame(w, w');
  }

  lemma ServerReadsOk(w: World, found: bool)
    requires SendOk(w) && ServerOk(w) && OrderOk(w)
    ensures ServerOk(ServerStep(w, found)) && OrderOk(ServerStep(w, found))
  {
    hide SendOk; hide Handle; hide Serve;
    var w' := ServerStep(w, found);
    if w' != w {
      ServeSnoc(w.base, w.server, w.inputs, w'.inputs[|w.inputs|]);
    }
  }

  /** The server touches nothing of the client's. */
  lemma ServerStepShape(w: World, found: bool)
    ensures var w' := ServerStep(w, found);
            w' == w.(inputs := w'.inputs, net := w'.net)
  {
  }

  lemma ServerStepOk(w: World, found: bool)
    requires WorldOk(w)
    ensures WorldOk(ServerStep(w, found))
  {
    hide SendOk; hide MapOk; hide RanOk; hide RemovingOk; hide ServerOk; hide OrderOk; hide ServerStep;
    StepSendOk(w, ServerReads(found));
    ServerReadsOk(w, found);
    ServerStepShape(w, found);
    RanFrame(w, ServerStep(w, found));
    MapFrame(w, ServerStep(w, found));
  }

  /** A response whose id is in the map belongs to a call with a processor, and one whose id is not
      belongs to a call without. */
  lemma LookupTells(w: World, i: nat)
    requires WorldOk(w) && i in w.net
    ensures i < |Responses(w)| && i < |w.order| && w.order[i] < |w.calls|
    ensures Responses(w)[i].id in w.procs <==> w.calls[w.order[i]].proc.Some?
  {
    ResponseId(w, i);
    var j := w.order[i];
    assert CallOk(w, j);
    assert forall k :: 0 <= k < |w.ran| ==> w.ran[k].i != i;
  }

  lemma DeliverRanOk(w: World, i: nat)
    requires WorldOk(w) && i in w.net && w.receiver == Receiving && i < |Responses(w)|
    ensures var w' := DeliverStep(w, i); OrderOk(w') && RanOk(w') && RemovingOk(w')
  {
    hide SendOk; hide MapOk; hide ServerOk; hide Responses;
    var w' := DeliverStep(w, i);
    LookupTells(w, i);
    assert forall k :: 0 <= k < |w.ran| ==> w.ran[k].i != i;
    assert i !in w.defaulted;
    assert forall k, p :: Expects(w, k, p) ==> Expects(w', k, p);
  }

  lemma DeliverOk(w: World, i: nat)
    requires WorldOk(w)
    ensures WorldOk(DeliverStep(w, i))
  {
    var w' := DeliverStep(w, i);
    if w' != w {
      StepSendOk(w, Deliver(i));
      LookupTells(w, i);
      DeliverRanOk(w, i);
      hide SendOk; hide RanOk; hide RemovingOk; hide OrderOk;
      DeliverMapOk(w, i);
    }
  }

  lemma DeliverMapOk(w: World, i: nat)
    requires MapOk(w)
    ensures MapOk(DeliverStep(w, i))
  {
    assert forall j :: 0 <= j < |w.calls| && CallOk(w, j) ==> CallOk(DeliverStep(w, i), j);
  }

  lemma ReceiverOk(w: World)
    requires WorldOk(w) && NoClash(w.calls)
    ensures WorldOk(ReceiverStep(w))
  {
    if w.receiver.Removing? {
      var i := w.receiver.i;
      ResponseId(w, i);
      var j := w.order[i];
      assert CallOk(w, j);
      assert !HasRun(w, j);
      RemoveOk(w);
    }
  }

  lemma RemoveOk(w: World)
    requires WorldOk(w) && NoClash(w.calls) && w.receiver.Removing?
    requires var i := w.receiver.i;
             && i < |w.order| && w.order[i] < |w.calls| && i < |Responses(w)|
             && w.calls[w.order[i]].stage == Queued
             && Responses(w)[i].id == w.calls[w.order[i]].req.id
             && !HasRun(w, w.order[i])
    ensures WorldOk(ReceiverStep(w))
  {
    StepSendOk(w, ReceiverRuns);
    RemoveMapOk(w);
    hide SendOk; hide MapOk;
    assert CallOk(w, w.order[w.receiver.i]);
    assert forall k, p :: Expects(w, k, p) ==> Expects(ReceiverStep(w), k, p);
  }

  lemma RemoveMapOk(w: World)
    requires MapOk(w) && NoClash(w.calls) && w.receiver.Removing?
    requires var i := w.receiver.i;
             && i < |w.order| && w.order[i] < |w.calls| && i < |Responses(w)|
             && w.calls[w.order[i]].proc.Some? && w.calls[w.order[i]].stage == Queued
             && Responses(w)[i].id == w.calls[w.order[i]].req.id
             && !HasRun(w, w.order[i])
    ensures CallOk(w, w.order[w.receiver.i])
    ensures MapOk(ReceiverStep(w))
  {
    var w' := ReceiverStep(w);
    var i, n := w.receiver.i, |w.ran|;
    var j := w.order[i];
    assert CallOk(w, j);
    assert w'.ran[n].i == i;
    assert HasRun(w', j);
    forall k | 0 <= k < |w.calls|
      ensures CallOk(w', k)
    {
      assert CallOk(w, k);
      assert k < j ==> w.calls[k].req.id != w.calls[j].req.id;
      assert j < k ==> w.calls[j].req.id != w.calls[k].req.id;
      if k != j {
        HasRunFrame(w, w', k);
      }
    }
  }

  lemma HasRunFrame(w: World, w': World, j: nat)
    requires w'.order == w.order && |w'.ran| == |w.ran| + 1 && w'.ran[..|w.ran|] == w.ran
    requires w'.ran[|w.ran|].i < |w.order| && w.order[w'.ran[|w.ran|].i] != j
    ensures HasRun(w', j) == HasRun(w, j)
  {
  }

  lemma OtherOk(w: World, e: Event)
    requires WorldOk(w) && (e.SenderRuns? || e.Lose?)
    ensures WorldOk(Step(w, e))
  {
    hide SendOk; hide MapOk; hide RanOk; hide RemovingOk; hide ServerOk;
    var w' := Step(w, e);
    StepSendOk(w, e);
    ServerFrame(w, w');
    RanFrame(w, w');
    MapFrame(w, w');
  }

  lemma StepOk(w: World, e: Event)
    requires WorldOk(w) && NoClash(Step(w, e).calls)
    ensures WorldOk(Step(w, e))
  {
    CallsKept(w, e);
    NoClashBefore(w.calls, Step(w, e).calls);
    match e
    case Put(req, proc) => PutOk(w, req, proc);
    case CallRuns(j) =>
      if j < |w.calls| && w.calls[j].stage == Entered {
        RegisterOk(w, j);
      } else if j < |w.calls| && w.calls[j].stage == Registered {
        EnqueueOk(w, j);
      }
    case SenderRuns => OtherOk(w, e);
    case ServerReads(found) => ServerStepOk(w, found);
    case Lose(_) => OtherOk(w, e);
    case Deliver(i) => DeliverOk(w, i);
    case ReceiverRuns => ReceiverOk(w);
  }

  /** Calls are never forgotten and keep their request and their processor. */
  lemma CallsKept(w: World, e: Event)
    ensures var cs := Step(w, e).calls;
            && |w.calls| <= |cs| && (e.Put? || |w.calls| == |cs|)
            && (forall j :: 0 <= j < |w.calls| ==> cs[j].req == w.calls[j].req && cs[j].proc == w.calls[j].proc)
  {
    hide Serve; hide Responses; hide AllFit; hide Fits; hide Answerable;
  }

  lemma NoClashBefore(cs: seq<Call>, cs': seq<Call>)
    requires NoClash(cs') && |cs| <= |cs'|
    requires forall j :: 0 <= j < |cs| ==> cs'[j].req == cs[j].req && cs'[j].proc == cs[j].proc
    ensures NoClash(cs)
  {
    forall j, k | 0 <= j < k < |cs| && cs[j].req.id == cs[k].req.id
      ensures cs[j].proc == None && cs[k].proc == None
    {
      assert cs'[j].req.id == cs'[k].req.id;
    }
  }

  lemma {:induction false} PlayOk(w: World, es: seq<Event>)
    requires Start(w) && NoClash(Play(w, es).calls)
    ensures WorldOk(Play(w, es))
  {
    if |es| > 0 {
      var mid := Play(w, es[..|es| - 1]);
      CallsKept(mid, es[|es| - 1]);
      NoClashBefore(mid.calls, Play(w, es).calls);
      PlayOk(w, es[..|es| - 1]);
      StepOk(mid, es[|es| - 1]);
    }
  }

  // ---------- the receiver, whatever the ids ----------

  /** Something has been done with response i, or is about to be: the default processor or a registered
      one got it, or the receiver is about to run the registered one. */
  predicate Dealt(w: World, i: nat) {
    i in w.defaulted || (exists k :: 0 <= k < |w.ran| && w.ran[k].i == i) || w.receiver == Removing(i)
  }

  /** The receiver never crashes: what it has found in the map it alone removes. Nothing it takes in
      is left undone. */
  ghost predicate DealtOk(w: World) {
    && !w.crashed
    && (w.receiver.Removing? ==>
          && w.receiver.i < |Responses(w)| && Responses(w)[w.receiver.i].id in w.procs)
    && (forall i :: i in w.consumed ==> Dealt(w, i))
  }

  ghost predicate FlowOk(w: World) {
    SendOk(w) && ServerOk(w) && OrderOk(w) && DealtOk(w)
  }

  lemma CallStepFlowOk(w: World, j: nat)
    requires FlowOk(w)
    ensures FlowOk(CallStep(w, j))
  {
    hide Responses; hide SendOk;
    var w' := CallStep(w, j);
    CallStepSendOk(w, j);
    if j < |w.calls| && w.calls[j].stage == Registered {
      NotInOrder(w, j);
    }
    SameServer(w, w');
    assert forall i :: i in w.consumed ==> (Dealt(w, i) <==> Dealt(w', i));
  }

  lemma SameServer(w: World, w': World)
    requires w'.base == w.base && w'.server == w.server && w'.inputs == w.inputs
    ensures Responses(w') == Responses(w)
  {
  }

  lemma SenderStepFlowOk(w: World)
    requires FlowOk(w)
    ensures FlowOk(SenderStep(w))
  {
    hide Responses; hide SendOk;
    var w' := SenderStep(w);
    SenderStepSendOk(w);
    SameServer(w, w');
    assert forall i :: i in w.consumed ==> (Dealt(w, i) <==> Dealt(w', i));
  }

  /** Responses once made stay. */
  lemma ServerKeepsResponses(w: World, found: bool)
    requires ServerOk(w)
    ensures Responses(w) <= Responses(ServerStep(w, found))
  {
    hide Handle; hide Fits; hide Answerable; hide Serve;
    var w' := ServerStep(w, found);
    if w' != w {
      ServeSnoc(w.base, w.server, w.inputs, w'.inputs[|w.inputs|]);
    }
  }

  lemma ServerStepFlowOk(w: World, found: bool)
    requires FlowOk(w)
    ensures FlowOk(ServerStep(w, found))
  {
    hide SendOk; hide ServerOk; hide OrderOk; hide ServerStep; hide Responses;
    var w' := ServerStep(w, found);
    StepSendOk(w, ServerReads(found));
    ServerReadsOk(w, found);
    ServerStepShape(w, found);
    ServerKeepsResponses(w, found);
    assert forall i :: i in w.consumed ==> (Dealt(w, i) <==> Dealt(w', i));
  }

  lemma DeliverFlowOk(w: World, i: nat)
    requires FlowOk(w)
    ensures FlowOk(DeliverStep(w, i))
  {
    hide Responses; hide SendOk;
    var w' := DeliverStep(w, i);
    StepSendOk(w, Deliver(i));
    SameServer(w, w');
    forall k | k in w'.consumed
      ensures Dealt(w', k)
    {
      assert k in w.consumed ==> Dealt(w, k);
      assert i in w.defaulted + [i];
    }
  }

  lemma ReceiverFlowOk(w: World)
    requires FlowOk(w)
    ensures FlowOk(ReceiverStep(w))
  {
    hide Responses; hide SendOk;
    var w' := ReceiverStep(w);
    StepSendOk(w, ReceiverRuns);
    SameServer(w, w');
    if w.receiver.Removing? {
      assert w'.ran[|w.ran|].i == w.receiver.i;
      forall k | k in w'.consumed
        ensures Dealt(w', k)
      {
        assert Dealt(w, k);
        RanStays(w, w', k);
      }
    }
  }

  lemma RanStays(w: World, w': World, i: nat)
    requires w.ran <= w'.ran
    ensures (exists k :: 0 <= k < |w.ran| && w.ran[k].i == i) ==> exists k :: 0 <= k < |w'.ran| && w'.ran[k].i == i
  {
    if exists k :: 0 <= k < |w.ran| && w.ran[k].i == i {
      var k :| 0 <= k < |w.ran| && w.ran[k].i == i;
      assert w'.ran[k] == w.ran[k];
    }
  }

  lemma StepFlowOk(w: World, e: Event)
    requires FlowOk(w)
    ensures FlowOk(Step(w, e))
  {
    match e
    case Put(req, proc) => QuietFlowOk(w, e);
    case CallRuns(j) => CallStepFlowOk(w, j);
    case SenderRuns => SenderStepFlowOk(w);
    case ServerReads(found) => ServerStepFlowOk(w, found);
    case Lose(i) => QuietFlowOk(w, e);
    case Deliver(i) => DeliverFlowOk(w, i);
    case ReceiverRuns => ReceiverFlowOk(w);
  }

  lemma QuietFlowOk(w: World, e: Event)
    requires FlowOk(w) && (e.Put? || e.Lose?)
    ensures FlowOk(Step(w, e))
  {
    hide Responses; hide SendOk;
    StepSendOk(w, e);
    SameServer(w, Step(w, e));
    assert forall i :: i in w.consumed ==> (Dealt(w, i) <==> Dealt(Step(w, e), i));
  }

  lemma {:induction false} PlayFlowOk(w: World, es: seq<Event>)
    requires Start(w)
    ensures FlowOk(Play(w, es))
  {
    hide Step;
    if |es| > 0 {
      hide FlowOk;
      PlayFlowOk(w, es[..|es| - 1]);
      StepFlowOk(Play(w, es[..|es| - 1]), es[|es| - 1]);
    }
  }

  /** With distinct ids, in every interleaving: removing never fails; a processor that ran was the one
      of the call its response answers, and ran on that response only, at most once per call; and a
      response falls to the default processor only when its call came without one, again at most once per
      call. Every response taken in is dealt with in one of the two ways. */
  lemma Correlation(w: World, es: seq<Event>)
    requires Start(w) && NoClash(Play(w, es).calls)
    ensures var v := Play(w, es);
            && RanOk(v)
            && (forall k :: 0 <= k < |v.ran| ==>
                  && v.ran[k].i < |Responses(v)|
                  && Responses(v)[v.ran[k].i].id == v.calls[v.order[v.ran[k].i]].req.id)
            && (forall k, l :: 0 <= k < l < |v.ran| ==> v.order[v.ran[k].i] != v.order[v.ran[l].i])
            && (forall k, l :: 0 <= k < l < |v.defaulted| ==> v.order[v.defaulted[k]] != v.order[v.defaulted[l]])
            && (forall k, l :: 0 <= k < |v.ran| && 0 <= l < |v.defaulted| ==>
                  v.order[v.ran[k].i] != v.order[v.defaulted[l]])
            && (forall i :: i in v.consumed ==> RightlyDealt(v, i))
  {
    PlayOk(w, es);
    AllRightlyDealt(w, es);
    var v := Play(w, es);
    forall k | 0 <= k < |v.ran|
      ensures v.ran[k].i < |Responses(v)|
      ensures Expects(v, v.ran[k].i, Some(v.ran[k].proc))
      ensures Responses(v)[v.ran[k].i].id == v.calls[v.order[v.ran[k].i]].req.id
    {
      ResponseId(v, v.ran[k].i);
    }
    OncePerCall(v);
  }

  /** A response taken in goes where its call wants it: to the default processor if the call came
      without one, otherwise to the call's own, which has run or is about to. */
  ghost predicate RightlyDealt(w: World, i: nat) {
    && i < |w.order| && w.order[i] < |w.calls|
    && match w.calls[w.order[i]].proc
       case None => i in w.defaulted
       case Some(p) => (exists k :: 0 <= k < |w.ran| && w.ran[k] == Ran(p, i)) || w.receiver == Removing(i)
  }

  lemma AllRightlyDealt(w: World, es: seq<Event>)
    requires Start(w) && NoClash(Play(w, es).calls)
    ensures forall i :: i in Play(w, es).consumed ==> RightlyDealt(Play(w, es), i)
  {
    PlayOk(w, es);
    PlayFlowOk(w, es);
    var v := Play(w, es);
    hide Play; hide NoClash; hide MapOk; hide ServerOk; hide Responses;
    forall i | i in v.consumed
      ensures RightlyDealt(v, i)
    {
      OrderCovers(v);
      assert Dealt(v, i);
      DealtRightly(v, i);
    }
  }

  lemma OrderCovers(w: World)
    requires SendOk(w) && ServerOk(w)
    ensures |w.inputs| <= |w.order|
    ensures forall i :: 0 <= i < |w.order| ==> 0 <= w.order[i] < |w.calls|
  {
  }

  lemma DealtRightly(w: World, i: nat)
    requires RanOk(w) && RemovingOk(w) && Dealt(w, i) && i < |w.order| && w.order[i] < |w.calls|
    ensures RightlyDealt(w, i)
  {
    if exists k :: 0 <= k < |w.ran| && w.ran[k].i == i {
      var k :| 0 <= k < |w.ran| && w.ran[k].i == i;
      assert Expects(w, i, Some(w.ran[k].proc));
      assert w.ran[k] == Ran(w.ran[k].proc, i);
    }
  }

  lemma OncePerCall(w: World)
    requires OrderOk(w) && RanOk(w)
    ensures forall k, l :: 0 <= k < l < |w.ran| ==> w.order[w.ran[k].i] != w.order[w.ran[l].i]
    ensures forall k, l :: 0 <= k < l < |w.defaulted| ==> w.order[w.defaulted[k]] != w.order[w.defaulted[l]]
    ensures forall k, l :: 0 <= k < |w.ran| && 0 <= l < |w.defaulted| ==>
              w.order[w.ran[k].i] != w.order[w.defaulted[l]]
  {
  }

  lemma PlaySnoc(w: World, es: seq<Event>, e: Event)
    ensures Play(w, es + [e]) == Step(Play(w, es), e)
  {
  }

  lemma PlayTwo(w: World, es: seq<Event>, a: Event, b: Event)
    ensures Play(w, es + [a] + [b]) == Step(Step(Play(w, es), a), b)
  {
    hide Step;
    PlaySnoc(w, es, a);
    PlaySnoc(w, es + [a], b);
  }

  lemma PlayThree(w: World, es: seq<Event>, a: Event, b: Event, c: Event)
    ensures Play(w, es + [a] + [b] + [c]) == Step(Step(Step(Play(w, es), a), b), c)
  {
    hide Step;
    PlaySnoc(w, es, a);
    PlaySnoc(w, es + [a], b);
    PlaySnoc(w, es + [a] + [b], c);
  }
}
