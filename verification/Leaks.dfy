/** Processors that stay registered: which ones can still run, which are left in the map for good. */
module Leaks {
  import opened Wrappers
  import opened Ctrl
  import opened Requests
  import opened Wire
  import opened Client

  // ---------- a rejected call ----------

  lemma RejectedStays(w: World, e: Event, j: nat)
    requires j < |w.calls| && w.calls[j].stage == Rejected
    ensures j < |Step(w, e).calls| && Step(w, e).calls[j] == w.calls[j]
  {
    hide Serve; hide Responses; hide Fits;
  }

  lemma {:induction false} RejectedForGood(w: World, es: seq<Event>, more: seq<Event>, j: nat)
    requires j < |Play(w, es).calls| && Play(w, es).calls[j].stage == Rejected
    ensures j < |Play(w, es + more).calls| && Play(w, es + more).calls[j] == Play(w, es).calls[j]
  {
    hide Step;
    if |more| == 0 {
      assert es + more == es;
    } else {
      var n := |more| - 1;
      assert (es + more)[..|es + more| - 1] == es + more[..n];
      RejectedForGood(w, es, more[..n], j);
      RejectedStays(Play(w, es + more[..n]), more[n], j);
    }
  }

  /** A call turned away by a full queue leaves its processor in the map for good, and nothing else. */
  lemma RejectedLeaks(w: World, es: seq<Event>, more: seq<Event>, j: nat)
    requires Start(w) && NoClash(Play(w, es + more).calls)
    ensures var c, v := Play(w, es).calls, Play(w, es + more);
            j < |c| && c[j].stage == Rejected ==>
              && (c[j].req.id in v.procs <==> c[j].proc.Some?)
              && (c[j].proc.Some? ==> v.procs[c[j].req.id] == c[j].proc.value)
  {
    var c, v := Play(w, es).calls, Play(w, es + more);
    if j < |c| && c[j].stage == Rejected {
      RejectedForGood(w, es, more, j);
      PlayOk(w, es + more);
      hide Play;
      assert CallOk(v, j);
      NotRun(v, j);
    }
  }

  // ---------- a full queue ----------

  function NthRequest(j: int): Request {
    Request(j, MarketStop, None)
  }

  function FirstProcs(n: nat): map<int, int> {
    if n == 0 then map[] else FirstProcs(n - 1)[n - 1 := n - 1]
  }

  /** n calls have been enqueued and nothing has been sent: call j has id j and processor j. */
  function Filled(w: World, n: nat): World {
    w.(calls := seq(n, j => Call(NthRequest(j), Some(j), Queued)), procs := FirstProcs(n),
       queue := seq(n, j => NthRequest(j)), order := seq(n, j => j))
  }

  /** The next call registers its processor. */
  lemma FilledRegisters(w: World, n: nat)
    ensures var w' := Step(Step(Filled(w, n), Put(NthRequest(n), Some(n))), CallRuns(n));
            w' == Filled(w, n).(calls := Filled(w, n).calls + [Call(NthRequest(n), Some(n), Registered)],
                                procs := Filled(w, n + 1).procs)
  {
    var v := Filled(w, n);
    assert (v.calls + [Call(NthRequest(n), Some(n), Entered)])[n := Call(NthRequest(n), Some(n), Registered)]
           == v.calls + [Call(NthRequest(n), Some(n), Registered)];
  }

  lemma FilledEnqueues(w: World, n: nat)
    requires n < QUEUE_CAPACITY
    ensures var v := Filled(w, n).(calls := Filled(w, n).calls + [Call(NthRequest(n), Some(n), Registered)],
                                   procs := Filled(w, n + 1).procs);
            Step(v, CallRuns(n)) == Filled(w, n + 1)
  {
    var v := Filled(w, n);
    assert (v.calls + [Call(NthRequest(n), Some(n), Registered)])[n := Call(NthRequest(n), Some(n), Queued)]
           == Filled(w, n + 1).calls;
    assert v.queue + [NthRequest(n)] == Filled(w, n + 1).queue;
    assert v.order + [n] == Filled(w, n + 1).order;
  }

  lemma FilledRefuses(w: World)
    ensures var n := QUEUE_CAPACITY;
            var v := Filled(w, n).(calls := Filled(w, n).calls + [Call(NthRequest(n), Some(n), Registered)],
                                   procs := Filled(w, n + 1).procs);
            Step(v, CallRuns(n)) == v.(calls := Filled(w, n).calls + [Call(NthRequest(n), Some(n), Rejected)])
  {
  }

  lemma {:induction false} FillQueue(w: World, n: nat) returns (es: seq<Event>)
    requires Start(w) && n <= QUEUE_CAPACITY
    ensures Play(w, es) == Filled(w, n)
  {
    if n == 0 {
      es := [];
    } else {
      hide Step; hide Filled;
      var before := FillQueue(w, n - 1);
      es := before + [Put(NthRequest(n - 1), Some(n - 1))] + [CallRuns(n - 1)] + [CallRuns(n - 1)];
      PlayThree(w, before, Put(NthRequest(n - 1), Some(n - 1)), CallRuns(n - 1), CallRuns(n - 1));
      FilledRegisters(w, n - 1);
      FilledEnqueues(w, n - 1);
    }
  }

  /** It happens: with 20 calls queued and none sent, the next call is rejected. Its processor stays in
      the map and none of the calls collide. */
  lemma RejectedReachable(w: World) returns (es: seq<Event>)
    requires Start(w)
    ensures var v := Play(w, es);
            && |v.calls| == 21 && v.calls[20] == Call(NthRequest(20), Some(20), Rejected)
            && (forall i, j :: 0 <= i < j < |v.calls| ==> v.calls[i].req.id != v.calls[j].req.id)
            && |v.queue| == 20 && 20 in v.procs && v.procs[20] == 20
  {
    var before := FillQueue(w, 20);
    es := before + [Put(NthRequest(20), Some(20))] + [CallRuns(20)] + [CallRuns(20)];
    PlayThree(w, before, Put(NthRequest(20), Some(20)), CallRuns(20), CallRuns(20));
    hide Step; hide Play;
    FilledRegisters(w, 20);
    FilledRefuses(w);
  }

  // ---------- which processors can still run ----------

  predicate ShutdownIn(rs: seq<Request>) {
    exists m :: 0 <= m < |rs| && rs[m].kind == Shutdown
  }

  /** Everything ever enqueued, in order. */
  function Enqueued(w: World): seq<Request> {
    w.sent + InHand(w.sender) + w.queue
  }

  /** The response to the k-th enqueued request is at the receiver or under way, or is still to be made
      and no shutdown is in front of it. */
  predicate ResponseOpen(w: World, k: nat)
    requires k < |w.order| == |Enqueued(w)|
  {
    w.receiver == Removing(k) || k in w.net || (|w.inputs| <= k && !ShutdownIn(Enqueued(w)[..k]))
  }

  /** Call j's processor has not run but still can. */
  ghost predicate CanRun(w: World, j: nat)
    requires j < |w.calls| && |Enqueued(w)| == |w.order|
  {
    && w.calls[j].proc.Some?
    && match w.calls[j].stage
       case Entered => !ShutdownIn(Enqueued(w))
       case Registered => !ShutdownIn(Enqueued(w))
       case Queued => exists k :: 0 <= k < |w.order| && w.order[k] == j && ResponseOpen(w, k)
       case Rejected => false
  }

  // ---------- a processor that cannot run any more never will ----------

  ghost predicate Lost(w: World, j: nat)
    requires |Enqueued(w)| == |w.order|
  {
    j < |w.calls| && !HasRun(w, j) && !CanRun(w, j)
  }

  lemma SendShape(w: World)
    requires SendOk(w)
    ensures |Enqueued(w)| == |w.order|
  {
  }

  lemma ShutdownInMore(a: seq<Request>, b: seq<Request>)
    requires ShutdownIn(a)
    ensures ShutdownIn(a + b)
  {
    var m :| 0 <= m < |a| && a[m].kind == Shutdown;
    assert (a + b)[m] == a[m];
  }

  lemma RanBefore(w: World)
    requires WorldOk(w)
    ensures forall k :: 0 <= k < |w.ran| ==> w.ran[k].i < |w.order|
  {
  }

  /** A processor that runs belongs to a call that was enqueued before. */
  lemma HasRunGrows(w: World, w': World, j: nat)
    requires w'.ran == w.ran && w.order <= w'.order
    requires forall k :: 0 <= k < |w.ran| ==> w.ran[k].i < |w.order|
    ensures HasRun(w', j) == HasRun(w, j)
  {
  }

  /** A call enqueued behind a shutdown is not open. */
  lemma BehindShutdown(w: World, i: nat)
    requires WorldOk(w) && i < |w.calls| && w.calls[i].stage == Registered && |w.queue| < QUEUE_CAPACITY
    requires |Enqueued(w)| == |w.order| && ShutdownIn(Enqueued(w))
    ensures |Enqueued(CallStep(w, i))| == |CallStep(w, i).order| == |w.order| + 1
    ensures !ResponseOpen(CallStep(w, i), |w.order|)
  {
    hide MapOk; hide RanOk; hide Responses;
    assert Enqueued(CallStep(w, i)) == Enqueued(w) + [w.calls[i].req];
    assert Enqueued(CallStep(w, i))[..|w.order|] == Enqueued(w);
  }

  lemma EarlierOpen(w: World, i: nat, k: nat)
    requires i < |w.calls| && w.calls[i].stage == Registered && |w.queue| < QUEUE_CAPACITY
    requires |Enqueued(w)| == |w.order| && k < |w.order|
    ensures |Enqueued(CallStep(w, i))| == |CallStep(w, i).order| == |w.order| + 1
    ensures ResponseOpen(CallStep(w, i), k) <==> ResponseOpen(w, k)
  {
    assert Enqueued(CallStep(w, i)) == Enqueued(w) + [w.calls[i].req];
    assert Enqueued(CallStep(w, i))[..k] == Enqueued(w)[..k];
  }

  lemma EnqueueLost(w: World, i: nat, j: nat)
    requires WorldOk(w) && |Enqueued(w)| == |w.order| && Lost(w, j)
    requires i < |w.calls| && w.calls[i].stage == Registered && |w.queue| < QUEUE_CAPACITY
    ensures |Enqueued(CallStep(w, i))| == |CallStep(w, i).order| && Lost(CallStep(w, i), j)
  {
    hide WorldOk; hide ResponseOpen; hide HasRun; hide ShutdownIn;
    var w', n := CallStep(w, i), |w.order|;
    assert Enqueued(w') == Enqueued(w) + [w.calls[i].req];
    RanBefore(w);
    HasRunGrows(w, w', j);
    if ShutdownIn(Enqueued(w)) {
      ShutdownInMore(Enqueued(w), [w.calls[i].req]);
    }
    forall k | 0 <= k < |w'.order| && w'.order[k] == j && ResponseOpen(w', k) && i != j
      ensures k < n && ResponseOpen(w, k)
    {
      EarlierOpen(w, i, k);
    }
    if i == j && w.calls[j].proc.Some? {
      EnqueuedIsLost(w, j);
    }
  }

  lemma EnqueuedIsLost(w: World, j: nat)
    requires WorldOk(w) && |Enqueued(w)| == |w.order| && ShutdownIn(Enqueued(w))
    requires j < |w.calls| && w.calls[j].stage == Registered && |w.queue| < QUEUE_CAPACITY
    ensures var w' := CallStep(w, j);
            && |Enqueued(w')| == |w'.order|
            && forall k :: 0 <= k < |w'.order| && w'.order[k] == j ==> !ResponseOpen(w', k)
  {
    var w' := CallStep(w, j);
    CallStepSendOk(w, j);
    NotInOrder(w, j);
    BehindShutdown(w, j);
    hide SendOk; hide MapOk; hide RanOk; hide RemovingOk; hide ServerOk; hide ShutdownIn;
    assert w'.order == w.order + [j];
    assert Enqueued(w') == Enqueued(w) + [w.calls[j].req];
  }

  lemma CallLost(w: World, i: nat, j: nat)
    requires WorldOk(w) && |Enqueued(w)| == |w.order| && Lost(w, j) && i < |w.calls|
    ensures |Enqueued(CallStep(w, i))| == |CallStep(w, i).order| && Lost(CallStep(w, i), j)
  {
    if w.calls[i].stage == Registered && |w.queue| < QUEUE_CAPACITY {
      EnqueueLost(w, i, j);
    } else {
      var w' := CallStep(w, i);
      RanBefore(w);
      hide WorldOk; hide ShutdownIn;
      HasRunGrows(w, w', j);
      assert Enqueued(w') == Enqueued(w);
      assert forall k :: 0 <= k < |w.order| ==> (ResponseOpen(w', k) <==> ResponseOpen(w, k));
    }
  }

  lemma SameLost(w: World, w': World, j: nat)
    requires |Enqueued(w)| == |w.order| && Lost(w, j)
    requires j < |w'.calls| && w'.calls[j] == w.calls[j] && w'.order == w.order && Enqueued(w') == Enqueued(w)
    requires HasRun(w', j) == HasRun(w, j)
    requires forall k :: 0 <= k < |w.order| && w.order[k] == j && ResponseOpen(w', k) ==> ResponseOpen(w, k)
    ensures Lost(w', j)
  {
    hide HasRun; hide ResponseOpen; hide ShutdownIn;
  }

  lemma SenderLost(w: World, j: nat)
    requires WorldOk(w) && |Enqueued(w)| == |w.order| && Lost(w, j)
    ensures |Enqueued(SenderStep(w))| == |SenderStep(w).order| && Lost(SenderStep(w), j)
  {
    var w' := SenderStep(w);
    RanBefore(w);
    hide WorldOk; hide ShutdownIn; hide Lost;
    HasRunGrows(w, w', j);
    assert Enqueued(w') == Enqueued(w);
    SameLost(w, w', j);
  }

  /** What the server reads next has no shutdown in front of it. */
  lemma NextIsOpen(w: World)
    requires SendOk(w) && |w.inputs| < |w.sent| && |Enqueued(w)| == |w.order|
    ensures |w.inputs| < |w.order| && ResponseOpen(w, |w.inputs|)
  {
    var k := |w.inputs|;
    assert Enqueued(w)[..k] == w.sent[..k];
    assert forall m :: 0 <= m < k ==> w.sent[..k][m] == w.sent[m];
  }

  lemma ServerLost(w: World, found: bool, j: nat)
    requires WorldOk(w) && |Enqueued(w)| == |w.order| && Lost(w, j)
    ensures |Enqueued(ServerStep(w, found))| == |ServerStep(w, found).order| && Lost(ServerStep(w, found), j)
  {
    hide Lost; hide MapOk; hide RanOk; hide RemovingOk; hide Serve; hide Fits; hide Answerable; hide AllFit;
    var w' := ServerStep(w, found);
    RanBefore(w);
    LostCall(w, j);
    HasRunGrows(w, w', j);
    hide WorldOk; hide ShutdownIn;
    if w' != w {
      NextIsOpen(w);
      assert Enqueued(w') == Enqueued(w);
      assert w'.net == w.net + {|w.inputs|} && |w'.inputs| == |w.inputs| + 1 && w'.receiver == w.receiver;
      forall k | 0 <= k < |w.order| && w.order[k] == j && ResponseOpen(w', k)
        ensures ResponseOpen(w, k)
      {
      }
      SameLost(w, w', j);
    }
  }

  lemma DeliverLost(w: World, i: nat, j: nat)
    requires WorldOk(w) && |Enqueued(w)| == |w.order| && Lost(w, j)
    ensures |Enqueued(DeliverStep(w, i))| == |DeliverStep(w, i).order| && Lost(DeliverStep(w, i), j)
  {
    var w' := DeliverStep(w, i);
    RanBefore(w);
    hide Lost; hide WorldOk; hide Responses;
    HasRunGrows(w, w', j);
    assert Enqueued(w') == Enqueued(w);
    SameLost(w, w', j);
  }

  /** What the receiver is about to run is open. */
  lemma RemovingIsOpen(w: World)
    requires WorldOk(w) && |Enqueued(w)| == |w.order| && w.receiver.Removing?
    ensures w.receiver.i < |w.order| && w.order[w.receiver.i] < |w.calls| && CanRun(w, w.order[w.receiver.i])
  {
    var i := w.receiver.i;
    assert ResponseOpen(w, i);
  }

  lemma ReceiverLost(w: World, j: nat)
    requires WorldOk(w) && |Enqueued(w)| == |w.order| && Lost(w, j)
    ensures |Enqueued(ReceiverStep(w))| == |ReceiverStep(w).order| && Lost(ReceiverStep(w), j)
  {
    var w' := ReceiverStep(w);
    RanBefore(w);
    if w.receiver.Removing? {
      RemovingIsOpen(w);
      hide WorldOk; hide Responses; hide CanRun; hide ShutdownIn;
      assert Enqueued(w') == Enqueued(w);
      RanMore(w, w', j);
      SameLost(w, w', j);
    }
  }

  lemma RanMore(w: World, w': World, j: nat)
    requires w'.order == w.order && w.receiver.Removing? && w.receiver.i < |w.order| && w.order[w.receiver.i] != j
    requires w'.ran == w.ran || exists p :: w'.ran == w.ran + [Ran(p, w.receiver.i)]
    ensures HasRun(w', j) == HasRun(w, j)
  {
    if HasRun(w, j) {
      var k :| 0 <= k < |w.ran| && w.ran[k].i < |w.order| && w.order[w.ran[k].i] == j;
      assert w'.ran[k] == w.ran[k];
    } else {
      assert forall k :: 0 <= k < |w.ran| ==> w'.ran[k] == w.ran[k];
    }
  }

  lemma StepLost(w: World, e: Event, j: nat)
    requires WorldOk(w) && |Enqueued(w)| == |w.order| && Lost(w, j)
    ensures |Enqueued(Step(w, e))| == |Step(w, e).order| && Lost(Step(w, e), j)
  {
    match e
    case Put(req, proc) => PutLost(w, req, proc, j);
    case CallRuns(i) =>
      if i < |w.calls| {
        CallLost(w, i, j);
      }
    case SenderRuns => SenderLost(w, j);
    case ServerReads(found) => ServerLost(w, found, j);
    case Lose(i) => LoseLost(w, i, j);
    case Deliver(i) => DeliverLost(w, i, j);
    case ReceiverRuns => ReceiverLost(w, j);
  }

  lemma PutLost(w: World, req: Request, proc: Option<int>, j: nat)
    requires |Enqueued(w)| == |w.order| && Lost(w, j)
    ensures Lost(Step(w, Put(req, proc)), j)
  {
    var w' := Step(w, Put(req, proc));
    hide ShutdownIn; hide Lost;
    assert Enqueued(w') == Enqueued(w);
    assert j < |w.calls| by {
      LostCall(w, j);
    }
    SameLost(w, w', j);
  }

  lemma LoseLost(w: World, i: nat, j: nat)
    requires |Enqueued(w)| == |w.order| && Lost(w, j)
    ensures Lost(Step(w, Lose(i)), j)
  {
    var w' := Step(w, Lose(i));
    hide ShutdownIn; hide Lost;
    assert Enqueued(w') == Enqueued(w);
    assert j < |w.calls| by {
      LostCall(w, j);
    }
    SameLost(w, w', j);
  }

  lemma LostCall(w: World, j: nat)
    requires |Enqueued(w)| == |w.order| && Lost(w, j)
    ensures j < |w.calls|
  {
  }

  lemma {:induction false} PlayKeeps(w: World, es: seq<Event>)
    requires WorldOk(w) && NoClash(Play(w, es).calls)
    ensures WorldOk(Play(w, es))
  {
    hide WorldOk; hide Step; hide NoClash;
    if |es| > 0 {
      var mid := Play(w, es[..|es| - 1]);
      CallsKept(mid, es[|es| - 1]);
      NoClashBefore(mid.calls, Play(w, es).calls);
      PlayKeeps(w, es[..|es| - 1]);
      StepOk(mid, es[|es| - 1]);
    }
  }

  /** Once a call's processor cannot run any more, it never does. */
  lemma {:induction false} LostForGood(w: World, es: seq<Event>, j: nat)
    requires WorldOk(w) && NoClash(Play(w, es).calls) && |Enqueued(w)| == |w.order| && Lost(w, j)
    ensures |Enqueued(Play(w, es))| == |Play(w, es).order| && Lost(Play(w, es), j)
  {
    hide WorldOk; hide Step; hide NoClash; hide Lost;
    if |es| > 0 {
      var before := es[..|es| - 1];
      var mid := Play(w, before);
      CallsKept(mid, es[|es| - 1]);
      NoClashBefore(mid.calls, Play(w, es).calls);
      PlayKeeps(w, before);
      LostForGood(w, before, j);
      StepLost(mid, es[|es| - 1], j);
    }
  }

  // ---------- a processor that can still run does so in some continuation ----------

  /** The sender stops on a shutdown only. */
  predicate StoppedOk(w: World) {
    w.sender == Stopped ==> |w.sent| > 0 && w.sent[|w.sent| - 1].kind == Shutdown
  }

  lemma StepStoppedOk(w: World, e: Event)
    requires StoppedOk(w)
    ensures StoppedOk(Step(w, e))
  {
    hide Serve; hide Responses; hide AllFit; hide Fits; hide Answerable;
  }

  lemma {:induction false} PlayStoppedOk(w: World, es: seq<Event>)
    requires StoppedOk(w)
    ensures StoppedOk(Play(w, es))
  {
    hide Step;
    if |es| > 0 {
      PlayStoppedOk(w, es[..|es| - 1]);
      StepStoppedOk(Play(w, es[..|es| - 1]), es[|es| - 1]);
    }
  }

  /** Every call's request is one the server can read. */
  predicate Readable(w: World) {
    forall j :: 0 <= j < |w.calls| ==> Fits(w.base, Input(w.calls[j].req, true))
  }

  ghost predicate Going(w: World) {
    WorldOk(w) && NoClash(w.calls) && StoppedOk(w) && Readable(w) && |Enqueued(w)| == |w.order|
  }

  lemma StepGoing(w: World, e: Event)
    requires Going(w) && !e.Put?
    ensures Going(Step(w, e)) && |Step(w, e).calls| == |w.calls|
    ensures forall j :: 0 <= j < |w.calls| ==>
              Step(w, e).calls[j].req == w.calls[j].req && Step(w, e).calls[j].proc == w.calls[j].proc
  {
    hide WorldOk; hide Step; hide Fits; hide NoClash;
    CallsKept(w, e);
    NoClashBefore(Step(w, e).calls, w.calls);
    StepOk(w, e);
    StepStoppedOk(w, e);
    StepBase(w, e);
    GoingShape(Step(w, e));
  }

  lemma StepBase(w: World, e: Event)
    ensures Step(w, e).base == w.base
  {
    hide Serve; hide Responses; hide AllFit; hide Fits; hide Answerable;
  }

  lemma GoingShape(w: World)
    requires WorldOk(w)
    ensures |Enqueued(w)| == |w.order|
  {
  }

  lemma {:induction false} PlayFirst(w: World, e: Event, es: seq<Event>)
    ensures Play(w, [e] + es) == Play(Step(w, e), es)
  {
    hide Step;
    if |es| == 0 {
      assert [e] + es == [e];
      assert Play(w, [e][..0]) == w;
    } else {
      assert ([e] + es)[..|es|] == [e] + es[..|es| - 1];
      PlayFirst(w, e, es[..|es| - 1]);
    }
  }

  /** The continuation is one of the same calls, and call j's processor runs in it. */
  ghost predicate Runs(w: World, es: seq<Event>, j: nat) {
    NoClash(Play(w, es).calls) && HasRun(Play(w, es), j)
  }

  lemma RunsFirst(w: World, e: Event, es: seq<Event>, j: nat)
    requires Runs(Step(w, e), es, j)
    ensures Runs(w, [e] + es, j)
  {
    hide Step; hide NoClash; hide HasRun;
    PlayFirst(w, e, es);
  }

  /** Its response is at the receiver. */
  lemma RunsNow(w: World, k: nat) returns (es: seq<Event>)
    requires Going(w) && w.receiver == Removing(k)
    ensures k < |w.order| && Runs(w, es, w.order[k])
  {
    ResponseId(w, k);
    StepGoing(w, ReceiverRuns);
    InMap(w, k);
    es := [ReceiverRuns];
    assert Play(w, []) == w;
    PlaySnoc(w, [], ReceiverRuns);
    assert [] + [ReceiverRuns] == es;
    var v := Step(w, ReceiverRuns);
    assert v.ran[|w.ran|].i == k;
  }

  /** What the receiver is about to remove is there. */
  lemma InMap(w: World, k: nat)
    requires WorldOk(w) && w.receiver == Removing(k)
    ensures k < |Responses(w)| && Responses(w)[k].id in w.procs
  {
    ResponseId(w, k);
    var j := w.order[k];
    assert CallOk(w, j);
    assert !HasRun(w, j);
  }

  /** Its response is under way. */
  lemma RunsFromNet(w: World, k: nat) returns (es: seq<Event>)
    requires Going(w) && k in w.net && k < |w.order| && w.order[k] < |w.calls| && w.calls[w.order[k]].proc.Some?
    ensures Runs(w, es, w.order[k])
    decreases if w.receiver == Receiving then 0 else 1
  {
    hide Responses;
    if w.receiver == Receiving {
      LookupTells(w, k);
      StepGoing(w, Deliver(k));
      var rest := RunsNow(Step(w, Deliver(k)), k);
      es := [Deliver(k)] + rest;
      RunsFirst(w, Deliver(k), rest, w.order[k]);
    } else {
      InMap(w, w.receiver.i);
      StepGoing(w, ReceiverRuns);
      var rest := RunsFromNet(Step(w, ReceiverRuns), k);
      es := [ReceiverRuns] + rest;
      RunsFirst(w, ReceiverRuns, rest, w.order[k]);
    }
  }

  /** The server reads the next request if no shutdown is in front of it. */
  lemma ReadsNext(w: World)
    requires Going(w) && |w.inputs| < |w.sent| && !ShutdownIn(w.sent[..|w.inputs|])
    ensures var v := Step(w, ServerReads(true));
            && v == w.(inputs := v.inputs, net := w.net + {|w.inputs|}) && |v.inputs| == |w.inputs| + 1
  {
    var k := |w.inputs|;
    assert forall m :: 0 <= m < k ==> w.sent[..k][m] == w.sent[m];
    StillReading(w.base, w.server, w.inputs);
    NextReadable(w);
    hide Serve; hide Fits; hide AllFit; hide MapOk; hide RanOk; hide SendOk;
  }

  lemma NextReadable(w: World)
    requires Going(w) && |w.inputs| < |w.sent|
    ensures Fits(w.base, Input(w.sent[|w.inputs|], true)) && Answerable(w.base, Input(w.sent[|w.inputs|], true))
  {
    var k := |w.inputs|;
    assert Enqueued(w)[k] == w.sent[k];
    assert w.sent[k] == w.calls[w.order[k]].req;
    hide Fits;
  }

  /** The sender takes or sends one more, if no shutdown is in front of what it lacks. */
  lemma SendsNext(w: World, k: nat)
    requires Going(w) && |w.sent| <= k < |w.order| && !ShutdownIn(Enqueued(w)[..k])
    ensures var v := Step(w, SenderRuns);
            && v == w.(queue := v.queue, sender := v.sender, sent := v.sent) && Enqueued(v) == Enqueued(w)
            && |v.queue| <= |w.queue|
            && ToSend(v) < ToSend(w)
  {
    hide WorldOk; hide NoClash; hide Readable;
    assert |w.sent| > 0 ==> Enqueued(w)[..k][|w.sent| - 1] == w.sent[|w.sent| - 1];
    assert Enqueued(Step(w, SenderRuns)) == Enqueued(w);
  }

  /** Steps the sender still has to take. */
  function ToSend(w: World): nat {
    2 * |w.queue| + |InHand(w.sender)|
  }

  /** Its request is sent, or is in hand or queued without a shutdown in front of it. */
  lemma {:induction false} RunsUnread(w: World, k: nat) returns (es: seq<Event>)
    requires Going(w) && |w.inputs| <= k < |w.order| && !ShutdownIn(Enqueued(w)[..k])
    requires w.order[k] < |w.calls| && w.calls[w.order[k]].proc.Some?
    ensures Runs(w, es, w.order[k])
    decreases ToSend(w), k + 1 - |w.inputs|
  {
    hide WorldOk; hide ShutdownIn; hide Step; hide Readable;
    if |w.sent| <= k {
      SendsNext(w, k);
      StepGoing(w, SenderRuns);
      var rest := RunsUnread(Step(w, SenderRuns), k);
      es := [SenderRuns] + rest;
      RunsFirst(w, SenderRuns, rest, w.order[k]);
    } else {
      NoneBefore(Enqueued(w), k, |w.inputs|);
      assert Enqueued(w)[..|w.inputs|] == w.sent[..|w.inputs|];
      ReadsNext(w);
      StepGoing(w, ServerReads(true));
      var v := Step(w, ServerReads(true));
      assert Enqueued(v) == Enqueued(w);
      var rest: seq<Event>;
      if |w.inputs| == k {
        rest := RunsFromNet(v, k);
      } else {
        rest := RunsUnread(v, k);
      }
      es := [ServerReads(true)] + rest;
      RunsFirst(w, ServerReads(true), rest, w.order[k]);
    }
  }

  lemma NoneBefore(rs: seq<Request>, k: nat, n: nat)
    requires n <= k <= |rs| && !ShutdownIn(rs[..k])
    ensures !ShutdownIn(rs[..n])
  {
    assert forall m :: 0 <= m < n ==> rs[..n][m] == rs[..k][m];
  }

  lemma RunsQueued(w: World, k: nat) returns (es: seq<Event>)
    requires Going(w) && k < |w.order| && ResponseOpen(w, k)
    requires w.order[k] < |w.calls| && w.calls[w.order[k]].proc.Some?
    ensures Runs(w, es, w.order[k])
  {
    hide Going; hide ShutdownIn;
    if w.receiver == Removing(k) {
      es := RunsNow(w, k);
    } else if k in w.net {
      es := RunsFromNet(w, k);
    } else {
      es := RunsUnread(w, k);
    }
  }

  lemma EnqueuesNow(w: World, j: nat)
    requires j < |w.calls| && w.calls[j].stage == Registered && |w.queue| < QUEUE_CAPACITY
    ensures var v := Step(w, CallRuns(j));
            && v.order == w.order + [j] && Enqueued(v) == Enqueued(w) + [w.calls[j].req] && v.inputs == w.inputs
  {
  }

  /** It has registered: the sender makes room, and it is enqueued. */
  lemma {:induction false} RunsRegistered(w: World, j: nat) returns (es: seq<Event>)
    requires Going(w) && j < |w.calls| && w.calls[j].proc.Some? && w.calls[j].stage == Registered
    requires !ShutdownIn(Enqueued(w))
    ensures Runs(w, es, j)
    decreases ToSend(w)
  {
    GoingOrder(w);
    hide Going; hide ShutdownIn; hide Step;
    if |w.queue| < QUEUE_CAPACITY {
      var n := |w.order|;
      EnqueuesNow(w, j);
      StepGoing(w, CallRuns(j));
      var v := Step(w, CallRuns(j));
      assert Enqueued(v)[..n] == Enqueued(w);
      var rest := RunsUnread(v, n);
      es := [CallRuns(j)] + rest;
      RunsFirst(w, CallRuns(j), rest, j);
    } else {
      var k := |w.order| - 1;
      assert Enqueued(w)[..|w.order|] == Enqueued(w);
      NoneBefore(Enqueued(w), |w.order|, k);
      SendsNext(w, k);
      StepGoing(w, SenderRuns);
      var rest := RunsRegistered(Step(w, SenderRuns), j);
      es := [SenderRuns] + rest;
      RunsFirst(w, SenderRuns, rest, j);
    }
  }

  lemma GoingOrder(w: World)
    requires Going(w)
    ensures |Enqueued(w)| == |w.order| && |w.inputs| <= |w.sent| <= |w.order|
  {
  }

  lemma RegistersNow(w: World, j: nat)
    requires j < |w.calls| && w.calls[j].stage == Entered
    ensures var v := Step(w, CallRuns(j));
            && Enqueued(v) == Enqueued(w) && j < |v.calls| && v.calls[j] == w.calls[j].(stage := Registered)
  {
  }

  lemma RunsSome(w: World, j: nat) returns (es: seq<Event>)
    requires Going(w) && j < |w.calls| && CanRun(w, j)
    ensures Runs(w, es, j)
  {
    GoingOrder(w);
    hide Going; hide ShutdownIn; hide ResponseOpen; hide Step;
    match w.calls[j].stage
    case Entered =>
      RegistersNow(w, j);
      StepGoing(w, CallRuns(j));
      var rest := RunsRegistered(Step(w, CallRuns(j)), j);
      es := [CallRuns(j)] + rest;
      RunsFirst(w, CallRuns(j), rest, j);
    case Registered =>
      es := RunsRegistered(w, j);
    case Queued =>
      var k :| 0 <= k < |w.order| && w.order[k] == j && ResponseOpen(w, k);
      es := RunsQueued(w, k);
  }

  // ---------- the exact conditions ----------

  lemma PlayGoing(w: World, es: seq<Event>)
    requires Start(w) && NoClash(Play(w, es).calls) && Readable(Play(w, es))
    ensures Going(Play(w, es))
  {
    PlayOk(w, es);
    PlayStoppedOk(w, es);
    hide WorldOk; hide Readable; hide NoClash;
    GoingShape(Play(w, es));
  }

  /** In every run: a call's processor runs in some continuation, or has run, exactly if it has one and
      the call can still be enqueued, or its response is at the receiver or under way, or it is still to
      be made with no shutdown in front of it. */
  lemma ProcessorRunsExactly(w: World, es: seq<Event>, j: nat)
    requires Start(w) && NoClash(Play(w, es).calls) && Readable(Play(w, es)) && j < |Play(w, es).calls|
    ensures var v := Play(w, es);
            && |Enqueued(v)| == |v.order|
            && ((exists more :: Runs(v, more, j)) <==> HasRun(v, j) || CanRun(v, j))
  {
    PlayGoing(w, es);
    var v := Play(w, es);
    hide Play; hide CanRun; hide NoClash;
    if HasRun(v, j) {
      NoMore(v, j);
    } else if CanRun(v, j) {
      var more := RunsSome(v, j);
    } else {
      forall more | NoClash(Play(v, more).calls)
        ensures !Runs(v, more, j)
      {
        LostForGood(v, more, j);
      }
    }
  }

  lemma NoMore(w: World, j: nat)
    requires NoClash(w.calls) && HasRun(w, j)
    ensures Runs(w, [], j)
  {
  }

  /** In every run: the processor a call registered is in the map for good exactly if it has not run and
      cannot any more. */
  lemma LeaksExactly(w: World, es: seq<Event>, j: nat)
    requires Start(w) && NoClash(Play(w, es).calls) && Readable(Play(w, es))
    requires j < |Play(w, es).calls| && Waiting(Play(w, es).calls[j])
    ensures var v := Play(w, es); var c := v.calls[j];
            && |Enqueued(v)| == |v.order|
            && ((forall more :: NoClash(Play(v, more).calls) ==>
                                  c.req.id in Play(v, more).procs && Play(v, more).procs[c.req.id] == c.proc.value)
                <==> !HasRun(v, j) && !CanRun(v, j))
  {
    PlayGoing(w, es);
    var v := Play(w, es);
    hide Play; hide CanRun; hide NoClash;
    if !HasRun(v, j) && !CanRun(v, j) {
      forall more | NoClash(Play(v, more).calls)
        ensures v.calls[j].req.id in Play(v, more).procs
        ensures Play(v, more).procs[v.calls[j].req.id] == v.calls[j].proc.value
      {
        LostForGood(v, more, j);
        PlayKeeps(v, more);
        StaysWaiting(v, more, j);
        StillInMap(Play(v, more), j);
      }
    } else {
      var more: seq<Event>;
      if HasRun(v, j) {
        NoMore(v, j);
        more := [];
      } else {
        more := RunsSome(v, j);
      }
      PlayKeeps(v, more);
      StaysWaiting(v, more, j);
      GoneFromMap(Play(v, more), j);
    }
  }

  lemma StillInMap(w: World, j: nat)
    requires WorldOk(w) && j < |w.calls| && Waiting(w.calls[j]) && !HasRun(w, j)
    ensures w.calls[j].req.id in w.procs && w.procs[w.calls[j].req.id] == w.calls[j].proc.value
  {
    assert CallOk(w, j);
  }

  lemma GoneFromMap(w: World, j: nat)
    requires WorldOk(w) && j < |w.calls| && HasRun(w, j)
    ensures w.calls[j].req.id !in w.procs
  {
    assert CallOk(w, j);
  }

  lemma StepWaiting(w: World, e: Event, j: nat)
    requires j < |w.calls| && Waiting(w.calls[j])
    ensures j < |Step(w, e).calls| && Waiting(Step(w, e).calls[j])
    ensures Step(w, e).calls[j].req == w.calls[j].req && Step(w, e).calls[j].proc == w.calls[j].proc
  {
    hide Serve; hide Responses; hide AllFit; hide Fits; hide Answerable;
  }

  lemma {:induction false} StaysWaiting(w: World, es: seq<Event>, j: nat)
    requires j < |w.calls| && Waiting(w.calls[j])
    ensures var v := Play(w, es);
            && j < |v.calls| && Waiting(v.calls[j])
            && v.calls[j].req == w.calls[j].req && v.calls[j].proc == w.calls[j].proc
  {
    hide Step; hide Waiting;
    if |es| > 0 {
      StaysWaiting(w, es[..|es| - 1], j);
      StepWaiting(Play(w, es[..|es| - 1]), es[|es| - 1], j);
    }
  }
}
