/** Ids come from a clock and may coincide. Exactly when that can misroute a response. */
module Collisions {
  import opened Wrappers
  import opened Ctrl
  import opened Requests
  import opened Wire
  import opened Client

  /** A call about to be made: its request and its processor, if it has one. */
  type Plan = (Request, Option<int>)

  predicate CallsAre(calls: seq<Call>, plans: seq<Plan>) {
    |calls| == |plans| && forall i :: 0 <= i < |plans| ==> calls[i].req == plans[i].0 && calls[i].proc == plans[i].1
  }

  // ---------- a schedule that misroutes ----------

  function AllEntered(plans: seq<Plan>): seq<Call> {
    seq(|plans|, i requires 0 <= i < |plans| => Call(plans[i].0, plans[i].1, Entered))
  }

  /** All the calls begin. */
  lemma {:induction false} PutAll(w: World, plans: seq<Plan>) returns (es: seq<Event>)
    requires Start(w)
    ensures Play(w, es) == w.(calls := AllEntered(plans))
  {
    if |plans| == 0 {
      es := [];
    } else {
      var n := |plans| - 1;
      var before := PutAll(w, plans[..n]);
      var e := Put(plans[n].0, plans[n].1);
      es := before + [e];
      PlaySnoc(w, before, e);
      assert AllEntered(plans[..n]) + [Call(plans[n].0, plans[n].1, Entered)] == AllEntered(plans);
    }
  }

  /** Call x registers, call y registers over it under the same id, and x is enqueued. */
  lemma CollisionRegisters(w: World, plans: seq<Plan>, x: nat, y: nat)
    requires w.calls == AllEntered(plans) && w.procs == map[] && w.queue == [] && w.order == []
    requires x < |plans| && y < |plans| && x != y && plans[x].0.id == plans[y].0.id && plans[y].1.Some?
    ensures var v := Step(Step(Step(w, CallRuns(x)), CallRuns(y)), CallRuns(x));
            && v == w.(calls := v.calls, procs := map[plans[x].0.id := plans[y].1.value], queue := [plans[x].0],
                       order := [x])
            && CallsAre(v.calls, plans)
  {
    var id, cx, cy := plans[x].0.id, w.calls[x], w.calls[y];
    var w1 := Step(w, CallRuns(x));
    assert w1.calls == w.calls[x := cx.(stage := Registered)];
    var w2 := Step(w1, CallRuns(y));
    assert w2.calls == w1.calls[y := cy.(stage := Registered)];
    assert w2.procs == map[id := plans[y].1.value];
  }

  /** The sender takes the only request and sends it. */
  lemma CollisionSends(w: World, req: Request)
    requires w.queue == [req] && w.sender == Taking && w.sent == []
    ensures var v := Step(Step(w, SenderRuns), SenderRuns);
            v == w.(queue := [], sent := [req], sender := v.sender)
  {
  }

  lemma CollisionAnswered(base: string, local: Record, input: Input)
    requires CMD_SHUTDOWN < local.cmd && Fits(base, input)
    ensures AllFit(base, [input]) && AllFit(base, []) && Serve(base, local, []).local == local
    ensures var rs := Serve(base, local, [input]).responses; |rs| == 1 && rs[0].id == input.req.id
  {
    ServeSnoc(base, local, [], input);
    assert [] + [input] == [input];
    HandleVerdict(base, local, input);
  }

  /** The server reads and answers it. */
  lemma CollisionServed(w: World, req: Request)
    requires w.sent == [req] && w.inputs == [] && w.net == {} && w.server.cmd == CMD_INIT
    requires Fits(w.base, Input(req, true))
    ensures var v := Step(w, ServerReads(true));
            && v == w.(inputs := [Input(req, true)], net := {0})
            && |Responses(v)| == 1 && Responses(v)[0].id == req.id
  {
    CollisionAnswered(w.base, w.server, Input(req, true));
    hide Serve; hide Fits;
  }

  /** The receiver gets the answer and runs whatever processor is registered under its id. */
  lemma CollisionRuns(w: World, id: int, q: int)
    requires w.net == {0} && w.receiver == Receiving && w.consumed == {} && w.ran == [] && w.procs == map[id := q]
    requires |Responses(w)| == 1 && Responses(w)[0].id == id
    ensures var v := Step(Step(w, Deliver(0)), ReceiverRuns);
            v == w.(net := {}, consumed := {0}, ran := [Ran(q, 0)], procs := map[])
  {
    hide Serve;
    var v := w.(net := w.net - {0}, consumed := w.consumed + {0}, receiver := Removing(0));
    assert Step(w, Deliver(0)) == v;
    assert Responses(v) == Responses(w);
    assert v.procs - {id} == map[];
  }

  /** The response of call x runs the processor that call y registered over it. */
  lemma Misroutes(w: World, plans: seq<Plan>, x: nat, y: nat) returns (es: seq<Event>)
    requires Start(w) && x < |plans| && y < |plans| && x != y && plans[x].0.id == plans[y].0.id
    requires plans[y].1.Some? && plans[x].1 != plans[y].1 && Fits(w.base, Input(plans[x].0, true))
    ensures var v := Play(w, es);
            && CallsAre(v.calls, plans) && v.order == [x]
            && v.ran == [Ran(plans[y].1.value, 0)] && !RanOk(v)
  {
    hide Step; hide Responses; hide Play; hide AllEntered; hide Fits;
    var entered := PutAll(w, plans);
    PlayThree(w, entered, CallRuns(x), CallRuns(y), CallRuns(x));
    CollisionRegisters(Play(w, entered), plans, x, y);
    var registered := entered + [CallRuns(x)] + [CallRuns(y)] + [CallRuns(x)];
    PlayThree(w, registered, SenderRuns, SenderRuns, ServerReads(true));
    var served := registered + [SenderRuns] + [SenderRuns] + [ServerReads(true)];
    var sent := Step(Step(Play(w, registered), SenderRuns), SenderRuns);
    CollisionSends(Play(w, registered), plans[x].0);
    CollisionServed(sent, plans[x].0);
    PlayTwo(w, served, Deliver(0), ReceiverRuns);
    es := served + [Deliver(0)] + [ReceiverRuns];
    CollisionRuns(Play(w, served), plans[x].0.id, plans[y].1.value);
    Misrouted(Play(w, es), plans, x, y);
  }

  lemma Misrouted(w: World, plans: seq<Plan>, x: nat, y: nat)
    requires CallsAre(w.calls, plans) && x < |plans| && y < |plans| && w.order == [x]
    requires plans[y].1.Some? && plans[x].1 != plans[y].1 && w.ran == [Ran(plans[y].1.value, 0)]
    ensures !RanOk(w)
  {
    assert w.ran[0] == Ran(plans[y].1.value, 0);
    assert !Expects(w, 0, Some(plans[y].1.value));
  }

  /** The smallest case: the later registration replaces the earlier one, and the first call's response
      runs the second call's processor. */
  lemma CollisionMisroutes(w: World, id: int, p: int, q: int) returns (es: seq<Event>)
    requires Start(w) && p != q
    ensures var v := Play(w, es);
            && v.ran == [Ran(q, 0)]
            && v.order == [0] && |v.calls| == 2
            && v.calls[0].proc == Some(p) && v.calls[1].proc == Some(q)
            && v.calls[0].req.id == v.calls[1].req.id == id
            && !RanOk(v)
  {
    var req := Request(id, MarketStop, None);
    es := Misroutes(w, [(req, Some(p)), (req, Some(q))], 0, 1);
  }

  // ---------- the exact condition ----------

  /** Plans share an id only if none of them comes with a processor. */
  predicate Unclashing(plans: seq<Plan>) {
    forall i, j :: 0 <= i < j < |plans| && plans[i].0.id == plans[j].0.id ==> plans[i].1 == None && plans[j].1 == None
  }

  lemma UnclashingCalls(calls: seq<Call>, plans: seq<Plan>)
    requires CallsAre(calls, plans)
    ensures NoClash(calls) <==> Unclashing(plans)
  {
    if Unclashing(plans) {
      forall j, k | 0 <= j < k < |calls| && calls[j].req.id == calls[k].req.id
        ensures calls[j].proc == None && calls[k].proc == None
      {
        assert plans[j].0.id == plans[k].0.id;
      }
    } else {
      var i, j :| 0 <= i < j < |plans| && plans[i].0.id == plans[j].0.id && !(plans[i].1 == None && plans[j].1 == None);
      assert calls[i].req.id == calls[j].req.id;
    }
  }

  /** Whatever the interleaving, every processor runs on its own call's response only, no removal fails,
      and the default gets only responses of calls without a processor, exactly if calls share an id only
      when none of them comes with a processor. A processor stands for its call: calls that share an id
      do not share one. */
  lemma CorrelationExactly(w: World, plans: seq<Plan>)
    requires Start(w) && forall i :: 0 <= i < |plans| ==> Fits(w.base, Input(plans[i].0, true))
    requires forall i, j :: 0 <= i < j < |plans| && plans[i].0.id == plans[j].0.id && plans[i].1.Some? ==>
                              plans[i].1 != plans[j].1
    ensures (forall es :: CallsAre(Play(w, es).calls, plans) ==> RanOk(Play(w, es))) <==> Unclashing(plans)
  {
    hide RanOk; hide Play; hide NoClash; hide Fits;
    if Unclashing(plans) {
      forall es | CallsAre(Play(w, es).calls, plans)
        ensures RanOk(Play(w, es))
      {
        UnclashingCalls(Play(w, es).calls, plans);
        Correlation(w, es);
      }
    } else {
      var i, j :| 0 <= i < j < |plans| && plans[i].0.id == plans[j].0.id && !(plans[i].1 == None && plans[j].1 == None);
      if plans[j].1.Some? {
        var es := Misroutes(w, plans, i, j);
      } else {
        var es := Misroutes(w, plans, j, i);
      }
    }
  }
}
