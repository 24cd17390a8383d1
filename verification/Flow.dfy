/** Where the server's responses are, in every run of the client and whatever the ids. */
module Flow {
  import opened Wrappers
  import opened Ctrl
  import opened Requests
  import opened Wire
  import opened Client

  /** The responses that got lost on the way. */
  function Dropped(w: World, es: seq<Event>): set<nat> {
    if |es| == 0 then {}
    else
      var before, e := es[..|es| - 1], es[|es| - 1];
      Dropped(w, before) + (if e.Lose? && e.i in Play(w, before).net then {e.i} else {})
  }

  /** Every response is in exactly one of three places: under way, taken in, or lost. */
  ghost predicate Located(w: World, dropped: set<nat>) {
    && (forall i: nat :: i < |w.inputs| <==> i in w.net || i in w.consumed || i in dropped)
    && w.net !! w.consumed && w.net !! dropped && w.consumed !! dropped
  }

  /** The steps of the calls and of the sender, and the last one of the receiver. */
  lemma QuietStep(w: World, e: Event)
    requires !e.ServerReads? && !e.Lose? && !e.Deliver?
    ensures var v := Step(w, e); v.net == w.net && v.consumed == w.consumed && v.inputs == w.inputs
  {
    hide Responses;
  }

  lemma ServerStepLocated(w: World, found: bool, dropped: set<nat>)
    requires Located(w, dropped)
    ensures Located(ServerStep(w, found), dropped)
  {
    hide Serve; hide AllFit; hide Fits;
  }

  lemma DeliverLocated(w: World, i: nat, dropped: set<nat>)
    requires Located(w, dropped)
    ensures Located(DeliverStep(w, i), dropped)
  {
    hide Responses;
  }

  lemma {:induction false} PlayLocated(w: World, es: seq<Event>)
    requires Start(w)
    ensures Located(Play(w, es), Dropped(w, es))
  {
    hide Start;
    if |es| == 0 {
      NothingYet(w);
    } else {
      hide Located; hide Step;
      var before, e := es[..|es| - 1], es[|es| - 1];
      var v := Play(w, before);
      PlayLocated(w, before);
      match e
      case ServerReads(found) => ServerReadsLocated(v, found, Dropped(w, before));
      case Deliver(i) => DeliversLocated(v, i, Dropped(w, before));
      case Lose(i) => LoseLocated(v, i, Dropped(w, before));
      case _ =>
        QuietStep(v, e);
        SameLocated(v, Step(v, e), Dropped(w, before));
    }
  }

  lemma NothingYet(w: World)
    requires Start(w)
    ensures Located(w, {})
  {
  }

  lemma ServerReadsLocated(w: World, found: bool, dropped: set<nat>)
    requires Located(w, dropped)
    ensures Located(Step(w, ServerReads(found)), dropped + {})
  {
    assert dropped + {} == dropped;
    hide ServerStep;
    ServerStepLocated(w, found, dropped);
  }

  lemma DeliversLocated(w: World, i: nat, dropped: set<nat>)
    requires Located(w, dropped)
    ensures Located(Step(w, Deliver(i)), dropped + {})
  {
    assert dropped + {} == dropped;
    hide DeliverStep;
    DeliverLocated(w, i, dropped);
  }

  lemma LoseLocated(w: World, i: nat, dropped: set<nat>)
    requires Located(w, dropped)
    ensures Located(Step(w, Lose(i)), dropped + (if i in w.net then {i} else {}))
  {
  }

  lemma SameLocated(w: World, v: World, dropped: set<nat>)
    requires Located(w, dropped) && v.net == w.net && v.consumed == w.consumed && v.inputs == w.inputs
    ensures Located(v, dropped + {})
  {
    assert dropped + {} == dropped;
  }

  /** In every run: a request that has been sent, with no shutdown in front of it, is read and answered
      by the verdict the earlier responses and the file lookup imply, and its response gets under way. */
  lemma ServerAnswers(w: World, es: seq<Event>, found: bool)
    requires Start(w) && |Play(w, es).inputs| < |Play(w, es).sent|
    requires var v := Play(w, es); var input := Input(v.sent[|v.inputs|], found);
             && Fits(v.base, input) && Answerable(v.base, input)
             && forall m :: 0 <= m < |v.inputs| ==> v.sent[m].kind != Shutdown
    ensures var v, v' := Play(w, es), Step(Play(w, es), ServerReads(found));
            var k, rs := |v.inputs|, Responses(v'); var input := Input(v.sent[k], found);
            && v'.inputs == v.inputs + [input] && v'.net == v.net + {k}
            && |rs| == k + 1 && rs[..k] == Responses(v) && rs[k].id == input.req.id
            && rs[k].kind == Verdict(Replay(Responses(v)), input) && Says(v.base, input.req, rs[k])
  {
    PlayFlowOk(w, es);
    var v := Play(w, es);
    hide Play; hide SendOk; hide DealtOk;
    StillReading(v.base, v.server, v.inputs);
    Answered(v, Input(v.sent[|v.inputs|], found));
  }

  lemma Answered(w: World, input: Input)
    requires ServerOk(w) && Fits(w.base, input) && CMD_SHUTDOWN < Serve(w.base, w.server, w.inputs).local.cmd
    ensures AllFit(w.base, w.inputs + [input])
    ensures var rs, k := Serve(w.base, w.server, w.inputs + [input]).responses, |w.inputs|;
            && |rs| == k + 1 && rs[..k] == Responses(w) && rs[k].id == input.req.id
            && rs[k].kind == Verdict(Replay(Responses(w)), input) && Says(w.base, input.req, rs[k])
  {
    ServeSnoc(w.base, w.server, w.inputs, input);
    ServeAccounted(w.base, w.server, w.inputs);
    HandleVerdict(w.base, Serve(w.base, w.server, w.inputs).local, input);
    hide Handle; hide Serve; hide Says; hide Verdict; hide Replay;
  }

  /** In every run, whatever the ids: the server makes one response for each request it reads; each is
      under way, taken in or lost, and only one of these; the receiver never crashes; and what it has
      taken in went to the default processor or to a registered one, or is about to. */
  lemma ResponseFlow(w: World, es: seq<Event>)
    requires Start(w)
    ensures var v, dropped := Play(w, es), Dropped(w, es);
            && |Responses(v)| == |v.inputs|
            && (forall i: nat :: i < |v.inputs| <==> i in v.net || i in v.consumed || i in dropped)
            && v.net !! v.consumed && v.net !! dropped && v.consumed !! dropped
            && !v.crashed
            && (forall i :: i in v.consumed ==> Dealt(v, i))
  {
    PlayLocated(w, es);
    PlayFlowOk(w, es);
  }
}
