/** A call that runs alone. Started with the mutex free and scheduled without interruption, the
    fine-grained call ends, and its effect is that of the plain function in conc.cc. */
module Solo {
  import opened Wrappers
  import opened Ctrl
  import opened Lazy
  import opened Cell

  /** n steps of thread t. */
  function Ticks(t: nat, n: nat): seq<Label> {
    seq(n, _ => DoTick(t))
  }

  lemma {:induction false} RunConcat(s: State, a: seq<Label>, b: seq<Label>)
    ensures Run(s, a + b) == Run(Run(s, a), b)
  {
    if |b| == 0 {
      assert a + b == a;
    } else {
      var n := |b| - 1;
      assert (a + b)[..|a + b| - 1] == a + b[..n];
      RunConcat(s, a, b[..n]);
    }
  }

  lemma RunOne(s: State, l: Label)
    ensures Run(s, [l]) == Next(s, l)
  {
  }

  lemma RunFirst(s: State, l: Label, ls: seq<Label>)
    ensures Run(s, [l] + ls) == Run(Next(s, l), ls)
  {
    RunConcat(s, [l], ls);
    RunOne(s, l);
  }

  /** What a solo run of thread t may still change once the copy has begun. */
  predicate SameButCopy(s: State, s': State, t: nat)
    requires t < |s.threads|
  {
    && |s'.threads| == |s.threads|
    && (forall r :: 0 <= r < |s.threads| && r != t ==> s'.threads[r] == s.threads[r])
    && s'.version == s.version && s'.history == s.history && s'.init == s.init && s'.owner == s.owner
    && var th, th' := s.threads[t], s'.threads[t];
       && th' == th.(pc := th'.pc, loc := th'.loc)
       && if th.writer then th'.loc == th.loc else s'.shared == s.shared
  }

  lemma TicksFirst(s: State, t: nat, n: nat)
    requires t < |s.threads|
    ensures Run(s, Ticks(t, n + 1)) == Run(Tick(s, t), Ticks(t, n))
  {
    assert Ticks(t, n + 1) == [DoTick(t)] + Ticks(t, n);
    RunFirst(s, DoTick(t), Ticks(t, n));
  }

  lemma TicksNone(s: State, t: nat)
    ensures Run(s, Ticks(t, 0)) == s
  {
  }

  /** Two steps of t, spelled out. */
  lemma TicksTwo(s: State, t: nat)
    requires t < |s.threads|
    ensures Run(s, Ticks(t, 2)) == Tick(Tick(s, t), t)
  {
    hide Run; hide Tick; hide Ticks;
    TicksFirst(s, t, 1);
    TicksFirst(Tick(s, t), t, 0);
    TicksNone(Tick(Tick(s, t), t), t);
  }

  /** Steps a copy still has to take, at most. */
  function CopyLeft(stage: Stage): int {
    match stage
    case AtCmd => CAPACITY + 2
    case AtSize => CAPACITY + 1
    case AtByte(k) => CAPACITY - k
  }

  lemma CopyTick(s: State, t: nat)
    requires Inv(s) && t < |s.threads| && s.threads[t].pc.Copy?
    ensures var s' := Tick(s, t);
            && SameButCopy(s, s', t)
            && 0 <= CopyLeft(s.threads[t].pc.stage)
            && (s'.threads[t].pc == Unlock ||
                (s'.threads[t].pc.Copy? && CopyLeft(s'.threads[t].pc.stage) < CopyLeft(s.threads[t].pc.stage)))
  {
    assert s.owner == Some(t);
    assert !s.threads[t].writer ==> ReaderOk(s.history, s.shared, s.threads[t]);
  }

  /** The copy runs to its end. */
  lemma {:induction false} SoloCopy(s: State, t: nat) returns (n: nat)
    requires Inv(s) && t < |s.threads| && s.threads[t].pc.Copy?
    ensures Inv(Run(s, Ticks(t, n)))
    ensures SameButCopy(s, Run(s, Ticks(t, n)), t)
    ensures Run(s, Ticks(t, n)).threads[t].pc == Unlock
    decreases CopyLeft(s.threads[t].pc.stage)
  {
    var s1 := Tick(s, t);
    TickKeeps(s, t);
    CopyTick(s, t);
    if s1.threads[t].pc == Unlock {
      n := 1;
      TicksFirst(s, t, 0);
    } else {
      var m := SoloCopy(s1, t);
      n := m + 1;
      TicksFirst(s, t, m);
    }
  }

  /** The last two steps: unlock, return. */
  lemma SoloLeave(s: State, t: nat)
    requires t < |s.threads| && s.threads[t].pc == Unlock
    ensures var th := s.threads[t];
            Run(s, Ticks(t, 2)) == s.Put(t, th.(pc := Idle, ver := th.tv)).(owner := None)
  {
    hide Run; hide Ticks; hide TickCopy;
    TicksTwo(s, t);
    var th := s.threads[t];
    assert Tick(s, t) == s.Put(t, th.(pc := Ret)).(owner := None);
  }

  /** From the stamp on: stamp, copy, unlock, return. */
  lemma SoloTail(s: State, t: nat) returns (n: nat)
    requires Inv(s) && t < |s.threads| && s.threads[t].pc == Stamp
    ensures var s1, s' := TickStamp(s, t), Run(s, Ticks(t, n));
            && Inv(s') && |s'.threads| == |s.threads|
            && (forall r :: 0 <= r < |s.threads| && r != t ==> s'.threads[r] == s.threads[r])
            && s'.version == s1.version && s'.history == s1.history && s'.init == s.init && s'.owner == None
            && var th1, th' := s1.threads[t], s'.threads[t];
               && th' == th1.(pc := Idle, loc := th'.loc, ver := th1.tv)
               && (th1.writer ==> th'.loc == th1.loc) && (!th1.writer ==> s'.shared == s.shared)
  {
    var s1 := TickStamp(s, t);
    TickKeeps(s, t);
    var m := SoloCopy(s1, t);
    TicksFirst(s, t, m);
    n := m + 3;
    assert Ticks(t, n) == Ticks(t, m + 1) + Ticks(t, 2);
    RunConcat(s, Ticks(t, m + 1), Ticks(t, 2));
    SoloLeave(Run(s1, Ticks(t, m)), t);
    RunKeeps(s, Ticks(t, n));
  }

  /** A call that finds a version mismatch (reader) or a match (writer), up to its stamp. */
  lemma SoloHead(s: State, t: nat)
    requires t < |s.threads| && s.threads[t].pc == Idle && s.owner == None
    requires s.threads[t].writer <==> s.threads[t].ver == s.version
    ensures var th := s.threads[t];
            Run(s, [DoBegin(t)] + Ticks(t, 2))
            == s.Put(t, th.(pc := Stamp, tv := th.ver, floor := s.Latest())).(owner := Some(t))
  {
    hide Run; hide Ticks; hide TickCopy;
    var th := s.threads[t];
    var s1 := Begin(s, t);
    RunFirst(s, DoBegin(t), Ticks(t, 2));
    TicksTwo(s1, t);
    assert Tick(s1, t) == s.Put(t, th.(pc := Lock, tv := th.ver, floor := s.Latest()));
  }

  /** A call that takes the short way: no lock, no copy. */
  lemma SoloSkip(s: State, t: nat)
    requires t < |s.threads| && s.threads[t].pc == Idle && !s.threads[t].writer
    requires s.threads[t].ver == s.version
    ensures Run(s, [DoBegin(t)] + Ticks(t, 2)) == s.Put(t, s.threads[t].(tv := s.version, floor := s.Latest()))
  {
    hide Run; hide Ticks; hide TickCopy;
    var th := s.threads[t];
    var s1 := Begin(s, t);
    RunFirst(s, DoBegin(t), Ticks(t, 2));
    TicksTwo(s1, t);
    assert Tick(s1, t) == s.Put(t, th.(pc := Ret, tv := s.version, floor := s.Latest()));
  }

  lemma SoloRefused(s: State, t: nat)
    requires t < |s.threads| && s.threads[t].pc == Idle && s.threads[t].writer
    requires s.threads[t].ver != s.version
    ensures Run(s, [DoBegin(t)] + Ticks(t, 3))
            == s.Put(t, s.threads[t].(tv := s.version, ver := s.version, floor := s.Latest()))
  {
    hide Run; hide Ticks; hide TickCopy;
    var th := s.threads[t];
    var s1 := Begin(s, t);
    var s2 := Tick(s1, t);
    RunFirst(s, DoBegin(t), Ticks(t, 3));
    TicksFirst(s1, t, 2);
    TicksTwo(s2, t);
    assert s2 == s.Put(t, th.(pc := Refused, tv := th.ver, floor := s.Latest()));
    assert Tick(s2, t) == s.Put(t, th.(pc := Ret, tv := s.version, floor := s.Latest()));
  }

  /** An uninterrupted publish does what lazy_update_global_if_owner says. */
  lemma SoloPublish(s: State, t: nat) returns (n: nat)
    requires Inv(s) && t < |s.threads| && s.threads[t].pc == Idle && s.threads[t].writer && s.owner == None
    ensures var th, s' := s.threads[t], Run(s, [DoBegin(t)] + Ticks(t, n));
            && Inv(s') && s'.owner == None && |s'.threads| == |s.threads| && s'.init == s.init
            && (forall r :: 0 <= r < |s.threads| && r != t ==> s'.threads[r] == s.threads[r])
            && s'.threads[t].pc == Idle && s'.threads[t].writer && s'.threads[t].loc == th.loc
            && Published(s'.version, s'.shared, s'.threads[t].ver) == Publish(s.version, s.shared, th.ver, th.loc)
            && s'.history == (if th.ver == s.version then s.history + [View(th.loc)] else s.history)
  {
    var th := s.threads[t];
    RunKeeps(s, [DoBegin(t)]);
    if th.ver != s.version {
      n := 3;
      SoloRefused(s, t);
      RunKeeps(s, [DoBegin(t)] + Ticks(t, 3));
    } else {
      SoloHead(s, t);
      RunKeeps(s, [DoBegin(t)] + Ticks(t, 2));
      var s2 := Run(s, [DoBegin(t)] + Ticks(t, 2));
      var m := SoloTail(s2, t);
      n := m + 2;
      assert [DoBegin(t)] + Ticks(t, n) == [DoBegin(t)] + Ticks(t, 2) + Ticks(t, m);
      RunConcat(s, [DoBegin(t)] + Ticks(t, 2), Ticks(t, m));
      OverlaySnoc(s.init, s.history, View(th.loc));
    }
  }

  /** What a reader holds after copying: the shared record, laid over its old one. */
  lemma SoloPollCopies(s: State, t: nat, s': State)
    requires Inv(s) && Inv(s') && t < |s.threads| == |s'.threads|
    requires !s.threads[t].writer && !s'.threads[t].writer && s.owner == None
    requires !s'.threads[t].pc.Copy? && s'.threads[t].init == s.threads[t].init && s.threads[t].pc == Idle
    requires s'.threads[t].got == s.threads[t].got + [s.history[s.Latest()]]
    ensures s'.threads[t].loc == Overwrite(s.threads[t].loc, View(s.shared))
  {
  }

  /** A poll that finds a mismatch, from call to return. */
  lemma SoloPollCopy(s: State, t: nat) returns (n: nat)
    requires Inv(s) && t < |s.threads| && s.threads[t].pc == Idle && !s.threads[t].writer && s.owner == None
    requires s.threads[t].ver != s.version
    ensures var th, s' := s.threads[t], Run(s, [DoBegin(t)] + Ticks(t, n));
            && Inv(s') && s'.owner == None && |s'.threads| == |s.threads| && s'.init == s.init
            && (forall r :: 0 <= r < |s.threads| && r != t ==> s'.threads[r] == s.threads[r])
            && s'.threads[t].pc == Idle && !s'.threads[t].writer
            && s'.version == s.version && s'.shared == s.shared && s'.history == s.history
            && s'.threads[t].ver == s.version && s'.threads[t].loc == Overwrite(th.loc, View(s.shared))
  {
    assert |s.history| > 0;
    hide Inv; hide Run;
    SoloHead(s, t);
    RunKeeps(s, [DoBegin(t)] + Ticks(t, 2));
    var s2 := Run(s, [DoBegin(t)] + Ticks(t, 2));
    var m := SoloTail(s2, t);
    n := m + 2;
    assert [DoBegin(t)] + Ticks(t, n) == [DoBegin(t)] + Ticks(t, 2) + Ticks(t, m);
    RunConcat(s, [DoBegin(t)] + Ticks(t, 2), Ticks(t, m));
    SoloPollCopies(s, t, Run(s2, Ticks(t, m)));
  }

  /** An uninterrupted poll does what lazy_update_local_if_changed says. */
  lemma SoloPoll(s: State, t: nat) returns (n: nat)
    requires Inv(s) && t < |s.threads| && s.threads[t].pc == Idle && !s.threads[t].writer && s.owner == None
    ensures var th, s' := s.threads[t], Run(s, [DoBegin(t)] + Ticks(t, n));
            && Inv(s') && s'.owner == None && |s'.threads| == |s.threads| && s'.init == s.init
            && (forall r :: 0 <= r < |s.threads| && r != t ==> s'.threads[r] == s.threads[r])
            && s'.threads[t].pc == Idle && !s'.threads[t].writer
            && s'.version == s.version && s'.shared == s.shared && s'.history == s.history
            && Polled(s'.threads[t].loc, s'.threads[t].ver) == Poll(s.version, s.shared, th.ver, th.loc)
  {
    hide Inv; hide Run;
    if s.threads[t].ver == s.version {
      n := 2;
      SoloSkip(s, t);
      RunKeeps(s, [DoBegin(t)] + Ticks(t, 2));
    } else {
      n := SoloPollCopy(s, t);
    }
  }
}
