/** Where the cell stops working: past the last version 32 bits can tell apart, and with a
    second writer. */
module Limits {
  import opened Wrappers
  import opened Ctrl
  import opened Lazy
  import opened Cell
  import opened SingleWriter
  import opened Solo

  /** A poll is about to skip the lock although its record is not the latest publication. */
  predicate StaleSkip(s: State, t: nat) {
    && t < |s.threads|
    && !s.threads[t].writer
    && s.threads[t].pc == Check
    && s.threads[t].tv == s.version
    && s.threads[t].Last() != s.Latest()
  }

  lemma NoStaleSkip(init: State, w: nat, ls: seq<Label>, t: nat)
    requires Init(init) && OneWriter(init, w) && Run(init, ls).Latest() <= LAST_EXACT
    ensures !StaleSkip(Run(init, ls), t)
  {
    InitSolo(init, w);
    RunSolo(init, w, ls);
    var s := Run(init, ls);
    if StaleSkip(s, t) {
      assert ReaderVer(|s.history|, s.threads[t]);
      VerInjective(s.threads[t].Last(), s.Latest());
    }
  }

  /** The writer alone can publish any number of times. */
  lemma {:induction false} PublishMany(init: State, w: nat, n: nat) returns (ls: seq<Label>)
    requires Init(init) && OneWriter(init, w)
    ensures var s := Run(init, ls);
            && |s.threads| == |init.threads|
            && (forall r :: 0 <= r < |s.threads| && r != w ==> s.threads[r] == init.threads[r])
            && s.owner == None && s.threads[w].pc == Idle
            && |s.history| == n + 1
  {
    InitSolo(init, w);
    if n == 0 {
      ls := [];
    } else {
      var before := PublishMany(init, w, n - 1);
      var s := Run(init, before);
      RunSolo(init, w, before);
      var k := SoloPublish(s, w);
      ls := before + ([DoBegin(w)] + Ticks(w, k));
      RunConcat(init, before, [DoBegin(w)] + Ticks(w, k));
    }
  }

  lemma StaleSkipReachable(init: State, w: nat, t: nat) returns (ls: seq<Label>)
    requires Init(init) && OneWriter(init, w) && t < |init.threads| && t != w
    ensures Run(init, ls).Latest() == LAST_EXACT + 1 && StaleSkip(Run(init, ls), t)
  {
    var before := PublishMany(init, w, LAST_EXACT + 1);
    InitSolo(init, w);
    RunSolo(init, w, before);
    ls := before + [DoBegin(t)];
    RunConcat(init, before, [DoBegin(t)]);
    RunOne(Run(init, before), DoBegin(t));
    assert Ver(LAST_EXACT + 1) == -1;
  }

  /** With one writer and a reader, skipping the lock on equal versions is right in every run of at
      most n publications exactly when n is at most 2^32 - 2. */
  lemma SkipIsSoundExactly(init: State, w: nat, t: nat, n: nat)
    requires Init(init) && OneWriter(init, w) && t < |init.threads| && t != w
    ensures (forall ls :: Run(init, ls).Latest() <= n ==> !StaleSkip(Run(init, ls), t)) <==> n <= LAST_EXACT
  {
    if n <= LAST_EXACT {
      forall ls | Run(init, ls).Latest() <= n
        ensures !StaleSkip(Run(init, ls), t)
      {
        NoStaleSkip(init, w, ls, t);
      }
    } else {
      var ls := StaleSkipReachable(init, w, t);
    }
  }

  // ---------- two writers ----------

  lemma RunTwo(s: State, x: Label, y: Label)
    ensures Run(s, [x, y]) == Next(Next(s, x), y)
  {
    assert [x] + [y] == [x, y];
    RunFirst(s, x, [y]);
    RunOne(Next(s, x), y);
  }

  predicate Ready(s: State, t: nat) {
    t < |s.threads| && s.threads[t].writer && s.threads[t].pc == Idle && s.threads[t].ver == s.version
  }

  lemma PassOne(s: State, t: nat)
    requires Ready(s, t)
    ensures Run(s, [DoBegin(t), DoTick(t)])
            == s.Put(t, s.threads[t].(pc := Lock, tv := s.version, floor := s.Latest()))
  {
    RunTwo(s, DoBegin(t), DoTick(t));
  }

  /** Both writers pass the unlocked check before either takes the lock. */
  lemma BothPass(s: State, a: nat, b: nat)
    requires Ready(s, a) && Ready(s, b) && a != b
    ensures Run(s, [DoBegin(a), DoTick(a)] + [DoBegin(b), DoTick(b)])
            == s.Put(a, s.threads[a].(pc := Lock, tv := s.version, floor := s.Latest()))
                .Put(b, s.threads[b].(pc := Lock, tv := s.version, floor := s.Latest()))
  {
    RunConcat(s, [DoBegin(a), DoTick(a)], [DoBegin(b), DoTick(b)]);
    PassOne(s, a);
    PassOne(Run(s, [DoBegin(a), DoTick(a)]), b);
  }

  /** A writer past its check takes the free lock and publishes, whatever the version is by now. */
  lemma PublishFromLock(s: State, t: nat) returns (n: nat)
    requires Inv(s) && t < |s.threads| && s.threads[t].writer && s.threads[t].pc == Lock && s.owner == None
    ensures var s' := Run(s, Ticks(t, n));
            && Inv(s') && |s'.threads| == |s.threads| && s'.owner == None
            && (forall r :: 0 <= r < |s.threads| && r != t ==> s'.threads[r] == s.threads[r])
            && s'.version == Inc32(s.threads[t].tv)
            && s'.history == s.history + [View(s.threads[t].loc)]
  {
    var s1 := TickLock(s, t);
    TickKeeps(s, t);
    var m := SoloTail(s1, t);
    n := m + 1;
    TicksFirst(s, t, m);
  }

  /** Two writers that pass the check together publish under the same version: a reader that polls
      in between holds the first publication, agrees with the global version, and so skips the lock on
      every later poll although the second publication is the latest. */
  lemma TwoWritersLoseUpdate(init: State, a: nat, b: nat, r: nat) returns (ls: seq<Label>)
    requires Init(init) && a < |init.threads| && b < |init.threads| && r < |init.threads| && a != b
    requires init.threads[a].writer && init.threads[b].writer && !init.threads[r].writer
    ensures var s := Run(init, ls);
            && |s.threads| == |init.threads| && |s.history| == 3
            && s.owner == None && s.threads[r].pc == Idle
            && s.threads[r].ver == s.version == 1
            && View(s.threads[r].loc) == View(init.threads[a].loc) == s.history[1]
            && s.history[2] == View(init.threads[b].loc)
            && StaleSkip(Run(init, ls + [DoBegin(r)]), r) && |Run(init, ls + [DoBegin(r)]).history| == 3
  {
    InitInv(init);
    var l1 := [DoBegin(a), DoTick(a)] + [DoBegin(b), DoTick(b)];
    BothPass(init, a, b);
    var s1 := Run(init, l1);
    RunKeeps(init, l1);
    var na := PublishFromLock(s1, a);
    var s2 := Run(s1, Ticks(a, na));
    var nr := SoloPoll(s2, r);
    var s3 := Run(s2, [DoBegin(r)] + Ticks(r, nr));
    assert View(s3.threads[r].loc) == s2.history[1] by {
      OverlayView(s2.init, s2.history);
      assert s3.threads[r].loc == Overwrite(s2.threads[r].loc, View(s2.shared));
      assert s3.threads[r].loc.data[..s2.shared.size] == s2.shared.data[..s2.shared.size];
    }
    var nb := PublishFromLock(s3, b);
    var s4 := Run(s3, Ticks(b, nb));
    var l3 := [DoBegin(r)] + Ticks(r, nr);
    ls := l1 + Ticks(a, na) + l3 + Ticks(b, nb);
    RunConcat(init, l1, Ticks(a, na));
    RunConcat(init, l1 + Ticks(a, na), l3);
    RunConcat(init, l1 + Ticks(a, na) + l3, Ticks(b, nb));
    RunConcat(init, ls, [DoBegin(r)]);
    RunOne(s4, DoBegin(r));
    assert ReaderOk(s4.history, s4.shared, s4.threads[r]);
    LastAtMost(s3, r);
  }

  /** A reader never claims a publication that does not exist. */
  lemma LastAtMost(s: State, r: nat)
    requires Inv(s) && r < |s.threads| && !s.threads[r].writer
    ensures s.threads[r].Last() < |s.history|
  {
  }

  /** With a writer and a reader, and no more publications than versions can tell apart, skipping the
      lock on equal versions is right in every run exactly when there is no second writer. */
  lemma OneWriterExactly(init: State, w: nat, r: nat)
    requires Init(init) && w < |init.threads| && r < |init.threads|
    requires init.threads[w].writer && !init.threads[r].writer
    ensures (forall ls :: Run(init, ls).Latest() <= LAST_EXACT ==> !StaleSkip(Run(init, ls), r)) <==> OneWriter(init, w)
  {
    if OneWriter(init, w) {
      forall ls | Run(init, ls).Latest() <= LAST_EXACT
        ensures !StaleSkip(Run(init, ls), r)
      {
        NoStaleSkip(init, w, ls, r);
      }
    } else {
      var b :| 0 <= b < |init.threads| && init.threads[b].writer && b != w;
      var ls := TwoWritersLoseUpdate(init, w, b, r);
      assert Run(init, ls + [DoBegin(r)]).Latest() <= LAST_EXACT;
    }
  }
}
