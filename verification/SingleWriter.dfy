/** The cell with exactly one writer, the way Wineing uses it: the writer is never refused,
    versions name publications, and a poll that skips the lock misses nothing. */
module SingleWriter {
  import opened Wrappers
  import opened Ctrl
  import opened Lazy
  import opened Cell

  ghost predicate OneWriter(s: State, w: nat) {
    w < |s.threads| && forall t :: 0 <= t < |s.threads| ==> (s.threads[t].writer <==> t == w)
  }

  predicate WriterVer(version: int, th: Thread) {
    match th.pc
    case Idle => th.ver == version
    case Check => th.tv == th.ver == version
    case Lock => th.tv == th.ver == version
    case Stamp => th.tv == th.ver == version
    case Copy(_) => th.tv == version
    case Unlock => th.tv == version
    case Ret => th.tv == version
    case Refused => false
  }

  ghost predicate Increasing(seen: seq<int>, n: nat) {
    && (forall i :: 0 <= i < |seen| ==> 0 <= seen[i] < n)
    && (forall i, j :: 0 <= i < j < |seen| ==> seen[i] < seen[j])
  }

  /** The version a reader carries is that of the publication it copied last; `n` publications
      exist. The last clause is freshness: a finished poll is no older than its beginning. */
  ghost predicate ReaderVer(n: nat, th: Thread) {
    && Increasing(th.seen, n)
    && th.floor < n
    && (match th.pc
        case Idle => th.ver == Ver(th.Last())
        case Check => th.tv == th.ver == Ver(th.Last())
        case Lock => th.tv == th.ver == Ver(th.Last()) && th.Last() < n - 1
        case Stamp => th.tv == th.ver == Ver(th.Last()) && th.Last() < n - 1
        case Copy(_) => th.tv == Ver(th.Last())
        case Unlock => th.tv == Ver(th.Last())
        case Ret => th.tv == Ver(th.Last())
        case Refused => false)
    && (n - 1 <= LAST_EXACT && Settled(th.pc) ==> th.floor <= th.Last())
  }

  ghost predicate SoloInv(s: State, w: nat) {
    && Inv(s)
    && OneWriter(s, w)
    && s.version == Ver(s.Latest())
    && WriterVer(s.version, s.threads[w])
    && forall t :: 0 <= t < |s.threads| && t != w ==> ReaderVer(|s.history|, s.threads[t])
  }

  lemma InitSolo(s: State, w: nat)
    requires Init(s) && OneWriter(s, w)
    ensures SoloInv(s, w)
  {
    InitInv(s);
    VerSteps(-1);
  }

  lemma ReaderVerGrows(n: nat, n': nat, th: Thread)
    requires ReaderVer(n, th) && n <= n' && !Critical(th.pc)
    ensures ReaderVer(n', th)
  {
  }

  lemma ReaderCheckVer(s: State, w: nat, t: nat)
    requires SoloInv(s, w) && t < |s.threads| && t != w && s.threads[t].pc == Check
    ensures ReaderVer(|s.history|, Tick(s, t).threads[t])
  {
    var th := s.threads[t];
    assert ReaderVer(|s.history|, th) && ReaderOk(s.history, s.shared, th);
    if th.tv == s.version && s.Latest() <= LAST_EXACT {
      VerInjective(th.Last(), s.Latest());
    }
  }

  lemma ReaderStampVer(s: State, w: nat, t: nat)
    requires SoloInv(s, w) && t < |s.threads| && t != w && s.threads[t].pc == Stamp
    ensures ReaderVer(|s.history|, Tick(s, t).threads[t])
  {
  }

  /** A reader's own step. */
  lemma ReaderTickVer(s: State, w: nat, t: nat)
    requires SoloInv(s, w) && t < |s.threads| && t != w
    ensures ReaderVer(|s.history|, Tick(s, t).threads[t])
  {
    var th := s.threads[t];
    assert ReaderVer(|s.history|, th) && !th.writer;
    hide Ver; hide SoloInv; hide CopyStep; hide Increasing; hide Finished;
    if th.pc == Check {
      ReaderCheckVer(s, w, t);
    } else if th.pc == Stamp {
      ReaderStampVer(s, w, t);
    }
  }

  lemma WriterTickSolo(s: State, w: nat)
    requires SoloInv(s, w)
    ensures var s' := Tick(s, w);
            && s'.version == Ver(s'.Latest())
            && WriterVer(s'.version, s'.threads[w])
            && forall t :: 0 <= t < |s'.threads| && t != w ==> ReaderVer(|s'.history|, s'.threads[t])
  {
    var s' := Tick(s, w);
    TickFrame(s, w);
    VerSteps(s.Latest());
    forall t | 0 <= t < |s.threads| && t != w
      ensures ReaderVer(|s'.history|, s'.threads[t])
    {
      if s.threads[w].pc == Stamp {
        assert s.owner == Some(w);
        ReaderVerGrows(|s.history|, |s'.history|, s.threads[t]);
      }
    }
  }

  lemma TickSolo(s: State, w: nat, t: nat)
    requires SoloInv(s, w) && t < |s.threads|
    ensures SoloInv(Tick(s, t), w)
  {
    hide Inv; hide Tick; hide ReaderVer;
    TickKeeps(s, t);
    TickFrame(s, t);
    if t == w {
      WriterTickSolo(s, w);
    } else {
      ReaderTickVer(s, w, t);
    }
  }

  lemma BeginSolo(s: State, w: nat, t: nat)
    requires SoloInv(s, w) && t < |s.threads|
    ensures SoloInv(Begin(s, t), w)
  {
    hide Inv; hide Tick;
    NextKeeps(s, DoBegin(t));
    assert t != w ==> ReaderVer(|s.history|, s.threads[t]);
  }

  lemma AssignSolo(s: State, w: nat, t: nat, rec: Record)
    requires SoloInv(s, w) && t < |s.threads|
    ensures SoloInv(Assign(s, t, rec), w)
  {
  }

  lemma NextSolo(s: State, w: nat, l: Label)
    requires SoloInv(s, w)
    ensures SoloInv(Next(s, l), w)
  {
    hide SoloInv;
    if l.t < |s.threads| {
      match l
      case DoBegin(t) => BeginSolo(s, w, t);
      case DoAssign(t, rec) => AssignSolo(s, w, t, rec);
      case DoTick(t) => TickSolo(s, w, t);
    }
  }

  lemma {:induction false} RunSolo(s: State, w: nat, ls: seq<Label>)
    requires SoloInv(s, w)
    ensures SoloInv(Run(s, ls), w)
  {
    hide SoloInv; hide Next;
    if |ls| > 0 {
      RunSolo(s, w, ls[..|ls| - 1]);
      NextSolo(Run(s, ls[..|ls| - 1]), w, ls[|ls| - 1]);
    }
  }

  // ---------- what the invariant means ----------

  /** In every reachable state the writer has never been refused, and between calls it carries the
      global version; versions are publication numbers as long as none overflows. */
  lemma WriterNeverRefused(init: State, w: nat, ls: seq<Label>)
    requires Init(init) && OneWriter(init, w)
    ensures var s := Run(init, ls);
            && OneWriter(s, w)
            && s.threads[w].pc != Refused
            && (s.threads[w].pc == Idle ==> s.threads[w].ver == s.version)
            && s.version == Ver(s.Latest())
            && (s.Latest() <= INT_MAX ==> s.version == s.Latest())
  {
    InitSolo(init, w);
    RunSolo(init, w, ls);
    var n := Run(init, ls).Latest();
    if 0 <= n <= INT_MAX {
      VersionsNeverOverflow(n);
    }
  }

  /** The version that goes with a reader's record: the callee has the new one before the caller does. */
  function Carried(th: Thread): int {
    if th.pc.Copy? || th.pc.Unlock? || th.pc.Ret? then th.tv else th.ver
  }

  /** A reader that is not in the middle of a copy and carries version v holds exactly publication v,
      whether it is between calls, about to lock, or done copying, and whether its last poll copied or
      skipped; it copied publications in order, each at most once. */
  lemma Snapshot(init: State, w: nat, ls: seq<Label>, t: nat)
    requires Init(init) && OneWriter(init, w)
    ensures var s := Run(init, ls);
            t < |s.threads| && t != w && !s.threads[t].pc.Copy? ==>
              var th := s.threads[t];
              && Increasing(th.seen, |s.history|)
              && |th.got| == |th.seen|
              && (forall i :: 0 <= i < |th.seen| ==> th.got[i] == s.history[th.seen[i]])
              && th.loc == Overlay(th.init, th.got)
              && Carried(th) == Ver(th.Last())
              && (th.Last() >= 0 ==> View(th.loc) == s.history[th.Last()])
              && (s.Latest() <= INT_MAX ==> Carried(th) == th.Last())
  {
    InitSolo(init, w);
    RunSolo(init, w, ls);
    hide Next;
    var s := Run(init, ls);
    if t < |s.threads| && t != w && !s.threads[t].pc.Copy? {
      var th := s.threads[t];
      assert ReaderOk(s.history, s.shared, th) && ReaderVer(|s.history|, th);
      if |th.got| > 0 {
        OverlayView(th.init, th.got);
      }
      if s.Latest() <= INT_MAX {
        VersionsNeverOverflow(s.Latest());
      }
    }
  }

  /** Nothing recorded is ever taken back. */
  predicate Later(s: State, s': State, t: nat) {
    && t < |s.threads| == |s'.threads|
    && s.history <= s'.history
    && s.threads[t].seen <= s'.threads[t].seen
    && s.threads[t].floor <= s'.threads[t].floor
    && s.threads[t].writer == s'.threads[t].writer
  }

  lemma NextLater(s: State, l: Label, t: nat)
    requires t < |s.threads| && s.threads[t].floor <= s.Latest()
    ensures Later(s, Next(s, l), t)
  {
  }

  lemma {:induction false} RunLater(s: State, w: nat, ls: seq<Label>, t: nat)
    requires SoloInv(s, w) && t < |s.threads| && t != w
    ensures Later(s, Run(s, ls), t)
  {
    if |ls| > 0 {
      var mid := Run(s, ls[..|ls| - 1]);
      RunLater(s, w, ls[..|ls| - 1], t);
      RunSolo(s, w, ls[..|ls| - 1]);
      assert ReaderVer(|mid.history|, mid.threads[t]);
      NextLater(mid, ls[|ls| - 1], t);
    }
  }

  /** A settled poll is no older than its beginning, whatever happened since. */
  lemma FloorHolds(s: State, w: nat, t: nat)
    requires SoloInv(s, w) && t < |s.threads| && t != w && s.threads[t].pc == Idle
    requires s.Latest() <= LAST_EXACT && 0 <= s.threads[t].floor
    ensures var th := s.threads[t];
            th.floor <= th.Last() <= s.Latest() && View(th.loc) == s.history[th.Last()]
  {
  }

  lemma LastGrows(seen: seq<int>, th': Thread, n: nat)
    requires seen <= th'.seen && ReaderVer(n, th')
    ensures (if |seen| == 0 then -1 else seen[|seen| - 1]) <= th'.Last()
  {
  }

  /** The same, from any reachable state on. */
  lemma FreshFrom(s: State, w: nat, t: nat, after: seq<Label>)
    requires SoloInv(s, w) && t < |s.threads| && t != w && s.threads[t].pc == Idle
    ensures var s' := Run(Begin(s, t), after);
            && t < |s'.threads| && s.history <= s'.history
            && s.threads[t].Last() <= s'.threads[t].Last()
            && (s'.threads[t].pc == Idle && s'.Latest() <= LAST_EXACT ==>
                  s.Latest() <= s'.threads[t].Last() <= s'.Latest()
                  && View(s'.threads[t].loc) == s'.history[s'.threads[t].Last()])
  {
    var s1 := Begin(s, t);
    BeginSolo(s, w, t);
    RunSolo(s1, w, after);
    RunLater(s1, w, after, t);
    var s' := Run(s1, after);
    LastGrows(s.threads[t].seen, s'.threads[t], |s'.history|);
    if s'.threads[t].pc == Idle && s'.Latest() <= LAST_EXACT {
      FloorHolds(s', w, t);
    }
  }

  /** A poll delivers a publication at least as new as the latest one when the poll began; later
      polls keep that, so a reader never moves back. */
  lemma PollIsFresh(init: State, w: nat, before: seq<Label>, t: nat, after: seq<Label>)
    requires Init(init) && OneWriter(init, w) && t < |init.threads| && t != w
    ensures var s := Run(init, before);
            var s' := Run(Next(s, DoBegin(t)), after);
            && t < |s.threads| == |s'.threads| && 0 < |s.history|
            && (s.threads[t].pc == Idle && s'.threads[t].pc == Idle && s'.Latest() <= LAST_EXACT ==>
                  && s.history <= s'.history
                  && s.threads[t].Last() <= s'.threads[t].Last()
                  && s.Latest() <= s'.threads[t].Last() <= s'.Latest()
                  && View(s'.threads[t].loc) == s'.history[s'.threads[t].Last()])
  {
    InitSolo(init, w);
    RunSolo(init, w, before);
    RunLater(init, w, before, t);
    var s := Run(init, before);
    NextSolo(s, w, DoBegin(t));
    RunLater(Next(s, DoBegin(t)), w, after, t);
    if s.threads[t].pc == Idle {
      FreshFrom(s, w, t, after);
    }
  }
}
