/** The versioned cell under concurrency: any number of writers and readers, interleaved at every
    access to shared memory. A schedule is any sequence of labels; a label that cannot take effect
    (a blocked lock, a call while another is running) leaves the state unchanged. */
module Cell {
  import opened Wrappers
  import opened Ctrl
  import opened Lazy

  // ---------- states ----------

  /** Where a thread stands inside a call. Publishing and polling have the same shape. */
  datatype Pc =
    | Idle                // not in a call
    | Check               // about to compare versions without the lock
    | Lock                // waiting for the mutex
    | Stamp               // writer: about to bump the version; reader: about to read it
    | Copy(stage: Stage)  // in the middle of the copy
    | Unlock              // about to release the mutex
    | Refused             // writer only: about to read the version it is told instead
    | Ret                 // about to return the version to the caller

  /** The call running, if any, has taken its effect. */
  predicate Settled(pc: Pc) {
    pc.Idle? || pc.Copy? || pc.Unlock? || pc.Ret?
  }

  /** A thread. `ver` is the caller's version, `tv` the callee's. The last four fields only
      record what happened: the thread's first record, which publications it copied, what they
      said, and the latest publication when its last call began. */
  datatype Thread = Thread(writer: bool, pc: Pc, ver: int, tv: int, loc: Record,
                           init: Record, seen: seq<int>, got: seq<Pub>, floor: int)
  {
    /** The publication this thread copied last, or -1. */
    function Last(): int {
      if |seen| == 0 then -1 else seen[|seen| - 1]
    }
  }

  /** `init` and `history` only record: the first shared record and everything published,
      the first record included. */
  datatype State = State(version: int, owner: Option<nat>, shared: Record, threads: seq<Thread>,
                         init: Record, history: seq<Pub>)
  {
    function Put(t: nat, th: Thread): State
      requires t < |threads|
    {
      this.(threads := threads[t := th])
    }

    function Latest(): int {
      |history| - 1
    }
  }

  predicate InitThread(th: Thread) {
    && th.pc == Idle
    && th.ver == (if th.writer then 0 else -1)
    && th.loc == th.init
    && th.seen == [] && th.got == [] && th.floor == -1
  }

  predicate Init(s: State) {
    && s.version == 0
    && s.owner == None
    && s.shared == s.init
    && s.history == [View(s.init)]
    && forall t :: 0 <= t < |s.threads| ==> InitThread(s.threads[t])
  }

  // ---------- steps ----------

  /** A call begins. */
  function Begin(s: State, t: nat): (s': State)
    requires t < |s.threads|
    ensures |s'.threads| == |s.threads|
  {
    var th := s.threads[t];
    if th.pc != Idle then s else s.Put(t, th.(pc := Check, tv := th.ver, floor := s.Latest()))
  }

  /** A writer edits its own record between calls. */
  function Assign(s: State, t: nat, rec: Record): (s': State)
    requires t < |s.threads|
    ensures |s'.threads| == |s.threads|
  {
    var th := s.threads[t];
    if th.pc != Idle || !th.writer then s else s.Put(t, th.(loc := rec))
  }

  function TickCheck(s: State, t: nat): State
    requires t < |s.threads|
  {
    var th := s.threads[t];
    var next := if th.writer then (if th.tv == s.version then Lock else Refused)
                else (if th.tv == s.version then Ret else Lock);
    s.Put(t, th.(pc := next))
  }

  function TickLock(s: State, t: nat): State
    requires t < |s.threads|
  {
    if s.owner.Some? then s else s.Put(t, s.threads[t].(pc := Stamp)).(owner := Some(t))
  }

  /** The version write or the version read, under the lock. */
  function TickStamp(s: State, t: nat): State
    requires t < |s.threads|
  {
    var th := s.threads[t];
    if th.writer then
      var next := Inc32(th.tv);
      s.Put(t, th.(pc := Copy(AtCmd), tv := next)).(version := next, history := s.history + [View(th.loc)])
    else
      s.Put(t, th.(pc := Copy(AtCmd), tv := s.version, seen := th.seen + [s.Latest()],
                   got := th.got + (if |s.history| == 0 then [] else [s.history[|s.history| - 1]])))
  }

  /** One memory access of the copy. */
  function TickCopy(s: State, t: nat): State
    requires t < |s.threads| && s.threads[t].pc.Copy?
  {
    var th := s.threads[t];
    var stage := th.pc.stage;
    var src := if th.writer then th.loc else s.shared;
    if Finished(stage, src) then s.Put(t, th.(pc := Unlock))
    else if th.writer then
      s.Put(t, th.(pc := Copy(NextStage(stage)))).(shared := CopyStep(s.shared, src, stage))
    else
      s.Put(t, th.(pc := Copy(NextStage(stage)), loc := CopyStep(th.loc, src, stage)))
  }

  function Tick(s: State, t: nat): (s': State)
    requires t < |s.threads|
    ensures |s'.threads| == |s.threads|
  {
    var th := s.threads[t];
    match th.pc
    case Idle => s
    case Check => TickCheck(s, t)
    case Lock => TickLock(s, t)
    case Stamp => TickStamp(s, t)
    case Copy(_) => TickCopy(s, t)
    case Unlock => s.Put(t, th.(pc := Ret)).(owner := None)
    case Refused => s.Put(t, th.(pc := Ret, tv := s.version))
    case Ret => s.Put(t, th.(pc := Idle, ver := th.tv))
  }

  datatype Label = DoBegin(t: nat) | DoAssign(t: nat, rec: Record) | DoTick(t: nat)

  function Next(s: State, l: Label): State {
    if l.t >= |s.threads| then s else
    match l
    case DoBegin(t) => Begin(s, t)
    case DoAssign(t, rec) => Assign(s, t, rec)
    case DoTick(t) => Tick(s, t)
  }

  function Run(s: State, ls: seq<Label>): State {
    if |ls| == 0 then s else Next(Run(s, ls[..|ls| - 1]), ls[|ls| - 1])
  }

  /** What a step leaves alone: the other threads, and, unless a writer stamps, the history and
      the version. */
  lemma TickFrame(s: State, t: nat)
    requires t < |s.threads|
    ensures var s' := Tick(s, t);
            && |s'.threads| == |s.threads|
            && (forall r :: 0 <= r < |s.threads| && r != t ==> s'.threads[r] == s.threads[r])
            && s'.threads[t].writer == s.threads[t].writer && s'.threads[t].init == s.threads[t].init
            && s'.init == s.init
            && if s.threads[t].writer && s.threads[t].pc == Stamp then
                 s'.history == s.history + [View(s.threads[t].loc)] && s'.version == Inc32(s.threads[t].tv)
               else
                 s'.history == s.history && s'.version == s.version
  {
  }

  lemma HistoryGrows(s: State, l: Label)
    ensures s.history <= Next(s, l).history
  {
  }

  // ---------- the invariant: mutual exclusion, and no torn record escapes the lock ----------

  predicate Critical(pc: Pc) {
    pc.Stamp? || pc.Copy? || pc.Unlock?
  }

  ghost predicate Mutex(s: State) {
    && (s.owner.Some? ==> s.owner.value < |s.threads|)
    && forall t :: 0 <= t < |s.threads| ==> (Critical(s.threads[t].pc) <==> s.owner == Some(t))
  }

  predicate StageOk(stage: Stage, src: Record) {
    stage.AtByte? ==> stage.k <= src.size
  }

  /** The shared record is the overlay of everything published, except while a writer copies:
      then the last publication has been copied up to the writer's stage. */
  ghost predicate SharedOk(s: State) {
    && |s.history| > 0
    && if s.owner.Some? && s.owner.value < |s.threads| && s.threads[s.owner.value].writer
          && s.threads[s.owner.value].pc.Copy? then
         var th := s.threads[s.owner.value];
         && StageOk(th.pc.stage, th.loc)
         && s.history[|s.history| - 1] == View(th.loc)
         && s.shared == Partial(Overlay(s.init, s.history[..|s.history| - 1]), th.loc, th.pc.stage)
       else
         s.shared == Overlay(s.init, s.history)
  }

  /** A reader's record is the overlay of what it copied, except while it copies. */
  ghost predicate ReaderOk(history: seq<Pub>, shared: Record, th: Thread) {
    && |th.seen| == |th.got|
    && (forall i :: 0 <= i < |th.seen| ==> 0 <= th.seen[i] < |history| && th.got[i] == history[th.seen[i]])
    && (th.pc.Copy? || th.pc.Unlock? ==> th.Last() == |history| - 1)
    && if th.pc.Copy? then
         && |th.got| > 0
         && StageOk(th.pc.stage, shared)
         && th.loc == Partial(Overlay(th.init, th.got[..|th.got| - 1]), shared, th.pc.stage)
       else
         th.loc == Overlay(th.init, th.got)
  }

  ghost predicate ReadersOk(s: State) {
    forall t :: 0 <= t < |s.threads| && !s.threads[t].writer ==> ReaderOk(s.history, s.shared, s.threads[t])
  }

  ghost predicate Inv(s: State) {
    Mutex(s) && SharedOk(s) && ReadersOk(s)
  }

  lemma InitInv(s: State)
    requires Init(s)
    ensures Inv(s)
  {
  }

  /** Extending the history, or changing the shared record, does not disturb a reader
      outside the critical section. */
  lemma ReaderFrame(h: seq<Pub>, h': seq<Pub>, shared: Record, shared': Record, th: Thread)
    requires ReaderOk(h, shared, th) && !Critical(th.pc)
    requires h <= h'
    ensures ReaderOk(h', shared', th)
  {
  }

  lemma StampKeeps(s: State, t: nat)
    requires Inv(s) && t < |s.threads| && s.threads[t].pc == Stamp
    ensures Inv(TickStamp(s, t))
  {
    var th := s.threads[t];
    var s' := TickStamp(s, t);
    assert s.owner == Some(t);
    if th.writer {
      assert s'.history[..|s.history|] == s.history;
    } else {
      var th' := s'.threads[t];
      assert th'.got[..|th.got|] == th.got;
      assert ReaderOk(s'.history, s'.shared, th');
    }
    forall r | 0 <= r < |s.threads| && r != t && !s.threads[r].writer
      ensures ReaderOk(s'.history, s'.shared, s'.threads[r])
    {
      ReaderFrame(s.history, s'.history, s.shared, s'.shared, s.threads[r]);
    }
  }

  lemma WriterCopyKeeps(s: State, t: nat)
    requires Inv(s) && t < |s.threads| && s.threads[t].pc.Copy? && s.threads[t].writer
    ensures Inv(TickCopy(s, t))
  {
    var th := s.threads[t];
    var s' := TickCopy(s, t);
    assert s.owner == Some(t);
    var dst := Overlay(s.init, s.history[..|s.history| - 1]);
    if Finished(th.pc.stage, th.loc) {
      CopyEnds(dst, th.loc);
    } else {
      CopyStepAdvances(dst, th.loc, th.pc.stage);
    }
    forall r | 0 <= r < |s.threads| && !s.threads[r].writer
      ensures ReaderOk(s'.history, s'.shared, s'.threads[r])
    {
      ReaderFrame(s.history, s'.history, s.shared, s'.shared, s.threads[r]);
    }
  }

  lemma ReaderCopyKeeps(s: State, t: nat)
    requires Inv(s) && t < |s.threads| && s.threads[t].pc.Copy? && !s.threads[t].writer
    ensures Inv(TickCopy(s, t))
  {
    var th := s.threads[t];
    var s' := TickCopy(s, t);
    assert s.owner == Some(t);
    var m := |th.got| - 1;
    var dst := Overlay(th.init, th.got[..m]);
    assert ReaderOk(s.history, s.shared, th);
    if Finished(th.pc.stage, s.shared) {
      CopyEnds(dst, s.shared);
      OverlayView(s.init, s.history);
      assert th.got[m] == View(s.shared);
    } else {
      CopyStepAdvances(dst, s.shared, th.pc.stage);
    }
    assert ReaderOk(s'.history, s'.shared, s'.threads[t]);
  }

  /** Steps that touch only the thread itself, outside the critical section. */
  lemma LocalKeeps(s: State, t: nat, th': Thread)
    requires Inv(s) && t < |s.threads|
    requires var th := s.threads[t];
             && !Critical(th.pc) && !Critical(th'.pc)
             && th'.writer == th.writer
             && (!th.writer ==> th'.loc == th.loc && th'.init == th.init && th'.seen == th.seen && th'.got == th.got)
    ensures Inv(s.Put(t, th'))
  {
  }

  lemma LockKeeps(s: State, t: nat)
    requires Inv(s) && t < |s.threads| && s.threads[t].pc == Lock
    ensures Inv(TickLock(s, t))
  {
  }

  lemma UnlockKeeps(s: State, t: nat)
    requires Inv(s) && t < |s.threads| && s.threads[t].pc == Unlock
    ensures Inv(Tick(s, t))
  {
  }

  lemma TickKeeps(s: State, t: nat)
    requires Inv(s) && t < |s.threads|
    ensures Inv(Tick(s, t))
  {
    var th := s.threads[t];
    match th.pc
    case Idle =>
    case Stamp => StampKeeps(s, t);
    case Copy(_) => if th.writer { WriterCopyKeeps(s, t); } else { ReaderCopyKeeps(s, t); }
    case Lock => LockKeeps(s, t);
    case Unlock => UnlockKeeps(s, t);
    case Check => LocalKeeps(s, t, Tick(s, t).threads[t]);
    case Refused => LocalKeeps(s, t, Tick(s, t).threads[t]);
    case Ret => LocalKeeps(s, t, Tick(s, t).threads[t]);
  }

  lemma NextKeeps(s: State, l: Label)
    requires Inv(s)
    ensures Inv(Next(s, l))
  {
    if l.t < |s.threads| {
      if l.DoTick? {
        TickKeeps(s, l.t);
      } else if s.threads[l.t].pc == Idle {
        LocalKeeps(s, l.t, Next(s, l).threads[l.t]);
      }
    }
  }

  lemma {:induction false} RunKeeps(s: State, ls: seq<Label>)
    requires Inv(s)
    ensures Inv(Run(s, ls))
  {
    if |ls| > 0 {
      RunKeeps(s, ls[..|ls| - 1]);
      NextKeeps(Run(s, ls[..|ls| - 1]), ls[|ls| - 1]);
    }
  }

  // ---------- what the invariant means ----------

  /** With any number of writers and readers, whenever the mutex is free the shared record is
      whole, and so is the record of every reader that is not inside a copy: each shows exactly one
      publication, and each byte past it is the one the overlay of publications leaves there. */
  lemma NoTornRecord(init: State, ls: seq<Label>)
    requires Init(init)
    ensures var s := Run(init, ls);
            && |s.history| > 0
            && (s.owner == None ==> View(s.shared) == s.history[s.Latest()]
                                    && s.shared == Overlay(s.init, s.history))
            && forall t :: 0 <= t < |s.threads| && !s.threads[t].writer && !s.threads[t].pc.Copy? ==>
                 var th := s.threads[t];
                 && th.loc == Overlay(th.init, th.got) && |th.got| == |th.seen|
                 && (forall i :: 0 <= i < |th.seen| ==>
                       0 <= th.seen[i] < |s.history| && th.got[i] == s.history[th.seen[i]])
                 && (th.got != [] ==> 0 <= th.Last() < |s.history| && View(th.loc) == s.history[th.Last()])
  {
    InitInv(init);
    RunKeeps(init, ls);
    var s := Run(init, ls);
    OverlayView(s.init, s.history);
    forall t | 0 <= t < |s.threads| && !s.threads[t].writer && !s.threads[t].pc.Copy?
      ensures ReaderOk(s.history, s.shared, s.threads[t])
      ensures var th := s.threads[t];
              th.got != [] ==> 0 <= th.Last() < |s.history| && View(th.loc) == s.history[th.Last()]
    {
      var th := s.threads[t];
      assert ReaderOk(s.history, s.shared, th);
      if th.got != [] {
        OverlayView(th.init, th.got);
      }
    }
  }
}
