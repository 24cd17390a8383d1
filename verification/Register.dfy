/** The atomic register the cell refines: a publication appends to a history in one step, a poll
    takes the latest record in one step, and neither ever looks at a version or a lock. */
module Register {
  import opened Wrappers
  import opened Ctrl
  import Cell
  import Lazy
  import SingleWriter

  datatype Phase = Idle | Publishing(p: Pub) | Published | Polling | Polled

  /** `copy` is what the thread's last poll delivered. */
  datatype Client = Client(phase: Phase, copy: Option<Pub>)

  datatype Register = Register(history: seq<Pub>, clients: seq<Client>)

  datatype Action =
    | Invoke(t: nat, p: Option<Pub>)  // Some: publish this; None: poll
    | Effect(t: nat)
    | Return(t: nat)

  function Apply(r: Register, a: Action): Register {
    if a.t >= |r.clients| then r else
    var c := r.clients[a.t];
    match (a, c.phase)
    case (Invoke(t, Some(p)), Idle) => r.(clients := r.clients[t := c.(phase := Publishing(p))])
    case (Invoke(t, None), Idle) => r.(clients := r.clients[t := c.(phase := Polling)])
    case (Effect(t), Publishing(p)) =>
      Register(r.history + [p], r.clients[t := c.(phase := Published)])
    case (Effect(t), Polling) =>
      if |r.history| == 0 then r
      else r.(clients := r.clients[t := Client(Polled, Some(r.history[|r.history| - 1]))])
    case (Return(t), Published) => r.(clients := r.clients[t := c.(phase := Idle)])
    case (Return(t), Polled) => r.(clients := r.clients[t := c.(phase := Idle)])
    case _ => r
  }

  function ApplyAll(r: Register, trace: seq<Action>): Register {
    if |trace| == 0 then r else Apply(ApplyAll(r, trace[..|trace| - 1]), trace[|trace| - 1])
  }

  // ---------- the refinement mapping ----------

  function PhaseOf(th: Cell.Thread): Phase {
    if th.pc.Idle? then Idle
    else if th.writer then (if Cell.Settled(th.pc) then Published else Publishing(View(th.loc)))
    else (if Cell.Settled(th.pc) then Polled else Polling)
  }

  function ClientOf(th: Cell.Thread): Client {
    Client(PhaseOf(th), if |th.got| == 0 then None else Some(th.got[|th.got| - 1]))
  }

  function Abstract(s: Cell.State): Register {
    Register(s.history, seq(|s.threads|, t requires 0 <= t < |s.threads| => ClientOf(s.threads[t])))
  }

  /** The action a step performs on the register, if any. A publication takes effect at the
      version write, a poll at the matching comparison or at the locked version read. */
  function Trace(s: Cell.State, l: Cell.Label): seq<Action> {
    if l.t >= |s.threads| then [] else
    var th := s.threads[l.t];
    match l
    case DoAssign(_, _) => []
    case DoBegin(t) => if th.pc.Idle? then [Invoke(t, if th.writer then Some(View(th.loc)) else None)] else []
    case DoTick(t) =>
      if th.pc.Ret? then [Return(t)]
      else if th.pc.Stamp? || (th.pc.Check? && !th.writer && th.tv == s.version) then [Effect(t)]
      else []
  }

  function TraceAll(s: Cell.State, ls: seq<Cell.Label>): seq<Action> {
    if |ls| == 0 then []
    else TraceAll(s, ls[..|ls| - 1]) + Trace(Cell.Run(s, ls[..|ls| - 1]), ls[|ls| - 1])
  }

  /** The abstraction after one thread changed. */
  lemma AbstractPut(s: Cell.State, s': Cell.State, t: nat)
    requires t < |s.threads| == |s'.threads|
    requires forall r :: 0 <= r < |s.threads| && r != t ==> s'.threads[r] == s.threads[r]
    ensures Abstract(s') == Register(s'.history, Abstract(s).clients[t := ClientOf(s'.threads[t])])
  {
  }

  lemma ApplyOne(r: Register, trace: seq<Action>)
    requires |trace| <= 1
    ensures ApplyAll(r, trace) == if |trace| == 0 then r else Apply(r, trace[0])
  {
  }

  /** A reader whose version matches already copied the latest publication. */
  lemma MatchMeansLatest(s: Cell.State, w: nat, t: nat)
    requires SingleWriter.SoloInv(s, w) && t < |s.threads| && t != w && s.Latest() <= Lazy.LAST_EXACT
    requires s.threads[t].pc == Cell.Check && s.threads[t].tv == s.version
    ensures var th := s.threads[t];
            |th.got| > 0 && |s.history| > 0 && th.got[|th.got| - 1] == s.history[|s.history| - 1]
  {
  }

  /** What a thread's own step does to its side of the register. */
  predicate ClientMoves(c: Client, c': Client, h: seq<Pub>, h': seq<Pub>, trace: seq<Action>, t: nat) {
    if trace == [] then c' == c && h' == h
    else if trace == [Return(t)] then (c.phase == Published || c.phase == Polled) && c' == c.(phase := Idle) && h' == h
    else
      && trace == [Effect(t)]
      && if c.phase.Publishing? then c' == c.(phase := Published) && h' == h + [c.phase.p]
         else c.phase == Polling && |h| > 0 && c' == Client(Polled, Some(h[|h| - 1])) && h' == h
  }

  lemma WriterMoves(s: Cell.State, w: nat)
    requires SingleWriter.SoloInv(s, w)
    ensures var s' := Cell.Tick(s, w);
            ClientMoves(ClientOf(s.threads[w]), ClientOf(s'.threads[w]), s.history, s'.history,
                        Trace(s, Cell.DoTick(w)), w)
  {
    assert SingleWriter.WriterVer(s.version, s.threads[w]);
    hide SingleWriter.SoloInv;
    Cell.TickFrame(s, w);
  }

  lemma ReaderCopyMoves(s: Cell.State, t: nat)
    requires t < |s.threads| && s.threads[t].pc.Copy? && !s.threads[t].writer
    ensures var s' := Cell.Tick(s, t);
            ClientMoves(ClientOf(s.threads[t]), ClientOf(s'.threads[t]), s.history, s'.history,
                        Trace(s, Cell.DoTick(t)), t)
  {
  }

  lemma ReaderMoves(s: Cell.State, w: nat, t: nat)
    requires SingleWriter.SoloInv(s, w) && t < |s.threads| && t != w && s.Latest() <= Lazy.LAST_EXACT
    ensures var s' := Cell.Tick(s, t);
            ClientMoves(ClientOf(s.threads[t]), ClientOf(s'.threads[t]), s.history, s'.history,
                        Trace(s, Cell.DoTick(t)), t)
  {
    var th := s.threads[t];
    assert SingleWriter.ReaderVer(|s.history|, th) && |s.history| > 0;
    if th.pc.Copy? {
      ReaderCopyMoves(s, t);
    } else {
      hide SingleWriter.SoloInv; hide Cell.TickCopy;
      if th.pc.Check? && th.tv == s.version {
        MatchMeansLatest(s, w, t);
      }
    }
  }

  /** A step that moves its own client as the register does, and no other, simulates the register. */
  lemma MoveSimulates(s: Cell.State, s': Cell.State, t: nat, trace: seq<Action>)
    requires t < |s.threads| == |s'.threads|
    requires forall r :: 0 <= r < |s.threads| && r != t ==> s'.threads[r] == s.threads[r]
    requires ClientMoves(ClientOf(s.threads[t]), ClientOf(s'.threads[t]), s.history, s'.history, trace, t)
    ensures Abstract(s') == ApplyAll(Abstract(s), trace)
  {
  }

  lemma BeginSimulates(s: Cell.State, t: nat)
    requires t < |s.threads|
    ensures Abstract(Cell.Begin(s, t)) == ApplyAll(Abstract(s), Trace(s, Cell.DoBegin(t)))
  {
  }

  /** Every step of the cell is the register's own step, or none. */
  lemma NextSimulates(s: Cell.State, w: nat, l: Cell.Label)
    requires SingleWriter.SoloInv(s, w) && s.Latest() <= Lazy.LAST_EXACT
    ensures Abstract(Cell.Next(s, l)) == ApplyAll(Abstract(s), Trace(s, l))
  {
    hide SingleWriter.SoloInv; hide Cell.Tick; hide ClientMoves; hide ApplyAll;
    if l.t < |s.threads| {
      match l
      case DoTick(t) =>
        if t == w {
          WriterMoves(s, w);
        } else {
          ReaderMoves(s, w, t);
        }
        Cell.TickFrame(s, t);
        MoveSimulates(s, Cell.Tick(s, t), t, Trace(s, l));
      case DoBegin(t) => BeginSimulates(s, t);
      case DoAssign(t, rec) =>
        AbstractPut(s, Cell.Assign(s, t, rec), t);
        ApplyOne(Abstract(s), Trace(s, l));
    } else {
      ApplyOne(Abstract(s), Trace(s, l));
    }
  }

  lemma {:induction false} ApplyConcat(r: Register, a: seq<Action>, b: seq<Action>)
    ensures ApplyAll(r, a + b) == ApplyAll(ApplyAll(r, a), b)
  {
    if |b| == 0 {
      assert a + b == a;
    } else {
      assert (a + b)[..|a + b| - 1] == a + b[..|b| - 1];
      ApplyConcat(r, a, b[..|b| - 1]);
    }
  }

  lemma {:induction false} RunSimulates(s: Cell.State, w: nat, ls: seq<Cell.Label>)
    requires SingleWriter.SoloInv(s, w) && Cell.Run(s, ls).Latest() <= Lazy.LAST_EXACT
    ensures Abstract(Cell.Run(s, ls)) == ApplyAll(Abstract(s), TraceAll(s, ls))
  {
    if |ls| > 0 {
      var n := |ls| - 1;
      var mid := Cell.Run(s, ls[..n]);
      SingleWriter.RunSolo(s, w, ls[..n]);
      Cell.HistoryGrows(mid, ls[n]);
      RunSimulates(s, w, ls[..n]);
      NextSimulates(mid, w, ls[n]);
      ApplyConcat(Abstract(s), TraceAll(s, ls[..n]), Trace(mid, ls[n]));
    }
  }

  /** A cell and a register that tell the same story: the same publications, the same threads inside
      a call, and in the memory of every reader outside one exactly what the register delivered. */
  ghost predicate Agrees(s: Cell.State, w: nat, r: Register) {
    && r.history == s.history
    && |r.clients| == |s.threads|
    && forall t :: 0 <= t < |s.threads| ==>
         && (r.clients[t].phase == Idle <==> s.threads[t].pc == Cell.Idle)
         && (t != w && s.threads[t].pc == Cell.Idle ==> Holds(s.threads[t], r.clients[t].copy))
  }

  predicate Holds(th: Cell.Thread, copy: Option<Pub>) {
    if copy.Some? then View(th.loc) == copy.value else th.loc == th.init
  }

  lemma AbstractAgrees(s: Cell.State, w: nat)
    requires SingleWriter.SoloInv(s, w)
    ensures Agrees(s, w, Abstract(s))
  {
  }

  /** Every interleaving of one writer and any number of readers is a run of the atomic register. */
  lemma CellRefinesRegister(init: Cell.State, w: nat, ls: seq<Cell.Label>)
    requires Cell.Init(init) && SingleWriter.OneWriter(init, w)
    requires Cell.Run(init, ls).Latest() <= Lazy.LAST_EXACT
    ensures Agrees(Cell.Run(init, ls), w, ApplyAll(Abstract(init), TraceAll(init, ls)))
  {
    hide SingleWriter.SoloInv; hide Agrees; hide Apply; hide Cell.Next;
    SingleWriter.InitSolo(init, w);
    SingleWriter.RunSolo(init, w, ls);
    RunSimulates(init, w, ls);
    AbstractAgrees(Cell.Run(init, ls), w);
  }
}
