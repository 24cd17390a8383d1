/** Tapes: what NxCore is handed, whether or not the start in force names a tape. */
module Tapes {
  import opened Wrappers
  import opened Ctrl
  import opened Requests
  import opened Lazy
  import opened Cell
  import opened SingleWriter
  import opened Wire
  import opened Server
  import opened Guarantees

  /** NxCore is playing. */
  predicate Playing(s: Sys) {
    s.market == MarketRun || s.market == MarketCallback
  }

  // ---------- the tape of the start in force ----------

  /** The request that published version v. */
  function Origin(s: Sys, v: int): Request
    requires |s.cell.threads| == 4 && AllFit(s.base, s.inputs) && 1 <= v <= |ServedBy(s).origins|
  {
    ServedBy(s).origins[v - 1]
  }

  lemma OriginPublishes(s: Sys, v: int)
    requires HandledOk(s) && 1 <= v < |s.cell.history|
    ensures v <= |ServedBy(s).origins| && Publishes(s.base, Origin(s, v), s.cell.history[v])
  {
    hide Handled; hide Serve; hide Publishes; hide ResponsesOk; hide WellFormed; hide PayloadsOk;
    HandlerAhead(s);
    ServeAccounted(s.base, s.cell.threads[IN].init, s.inputs);
    assert s.cell.history[v] == HistoryOf(ServedBy(s))[v];
  }

  /** Whenever NxCore plays, it was started for an accepted MARKET_START, the one that published the
      version the market thread holds; and when that request named a tape, the C string in the market
      thread's buffer is its path, cut at the first NUL the path itself may contain, whatever longer
      tape the buffer held before. */
  lemma TapePlayed(init: Sys, es: seq<Event>)
    requires Start(init)
    ensures var s := Play(init, es);
            Playing(s) ==>
              var m := s.cell.threads[MARKET];
              && AllFit(s.base, s.inputs)
              && 1 <= m.Last() <= |ServedBy(s).origins|
              && var req := Origin(s, m.Last());
                 && req.kind == MarketStart
                 && (m.loc.size == 0 <==> req.tape == None)
                 && (req.tape.Some? ==>
                       && CString(m.loc.data) == CString(s.base + req.tape.value)
                       && (CString(m.loc.data) == s.base + req.tape.value <==> '\0' !in s.base + req.tape.value))
  {
    hide Step; hide SoloInv;
    StartSysOk(init);
    PlayCoreOk(init, es);
    var s := Play(init, es);
    if Playing(s) {
      TapeInBuffer(s);
    }
  }

  lemma TapeInBuffer(s: Sys)
    requires CoreOk(s) && Playing(s)
    ensures var m := s.cell.threads[MARKET];
            && 1 <= m.Last() <= |ServedBy(s).origins|
            && var req := Origin(s, m.Last());
               && req.kind == MarketStart
               && (m.loc.size == 0 <==> req.tape == None)
               && (req.tape.Some? ==>
                     && CString(m.loc.data) == CString(s.base + req.tape.value)
                     && (CString(m.loc.data) == s.base + req.tape.value <==> '\0' !in s.base + req.tape.value))
  {
    hide SoloInv; hide Handled; hide Serve;
    SoloOf(s);
    InitIs(s);
    HandlerAhead(s);
    var m := s.cell.threads[MARKET];
    HistoryOk(s);
    ReaderShows(s.cell, MARKET);
    OriginPublishes(s, m.Last());
    var req := Origin(s, m.Last());
    if req.tape.Some? {
      var path := s.base + req.tape.value;
      assert m.loc.data == m.loc.data[..m.loc.size] + m.loc.data[m.loc.size..];
      CStringStops(path, m.loc.data[m.loc.size..]);
    }
  }

  // ---------- what the buffer holds ----------

  /** Publication u is the last RUN up to publication v. */
  predicate LatestStart(h: seq<Pub>, v: int, u: int)
    requires v < |h|
  {
    1 <= u <= v && h[u].cmd == CMD_RUN && forall i :: u < i <= v ==> h[i].cmd != CMD_RUN
  }

  /** A nonempty payload is the path of the latest accepted start, that publication's or the last one
      before it. */
  lemma {:induction false} PayloadSource(s: Sys, v: int) returns (u: int)
    requires HandledOk(s) && 1 <= v < |s.cell.history| && s.cell.history[v].bytes != []
    ensures LatestStart(s.cell.history, v, u) && u <= |ServedBy(s).origins|
    ensures var req := Origin(s, u);
            req.kind == MarketStart && req.tape.Some? && s.cell.history[v].bytes == s.base + req.tape.value + ['\0']
  {
    hide Handled; hide Serve;
    OriginPublishes(s, v);
    if s.cell.history[v].cmd == CMD_RUN {
      u := v;
    } else {
      LeftoverOf(s, v);
      u := PayloadSource(s, v - 1);
    }
  }

  lemma LeftoverOf(s: Sys, v: int)
    requires HandledOk(s) && 1 <= v < |s.cell.history|
    requires s.cell.history[v].bytes != [] && s.cell.history[v].cmd != CMD_RUN
    ensures 1 < v && s.cell.history[v - 1].bytes == s.cell.history[v].bytes
  {
    hide Handled; hide Serve; hide ResponsesOk; hide Publishes; hide WellFormed;
    HandlerAhead(s);
    ServeAccounted(s.base, s.cell.threads[IN].init, s.inputs);
    var pubs := ServedBy(s).pubs;
    assert s.cell.history[v] == HistoryOf(ServedBy(s))[v] == pubs[v - 1];
    assert PayloadOk(pubs, v - 1);
    assert s.cell.history[v - 1] == HistoryOf(ServedBy(s))[v - 1];
  }

  lemma MarketHolds(s: Sys)
    requires CoreOk(s) && Playing(s)
    ensures var m := s.cell.threads[MARKET];
            && m.loc == Overlay(m.init, m.got) && |m.seen| == |m.got|
            && (forall i :: 0 <= i < |m.seen| ==>
                  && 0 <= m.seen[i] < |s.cell.history| && m.got[i] == s.cell.history[m.seen[i]]
                  && m.seen[i] <= m.Last())
  {
    hide Handled; hide SoloInv;
    SoloOf(s);
    ReaderRecords(s.cell, MARKET);
  }

  lemma HistoryStartsEmpty(s: Sys)
    requires HandledOk(s)
    ensures |s.cell.history| > 0 && s.cell.history[0] == Pub(CMD_INIT, [])
  {
    hide Handled; hide Serve;
    HandlerAhead(s);
    assert s.cell.history[0] == HistoryOf(ServedBy(s))[0];
  }

  /** The latest nonempty payload of a series, or -1. */
  function LatestPayload(got: seq<Pub>): (j: int)
    ensures -1 <= j < |got|
    ensures j >= 0 ==> got[j].bytes != []
    ensures forall k :: j < k < |got| ==> got[k].bytes == []
  {
    if |got| == 0 then -1
    else if got[|got| - 1].bytes != [] then |got| - 1
    else
      assert forall k :: 0 <= k < |got| - 1 ==> got[..|got| - 1][k] == got[k];
      LatestPayload(got[..|got| - 1])
  }

  predicate NamesTape(req: Request) {
    req.kind == MarketStart && req.tape.Some?
  }

  /** The buffer holds the path named by the request behind publication u. */
  predicate HoldsTape(s: Sys, u: int)
    requires |s.cell.threads| == 4 && AllFit(s.base, s.inputs)
  {
    && 1 <= u <= |ServedBy(s).origins|
    && NamesTape(Origin(s, u))
    && CString(s.cell.threads[MARKET].loc.data) == CString(s.base + Origin(s, u).tape.value)
  }

  lemma HandedOver(s: Sys) returns (u: int)
    requires CoreOk(s) && Playing(s) && LatestPayload(s.cell.threads[MARKET].got) >= 0
    ensures var m := s.cell.threads[MARKET]; var j := LatestPayload(m.got);
            && j < |m.seen| && m.seen[j] <= m.Last() && m.seen[j] < |s.cell.history|
            && LatestStart(s.cell.history, m.seen[j], u) && HoldsTape(s, u)
  {
    hide Handled; hide Serve; hide SoloInv;
    var m := s.cell.threads[MARKET];
    var j := LatestPayload(m.got);
    MarketHolds(s);
    HistoryOk(s);
    HandlerAhead(s);
    HistoryStartsEmpty(s);
    u := PayloadSource(s, m.seen[j]);
    var bytes := m.got[j].bytes;
    forall i | 0 <= i < |bytes|
      ensures m.loc.data[i] == bytes[i]
    {
      OverlayByte(m.init, m.got, i, j);
    }
    assert m.loc.data == bytes + m.loc.data[|bytes|..];
    CStringStops(s.base + Origin(s, u).tape.value, m.loc.data[|bytes|..]);
  }

  lemma NothingHandedOver(s: Sys)
    requires CoreOk(s) && Playing(s) && LatestPayload(s.cell.threads[MARKET].got) < 0
    ensures s.cell.threads[MARKET].loc.data == s.cell.threads[MARKET].init.data
  {
    MarketHolds(s);
    hide CoreOk; hide Overlay;
    var m := s.cell.threads[MARKET];
    forall i | 0 <= i < CAPACITY
      ensures m.loc.data[i] == m.init.data[i]
    {
      OverlayKeeps(m.init, m.got, i);
    }
  }

  /** In every run, what NxCore is handed as a tape, whether or not the start in force names one, is the
      path of an accepted start: the last one up to the latest nonempty publication the market thread
      copied. A start without a tape copies no bytes, so after an earlier tape it hands over that tape's
      path again and not an empty one. NxCore gets what was in the buffer to begin with only as long as
      the market thread has copied no bytes at all. */
  lemma TapeHandedOver(init: Sys, es: seq<Event>)
    requires Start(init)
    ensures var s := Play(init, es);
            && AllFit(s.base, s.inputs)
            && (Playing(s) ==>
                  var m := s.cell.threads[MARKET]; var j := LatestPayload(m.got);
                  if j < 0 then m.loc.data == m.init.data
                  else
                    && j < |m.seen| && m.seen[j] <= m.Last() && m.seen[j] < |s.cell.history|
                    && exists u :: LatestStart(s.cell.history, m.seen[j], u) && HoldsTape(s, u))
  {
    StartSysOk(init);
    PlayCoreOk(init, es);
    hide Step; hide HoldsTape; hide SoloInv; hide Serve;
    var s := Play(init, es);
    if Playing(s) {
      if LatestPayload(s.cell.threads[MARKET].got) < 0 {
        NothingHandedOver(s);
      } else {
        var u := HandedOver(s);
      }
    }
  }

  // ---------- seen from the requests and their answers ----------

  /** Request k was accepted. */
  predicate AcceptedAt(inputs: seq<Input>, rs: seq<Response>, k: int) {
    0 <= k < |rs| && k < |inputs| && IsOk(rs[k].kind)
  }

  ghost predicate Accepted(inputs: seq<Input>, rs: seq<Response>, req: Request) {
    exists k :: AcceptedAt(inputs, rs, k) && inputs[k].req == req
  }

  /** Some start that named a tape was accepted. */
  ghost predicate TapeAccepted(inputs: seq<Input>, rs: seq<Response>) {
    exists k :: AcceptedAt(inputs, rs, k) && NamesTape(inputs[k].req)
  }

  lemma AcceptedSnoc(inputs: seq<Input>, rs: seq<Response>, x: Input, r: Response, req: Request)
    requires |rs| == |inputs|
    ensures Accepted(inputs + [x], rs + [r], req) <==> Accepted(inputs, rs, req) || (IsOk(r.kind) && x.req == req)
  {
    var xs', rs' := inputs + [x], rs + [r];
    if Accepted(inputs, rs, req) {
      var k :| AcceptedAt(inputs, rs, k) && inputs[k].req == req;
      assert AcceptedAt(xs', rs', k) && xs'[k] == inputs[k];
    } else if IsOk(r.kind) && x.req == req {
      assert AcceptedAt(xs', rs', |rs|) && xs'[|rs|] == x;
    }
  }

  lemma AcceptedPrefix(inputs: seq<Input>, x: Input, rs: seq<Response>, req: Request)
    requires |rs| <= |inputs|
    ensures Accepted(inputs + [x], rs, req) <==> Accepted(inputs, rs, req)
  {
    var xs' := inputs + [x];
    if Accepted(inputs, rs, req) {
      var k :| AcceptedAt(inputs, rs, k) && inputs[k].req == req;
      assert AcceptedAt(xs', rs, k) && xs'[k] == inputs[k];
    }
  }

  /** A request was answered OK exactly if it stands behind some publication. */
  lemma {:induction false} AcceptedIs(base: string, local: Record, inputs: seq<Input>, req: Request)
    requires AllFit(base, inputs)
    ensures var sv := Serve(base, local, inputs);
            && |sv.responses| <= |inputs| && (CMD_SHUTDOWN < sv.local.cmd ==> |sv.responses| == |inputs|)
            && (Accepted(inputs, sv.responses, req) <==> req in sv.origins)
  {
    hide Accepted;
    if |inputs| == 0 {
      assert !Accepted([], [], req) by {
        NoneAccepted(req);
      }
    } else {
      var n := |inputs| - 1;
      var before := Serve(base, local, inputs[..n]);
      assert inputs[..n] + [inputs[n]] == inputs;
      AcceptedIs(base, local, inputs[..n], req);
      if CMD_SHUTDOWN < before.local.cmd {
        HandleVerdict(base, before.local, inputs[n]);
        AcceptedSnoc(inputs[..n], before.responses, inputs[n], Handle(base, before.local, inputs[n]).res, req);
      } else {
        AcceptedPrefix(inputs[..n], inputs[n], before.responses, req);
      }
    }
  }

  lemma NoneAccepted(req: Request)
    ensures !Accepted([], [], req)
  {
  }

  /** The answers made so far, the one in hand included. */
  function Made(s: Sys): seq<Response> {
    match s.inn
    case InRecv => s.produced
    case InCall(res) => s.produced + [res]
    case InSend(res) => s.produced + [res]
    case InDone => s.produced
  }

  lemma MadeIs(s: Sys)
    requires HandledOk(s)
    ensures |s.cell.threads| == 4 && AllFit(s.base, s.inputs)
    ensures Made(s) == ServedBy(s).responses
  {
    hide Handled; hide Serve; hide HistoryOf;
    HandlerAhead(s);
  }

  lemma OriginAccepted(s: Sys, u: int)
    requires HandledOk(s) && |s.cell.threads| == 4 && AllFit(s.base, s.inputs) && 1 <= u <= |ServedBy(s).origins|
    ensures Accepted(s.inputs, Made(s), Origin(s, u))
  {
    hide Handled; hide Serve; hide Accepted;
    MadeIs(s);
    AcceptedIs(s.base, s.cell.threads[IN].init, s.inputs, Origin(s, u));
  }

  /** In every run, as long as no start naming a tape has been accepted, NxCore is handed the buffer as
      it was to begin with. */
  lemma NoTapeSoFar(init: Sys, es: seq<Event>)
    requires Start(init)
    ensures var s := Play(init, es);
            Playing(s) && !TapeAccepted(s.inputs, Made(s)) ==>
              s.cell.threads[MARKET].loc.data == init.cell.threads[MARKET].init.data
  {
    StartSysOk(init);
    PlayCoreOk(init, es);
    TapeHandedOver(init, es);
    InitStays(init, es);
    hide Step; hide SoloInv; hide Serve;
    var s := Play(init, es);
    var m := s.cell.threads[MARKET];
    if Playing(s) && LatestPayload(m.got) >= 0 {
      var u :| LatestStart(s.cell.history, m.seen[LatestPayload(m.got)], u) && HoldsTape(s, u);
      OriginAccepted(s, u);
    }
  }

  lemma {:induction false} InitStays(s: Sys, es: seq<Event>)
    requires |s.cell.threads| == 4
    ensures forall t :: 0 <= t < 4 ==> Play(s, es).cell.threads[t].init == s.cell.threads[t].init
  {
    hide Step;
    if |es| > 0 {
      InitStays(s, es[..|es| - 1]);
      StepGrown(Play(s, es[..|es| - 1]), es[|es| - 1]);
    }
  }
}
