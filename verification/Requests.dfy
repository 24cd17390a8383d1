/** The control thread's request handler (cchan_in_thread): what it answers and what it publishes,
    first one request at a time, then over a whole series of requests. */
module Requests {
  import opened Wrappers
  import opened Ctrl
  import opened Lazy

  datatype Kind = MarketStart | MarketStop | Shutdown
  datatype Request = Request(id: int, kind: Kind, tape: Option<string>)

  datatype ResponseKind = StartOk | StopOk | ShutdownOk | Err | ErrRunning
  datatype Response = Response(id: int, kind: ResponseKind, text: string)

  /** A parsed request, with the answer the file system gives if its tape is looked up. */
  datatype Input = Input(req: Request, found: bool)

  /** A tape that is found has a path that fits the data buffer with its NUL. */
  predicate Fits(base: string, input: Input) {
    input.req.kind == MarketStart && input.req.tape.Some? && input.found ==>
      |base| + |input.req.tape.value| + 1 <= CAPACITY
  }

  /** The longest path that fits has 1023 characters. */
  lemma LongestPath(base: string, id: int, f: string)
    ensures Fits(base, Input(Request(id, MarketStart, Some(f)), true)) <==> |base| + |f| <= 1023
  {
  }

  predicate AllFit(base: string, inputs: seq<Input>) {
    forall i :: 0 <= i < |inputs| ==> Fits(base, inputs[i])
  }

  // ---------- one request ----------

  datatype Outcome = Outcome(res: Response, local: Record, publish: bool)

  function Handle(base: string, local: Record, input: Input): Outcome
    requires Fits(base, input)
  {
    var req := input.req;
    match req.kind
    case MarketStart =>
      if local.cmd == CMD_RUN then
        Outcome(Response(req.id, ErrRunning, "Already in RUNNING state."), local, false)
      else if req.tape.None? then
        Outcome(Response(req.id, StartOk, ""), local.(cmd := CMD_RUN, size := 0), true)
      else
        var path := base + req.tape.value;
        if !input.found then
          Outcome(Response(req.id, Err, "File '" + path + "' not found."), local.(size := 0), false)
        else
          var n := |path| + 1;
          Outcome(Response(req.id, StartOk, ""), Record(CMD_RUN, n, path + ['\0'] + local.data[n..]), true)
    case MarketStop => Outcome(Response(req.id, StopOk, ""), local.(cmd := CMD_STOP), true)
    case Shutdown => Outcome(Response(req.id, ShutdownOk, ""), local.(cmd := CMD_SHUTDOWN), true)
  }

  // ---------- a series of requests ----------

  /** The handler's record, what it answered, what it published, and which request each
      publication came from. */
  datatype Served = Served(local: Record, responses: seq<Response>, pubs: seq<Pub>, origins: seq<Request>)

  /** One pass of the loop: after a shutdown nothing more is read. */
  function ServeOne(base: string, sv: Served, input: Input): Served
    requires Fits(base, input)
  {
    if !(CMD_SHUTDOWN < sv.local.cmd) then sv
    else
      var o := Handle(base, sv.local, input);
      if o.publish then
        Served(o.local, sv.responses + [o.res], sv.pubs + [View(o.local)], sv.origins + [input.req])
      else
        Served(o.local, sv.responses + [o.res], sv.pubs, sv.origins)
  }

  function Serve(base: string, local: Record, inputs: seq<Input>): Served
    requires AllFit(base, inputs)
  {
    if |inputs| == 0 then Served(local, [], [], [])
    else ServeOne(base, Serve(base, local, inputs[..|inputs| - 1]), inputs[|inputs| - 1])
  }

  lemma ServeSnoc(base: string, local: Record, inputs: seq<Input>, input: Input)
    requires AllFit(base, inputs) && Fits(base, input)
    ensures AllFit(base, inputs + [input])
    ensures Serve(base, local, inputs + [input]) == ServeOne(base, Serve(base, local, inputs), input)
  {
  }

  // ---------- what clients can tell from the responses ----------

  predicate IsOk(k: ResponseKind) {
    k == StartOk || k == StopOk || k == ShutdownOk
  }

  function CountOk(rs: seq<Response>): nat {
    if |rs| == 0 then 0
    else CountOk(rs[..|rs| - 1]) + (if IsOk(rs[|rs| - 1].kind) then 1 else 0)
  }

  function ReplayOne(cmd: int, k: ResponseKind): int {
    match k
    case StartOk => CMD_RUN
    case StopOk => CMD_STOP
    case ShutdownOk => CMD_SHUTDOWN
    case Err => cmd
    case ErrRunning => cmd
  }

  /** The command in force, reconstructed from the responses alone. */
  function Replay(rs: seq<Response>): int {
    if |rs| == 0 then CMD_INIT else ReplayOne(Replay(rs[..|rs| - 1]), rs[|rs| - 1].kind)
  }

  lemma ReplaySnoc(rs: seq<Response>, r: Response)
    ensures Replay(rs + [r]) == ReplayOne(Replay(rs), r.kind)
    ensures CountOk(rs + [r]) == CountOk(rs) + (if IsOk(r.kind) then 1 else 0)
  {
  }

  /** The answer a request deserves when `cmd` is in force. */
  function Verdict(cmd: int, input: Input): ResponseKind {
    match input.req.kind
    case MarketStop => StopOk
    case Shutdown => ShutdownOk
    case MarketStart =>
      if cmd == CMD_RUN then ErrRunning
      else if input.req.tape == None || input.found then StartOk
      else Err
  }

  /** The publication that request `req` stands for. */
  predicate Publishes(base: string, req: Request, p: Pub) {
    match req.kind
    case MarketStart =>
      p.cmd == CMD_RUN &&
      p.bytes == (match req.tape case None => [] case Some(f) => base + f + ['\0'])
    case MarketStop => p.cmd == CMD_STOP
    case Shutdown => p.cmd == CMD_SHUTDOWN
  }

  const MISSING_START := "File '"
  const MISSING_END := "' not found."

  /** What an answer says. Only refusals say anything: that a tape already plays, or which path is
      missing. That path is base directory, then tape; it is what the request would publish. */
  predicate Says(base: string, req: Request, res: Response) {
    match res.kind
    case Err =>
      && req.tape.Some?
      && var a, b := |MISSING_START|, |MISSING_START| + |base|;
         var c := b + |req.tape.value|;
         && |res.text| == c + |MISSING_END|
         && res.text[..a] == MISSING_START && res.text[a..b] == base && res.text[b..c] == req.tape.value
         && res.text[c..] == MISSING_END
         && (c - a + 1 <= CAPACITY ==> Publishes(base, req, Pub(CMD_RUN, res.text[a..c] + ['\0'])))
    case ErrRunning => res.text == "Already in RUNNING state."
    case _ => res.text == ""
  }

  /** A published history: the initial command first and only first, shutdown only last, and never
      two runs in a row. */
  ghost predicate WellFormed(h: seq<Pub>) {
    && |h| > 0
    && h[0].cmd == CMD_INIT
    && (forall i :: 0 < i < |h| ==> h[i].cmd == CMD_RUN || h[i].cmd == CMD_STOP || h[i].cmd == CMD_SHUTDOWN)
    && (forall i :: 0 <= i < |h| - 1 ==> h[i].cmd != CMD_SHUTDOWN)
    && (forall i :: 0 <= i < |h| - 1 && h[i].cmd == CMD_RUN ==> h[i + 1].cmd != CMD_RUN)
  }

  ghost predicate Answers(inputs: seq<Input>, rs: seq<Response>) {
    && |rs| <= |inputs|
    && forall i :: 0 <= i < |rs| ==>
         rs[i].id == inputs[i].req.id && rs[i].kind == Verdict(Replay(rs[..i]), inputs[i])
  }

  predicate AllSay(base: string, inputs: seq<Input>, rs: seq<Response>) {
    |rs| <= |inputs| && forall i :: 0 <= i < |rs| ==> Says(base, inputs[i].req, rs[i])
  }

  /** What the responses guarantee. */
  ghost predicate ResponsesOk(inputs: seq<Input>, sv: Served) {
    && Answers(inputs, sv.responses)
    && (sv.local.cmd != CMD_SHUTDOWN ==> |sv.responses| == |inputs|)
    && CountOk(sv.responses) == |sv.pubs|
    && Replay(sv.responses) == sv.local.cmd
    && (sv.local.cmd == CMD_SHUTDOWN ==>
          |sv.responses| > 0 && sv.responses[|sv.responses| - 1].kind == ShutdownOk)
  }

  /** What the publications guarantee. */
  ghost predicate PubsOk(base: string, sv: Served) {
    && WellFormed([Pub(CMD_INIT, [])] + sv.pubs)
    && sv.local.cmd == (if |sv.pubs| == 0 then CMD_INIT else sv.pubs[|sv.pubs| - 1].cmd)
    && |sv.origins| == |sv.pubs|
    && (forall v :: 0 <= v < |sv.pubs| ==> Publishes(base, sv.origins[v], sv.pubs[v]))
    && PayloadsOk(sv.pubs)
    && Leftover(sv.pubs, |sv.pubs|, View(sv.local).bytes)
  }

  /** Everything a series of requests guarantees. */
  ghost predicate Accounted(base: string, inputs: seq<Input>, sv: Served) {
    ResponsesOk(inputs, sv) && PubsOk(base, sv) && AllSay(base, inputs, sv.responses)
  }

  /** A payload that is not a start's own is empty or still the previous publication's. */
  predicate Leftover(pubs: seq<Pub>, v: nat, bytes: string)
    requires v <= |pubs|
  {
    bytes == [] || (v > 0 && bytes == pubs[v - 1].bytes)
  }

  predicate PayloadOk(pubs: seq<Pub>, v: nat)
    requires v < |pubs|
  {
    pubs[v].cmd == CMD_RUN || Leftover(pubs, v, pubs[v].bytes)
  }

  ghost predicate PayloadsOk(pubs: seq<Pub>) {
    forall v: nat :: v < |pubs| ==> PayloadOk(pubs, v)
  }

  lemma PayloadsSnoc(pubs: seq<Pub>, p: Pub)
    requires PayloadsOk(pubs) && (p.cmd == CMD_RUN || Leftover(pubs, |pubs|, p.bytes))
    ensures PayloadsOk(pubs + [p])
  {
    forall v: nat | v < |pubs + [p]|
      ensures PayloadOk(pubs + [p], v)
    {
      assert v < |pubs| ==> PayloadOk(pubs, v);
    }
  }

  lemma HistorySnoc(pubs: seq<Pub>, p: Pub)
    requires WellFormed([Pub(CMD_INIT, [])] + pubs)
    requires p.cmd == CMD_RUN || p.cmd == CMD_STOP || p.cmd == CMD_SHUTDOWN
    requires |pubs| > 0 ==> pubs[|pubs| - 1].cmd != CMD_SHUTDOWN
    requires |pubs| > 0 && pubs[|pubs| - 1].cmd == CMD_RUN ==> p.cmd != CMD_RUN
    ensures WellFormed([Pub(CMD_INIT, [])] + (pubs + [p]))
  {
    var h, h' := [Pub(CMD_INIT, [])] + pubs, [Pub(CMD_INIT, [])] + (pubs + [p]);
    assert h' == h + [p];
    assert |pubs| > 0 ==> h[|h| - 1] == pubs[|pubs| - 1];
  }

  lemma AnswersSnoc(inputs: seq<Input>, input: Input, rs: seq<Response>, r: Response)
    requires Answers(inputs, rs) && |rs| == |inputs|
    requires r.id == input.req.id && r.kind == Verdict(Replay(rs), input)
    ensures Answers(inputs + [input], rs + [r])
  {
  }

  /** One request, seen from outside: it is answered under its own id by the verdict, published exactly
      when that is an OK, and leaves the command the answer stands for. */
  lemma HandleVerdict(base: string, local: Record, input: Input)
    requires Fits(base, input)
    ensures var o := Handle(base, local, input);
            && o.res.id == input.req.id
            && o.res.kind == Verdict(local.cmd, input)
            && (o.publish <==> IsOk(o.res.kind))
            && o.local.cmd == ReplayOne(local.cmd, o.res.kind)
            && (o.publish ==> Publishes(base, input.req, View(o.local)))
            && (input.req.kind != MarketStart ==> o.local == local.(cmd := o.local.cmd))
            && (o.res.kind == ErrRunning ==> o.local == local)
            && (o.res.kind == Err ==> o.local == local.(size := 0))
            && o.local.data[o.local.size..] == local.data[o.local.size..]
            && Says(base, input.req, o.res)
  {
    if Handle(base, local, input).res.kind == Err {
      MissingSays(base, input.req);
    }
  }

  lemma MissingSays(base: string, req: Request)
    requires req.kind == MarketStart && req.tape.Some?
    ensures Says(base, req, Response(req.id, Err, MISSING_START + (base + req.tape.value) + MISSING_END))
  {
    var f, text := req.tape.value, MISSING_START + (base + req.tape.value) + MISSING_END;
    assert text[|MISSING_START|..|MISSING_START| + |base| + |f|] == base + f;
    assert text[|MISSING_START|..|MISSING_START| + |base|] == base;
    assert text[|MISSING_START| + |base|..|MISSING_START| + |base| + |f|] == f;
  }

  predicate KnownCommand(cmd: int) {
    cmd == CMD_INIT || cmd == CMD_RUN || cmd == CMD_STOP || cmd == CMD_SHUTDOWN
  }

  lemma ServeOneResponses(base: string, inputs: seq<Input>, input: Input, sv: Served)
    requires ResponsesOk(inputs, sv) && Fits(base, input) && KnownCommand(sv.local.cmd)
    ensures ResponsesOk(inputs + [input], ServeOne(base, sv, input))
  {
    if CMD_SHUTDOWN < sv.local.cmd {
      var o := Handle(base, sv.local, input);
      HandleVerdict(base, sv.local, input);
      ReplaySnoc(sv.responses, o.res);
      hide Handle; hide Verdict;
      AnswersSnoc(inputs, input, sv.responses, o.res);
      hide Answers; hide Replay; hide CountOk;
    }
  }

  lemma ServeOnePubs(base: string, input: Input, sv: Served)
    requires PubsOk(base, sv) && Fits(base, input)
    ensures PubsOk(base, ServeOne(base, sv, input))
  {
    if CMD_SHUTDOWN < sv.local.cmd {
      var o := Handle(base, sv.local, input);
      if o.publish {
        assert Publishes(base, input.req, View(o.local));
        HistorySnoc(sv.pubs, View(o.local));
        PayloadsSnoc(sv.pubs, View(o.local));
      }
    }
  }

  lemma ServeOneSays(base: string, inputs: seq<Input>, input: Input, sv: Served)
    requires ResponsesOk(inputs, sv) && AllSay(base, inputs, sv.responses) && Fits(base, input)
    requires KnownCommand(sv.local.cmd)
    ensures AllSay(base, inputs + [input], ServeOne(base, sv, input).responses)
  {
    if CMD_SHUTDOWN < sv.local.cmd {
      HandleVerdict(base, sv.local, input);
    }
    hide Says; hide Handle;
  }

  /** The command in force is one of the four. */
  lemma CommandKnown(base: string, sv: Served)
    requires PubsOk(base, sv)
    ensures KnownCommand(sv.local.cmd)
  {
  }

  lemma ServeOneAccounted(base: string, inputs: seq<Input>, input: Input, sv: Served)
    requires Accounted(base, inputs, sv) && Fits(base, input)
    ensures Accounted(base, inputs + [input], ServeOne(base, sv, input))
  {
    CommandKnown(base, sv);
    ServeOneResponses(base, inputs, input, sv);
    ServeOnePubs(base, input, sv);
    ServeOneSays(base, inputs, input, sv);
  }

  lemma NothingAccounted(base: string, local: Record)
    requires local.cmd == CMD_INIT && local.size == 0
    ensures Accounted(base, [], Served(local, [], [], []))
  {
  }

  /** Over every series of requests: each request read is answered once, in order and with its own
      id, by the verdict the earlier responses imply; versions count the OK responses; replaying the
      responses gives the command in force; and every publication is the one its request stands for. */
  lemma {:induction false} ServeAccounted(base: string, local: Record, inputs: seq<Input>)
    requires AllFit(base, inputs) && local.cmd == CMD_INIT && local.size == 0
    ensures Accounted(base, inputs, Serve(base, local, inputs))
  {
    hide Accounted; hide ServeOne;
    var n := |inputs| - 1;
    if n < 0 {
      NothingAccounted(base, local);
    } else {
      ServeAccounted(base, local, inputs[..n]);
      ServeOneAccounted(base, inputs[..n], inputs[n], Serve(base, local, inputs[..n]));
      assert inputs[..n] + [inputs[n]] == inputs;
    }
  }

  /** Until a shutdown is read the server reads on. */
  lemma {:induction false} StillReading(base: string, local: Record, inputs: seq<Input>)
    requires AllFit(base, inputs) && CMD_SHUTDOWN < local.cmd
    requires forall i :: 0 <= i < |inputs| ==> inputs[i].req.kind != Shutdown
    ensures CMD_SHUTDOWN < Serve(base, local, inputs).local.cmd
  {
    if |inputs| > 0 {
      var n := |inputs| - 1;
      StillReading(base, local, inputs[..n]);
      HandleVerdict(base, Serve(base, local, inputs[..n]).local, inputs[n]);
      hide Handle;
    }
  }

  /** A reader that sees RUN under two different versions missed a STOP strictly between them. */
  lemma StopBetweenRuns(h: seq<Pub>, v: nat, w: nat)
    requires WellFormed(h) && v < w < |h| && h[v].cmd == CMD_RUN && h[w].cmd == CMD_RUN
    ensures v + 2 <= w && h[v + 1].cmd == CMD_STOP
  {
  }

  // ---------- C strings ----------

  /** The C string at the start of a buffer. */
  function CString(b: string): string {
    if |b| == 0 || b[0] == '\0' then "" else [b[0]] + CString(b[1..])
  }

  lemma {:induction false} CStringStops(s: string, rest: string)
    ensures CString(s + ['\0'] + rest) == CString(s)
    ensures CString(s) == s <==> '\0' !in s
  {
    if |s| > 0 && s[0] != '\0' {
      CStringStops(s[1..], rest);
      assert (s + ['\0'] + rest)[1..] == s[1..] + ['\0'] + rest;
      assert [s[0]] + s[1..] == s;
    }
  }
}
