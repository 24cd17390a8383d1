/** The control thread's handler as the source runs it: fields updated in place, buffers filled by
    copying, publication through the shared cell, and the loop around it. */
module ControlThread {
  import opened Wrappers
  import opened Ctrl
  import opened Lazy
  import opened Requests

  class Handler {
    const base: string
    const local: Block
    const shared: Block
    const cell: LazyCell
    var version: int
    ghost const local0: Record
    ghost const shared0: Record
    ghost var inputs: seq<Input>

    ghost predicate Valid()
      reads this, local, local.data, shared, shared.data, cell
    {
      && local != shared && local.data != shared.data && local.Valid() && shared.Valid()
      && !cell.locked
      && AllFit(base, inputs)
      && var sv := Serve(base, local0, inputs);
         && local.Value() == sv.local
         && shared.Value() == Overlay(shared0, sv.pubs)
         && version == cell.version == Ver(|sv.pubs|)
    }

    constructor (base: string)
      ensures Valid() && inputs == [] && this.base == base
      ensures local.cmd == CMD_INIT && local0.cmd == CMD_INIT && local0.size == 0
      ensures fresh(local) && fresh(local.data) && fresh(shared) && fresh(shared.data) && fresh(cell)
    {
      this.base := base;
      var l := new Block(CMD_INIT);
      var g := new Block(CMD_INIT);
      local, shared := l, g;
      cell := new LazyCell.LazyInit(0);
      version := 0;
      local0, shared0 := l.Value(), g.Value();
      inputs := [];
      VerSteps(-1);
    }

    method Publish()
      requires local != shared && local.data != shared.data && local.Valid() && shared.Valid()
      requires !cell.locked && version == cell.version
      modifies this`version, cell, shared, shared.data
      ensures shared.Valid() && !cell.locked
      ensures shared.Value() == Overwrite(old(shared.Value()), View(local.Value()))
      ensures version == cell.version == Inc32(old(version))
    {
      version := cell.UpdateGlobalIfOwner(version, local, shared);
    }

    /** Handles one request: answers it, edits the thread's record, and publishes if the request is
        accepted, exactly as the sequential specification says. */
    method Handle(input: Input) returns (res: Response)
      requires Valid() && CMD_SHUTDOWN < local.cmd && Fits(base, input)
      modifies this`version, this`inputs, local, local.data, shared, shared.data, cell
      ensures Valid() && inputs == old(inputs) + [input]
      ensures Serve(base, local0, inputs).responses == Serve(base, local0, old(inputs)).responses + [res]
    {
      ghost var before := Serve(base, local0, inputs);
      ghost var outcome := Requests.Handle(base, local.Value(), input);
      ServeSnoc(base, local0, inputs, input);
      OverlaySnoc(shared0, before.pubs, View(outcome.local));
      VerSteps(|before.pubs|);
      var req := input.req;
      inputs := inputs + [input];
      match req.kind {
        case MarketStart =>
          if local.cmd == CMD_RUN {
            return Response(req.id, ErrRunning, "Already in RUNNING state.");
          }
          local.size := 0;
          if req.tape.Some? {
            var path := base + req.tape.value;
            if !input.found {
              return Response(req.id, Err, "File '" + path + "' not found.");
            }
            local.size := |path| + 1;
            MemCpy(local.data, path + ['\0']);
          }
          local.cmd := CMD_RUN;
          res := Response(req.id, StartOk, "");
        case MarketStop =>
          local.cmd := CMD_STOP;
          res := Response(req.id, StopOk, "");
        case Shutdown =>
          local.cmd := CMD_SHUTDOWN;
          res := Response(req.id, ShutdownOk, "");
      }
      assert local.Value() == outcome.local;
      Publish();
    }

    /** The loop: messages that do not parse are skipped, and nothing is read after a shutdown. */
    method Loop(msgs: seq<Option<Input>>) returns (produced: seq<Response>)
      requires Valid() && inputs == [] && local0.cmd == CMD_INIT && local0.size == 0
      requires AllFit(base, Parsed(msgs))
      modifies this`version, this`inputs, local, local.data, shared, shared.data, cell
      ensures Valid()
      ensures produced == Serve(base, local0, Parsed(msgs)).responses
      ensures shared.Value() == Overlay(shared0, Serve(base, local0, Parsed(msgs)).pubs)
      ensures local.cmd == Replay(produced)
    {
      produced := [];
      var i := 0;
      while i < |msgs| && CMD_SHUTDOWN < local.cmd
        invariant i <= |msgs|
        invariant Valid() && inputs == Parsed(msgs[..i])
        invariant produced == Serve(base, local0, inputs).responses
      {
        ParsedSnoc(msgs, i);
        if msgs[i].Some? {
          var res := Handle(msgs[i].value);
          produced := produced + [res];
        }
        i := i + 1;
      }
      ParsedPrefix(msgs, i);
      if i < |msgs| {
        NothingAfterShutdown(base, local0, Parsed(msgs[..i]), Parsed(msgs[i..]));
      } else {
        assert msgs[..i] == msgs;
      }
      ServedReplays(base, local0, Parsed(msgs));
    }
  }

  lemma ServedReplays(base: string, local: Record, inputs: seq<Input>)
    requires AllFit(base, inputs) && local.cmd == CMD_INIT && local.size == 0
    ensures var sv := Serve(base, local, inputs); Replay(sv.responses) == sv.local.cmd
  {
    ServeAccounted(base, local, inputs);
  }

  function Parsed(msgs: seq<Option<Input>>): seq<Input> {
    if |msgs| == 0 then []
    else Parsed(msgs[..|msgs| - 1]) + (match msgs[|msgs| - 1] case Some(m) => [m] case None => [])
  }

  lemma {:induction false} ParsedConcat(a: seq<Option<Input>>, b: seq<Option<Input>>)
    ensures Parsed(a + b) == Parsed(a) + Parsed(b)
  {
    if |b| == 0 {
      assert a + b == a;
    } else {
      var n := |b| - 1;
      assert (a + b)[..|a + b| - 1] == a + b[..n];
      ParsedConcat(a, b[..n]);
    }
  }

  lemma ParsedPrefix(msgs: seq<Option<Input>>, i: nat)
    requires i <= |msgs|
    ensures Parsed(msgs) == Parsed(msgs[..i]) + Parsed(msgs[i..])
  {
    assert msgs == msgs[..i] + msgs[i..];
    ParsedConcat(msgs[..i], msgs[i..]);
  }

  lemma ParsedSnoc(msgs: seq<Option<Input>>, i: nat)
    requires i < |msgs|
    ensures Parsed(msgs[..i + 1]) == Parsed(msgs[..i]) + (if msgs[i].Some? then [msgs[i].value] else [])
    ensures forall base :: AllFit(base, Parsed(msgs)) && msgs[i].Some? ==> Fits(base, msgs[i].value)
  {
    assert msgs[..i + 1][..i] == msgs[..i];
    ParsedPrefix(msgs, i + 1);
    if msgs[i].Some? {
      assert Parsed(msgs)[|Parsed(msgs[..i])|] == msgs[i].value;
    }
  }

  /** Requests that follow a shutdown change nothing. */
  lemma {:induction false} NothingAfterShutdown(base: string, local: Record, a: seq<Input>, b: seq<Input>)
    requires AllFit(base, a + b) && AllFit(base, a) && Serve(base, local, a).local.cmd <= CMD_SHUTDOWN
    ensures Serve(base, local, a + b) == Serve(base, local, a)
  {
    if |b| == 0 {
      assert a + b == a;
    } else {
      assert (a + b)[..|a + b| - 1] == a + b[..|b| - 1];
      NothingAfterShutdown(base, local, a, b[..|b| - 1]);
    }
  }
}
