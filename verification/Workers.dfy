/** The Java client's two workers and its `put`, as the source runs them. Processors are numbers;
    running one appends it, with its response, to a log. */
module Workers {
  import opened Wrappers
  import opened Requests
  import Client

  class ResponseWorker {
    var processors: map<int, int>
    var fallback: Option<int>
    var log: seq<(int, Response)>

    constructor ()
      ensures processors == map[] && fallback == None && log == []
    {
      processors, fallback, log := map[], None, [];
    }

    method SetResponseProcessor(id: int, p: int)
      modifies this`processors
      ensures processors == old(processors)[id := p]
    {
      processors := processors[id := p];
    }

    /** A response with a registered processor uses it up; any other goes to the default one, if set. */
    method ProcessResponse(res: Response)
      modifies this`processors, this`log
      ensures processors == old(processors) - {res.id}
      ensures log == old(log) + (if res.id in old(processors) then [(old(processors)[res.id], res)]
                                 else if fallback.Some? then [(fallback.value, res)] else [])
    {
      if res.id in processors {
        var p := processors[res.id];
        processors := processors - {res.id};
        log := log + [(p, res)];
      } else {
        assert processors == processors - {res.id};
        if fallback.Some? {
          log := log + [(fallback.value, res)];
        }
      }
    }
  }

  /** The requests a sender gets out of a queue: up to the first SHUTDOWN, included. */
  function Sendable(queue: seq<Request>): seq<Request> {
    if |queue| == 0 then []
    else if queue[0].kind == Shutdown then [queue[0]]
    else [queue[0]] + Sendable(queue[1..])
  }

  /** It is a prefix; a SHUTDOWN in it comes last; and it stops short of the end only after one. */
  lemma {:induction false} SendableIs(queue: seq<Request>)
    ensures Sendable(queue) <= queue
    ensures forall k :: 0 <= k < |Sendable(queue)| - 1 ==> Sendable(queue)[k].kind != Shutdown
    ensures Sendable(queue) == queue ||
            (|Sendable(queue)| > 0 && Sendable(queue)[|Sendable(queue)| - 1].kind == Shutdown)
  {
    if |queue| > 0 && queue[0].kind != Shutdown {
      SendableIs(queue[1..]);
      assert queue == [queue[0]] + queue[1..];
    }
  }

  /** Moving the first request from the queue to what has been sent. */
  lemma TakeOne(sent: seq<Request>, queue: seq<Request>)
    requires |queue| > 0
    ensures sent + [queue[0]] + queue[1..] == sent + queue
    ensures sent + Sendable(queue) ==
            if queue[0].kind == Shutdown then sent + [queue[0]] else sent + [queue[0]] + Sendable(queue[1..])
  {
  }

  class RequestWorker {
    var queue: seq<Request>

    constructor ()
      ensures queue == []
    {
      queue := [];
    }

    /** False stands for the exception a full queue throws. */
    method AddRequest(r: Request) returns (ok: bool)
      modifies this
      ensures ok == Client.Add(old(queue), r).Some?
      ensures queue == if ok then Client.Add(old(queue), r).value else old(queue)
    {
      ok := |queue| < Client.QUEUE_CAPACITY;
      if ok {
        queue := queue + [r];
      }
    }

    /** Takes and sends until a SHUTDOWN has gone out or the queue is empty, where it would block. */
    method Run() returns (sent: seq<Request>)
      modifies this
      ensures sent == Sendable(old(queue))
      ensures sent + queue == old(queue)
    {
      sent := [];
      assert Sendable([]) == [];
      hide Sendable;
      while |queue| > 0
        invariant sent + queue == old(queue)
        invariant sent + Sendable(queue) == Sendable(old(queue))
        decreases |queue|
      {
        var r := queue[0];
        TakeOne(sent, queue);
        queue := queue[1..];
        sent := sent + [r];
        if r.kind == Shutdown {
          break;
        }
      }
    }
  }

  /** Registers the processor, if there is one, before the request can be sent; a request refused by a
      full queue leaves its processor registered. */
  method Put(responses: ResponseWorker, requests: RequestWorker, r: Request, p: Option<int>) returns (ok: bool)
    modifies responses`processors, requests
    ensures responses.processors == Client.Register(old(responses.processors), r.id, p)
    ensures ok == Client.Add(old(requests.queue), r).Some?
    ensures requests.queue == if ok then Client.Add(old(requests.queue), r).value else old(requests.queue)
  {
    if p.Some? {
      responses.SetResponseProcessor(r.id, p.value);
    }
    ok := requests.AddRequest(r);
  }
}
