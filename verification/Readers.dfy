/** The three readers as the source runs them: each refreshes its own record from the shared one and
    decides on the command it then holds (market_thread, nxtape_process, cchan_out_thread). */
module Readers {
  import opened Ctrl
  import opened Lazy
  import opened Requests
  import opened Wire
  import Server

  /** A reader's own version and record. */
  class Reader {
    var version: int
    const local: Block

    constructor ()
      ensures version == -1 && local.Valid() && local.cmd == CMD_INIT && local.size == 0
      ensures fresh(local) && fresh(local.data)
    {
      version := -1;
      local := new Block(CMD_INIT);
    }

    method Refresh(cell: LazyCell, shared: Block)
      requires !cell.locked && local.Valid() && shared.Valid() && local != shared && local.data != shared.data
      modifies this, cell`locked, local, local.data
      ensures !cell.locked && local.Valid()
      ensures Polled(local.Value(), version) == Poll(cell.version, shared.Value(), old(version), old(local.Value()))
    {
      version := cell.UpdateLocalIfChanged(version, local, shared);
    }

    /** One pass of the market thread's inner loop, up to starting NxCore. */
    method MarketPass(cell: LazyCell, shared: Block) returns (next: Server.MarketPc, tape: string)
      requires !cell.locked && local.Valid() && shared.Valid() && local != shared && local.data != shared.data
      modifies this, cell`locked, local, local.data
      ensures !cell.locked && local.Valid()
      ensures Polled(local.Value(), version) == Poll(cell.version, shared.Value(), old(version), old(local.Value()))
      ensures next == Server.MarketVerdict(local.cmd)
      ensures next == Server.MarketRun ==> tape == CString(local.data[..])
    {
      Refresh(cell, shared);
      tape := "";
      if local.cmd == CMD_STOP {
        next := Server.MarketPoll;
      } else if local.cmd == CMD_SHUTDOWN {
        next := Server.MarketDone;
      } else if local.cmd == CMD_RUN {
        next := Server.MarketRun;
        tape := ReadCString(local.data);
      } else {
        next := Server.MarketPoll;
      }
    }

    /** The tape callback: true means CONTINUE. */
    method TapeCallback(cell: LazyCell, shared: Block) returns (goOn: bool)
      requires !cell.locked && local.Valid() && shared.Valid() && local != shared && local.data != shared.data
      modifies this, cell`locked, local, local.data
      ensures !cell.locked && local.Valid()
      ensures Polled(local.Value(), version) == Poll(cell.version, shared.Value(), old(version), old(local.Value()))
      ensures goOn == Server.TapeVerdict(local.cmd)
    {
      Refresh(cell, shared);
      goOn := !(local.cmd < CMD_RUN);
    }

    /** One pass of the output thread's loop over the responses waiting in its queue: it polls, ends on
        SHUTDOWN, and otherwise receives the first response into a buffer of its own and sends the bytes
        received. With nothing queued it stays at the receive, where it blocks. The bytes are copied
        without regard to the buffer's size, so the response has to fit. */
    method OutPass(cell: LazyCell, shared: Block, queue: seq<Response>)
      returns (next: Server.OutPc, rest: seq<Response>, sent: seq<string>)
      requires !cell.locked && local.Valid() && shared.Valid() && local != shared && local.data != shared.data
      requires |queue| > 0 ==> FitsReceiveBuffer(queue[0])
      modifies this, cell`locked, local, local.data
      ensures !cell.locked && local.Valid()
      ensures Polled(local.Value(), version) == Poll(cell.version, shared.Value(), old(version), old(local.Value()))
      ensures next == Server.OutDone <==> Server.OutVerdict(local.cmd) == Server.OutDone
      ensures next != Server.OutDone ==> next == if |queue| == 0 then Server.OutRecv else Server.OutPoll
      ensures next == Server.OutPoll ==> queue == [queue[0]] + rest && sent == [Encode(queue[0])]
      ensures next != Server.OutPoll ==> queue == rest && sent == []
    {
      Refresh(cell, shared);
      rest, sent := queue, [];
      if local.cmd == CMD_SHUTDOWN {
        next := Server.OutDone;
      } else if |queue| == 0 {
        next := Server.OutRecv;
      } else {
        var buffer := new char[RECEIVE_BUFFER];
        var bytes := Encode(queue[0]);
        MemCpy(buffer, bytes);
        var read := |bytes|;
        rest, sent := queue[1..], [buffer[..read]];
        next := Server.OutPoll;
      }
    }
  }

  /** Reads a C string the way a callee does: up to the first NUL. */
  method ReadCString(data: array<char>) returns (s: string)
    ensures s == CString(data[..])
  {
    var k := 0;
    while k < data.Length && data[k] != '\0'
      invariant k <= data.Length
      invariant '\0' !in data[..k]
    {
      k := k + 1;
    }
    s := data[..k];
    if k < data.Length {
      assert data[..] == data[..k] + ['\0'] + data[k + 1..];
      CStringStops(data[..k], data[k + 1..]);
    } else {
      assert data[..] == data[..k];
      CStringStops(data[..k], []);
    }
  }
}
