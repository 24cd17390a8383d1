/** The control record shared by Wineing's threads, and the two prefix-only copies
    between the shared record and a thread's own one (wineing.h). */
module Ctrl {

  // Values of a record's command field.
  const CMD_INIT := 4
  const CMD_RUN := 3
  const CMD_STOP := 2
  const CMD_SHUTDOWN := 0

  /** Size of every record's data buffer. */
  const CAPACITY := 1024

  type Size = n: nat | n <= CAPACITY
  type Buffer = b: string | |b| == CAPACITY witness seq(CAPACITY, _ => '\0')

  /** A control record. Only the first `size` bytes of `data` are meaningful. */
  datatype Record = Record(cmd: int, size: Size, data: Buffer)

  /** What one publication says: a command and the meaningful bytes. */
  type Payload = b: string | |b| <= CAPACITY
  datatype Pub = Pub(cmd: int, bytes: Payload)

  function View(r: Record): Pub {
    Pub(r.cmd, r.data[..r.size])
  }

  /** A record after a publication has been copied over it: bytes past the payload survive. */
  function Overwrite(r: Record, p: Pub): Record {
    Record(p.cmd, |p.bytes|, p.bytes + r.data[|p.bytes|..])
  }

  /** A record after a whole series of publications has been copied over it. */
  function Overlay(r: Record, ps: seq<Pub>): Record {
    if |ps| == 0 then r else Overwrite(Overlay(r, ps[..|ps| - 1]), ps[|ps| - 1])
  }

  /** Byte i of an overlay is byte i of the latest publication long enough to reach it. */
  lemma {:induction false} OverlayByte(r: Record, ps: seq<Pub>, i: nat, j: nat)
    requires j < |ps| && i < |ps[j].bytes|
    requires forall m :: j < m < |ps| ==> |ps[m].bytes| <= i
    ensures Overlay(r, ps).data[i] == ps[j].bytes[i]
  {
    var n := |ps| - 1;
    if j < n {
      assert forall m :: j < m < n ==> ps[..n][m] == ps[m];
      OverlayByte(r, ps[..n], i, j);
    }
  }

  /** A byte no publication reaches keeps its original value. */
  lemma {:induction false} OverlayKeeps(r: Record, ps: seq<Pub>, i: nat)
    requires i < CAPACITY
    requires forall m :: 0 <= m < |ps| ==> |ps[m].bytes| <= i
    ensures Overlay(r, ps).data[i] == r.data[i]
  {
    if |ps| > 0 {
      var n := |ps| - 1;
      assert forall m :: 0 <= m < n ==> ps[..n][m] == ps[m];
      OverlayKeeps(r, ps[..n], i);
    }
  }

  lemma OverlaySnoc(r: Record, ps: seq<Pub>, p: Pub)
    ensures Overlay(r, ps + [p]) == Overwrite(Overlay(r, ps), p)
  {
  }

  /** The meaningful part of an overlay is the last publication. */
  lemma OverlayView(r: Record, ps: seq<Pub>)
    requires |ps| > 0
    ensures View(Overlay(r, ps)) == ps[|ps| - 1]
  {
  }

  // ---------- the copy, one memory write at a time ----------

  /** How far a copy has got: each stage names the next write. */
  datatype Stage = AtCmd | AtSize | AtByte(k: nat)

  function NextStage(stage: Stage): Stage {
    match stage
    case AtCmd => AtSize
    case AtSize => AtByte(0)
    case AtByte(k) => AtByte(k + 1)
  }

  predicate Finished(stage: Stage, src: Record) {
    stage.AtByte? && stage.k >= src.size
  }

  /** The single write a copy performs at a stage. */
  function CopyStep(dst: Record, src: Record, stage: Stage): Record
    requires !Finished(stage, src)
  {
    match stage
    case AtCmd => dst.(cmd := src.cmd)
    case AtSize => dst.(size := src.size)
    case AtByte(k) => dst.(data := dst.data[k := src.data[k]])
  }

  /** The torn record in the middle of a copy. */
  function Partial(dst: Record, src: Record, stage: Stage): Record
    requires stage.AtByte? ==> stage.k <= src.size
  {
    match stage
    case AtCmd => dst
    case AtSize => dst.(cmd := src.cmd)
    case AtByte(k) => Record(src.cmd, src.size, src.data[..k] + dst.data[k..])
  }

  lemma CopyStepAdvances(dst: Record, src: Record, stage: Stage)
    requires stage.AtByte? ==> stage.k < src.size
    ensures CopyStep(Partial(dst, src, stage), src, stage) == Partial(dst, src, NextStage(stage))
  {
  }

  lemma CopyEnds(dst: Record, src: Record)
    ensures Partial(dst, src, AtByte(src.size)) == Overwrite(dst, View(src))
  {
  }

  // ---------- the copy, as the source runs it ----------

  /** A record in memory. The buffer is allocated once and never replaced. */
  class Block {
    var cmd: int
    var size: nat
    const data: array<char>

    ghost predicate Valid()
      reads this
    {
      data.Length == CAPACITY && size <= CAPACITY
    }

    ghost function Value(): Record
      requires Valid()
      reads this, data
    {
      Record(cmd, size, data[..])
    }

    constructor (cmd: int)
      ensures Valid() && fresh(data)
      ensures this.cmd == cmd && size == 0
    {
      this.cmd := cmd;
      this.size := 0;
      this.data := new char[CAPACITY];
    }
  }

  method MemCpy(dst: array<char>, bytes: string)
    requires |bytes| <= dst.Length
    modifies dst
    ensures dst[..] == bytes + old(dst[..])[|bytes|..]
  {
    var k := 0;
    while k < |bytes|
      invariant k <= |bytes|
      invariant forall j :: 0 <= j < k ==> dst[j] == bytes[j]
      invariant forall j :: k <= j < dst.Length ==> dst[j] == old(dst[j])
    {
      dst[k] := bytes[k];
      k := k + 1;
    }
  }

  method CopyLocalToShared(local: Block, shared: Block)
    requires local.Valid() && shared.Valid() && local != shared && local.data != shared.data
    modifies shared, shared.data
    ensures shared.Valid() && shared.Value() == Overwrite(old(shared.Value()), View(local.Value()))
  {
    shared.cmd := local.cmd;
    shared.size := local.size;
    if 0 < local.size {
      MemCpy(shared.data, local.data[..local.size]);
    }
  }

  method CopySharedToLocal(local: Block, shared: Block)
    requires local.Valid() && shared.Valid() && local != shared && local.data != shared.data
    modifies local, local.data
    ensures local.Valid() && local.Value() == Overwrite(old(local.Value()), View(shared.Value()))
  {
    local.cmd := shared.cmd;
    local.size := shared.size;
    if 0 < shared.size {
      MemCpy(local.data, shared.data[..shared.size]);
    }
  }
}
