/** A response on its way from the control thread to the output thread: its protobuf encoding, and
    whether that fits the buffer it is received into. */
module Wire {
  import opened Wrappers
  import opened Ctrl
  import opened Requests

  /** Size of the buffer the output thread receives a response into. */
  const RECEIVE_BUFFER := 1024

  const TWO_TO_THE_63 := 0x8000_0000_0000_0000
  const TWO_TO_THE_64 := 0x1_0000_0000_0000_0000

  // ---------- varints ----------

  /** Seven bits a byte, lowest first; the top bit is set on all but the last byte. */
  function Varint(n: nat): (s: string)
    ensures |s| > 0
  {
    if n < 128 then [n as char] else [(128 + n % 128) as char] + Varint(n / 128)
  }

  /** A varint at the start of a string, and what follows it. */
  function ReadVarint(s: string): Option<(nat, string)> {
    if |s| == 0 then None
    else if s[0] < 128 as char then Some((s[0] as nat, s[1..]))
    else
      match ReadVarint(s[1..])
      case None => None
      case Some((n, rest)) => Some((s[0] as nat % 128 + 128 * n, rest))
  }

  lemma {:induction false} VarintReadsBack(n: nat, rest: string)
    ensures ReadVarint(Varint(n) + rest) == Some((n, rest))
  {
    var s := Varint(n) + rest;
    if n < 128 {
      assert s[1..] == rest;
    } else {
      assert s[1..] == Varint(n / 128) + rest;
      VarintReadsBack(n / 128, rest);
    }
  }

  /** What k bytes of a varint can hold. */
  function Reach(k: nat): nat {
    if k == 0 then 1 else 128 * Reach(k - 1)
  }

  lemma {:induction false} VarintLength(n: nat, k: nat)
    requires 0 < k
    ensures |Varint(n)| <= k <==> n < Reach(k)
  {
    if n >= 128 && k > 1 {
      VarintLength(n / 128, k - 1);
    } else if k > 1 {
      ReachGrows(k);
    }
  }

  lemma {:induction false} ReachGrows(k: nat)
    requires 0 < k
    ensures 128 <= Reach(k)
  {
    if k > 1 {
      ReachGrows(k - 1);
    }
  }

  /** A 64-bit integer goes out as its two's complement. */
  function Unsigned64(id: int): nat {
    id % TWO_TO_THE_64
  }

  function Signed64(n: nat): int {
    if n < TWO_TO_THE_63 then n else n - TWO_TO_THE_64
  }

  /** The bytes an id takes: at most ten. */
  function IdLength(id: int): (k: nat)
    ensures 1 <= k <= 10
  {
    VarintLength(Unsigned64(id), 10);
    assert Reach(10) == 0x40_0000_0000_0000_0000;
    |Varint(Unsigned64(id))|
  }

  // ---------- responses ----------

  function TypeNumber(kind: ResponseKind): nat {
    match kind
    case StartOk => 0
    case StopOk => 1
    case ShutdownOk => 2
    case Err => 3
    case ErrRunning => 4
  }

  function TypeOf(n: nat): Option<ResponseKind> {
    if n == 0 then Some(StartOk)
    else if n == 1 then Some(StopOk)
    else if n == 2 then Some(ShutdownOk)
    else if n == 3 then Some(Err)
    else if n == 4 then Some(ErrRunning)
    else None
  }

  /** The optional text is set on refusals only. */
  predicate HasText(kind: ResponseKind) {
    kind == Err || kind == ErrRunning
  }

  // Field tags: the field's number times eight, plus two for a string.
  const ID_TAG := [8 as char]
  const TYPE_TAG := [16 as char]
  const TEXT_TAG := [26 as char]

  function TextField(res: Response): string {
    if HasText(res.kind) then TEXT_TAG + Varint(|res.text|) + res.text else ""
  }

  function Encode(res: Response): string {
    ID_TAG + (Varint(Unsigned64(res.id)) + (TYPE_TAG + (Varint(TypeNumber(res.kind)) + TextField(res))))
  }

  /** A field that starts with `tag` and continues with a varint. */
  function ReadField(s: string, tag: string): Option<(nat, string)> {
    if |tag| <= |s| && s[..|tag|] == tag then ReadVarint(s[|tag|..]) else None
  }

  /** The client's reading of the three fields, in order. */
  function Decode(s: string): Option<Response> {
    match ReadField(s, ID_TAG)
    case None => None
    case Some((id, afterId)) =>
      match ReadField(afterId, TYPE_TAG)
      case None => None
      case Some((number, afterType)) =>
        match TypeOf(number)
        case None => None
        case Some(kind) =>
          if afterType == "" then Some(Response(Signed64(id), kind, ""))
          else
            match ReadField(afterType, TEXT_TAG)
            case None => None
            case Some((n, text)) => if |text| == n then Some(Response(Signed64(id), kind, text)) else None
  }

  lemma FieldReadsBack(tag: string, n: nat, rest: string)
    ensures ReadField(tag + (Varint(n) + rest), tag) == Some((n, rest))
  {
    VarintReadsBack(n, rest);
    assert (tag + (Varint(n) + rest))[|tag|..] == Varint(n) + rest;
  }

  /** What the control thread encodes the client decodes: the whole response, for 64-bit ids. */
  lemma ResponseRoundTrip(res: Response)
    requires -TWO_TO_THE_63 <= res.id < TWO_TO_THE_63 && (!HasText(res.kind) ==> res.text == "")
    ensures Decode(Encode(res)) == Some(res)
  {
    hide ReadField; hide Varint;
    var afterType := TextField(res);
    FieldReadsBack(TYPE_TAG, TypeNumber(res.kind), afterType);
    FieldReadsBack(ID_TAG, Unsigned64(res.id), TYPE_TAG + (Varint(TypeNumber(res.kind)) + afterType));
    if HasText(res.kind) {
      FieldReadsBack(TEXT_TAG, |res.text|, res.text);
      assert afterType == TEXT_TAG + (Varint(|res.text|) + res.text);
    }
  }

  // ---------- the message, as any protobuf reader finds it ----------

  /** A field of a message: a number, or a string of bytes. */
  datatype Field = Number(field: nat, value: nat) | Bytes(field: nat, bytes: string)

  /** What follows a varint is shorter. */
  lemma {:induction false} VarintTakes(s: string)
    ensures ReadVarint(s).Some? ==> |ReadVarint(s).value.1| < |s|
  {
    if |s| > 0 && s[0] >= 128 as char {
      VarintTakes(s[1..]);
    }
  }

  /** The first field of a message, and what follows it. A key is a varint: eight times the field's
      number plus its wire type, 0 for a varint and 2 for a length and that many bytes. */
  function FirstField(s: string): Option<(Field, string)> {
    match ReadVarint(s)
    case None => None
    case Some((key, afterKey)) =>
      match ReadVarint(afterKey)
      case None => None
      case Some((n, rest)) =>
        if key % 8 == 0 then Some((Number(key / 8, n), rest))
        else if key % 8 == 2 && n <= |rest| then Some((Bytes(key / 8, rest[..n]), rest[n..]))
        else None
  }

  /** All fields of a message. */
  function Fields(s: string): Option<seq<Field>>
    decreases |s|
  {
    if |s| == 0 then Some([])
    else
      match FirstField(s)
      case None => None
      case Some((field, rest)) =>
        FieldTakes(s);
        match Fields(rest)
        case None => None
        case Some(more) => Some([field] + more)
  }

  lemma FieldTakes(s: string)
    ensures FirstField(s).Some? ==> |FirstField(s).value.1| < |s|
  {
    VarintTakes(s);
    match ReadVarint(s)
    case None =>
    case Some((key, afterKey)) => VarintTakes(afterKey);
  }

  /** The proto file's numbering of the response types. */
  const RESPONSE_TYPES := [StartOk, StopOk, ShutdownOk, Err, ErrRunning]

  lemma KeyReads(key: nat, n: nat, rest: string)
    requires key < 128
    ensures var s := [key as char] + (Varint(n) + rest);
            && ReadVarint(s) == Some((key, Varint(n) + rest))
            && ReadVarint(Varint(n) + rest) == Some((n, rest))
  {
    VarintReadsBack(n, rest);
    assert ([key as char] + (Varint(n) + rest))[1..] == Varint(n) + rest;
  }

  /** The text is field 3, and there only on refusals. */
  lemma TextFields(res: Response)
    ensures Fields(TextField(res)) ==
            Some(if res.kind == Err || res.kind == ErrRunning then [Bytes(3, res.text)] else [])
  {
    if HasText(res.kind) {
      var s := TextField(res);
      KeyReads(26, |res.text|, res.text);
      assert s == [26 as char] + (Varint(|res.text|) + res.text);
      assert res.text[..|res.text|] == res.text && res.text[|res.text|..] == "";
      hide ReadVarint;
      assert FirstField(s) == Some((Bytes(3, res.text), ""));
      assert Fields("") == Some([]);
      assert [Bytes(3, res.text)] + [] == [Bytes(3, res.text)];
    }
  }

  lemma NumberFields(field: nat, n: nat, rest: string, more: seq<Field>)
    requires field < 16 && Fields(rest) == Some(more)
    ensures Fields([(8 * field) as char] + (Varint(n) + rest)) == Some([Number(field, n)] + more)
  {
    KeyReads(8 * field, n, rest);
    hide Varint;
    var s := [(8 * field) as char] + (Varint(n) + rest);
    assert FirstField(s) == Some((Number(field, n), rest));
  }

  lemma TwosComplement(id: int)
    ensures Unsigned64(id) < TWO_TO_THE_64 && (Unsigned64(id) - id) % TWO_TO_THE_64 == 0
  {
  }

  lemma Numbered(kind: ResponseKind)
    ensures TypeNumber(kind) < |RESPONSE_TYPES| && RESPONSE_TYPES[TypeNumber(kind)] == kind
  {
  }

  /** Field 1 holds the id in two's complement, field 2 the type as the proto file numbers it, and
      field 3, on refusals only, the text. */
  lemma EncodeFields(res: Response) returns (id: nat, number: nat)
    ensures id < TWO_TO_THE_64 && (id - res.id) % TWO_TO_THE_64 == 0
    ensures number < |RESPONSE_TYPES| && RESPONSE_TYPES[number] == res.kind
    ensures Fields(Encode(res)) ==
            Some([Number(1, id), Number(2, number)] +
                 (if res.kind == Err || res.kind == ErrRunning then [Bytes(3, res.text)] else []))
  {
    hide Fields; hide Varint; hide TextField; hide TypeNumber; hide Unsigned64;
    id, number := Unsigned64(res.id), TypeNumber(res.kind);
    TwosComplement(res.id);
    Numbered(res.kind);
    var text := if res.kind == Err || res.kind == ErrRunning then [Bytes(3, res.text)] else [];
    TextFields(res);
    NumberFields(2, number, TextField(res), text);
    NumberFields(1, id, TYPE_TAG + (Varint(number) + TextField(res)), [Number(2, number)] + text);
    assert [Number(1, id)] + ([Number(2, number)] + text) == [Number(1, id), Number(2, number)] + text;
  }

  /** The protobuf documentation's own example of a varint, and the shortest message. */
  lemma KnownBytes()
    ensures Varint(300) == [172 as char, 2 as char]
    ensures Encode(Response(1, StopOk, "")) == [8 as char, 1 as char, 16 as char, 1 as char]
  {
  }

  // ---------- the receive buffer ----------

  predicate FitsReceiveBuffer(res: Response) {
    |Encode(res)| <= RECEIVE_BUFFER
  }

  predicate AllFitReceiveBuffer(rs: seq<Response>) {
    forall i :: 0 <= i < |rs| ==> FitsReceiveBuffer(rs[i])
  }

  /** The longest path of a missing tape whose refusal still fits: 990 to 999 characters, by the
      length of the request's id. */
  function MissingLimit(id: int): (n: nat)
    ensures 990 <= n <= 999
  {
    1000 - IdLength(id)
  }

  /** A tape that is missing has a path that its refusal can carry. */
  predicate Answerable(base: string, input: Input) {
    input.req.kind == MarketStart && input.req.tape.Some? && !input.found ==>
      |base| + |input.req.tape.value| <= MissingLimit(input.req.id)
  }

  predicate AllAnswerable(base: string, inputs: seq<Input>) {
    forall i :: 0 <= i < |inputs| ==> Answerable(base, inputs[i])
  }

  lemma EncodeLength(res: Response)
    ensures |Encode(res)| ==
            3 + IdLength(res.id) + (if HasText(res.kind) then 1 + |Varint(|res.text|)| + |res.text| else 0)
  {
  }

  /** One answer fits exactly if it does not name a missing tape with too long a path. */
  lemma AnswerFits(base: string, local: Record, input: Input)
    requires Fits(base, input)
    ensures var res := Handle(base, local, input).res;
            FitsReceiveBuffer(res) <==> (res.kind == Err ==> Answerable(base, input))
  {
    var res := Handle(base, local, input).res;
    EncodeLength(res);
    VarintLength(|res.text|, 1);
    VarintLength(|res.text|, 2);
    assert Reach(1) == 128 && Reach(2) == 16384;
    hide Encode; hide Varint; hide Reach;
  }

  lemma {:induction false} ServeFits(base: string, local: Record, inputs: seq<Input>)
    requires AllFit(base, inputs) && AllAnswerable(base, inputs)
    ensures AllFitReceiveBuffer(Serve(base, local, inputs).responses)
  {
    hide FitsReceiveBuffer; hide Answerable; hide Handle;
    if |inputs| > 0 {
      var before := inputs[..|inputs| - 1];
      ServeFits(base, local, before);
      AnswerFits(base, Serve(base, local, before).local, inputs[|inputs| - 1]);
    }
  }

  predicate DrawnFrom(inputs: seq<Input>, xs: set<Input>) {
    forall i :: 0 <= i < |inputs| ==> inputs[i] in xs
  }

  /** A first request that names a missing tape gets a refusal. */
  lemma FirstAnswer(base: string, local: Record, input: Input)
    requires Fits(base, input) && local.cmd == CMD_INIT && !Answerable(base, input)
    ensures AllFit(base, [input])
    ensures var sv := Serve(base, local, [input]);
            |sv.responses| == 1 && !FitsReceiveBuffer(sv.responses[0])
  {
    ServeSnoc(base, local, [], input);
    assert [] + [input] == [input];
    AnswerFits(base, local, input);
    hide FitsReceiveBuffer;
  }

  /** Whatever series is drawn from a set of requests, every answer fits the output thread's buffer,
      exactly when every missing tape in the set has a path within the limit. */
  lemma AnswersFitExactly(base: string, local: Record, xs: set<Input>)
    requires (forall x :: x in xs ==> Fits(base, x)) && local.cmd == CMD_INIT
    ensures (forall inputs | DrawnFrom(inputs, xs) && AllFit(base, inputs) ::
               AllFitReceiveBuffer(Serve(base, local, inputs).responses)) <==>
            (forall x :: x in xs ==> Answerable(base, x))
  {
    if forall x :: x in xs ==> Answerable(base, x) {
      forall inputs | DrawnFrom(inputs, xs) && AllFit(base, inputs)
        ensures AllFitReceiveBuffer(Serve(base, local, inputs).responses)
      {
        ServeFits(base, local, inputs);
      }
    } else {
      var x :| x in xs && !Answerable(base, x);
      FirstAnswer(base, local, x);
      assert DrawnFrom([x], xs);
    }
  }
}
