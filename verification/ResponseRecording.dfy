/**
 * What idempotencyRecorder captures of a live response, and what replayIdempotency sends back.
 */
module ResponseRecording {
  import opened Prelude

  newtype byte = b: int | 0 <= b < 256

  type Bytes = seq<byte>

  /** A captured response; status 0 means that nothing was written. */
  datatype Response = Response(status: nat, contentType: string, body: Bytes)

  /** Only responses below 500 are kept for replay. */
  predicate Cached(r: Response) {
    0 < r.status < 500
  }

  /** The stored columns: a missing content type is NULL. */
  datatype Stored = Stored(status: Option<nat>, contentType: Option<string>, body: Bytes)

  function Columns(r: Response): Stored {
    Stored(Some(r.status), if r.contentType == "" then None else Some(r.contentType), r.body)
  }

  /** What replayIdempotency sends for the stored columns. */
  function FromColumns(rec: Stored): Response {
    Response(if rec.status.Some? then rec.status.value else if rec.body == [] then 0 else 200,
             if rec.contentType.Some? then rec.contentType.value else "", rec.body)
  }

  /**
   * A client connection.  The header may be set at any time, but what counts is its value when the first
   * status line goes out; only the first status line counts, and a body implies status 200.
   */
  class Client {
    var header: string
    var status: nat
    var contentType: string
    var body: Bytes

    constructor ()
      ensures header == "" && Seen() == Response(0, "", [])
    {
      header, status, contentType, body := "", 0, "", [];
    }

    ghost function Seen(): Response
      reads this
    {
      Response(status, contentType, body)
    }

    ghost function State(): Sent
      reads this
    {
      Sent(header, Seen())
    }

    method SetContentType(value: string)
      modifies this`header
      ensures State() == AfterOp(old(State()), PutContentType(value))
    {
      header := value;
    }

    method WriteHeader(code: nat)
      modifies this`status, this`contentType
      ensures State() == AfterOp(old(State()), SendStatus(code))
    {
      if status == 0 {
        status, contentType := code, header;
      }
    }

    method Write(b: Bytes)
      modifies this`status, this`contentType, this`body
      ensures State() == AfterOp(old(State()), SendBody(b))
    {
      WriteHeader(200);
      body := body + b;
    }
  }

  // ---- what a handler does to its response ----

  datatype Op = PutContentType(value: string) | SendStatus(code: nat) | SendBody(bytes: Bytes)

  /** The header as it stands, and the response as it went out. */
  datatype Sent = Sent(header: string, response: Response)

  function Started(s: Sent, code: nat): Sent {
    if s.response.status == 0 then s.(response := s.response.(status := code, contentType := s.header)) else s
  }

  function AfterOp(s: Sent, op: Op): Sent {
    match op
    case PutContentType(value) => s.(header := value)
    case SendStatus(code) => Started(s, code)
    case SendBody(bytes) =>
      var t := Started(s, 200);
      t.(response := t.response.(body := t.response.body + bytes))
  }

  function Handled(ops: seq<Op>): Sent {
    if ops == [] then Sent("", Response(0, "", []))
    else AfterOp(Handled(ops[..|ops| - 1]), ops[|ops| - 1])
  }

  // ---- the recorder ----

  class Recorder {
    const client: Client
    var status: nat
    var body: Bytes

    /** What has been captured is what the client has been sent. */
    ghost predicate Mirrors()
      reads this, client
    {
      status == client.status && body == client.body
    }

    constructor (client: Client)
      requires client.status == 0 && client.body == []
      ensures this.client == client && Mirrors()
    {
      this.client := client;
      status, body := 0, [];
    }

    method WriteHeader(code: nat)
      requires Mirrors()
      modifies this`status, client`status, client`contentType
      ensures Mirrors() && client.State() == AfterOp(old(client.State()), SendStatus(code))
    {
      if status != 0 {
        return;
      }
      status := code;
      client.WriteHeader(code);
    }

    method Write(b: Bytes)
      requires Mirrors()
      modifies this`status, this`body, client`status, client`contentType, client`body
      ensures Mirrors() && client.State() == AfterOp(old(client.State()), SendBody(b))
    {
      if status == 0 {
        status := 200;
        client.WriteHeader(200);
      }
      body := body + b;
      client.Write(b);
    }

    /** What the middleware reads once the handler has returned: the content type from the header. */
    method Captured() returns (r: Response)
      requires Mirrors()
      ensures r == client.Seen().(contentType := client.header)
    {
      r := Response(status, client.header, body);
    }
  }

  /** Sends stored columns to a new client. */
  method Replay(client: Client, rec: Stored)
    requires client.header == "" && client.Seen() == Response(0, "", [])
    requires rec.status.Some? ==> rec.status.value > 0
    modifies client
    ensures client.Seen().status == FromColumns(rec).status && client.Seen().body == FromColumns(rec).body
    ensures rec.status.Some? ==> client.status == rec.status.value && client.body == rec.body
    ensures rec.status.Some? && rec.contentType.Some? ==> client.contentType == rec.contentType.value
    ensures client.status > 0 ==> client.Seen() == FromColumns(rec)
  {
    if rec.contentType.Some? {
      client.SetContentType(rec.contentType.value);
    }
    if rec.status.Some? {
      client.WriteHeader(rec.status.value);
    }
    if |rec.body| > 0 {
      client.Write(rec.body);
    }
  }

  /**
   * A handler served through the recorder, its response stored, and the stored columns replayed to a second
   * client: the first sees what the handler sent; the second sees the same, with the content type that the
   * header had in the end.
   */
  method ServeThenReplay(ops: seq<Op>) returns (first: Client, again: Client, cached: bool)
    ensures first.Seen() == Handled(ops).response
    ensures cached <==> Cached(Handled(ops).response)
    ensures cached <==> 0 < first.status < 500
    ensures cached ==> again.Seen() == Handled(ops).response.(contentType := Handled(ops).header)
    ensures cached ==> (again.Seen() == first.Seen() <==> LastPut(ops) == LastPut(BeforeWriting(ops)))
  {
    first := new Client();
    again := new Client();
    var recorder := new Recorder(first);
    for i := 0 to |ops|
      invariant recorder.client == first && recorder.Mirrors() && first.State() == Handled(ops[..i])
      invariant again != first && again.header == "" && again.Seen() == Response(0, "", [])
    {
      assert ops[..i + 1][..i] == ops[..i];
      match ops[i]
      case PutContentType(value) => first.SetContentType(value);
      case SendStatus(code) => recorder.WriteHeader(code);
      case SendBody(bytes) => recorder.Write(bytes);
    }
    assert ops[..|ops|] == ops;
    var response := recorder.Captured();
    cached := 0 < response.status < 500;
    if cached {
      Replay(again, Columns(response));
      VerbatimIff(ops);
    }
  }

  /** The status of a live response is that of the first write, and 200 if that is of the body. */
  lemma {:induction false} FirstWriteDecides(ops: seq<Op>, i: nat)
    requires i < |ops| && Writes(ops[i]) && forall j | 0 <= j < i :: !Writes(ops[j])
    ensures Handled(ops).response.status == if ops[i].SendStatus? then ops[i].code else 200
  {
    var n := |ops| - 1;
    if i < n {
      FirstWriteDecides(ops[..n], i);
    } else {
      NothingWritten(ops[..n]);
    }
  }

  lemma {:induction false} NothingWritten(ops: seq<Op>)
    requires forall j | 0 <= j < |ops| :: !Writes(ops[j])
    ensures Handled(ops).response.status == 0
  {
    if ops != [] {
      NothingWritten(ops[..|ops| - 1]);
    }
  }

  /** The bytes of the body, in the order they were sent. */
  function Bodies(ops: seq<Op>): Bytes {
    if ops == [] then [] else (if ops[0].SendBody? then ops[0].bytes else []) + Bodies(ops[1..])
  }

  lemma {:induction false} BodiesNext(ops: seq<Op>, op: Op)
    ensures Bodies(ops + [op]) == Bodies(ops) + if op.SendBody? then op.bytes else []
  {
    var more := ops + [op];
    if ops == [] {
      assert more[1..] == [];
    } else {
      BodiesNext(ops[1..], op);
      assert more[0] == ops[0] && more[1..] == ops[1..] + [op];
      var head := if ops[0].SendBody? then ops[0].bytes else [];
      var last := if op.SendBody? then op.bytes else [];
      assert Bodies(more) == head + (Bodies(ops[1..]) + last) == (head + Bodies(ops[1..])) + last;
    }
  }

  /** The body of a live response is all that was sent. */
  lemma {:induction false} BodyIsSent(ops: seq<Op>)
    ensures Handled(ops).response.body == Bodies(ops)
  {
    if ops != [] {
      var n := |ops| - 1;
      BodyIsSent(ops[..n]);
      BodiesNext(ops[..n], ops[n]);
      assert ops == ops[..n] + [ops[n]];
    }
  }

  // ---- when a replay is verbatim ----

  predicate Writes(op: Op) { op.SendBody? || (op.SendStatus? && op.code != 0) }

  /** The content type is not changed once the response has begun. */
  predicate SettledEarly(ops: seq<Op>) {
    forall i, j | 0 <= i < j < |ops| :: Writes(ops[i]) && ops[j].PutContentType? ==>
      ops[j].value == Handled(ops[..j]).header
  }

  lemma {:induction false} BegunIffWritten(ops: seq<Op>)
    ensures Handled(ops).response.status != 0 <==> exists i :: 0 <= i < |ops| && Writes(ops[i])
  {
    if ops != [] {
      var n := |ops| - 1;
      BegunIffWritten(ops[..n]);
      assert ops == ops[..n] + [ops[n]];
    }
  }

  /** A handler that settles the content type before it writes gets replays that are verbatim. */
  lemma {:induction false} VerbatimIfSettled(ops: seq<Op>)
    requires SettledEarly(ops) && Handled(ops).response.status != 0
    ensures Handled(ops).header == Handled(ops).response.contentType
  {
    var n := |ops| - 1;
    var before := ops[..n];
    BegunIffWritten(before);
    if Handled(before).response.status != 0 {
      forall i, j | 0 <= i < j < n && Writes(before[i]) && before[j].PutContentType?
        ensures before[j].value == Handled(before[..j]).header
      {
        assert before[..j] == ops[..j];
      }
      VerbatimIfSettled(before);
      var i :| 0 <= i < n && Writes(before[i]);
      assert ops[i] == before[i] && ops[..n] == before;
    }
  }

  /** The content type the handler put last, or none. */
  function LastPut(ops: seq<Op>): string {
    if ops == [] then ""
    else if ops[|ops| - 1].PutContentType? then ops[|ops| - 1].value
    else LastPut(ops[..|ops| - 1])
  }

  /** What the handler did before its first write. */
  function BeforeWriting(ops: seq<Op>): (r: seq<Op>)
    ensures |r| <= |ops|
  {
    if ops == [] || Writes(ops[0]) then [] else [ops[0]] + BeforeWriting(ops[1..])
  }

  lemma {:induction false} HeaderIsLastPut(ops: seq<Op>)
    ensures Handled(ops).header == LastPut(ops)
  {
    if ops != [] {
      HeaderIsLastPut(ops[..|ops| - 1]);
    }
  }

  /** One more operation extends the part before writing exactly if nothing was written yet. */
  lemma {:induction false} BeforeWritingNext(ops: seq<Op>, op: Op)
    ensures BeforeWriting(ops + [op]) ==
            if BeforeWriting(ops) == ops && !Writes(op) then ops + [op] else BeforeWriting(ops)
  {
    if ops == [] {
      assert [op][1..] == [];
    } else {
      assert (ops + [op])[1..] == ops[1..] + [op];
      BeforeWritingNext(ops[1..], op);
      assert ops == [ops[0]] + ops[1..];
      assert BeforeWriting(ops) == ops && !Writes(ops[0]) ==> BeforeWriting(ops[1..]) == ops[1..];
    }
  }

  /** A response that has begun went out with the content type put before the first write. */
  lemma {:induction false} SentIsPutBefore(ops: seq<Op>)
    ensures Handled(ops).response.status == 0 <==> BeforeWriting(ops) == ops
    ensures Handled(ops).response.status != 0 ==>
              Handled(ops).response.contentType == LastPut(BeforeWriting(ops))
  {
    if ops != [] {
      var n := |ops| - 1;
      SentIsPutBefore(ops[..n]);
      HeaderIsLastPut(ops[..n]);
      assert ops == ops[..n] + [ops[n]];
      BeforeWritingNext(ops[..n], ops[n]);
    }
  }

  /** What the second client of ServeThenReplay sees. */
  function Replayed(ops: seq<Op>): Response {
    FromColumns(Columns(Handled(ops).response.(contentType := Handled(ops).header)))
  }

  /**
   * Exactly when a replay is verbatim, for any handler: the last content type it puts is the last one it
   * puts before it writes.
   */
  lemma VerbatimIff(ops: seq<Op>)
    requires Cached(Handled(ops).response)
    ensures Replayed(ops) == Handled(ops).response <==> LastPut(ops) == LastPut(BeforeWriting(ops))
  {
    HeaderIsLastPut(ops);
    SentIsPutBefore(ops);
  }

  /** It need not: a handler that sets the content type too late. */
  lemma SetTooLate()
    ensures var s := Handled([SendStatus(200), PutContentType("a")]);
            Cached(s.response) && s.header != s.response.contentType
  {
    var ops := [SendStatus(200), PutContentType("a")];
    assert ops[..1] == [SendStatus(200)] && ops[..1][..0] == [];
  }
}
