/** Range-based download through an untrusted proxy: sequential exact ranges with one retry each,
    staging, size caps, and the fallback to one full request. The server is an arbitrary function
    from requests to replies. */
module RangeDownload {
  import opened Wrappers

  datatype Error =
    | StopRequested       // the caller's stop predicate fired
    | Transport           // `requests.RequestException`
    | RangeUnsupported    // the range request was answered 200
    | Rejected            // any other `ChunkedDownloadError`
    | InvalidArgument     // `ValueError`

  datatype Result<+T> = Ok(value: T) | Err(error: Error)

  type Byte = bv8

  /** A piece of a body as it arrives, with the answer `stop()` gives at that moment. */
  datatype Chunk = Chunk(data: seq<Byte>, stop: bool)

  /** What a body delivers before it ends, or breaks off with a transport error. */
  datatype Body = Body(chunks: seq<Chunk>, breaks: bool)

  /** A `Content-Range` header (RFC 9110 section 14.4): absent or malformed, of unknown complete
      length (`*`), or complete. */
  datatype ContentRange = Malformed | Unsized | Sized(first: nat, last: nat, total: nat)

  datatype Reply =
    | NoConnection
    | Reply(status: nat, contentRange: ContentRange, contentLength: Option<nat>, body: Body)

  /** A range request: its number in the session, and the first and last byte asked for. */
  datatype Request = Request(number: nat, first: nat, last: int)

  type Server = Request -> Reply

  const ATTEMPTS: nat := 2
  const TRANSIENT := {408, 425, 429, 500, 502, 503, 504}

  class File {
    var data: seq<Byte>
    constructor ()
      ensures data == []
    { data := []; }
  }

  function PayloadFrom(chunks: seq<Chunk>, i: nat): seq<Byte>
    requires i <= |chunks|
    decreases |chunks| - i
  {
    if i == |chunks| then [] else chunks[i].data + PayloadFrom(chunks, i + 1)
  }

  function Payload(chunks: seq<Chunk>): seq<Byte> { PayloadFrom(chunks, 0) }

  /** How much of an object of `total` bytes is wanted. */
  function Target(total: nat, limit: Option<nat>): nat {
    if limit.Some? && limit.value < total then limit.value else total
  }

  ghost predicate Within(n: nat, limit: Option<nat>) { limit.Some? ==> n <= limit.value }

  ghost predicate Unstopped(body: Body) { forall i :: 0 <= i < |body.chunks| ==> !body.chunks[i].stop }

  ghost predicate Undisturbed(body: Body) { !body.breaks && Unstopped(body) }

  ghost predicate Fits(body: Body, expected: Option<nat>, maxBytes: Option<nat>) {
    Within(|Payload(body.chunks)|, maxBytes) && (expected.Some? ==> expected.value == |Payload(body.chunks)|)
  }

  /** The body breaks off before anything else is wrong with it. */
  ghost predicate CutShort(body: Body, expected: Option<nat>, maxBytes: Option<nat>) {
    body.breaks && Unstopped(body) && Within(|Payload(body.chunks)|, maxBytes) && Within(|Payload(body.chunks)|, expected)
  }

  /** How many bytes have arrived with the first `k` chunks. */
  function Arrived(chunks: seq<Chunk>, k: nat): nat
    requires k <= |chunks|
  {
    if k == 0 then 0 else Arrived(chunks, k - 1) + |chunks[k - 1].data|
  }

  /** Nothing ends the stream before chunk `k`: no stop, no byte too many, and still some wanted. */
  ghost predicate Reaches(body: Body, k: nat, expected: Option<nat>, maxBytes: Option<nat>, limit: Option<nat>) {
    && k <= |body.chunks| && (forall j :: 0 <= j < k ==> !body.chunks[j].stop)
    && Within(Arrived(body.chunks, k), expected) && Within(Arrived(body.chunks, k), maxBytes)
    && (limit.Some? ==> Arrived(body.chunks, k) < limit.value)
  }

  /** The stream is stopped by its caller at chunk `k`. */
  ghost predicate StopsAt(body: Body, k: nat, expected: Option<nat>, maxBytes: Option<nat>, limit: Option<nat>) {
    k < |body.chunks| && Reaches(body, k, expected, maxBytes, limit) && body.chunks[k].stop
  }

  /** With chunk `k` all that is wanted has arrived; a chunk that brings exactly that is still checked. */
  ghost predicate FillsAt(body: Body, k: nat, expected: Option<nat>, maxBytes: Option<nat>, limit: nat) {
    && k < |body.chunks| && Reaches(body, k, expected, maxBytes, Some(limit)) && !body.chunks[k].stop
    && Arrived(body.chunks, k + 1) >= limit
    && (Arrived(body.chunks, k + 1) == limit ==> Within(limit, expected) && Within(limit, maxBytes))
  }

  ghost predicate Stops(body: Body, expected: Option<nat>, maxBytes: Option<nat>, limit: Option<nat>) {
    exists k: nat :: StopsAt(body, k, expected, maxBytes, limit)
  }

  ghost predicate Fills(body: Body, expected: Option<nat>, maxBytes: Option<nat>, limit: nat) {
    exists k: nat :: FillsAt(body, k, expected, maxBytes, limit)
  }

  /** The stream's end is a stop, a break or an early success exactly if that comes first. */
  ghost predicate EndsAs(r: Result<nat>, body: Body, expected: Option<nat>, maxBytes: Option<nat>, limit: Option<nat>) {
    && (r == Err(StopRequested) <==> Stops(body, expected, maxBytes, limit))
    && (r == Err(Transport) <==> body.breaks && Reaches(body, |body.chunks|, expected, maxBytes, limit))
    && (limit.Some? ==> (r == Ok(limit.value) <==> Fills(body, expected, maxBytes, limit.value)))
  }

  /** The contract of `_stream_response`: only a prefix `sent` of the body is ever written. Without a
      download limit it succeeds exactly when the whole body arrives undisturbed and its length meets
      the expectation and the cap; with one it then succeeds too, and succeeds early, with exactly
      `limit` bytes, once these are there. It is stopped, or broken off, exactly if nothing ended it before. */
  ghost predicate Streamed(body: Body, expected: Option<nat>, maxBytes: Option<nat>, limit: Option<nat>, r: Result<nat>, sent: seq<Byte>) {
    && sent <= Payload(body.chunks)
    && (r.Ok? ==> r.value == |sent| && Within(r.value, limit))
    && (r.Ok? && limit != Some(r.value) ==> Undisturbed(body) && sent == Payload(body.chunks) && Fits(body, expected, maxBytes))
    && (Undisturbed(body) && Fits(body, expected, maxBytes) ==> r == Ok(Target(|Payload(body.chunks)|, limit)))
    && (limit.None? && CutShort(body, expected, maxBytes) ==> r == Err(Transport))
    && EndsAs(r, body, expected, maxBytes, limit)
    && (r.Err? ==> r.error in {StopRequested, Transport, Rejected})
  }

  datatype Taken = Taken(result: Result<nat>, sent: seq<Byte>)

  /** One chunk, after `written` bytes: the piece of it that is kept, and the result if the stream ends here. */
  function Take(chunk: Chunk, written: nat, expected: Option<nat>, maxBytes: Option<nat>, limit: Option<nat>): (Option<Result<nat>>, seq<Byte>)
    requires limit.Some? ==> written < limit.value
  {
    var data, total := chunk.data, written + |chunk.data|;
    if chunk.stop then (Some(Err(StopRequested)), [])
    else if data == [] then (None, [])
    else if limit.Some? && total > limit.value then (Some(Ok(limit.value)), data[..limit.value - written])
    else if expected.Some? && total > expected.value then (Some(Err(Rejected)), [])
    else if maxBytes.Some? && total > maxBytes.value then (Some(Err(Rejected)), [])
    else if limit == Some(total) then (Some(Ok(total)), data)
    else (None, data)
  }

  /** What `_stream_response` does with chunks `i` and later, after `written` bytes. */
  function Stream(body: Body, i: nat, written: nat, expected: Option<nat>, maxBytes: Option<nat>, limit: Option<nat>): Taken
    requires i <= |body.chunks| && (limit.Some? ==> written < limit.value)
    decreases |body.chunks| - i
  {
    if i == |body.chunks| then
      Taken(if body.breaks then Err(Transport) else if expected.Some? && written != expected.value then Err(Rejected) else Ok(written), [])
    else
      var (ended, piece) := Take(body.chunks[i], written, expected, maxBytes, limit);
      if ended.Some? then Taken(ended.value, piece)
      else
        var rest := Stream(body, i + 1, written + |piece|, expected, maxBytes, limit);
        Taken(rest.result, piece + rest.sent)
  }

  lemma {:induction false} StreamSends(body: Body, i: nat, written: nat, expected: Option<nat>, maxBytes: Option<nat>, limit: Option<nat>)
    requires i <= |body.chunks| && (limit.Some? ==> written < limit.value)
    ensures var t := Stream(body, i, written, expected, maxBytes, limit);
            && t.sent <= PayloadFrom(body.chunks, i)
            && (t.result.Ok? ==> t.result.value == written + |t.sent| && Within(t.result.value, limit))
            && (t.result == Err(Transport) ==> body.breaks)
            && (t.result.Err? ==> t.result.error in {StopRequested, Transport, Rejected})
    decreases |body.chunks| - i
  {
    if i < |body.chunks| {
      var (ended, piece) := Take(body.chunks[i], written, expected, maxBytes, limit);
      FrontOf(piece, body.chunks[i].data, PayloadFrom(body.chunks, i + 1));
      if ended.None? {
        StreamSends(body, i + 1, written + |piece|, expected, maxBytes, limit);
        FrontAfter(piece, Stream(body, i + 1, written + |piece|, expected, maxBytes, limit).sent, PayloadFrom(body.chunks, i + 1));
      }
    }
  }

  lemma {:induction false} FrontOf<T>(a: seq<T>, b: seq<T>, c: seq<T>)
    requires a <= b
    ensures a <= b + c
  {}

  lemma {:induction false} FrontAfter<T>(a: seq<T>, b: seq<T>, c: seq<T>)
    requires b <= c
    ensures a + b <= a + c
  {}

  lemma {:induction false} StreamSucceeds(body: Body, i: nat, written: nat, expected: Option<nat>, maxBytes: Option<nat>, limit: Option<nat>)
    requires i <= |body.chunks| && (limit.Some? ==> written < limit.value)
    requires written > 0 ==> Within(written, maxBytes)
    requires var t := Stream(body, i, written, expected, maxBytes, limit); t.result.Ok? && limit != Some(t.result.value)
    ensures var t, n := Stream(body, i, written, expected, maxBytes, limit), written + |PayloadFrom(body.chunks, i)|;
            !body.breaks && t.sent == PayloadFrom(body.chunks, i) && (n > 0 ==> Within(n, maxBytes)) && (expected.Some? ==> expected.value == n)
    ensures forall k :: i <= k < |body.chunks| ==> !body.chunks[k].stop
    decreases |body.chunks| - i
  {
    if i < |body.chunks| { StreamSucceeds(body, i + 1, written + |body.chunks[i].data|, expected, maxBytes, limit); }
  }

  lemma {:induction false} StreamMust(body: Body, i: nat, written: nat, expected: Option<nat>, maxBytes: Option<nat>)
    requires i <= |body.chunks| && Unstopped(body)
    requires Within(written + |PayloadFrom(body.chunks, i)|, maxBytes) && Within(written + |PayloadFrom(body.chunks, i)|, expected)
    ensures Stream(body, i, written, expected, maxBytes, None).result ==
            if body.breaks then Err(Transport)
            else if expected.Some? && expected.value != written + |PayloadFrom(body.chunks, i)| then Err(Rejected)
            else Ok(written + |PayloadFrom(body.chunks, i)|)
    decreases |body.chunks| - i
  {
    if i < |body.chunks| { StreamMust(body, i + 1, written + |body.chunks[i].data|, expected, maxBytes); }
  }

  lemma {:induction false} StreamCompletes(body: Body, i: nat, written: nat, expected: Option<nat>, maxBytes: Option<nat>, limit: Option<nat>)
    requires i <= |body.chunks| && Undisturbed(body) && (limit.Some? ==> written < limit.value)
    requires var n := written + |PayloadFrom(body.chunks, i)|; Within(n, maxBytes) && (expected.Some? ==> expected.value == n)
    ensures Stream(body, i, written, expected, maxBytes, limit).result == Ok(Target(written + |PayloadFrom(body.chunks, i)|, limit))
    decreases |body.chunks| - i
  {
    if i < |body.chunks| {
      var (ended, piece) := Take(body.chunks[i], written, expected, maxBytes, limit);
      if ended.None? { StreamCompletes(body, i + 1, written + |piece|, expected, maxBytes, limit); }
    }
  }

  lemma {:induction false} ReachesBefore(body: Body, m: nat, k: nat, expected: Option<nat>, maxBytes: Option<nat>, limit: Option<nat>)
    requires m <= k && Reaches(body, k, expected, maxBytes, limit)
    ensures Reaches(body, m, expected, maxBytes, limit)
    decreases k
  {
    if m < k { ReachesBefore(body, m, k - 1, expected, maxBytes, limit); }
  }

  /** What one chunk does to a stream that has got to it. */
  lemma {:induction false} TakeEnds(body: Body, i: nat, written: nat, expected: Option<nat>, maxBytes: Option<nat>, limit: Option<nat>)
    requires Reaches(body, i, expected, maxBytes, limit) && written == Arrived(body.chunks, i) && i < |body.chunks|
    ensures var (ended, piece) := Take(body.chunks[i], written, expected, maxBytes, limit);
            && (ended.None? <==> Reaches(body, i + 1, expected, maxBytes, limit))
            && (ended == Some(Err(StopRequested)) <==> StopsAt(body, i, expected, maxBytes, limit))
            && (limit.Some? ==> (ended == Some(Ok(limit.value)) <==> FillsAt(body, i, expected, maxBytes, limit.value)))
            && (ended.None? ==> Arrived(body.chunks, i + 1) == written + |piece|)
            && ended != Some(Err(Transport))
  {
    assert Arrived(body.chunks, i + 1) == written + |body.chunks[i].data|;
  }

  /** A stream that gets no further than chunk `i` can only end there. */
  lemma {:induction false} OnlyHere(body: Body, i: nat, expected: Option<nat>, maxBytes: Option<nat>, limit: Option<nat>)
    requires Reaches(body, i, expected, maxBytes, limit) && !Reaches(body, i + 1, expected, maxBytes, limit)
    ensures Stops(body, expected, maxBytes, limit) <==> StopsAt(body, i, expected, maxBytes, limit)
    ensures limit.Some? ==> (Fills(body, expected, maxBytes, limit.value) <==> FillsAt(body, i, expected, maxBytes, limit.value))
  {
    forall k: nat | Reaches(body, k, expected, maxBytes, limit) ensures k <= i {
      if k > i { ReachesBefore(body, i + 1, k, expected, maxBytes, limit); }
    }
    forall k: nat | k < i
      ensures !StopsAt(body, k, expected, maxBytes, limit) && (limit.Some? ==> !FillsAt(body, k, expected, maxBytes, limit.value))
    {
      ReachesBefore(body, k + 1, i, expected, maxBytes, limit);
    }
  }

  lemma {:induction false} EndsHere(body: Body, i: nat, written: nat, expected: Option<nat>, maxBytes: Option<nat>, limit: Option<nat>)
    requires Reaches(body, i, expected, maxBytes, limit) && written == Arrived(body.chunks, i) && i < |body.chunks|
    requires Take(body.chunks[i], written, expected, maxBytes, limit).0.Some?
    ensures EndsAs(Take(body.chunks[i], written, expected, maxBytes, limit).0.value, body, expected, maxBytes, limit)
  {
    TakeEnds(body, i, written, expected, maxBytes, limit);
    OnlyHere(body, i, expected, maxBytes, limit);
    if Reaches(body, |body.chunks|, expected, maxBytes, limit) { ReachesBefore(body, i + 1, |body.chunks|, expected, maxBytes, limit); }
  }

  lemma {:induction false} EndsAtEnd(body: Body, r: Result<nat>, expected: Option<nat>, maxBytes: Option<nat>, limit: Option<nat>)
    requires Reaches(body, |body.chunks|, expected, maxBytes, limit) && r != Err(StopRequested)
    requires (r == Err(Transport) <==> body.breaks) && (limit.Some? ==> r != Ok(limit.value))
    ensures EndsAs(r, body, expected, maxBytes, limit)
  {
    OnlyHere(body, |body.chunks|, expected, maxBytes, limit);
  }

  /** What ends a stream that has got to chunk `i`. */
  lemma {:induction false} StreamEnds(body: Body, i: nat, written: nat, expected: Option<nat>, maxBytes: Option<nat>, limit: Option<nat>)
    requires Reaches(body, i, expected, maxBytes, limit) && written == Arrived(body.chunks, i)
    ensures EndsAs(Stream(body, i, written, expected, maxBytes, limit).result, body, expected, maxBytes, limit)
    decreases |body.chunks| - i
  {
    var t := Stream(body, i, written, expected, maxBytes, limit);
    if i < |body.chunks| {
      TakeEnds(body, i, written, expected, maxBytes, limit);
      var (ended, piece) := Take(body.chunks[i], written, expected, maxBytes, limit);
      if ended.None? { StreamEnds(body, i + 1, written + |piece|, expected, maxBytes, limit); }
      else { EndsHere(body, i, written, expected, maxBytes, limit); }
    } else {
      EndsAtEnd(body, t.result, expected, maxBytes, limit);
    }
  }

  /** What a streamed body amounts to. */
  lemma {:induction false} StreamContract(body: Body, expected: Option<nat>, maxBytes: Option<nat>, limit: Option<nat>)
    requires limit.Some? ==> limit.value > 0
    ensures var t := Stream(body, 0, 0, expected, maxBytes, limit);
            Streamed(body, expected, maxBytes, limit, t.result, t.sent)
  {
    var t := Stream(body, 0, 0, expected, maxBytes, limit);
    StreamSends(body, 0, 0, expected, maxBytes, limit);
    if t.result.Ok? && limit != Some(t.result.value) { StreamSucceeds(body, 0, 0, expected, maxBytes, limit); }
    if limit.None? && Unstopped(body) && Within(|Payload(body.chunks)|, maxBytes) && Within(|Payload(body.chunks)|, expected) {
      StreamMust(body, 0, 0, expected, maxBytes);
    }
    if Undisturbed(body) && Fits(body, expected, maxBytes) { StreamCompletes(body, 0, 0, expected, maxBytes, limit); }
    StreamEnds(body, 0, 0, expected, maxBytes, limit);
  }

  /** The body of the loop of `_stream_response`. */
  method TakeChunk(chunk: Chunk, dest: File, written: nat, expected: Option<nat>, maxBytes: Option<nat>, limit: Option<nat>)
    returns (ended: Option<Result<nat>>, received: nat)
    requires limit.Some? ==> written < limit.value
    modifies dest
    ensures var (e, piece) := Take(chunk, written, expected, maxBytes, limit);
            ended == e && received == |piece| && dest.data == old(dest.data) + piece
  {
    if chunk.stop { return Some(Err(StopRequested)), 0; }
    if chunk.data == [] { return None, 0; }
    if limit.Some? && written + |chunk.data| > limit.value {
      var allowed := limit.value - written;
      dest.data := dest.data + chunk.data[..allowed];
      return Some(Ok(written + allowed)), allowed;
    }
    var total := written + |chunk.data|;
    if expected.Some? && total > expected.value { return Some(Err(Rejected)), 0; }
    if maxBytes.Some? && total > maxBytes.value { return Some(Err(Rejected)), 0; }
    dest.data := dest.data + chunk.data;
    if limit == Some(total) { return Some(Ok(total)), |chunk.data|; }
    return None, |chunk.data|;
  }

  /** `sent` is on the way to `goal`: streaming the chunks from `i` on completes it. */
  ghost predicate OnTheWay(goal: Taken, sent: seq<Byte>, body: Body, i: nat, written: nat, expected: Option<nat>, maxBytes: Option<nat>, limit: Option<nat>)
    requires i <= |body.chunks| && (limit.Some? ==> written < limit.value)
  {
    var t := Stream(body, i, written, expected, maxBytes, limit);
    goal == Taken(t.result, sent + t.sent)
  }

  lemma {:induction false} StreamTurn(goal: Taken, sent: seq<Byte>, body: Body, i: nat, written: nat, expected: Option<nat>, maxBytes: Option<nat>, limit: Option<nat>)
    requires i < |body.chunks| && (limit.Some? ==> written < limit.value)
    requires OnTheWay(goal, sent, body, i, written, expected, maxBytes, limit)
    ensures var (ended, piece) := Take(body.chunks[i], written, expected, maxBytes, limit);
            if ended.Some? then goal == Taken(ended.value, sent + piece)
            else OnTheWay(goal, sent + piece, body, i + 1, written + |piece|, expected, maxBytes, limit)
  {
    var (ended, piece) := Take(body.chunks[i], written, expected, maxBytes, limit);
    if ended.None? {
      var rest := Stream(body, i + 1, written + |piece|, expected, maxBytes, limit);
      assert sent + (piece + rest.sent) == (sent + piece) + rest.sent;
    }
  }

  /** `_stream_response`, whose callers pass a file they have just opened empty. */
  method StreamResponse(body: Body, dest: File, expected: Option<nat>, maxBytes: Option<nat>, limit: Option<nat>)
    returns (r: Result<nat>)
    requires dest.data == []
    requires limit.Some? ==> limit.value > 0
    modifies dest
    ensures Taken(r, dest.data) == Stream(body, 0, 0, expected, maxBytes, limit)
  {
    ghost var goal := Stream(body, 0, 0, expected, maxBytes, limit);
    var written: nat := 0;
    for i := 0 to |body.chunks|
      invariant limit.Some? ==> written < limit.value
      invariant OnTheWay(goal, dest.data, body, i, written, expected, maxBytes, limit)
    {
      StreamTurn(goal, dest.data, body, i, written, expected, maxBytes, limit);
      var ended, received := TakeChunk(body.chunks[i], dest, written, expected, maxBytes, limit);
      written := written + received;
      if ended.Some? { return ended.value; }
    }
    if body.breaks { return Err(Transport); }
    if expected.Some? && written != expected.value { return Err(Rejected); }
    return Ok(written);
  }

  // ---------------------------------------------------------------- sequential exact ranges

  /** The reply is a 206 that announces exactly the bytes asked for and available of an object of `total`. */
  ghost predicate Announces(req: Request, reply: Reply, total: nat) {
    && reply.Reply? && reply.status == 206
    && 0 <= req.first < total && req.first <= req.last
    && reply.contentRange == Sized(req.first, if req.last < total - 1 then req.last else total - 1, total)
  }

  /** How many bytes the reply announces. */
  ghost function Size(reply: Reply): nat {
    if reply.Reply? && reply.contentRange.Sized? && reply.contentRange.first <= reply.contentRange.last
    then reply.contentRange.last - reply.contentRange.first + 1 else 0
  }

  /** The reply is a 206 carrying, undisturbed, exactly the bytes asked for and available. */
  ghost predicate Exact(req: Request, reply: Reply, total: nat) {
    Announces(req, reply, total) && Undisturbed(reply.body) && |Payload(reply.body.chunks)| == Size(reply)
  }

  /** The caller stops the client while it receives the announced bytes. */
  ghost predicate Stopped(req: Request, reply: Reply, total: nat) {
    Announces(req, reply, total) && Stops(reply.body, Some(Size(reply)), None, None)
  }

  /** The announced bytes break off part way. */
  ghost predicate BreaksOff(req: Request, reply: Reply, total: nat) {
    && Announces(req, reply, total) && reply.body.breaks
    && Unstopped(reply.body) && |Payload(reply.body.chunks)| <= Size(reply)
  }

  /** The object's size, as learned, is the one known before, or else any within the cap. */
  ghost predicate Fitting(learned: Option<nat>, known: Option<nat>, maxBytes: Option<nat>) {
    learned.Some? && if known.Some? then learned == known else Within(learned.value, maxBytes)
  }

  /** The bytes assembled from the accepted requests, in order. */
  ghost function Assembled(server: Server, accepted: seq<Request>): seq<Byte> {
    if accepted == [] then []
    else
      var n := |accepted| - 1;
      Assembled(server, accepted[..n]) +
      match server(accepted[n]) { case NoConnection => [] case Reply(_, _, _, body) => Payload(body.chunks) }
  }

  /** Every accepted request was answered exactly, against one total, and starts at the byte after
      those assembled before it: the ranges tile the assembled prefix. Request numbers increase, so
      no reply is used twice. */
  ghost predicate Tiles(server: Server, accepted: seq<Request>, total: nat, used: nat)
    decreases |accepted|
  {
    accepted == [] ||
    var n := |accepted| - 1;
    && accepted[n].number < used
    && Tiles(server, accepted[..n], total, accepted[n].number)
    && accepted[n].first == |Assembled(server, accepted[..n])|
    && Exact(accepted[n], server(accepted[n]), total)
  }

  lemma {:induction false} TilesLater(server: Server, accepted: seq<Request>, total: nat, used: nat, later: nat)
    requires Tiles(server, accepted, total, used) && used <= later
    ensures Tiles(server, accepted, total, later)
  {}

  /** An accepted request is put after those before it. */
  lemma {:induction false} TilesSnoc(server: Server, accepted: seq<Request>, size: nat, used: nat, req: Request, total: nat, later: nat)
    requires Tiles(server, accepted, size, used) && used <= req.number < later && (accepted != [] ==> size == total)
    requires req.first == |Assembled(server, accepted)| && Exact(req, server(req), total)
    ensures Tiles(server, accepted + [req], total, later)
    ensures Assembled(server, accepted + [req]) == Assembled(server, accepted) + Payload(server(req).body.chunks)
  {
    TilesLater(server, accepted, size, used, req.number);
    assert (accepted + [req])[..|accepted|] == accepted;
  }

  datatype Attempt = Accepted(received: nat) | Again(error: Error) | Failed(error: Error)

  /** One attempt at one range: the body of the inner loop. */
  method TryRange(req: Request, reply: Reply, total: Option<nat>, maxBytes: Option<nat>, output: File, ghost n: nat)
    returns (a: Attempt, total': Option<nat>)
    requires req.first <= req.last
    requires total.Some? ==> req.first < total.value && Within(total.value, maxBytes)
    requires total.None? ==> req.first == 0
    modifies output
    ensures total.Some? ==> total' == total
    ensures total'.Some? && !a.Failed? ==> req.first < total'.value && Within(total'.value, maxBytes)
    ensures !a.Accepted? ==> output.data == old(output.data)
    ensures a.Accepted? ==>
              && total'.Some? && Exact(req, reply, total'.value)
              && a.received == |Payload(reply.body.chunks)|
              && output.data == old(output.data) + Payload(reply.body.chunks)
    ensures a.Again? ==> a.error == Transport || a.error == Rejected
    ensures a.Failed? ==> a.error in {StopRequested, RangeUnsupported, Rejected}
    ensures a.Accepted? <==> Fitting(total', total, maxBytes) && Exact(req, reply, total'.value)
    ensures a.Again? <==>
              reply.NoConnection? || reply.status in {408, 425, 429, 500, 502, 503, 504} || (Fitting(total', total, maxBytes) && BreaksOff(req, reply, total'.value))
    ensures a == Failed(StopRequested) <==> Fitting(total', total, maxBytes) && Stopped(req, reply, total'.value)
    ensures a == Failed(RangeUnsupported) <==> IgnoresRange(reply)
    ensures Within(n, maxBytes) && total in {None, Some(n)} && Exact(req, reply, n) ==> a.Accepted? && total' == Some(n)
    ensures Within(n, maxBytes) && total in {None, Some(n)} && Retryable(req, reply, n) ==> a.Again? && total' in {None, Some(n)}
  {
    total' := total;
    if reply.NoConnection? { return Again(Transport), total'; }
    if reply.status == 200 { return Failed(RangeUnsupported), total'; }
    if reply.status in TRANSIENT { return Again(Rejected), total'; }
    if reply.status != 206 { return Failed(Rejected), total'; }
    if !reply.contentRange.Sized? { return Failed(Rejected), total'; }
    var Sized(first, last, responseTotal) := reply.contentRange;
    if first != req.first || last < first { return Failed(Rejected), total'; }
    if total.None? {
      total' := Some(responseTotal);
      if maxBytes.Some? && responseTotal > maxBytes.value { return Failed(Rejected), total'; }
    } else if total.value != responseTotal {
      return Failed(Rejected), total';
    }
    var requestedEnd := if req.last < responseTotal - 1 then req.last else responseTotal - 1;
    if last != requestedEnd { return Failed(Rejected), total'; }
    ReachesEnd(reply.body, last - first + 1);
    var staged := new File();
    StreamContract(reply.body, Some(last - first + 1), None, None);
    var received := StreamResponse(reply.body, staged, Some(last - first + 1), None, None);
    if received.Err? {
      return if received.error == Transport then Again(Transport) else Failed(received.error), total';
    }
    output.data := output.data + staged.data;
    return Accepted(received.value), total';
  }

  lemma {:induction false} ArrivedAll(chunks: seq<Chunk>, k: nat)
    requires k <= |chunks|
    ensures |Payload(chunks)| == Arrived(chunks, k) + |PayloadFrom(chunks, k)|
  {
    if k > 0 { ArrivedAll(chunks, k - 1); }
  }

  lemma {:induction false} ReachesEnd(body: Body, expected: nat)
    ensures Reaches(body, |body.chunks|, Some(expected), None, None) <==> Unstopped(body) && |Payload(body.chunks)| <= expected
  {
    ArrivedAll(body.chunks, |body.chunks|);
  }

  /** The reply is the whole object, whatever range was asked for. */
  predicate IgnoresRange(reply: Reply) { reply.Reply? && reply.status == 200 }

  /** A failure the client retries: no connection, a transient status, or a body that breaks off
      part way under a correct header. */
  ghost predicate Retryable(req: Request, reply: Reply, total: nat) {
    || reply.NoConnection?
    || reply.status in {408, 425, 429, 500, 502, 503, 504}
    || (&& reply.status == 206 && reply.body.breaks
        && 0 <= req.first < total && req.first <= req.last
        && reply.contentRange == Sized(req.first, if req.last < total - 1 then req.last else total - 1, total)
        && |Payload(reply.body.chunks)| <= reply.contentRange.last - reply.contentRange.first + 1
        && Unstopped(reply.body))
  }

  /** The request is served now, or fails in a way that is retried and is served then. */
  ghost predicate ServedInTwo(server: Server, req: Request, total: nat) {
    var again := req.(number := req.number + 1);
    Exact(req, server(req), total) || (Retryable(req, server(req), total) && Exact(again, server(again), total))
  }

  /** The server holds an object of `total` bytes and never fails twice in a row. */
  ghost predicate Cooperative(server: Server, total: nat) {
    forall req: Request :: 0 <= req.first < total && req.first <= req.last ==> ServedInTwo(server, req, total)
  }

  /** A failure that is retried, as the reply alone shows it. */
  ghost predicate Passing(reply: Reply) {
    reply.NoConnection? || reply.status in {408, 425, 429, 500, 502, 503, 504} || (reply.status == 206 && reply.body.breaks && Unstopped(reply.body))
  }

  /** The reply to the last request for a range tells its outcome, given the object's size as known before
      and as learned; a range is given up for a passing failure only at the second try. */
  ghost predicate Tells(server: Server, req: Request, r: Result<nat>, known: Option<nat>, learned: Option<nat>, maxBytes: Option<nat>) {
    && (r.Ok? <==> Fitting(learned, known, maxBytes) && Exact(req, server(req), learned.value))
    && (r == Err(StopRequested) <==> Fitting(learned, known, maxBytes) && Stopped(req, server(req), learned.value))
    && (r == Err(RangeUnsupported) <==> IgnoresRange(server(req)))
    && (r.Err? && (server(req).NoConnection? || server(req).status in {408, 425, 429, 500, 502, 503, 504}) ==>
          req.number > 0 && Passing(server(req.(number := req.number - 1))))
    && r != Err(InvalidArgument)
  }

  /** One range, with its retry: the inner loop of `_download_ranges`. `req` is the last request made, and
      the reply to it decides the outcome. */
  method FetchRange(server: Server, number: nat, start: nat, end: int, total: Option<nat>, maxBytes: Option<nat>, output: File, ghost n: nat)
    returns (r: Result<nat>, total': Option<nat>, used: nat, req: Request)
    requires start <= end
    requires total.Some? ==> start < total.value && Within(total.value, maxBytes)
    requires total.None? ==> start == 0
    modifies output
    ensures number < used == req.number + 1 && req.first == start && req.last == end && (total.Some? ==> total' == total)
    ensures r.Err? ==> output.data == old(output.data)
    ensures Tells(server, req, r, total, total', maxBytes)
    ensures r.Ok? ==>
              && start < total'.value && Within(total'.value, maxBytes)
              && output.data == old(output.data) + Payload(server(req).body.chunks)
              && r.value == |Payload(server(req).body.chunks)|
    ensures used == number + 1 || (used == number + 2 && Passing(server(Request(number, start, end))))
    ensures IgnoresRange(server(Request(number, start, end))) ==> used == number + 1
    ensures Within(n, maxBytes) && total in {None, Some(n)} && start < n && Cooperative(server, n) ==> r.Ok? && total' == Some(n)
  {
    used, total' := number, total;
    var attempt := 0;
    while true
      invariant attempt < ATTEMPTS && used == number + attempt
      invariant total.Some? ==> total' == total
      invariant total'.Some? ==> start < total'.value && Within(total'.value, maxBytes)
      invariant output.data == old(output.data)
      invariant IgnoresRange(server(Request(number, start, end))) ==> attempt == 0
      invariant attempt > 0 ==> Passing(server(Request(number, start, end)))
      invariant Within(n, maxBytes) && total in {None, Some(n)} && start < n && Cooperative(server, n) ==>
                  total' in {None, Some(n)} &&
                  (attempt == 1 ==> Exact(Request(used, start, end), server(Request(used, start, end)), n))
      decreases ATTEMPTS - attempt
    {
      req := Request(used, start, end);
      assert attempt == 0 && start < n && Cooperative(server, n) ==> ServedInTwo(server, req, n);
      var outcome;
      outcome, total' := TryRange(req, server(req), total', maxBytes, output, n);
      used := used + 1;
      attempt := attempt + 1;
      match outcome {
        case Accepted(received) => r := Ok(received); return;
        case Failed(error) => r := Err(error); return;
        case Again(error) => if attempt == ATTEMPTS { r := Err(error); return; }
      }
    }
  }

  /** The request asks for a chunk, or for less if less is left of what is wanted. */
  ghost predicate Asks(req: Request, chunkBytes: nat, wanted: Option<nat>) {
    req.last + 1 - req.first == if wanted.Some? && wanted.value - req.first < chunkBytes then wanted.value - req.first else chunkBytes
  }

  /** The first request: a chunk, or less if less is wanted. */
  function FirstRequest(chunkBytes: nat, limit: Option<nat>): Request {
    Request(0, 0, Target(chunkBytes, limit) - 1)
  }

  /** The file holds the accepted ranges; once the object's size is known, so is how much of it is wanted. */
  ghost predicate Underway(server: Server, data: seq<Byte>, accepted: seq<Request>, size: nat, used: nat, target: Option<nat>,
                           maxBytes: Option<nat>, limit: Option<nat>, chunkBytes: nat)
  {
    && Tiles(server, accepted, size, used) && data == Assembled(server, accepted) && Paced(accepted, size, chunkBytes, limit)
    && (accepted != [] ==> used == accepted[|accepted| - 1].number + 1)
    && if target.None? then accepted == [] else accepted != [] && target == Some(Target(size, limit)) && Within(size, maxBytes) && 0 < |data| <= target.value
  }

  /** How much is wanted, as far as the accepted ranges tell. */
  ghost function Wanted(accepted: seq<Request>, size: nat, limit: Option<nat>): Option<nat> {
    if accepted == [] then limit else Some(Target(size, limit))
  }

  ghost predicate Paced(accepted: seq<Request>, size: nat, chunkBytes: nat, limit: Option<nat>) {
    forall k :: 0 <= k < |accepted| ==> Asks(accepted[k], chunkBytes, if k == 0 then limit else Some(Target(size, limit)))
  }

  /** The last request decides the run, which succeeds with the last accepted range. */
  ghost predicate Decides(server: Server, r: Result<nat>, accepted: seq<Request>, size: nat, last: Request, known: Option<nat>,
                          maxBytes: Option<nat>)
  {
    && (if r.Ok? then accepted != [] && last == accepted[|accepted| - 1] else last.first == |Assembled(server, accepted)|)
    && Tells(server, last, r, if accepted == [] then None else Some(size), known, maxBytes)
  }

  /** One turn of the outer loop: the next range, of no more than is wanted. */
  method FetchNext(server: Server, number: nat, start: nat, chunkBytes: nat, total: Option<nat>, target: Option<nat>, maxBytes: Option<nat>,
                   limit: Option<nat>, output: File, ghost n: nat)
    returns (r: Result<nat>, total': Option<nat>, used: nat, req: Request)
    requires chunkBytes > 0 && (limit.Some? ==> start < limit.value || target.Some?) && target.Some? == total.Some?
    requires if target.Some? then start < target.value <= total.value && Within(total.value, maxBytes) else start == 0
    modifies output
    ensures number < used == req.number + 1 && start == req.first && (total.Some? ==> total' == total)
    ensures Asks(req, chunkBytes, if target.Some? then target else limit)
    ensures r.Err? ==> output.data == old(output.data)
    ensures Tells(server, req, r, total, total', maxBytes)
    ensures r.Ok? ==>
              && start < total'.value && Within(total'.value, maxBytes)
              && req.first <= req.last && (if target.Some? then req.last < target.value else Within(req.last + 1, limit))
              && output.data == old(output.data) + Payload(server(req).body.chunks)
              && r.value == |Payload(server(req).body.chunks)|
    ensures used == number + 1 || (used == number + 2 && Passing(server(req.(number := number))))
    ensures number == 0 && target.None? && IgnoresRange(server(FirstRequest(chunkBytes, limit))) ==> used == 1
    ensures Within(n, maxBytes) && total in {None, Some(n)} && start < n && Cooperative(server, n) ==> r.Ok? && total' == Some(n)
  {
    var remaining := if target.Some? then Some(target.value - start)
                     else if limit.Some? then Some(limit.value - start) else None;
    var step := if remaining.Some? && remaining.value < chunkBytes then remaining.value else chunkBytes;
    r, total', used, req := FetchRange(server, number, start, start + step - 1, total, maxBytes, output, n);
  }

  /** One more accepted range, of no more than is wanted. */
  lemma {:induction false} Advances(server: Server, data: seq<Byte>, accepted: seq<Request>, size: nat, used: nat, target: Option<nat>,
                 maxBytes: Option<nat>, limit: Option<nat>, chunkBytes: nat, req: Request, total: nat)
    requires Underway(server, data, accepted, size, used, target, maxBytes, limit, chunkBytes) && (target.Some? ==> total == size)
    requires |data| < total && Within(total, maxBytes) && used <= req.number && Exact(req, server(req), total)
    requires |data| == req.first <= req.last && (if target.Some? then req.last < target.value else Within(req.last + 1, limit))
    requires Asks(req, chunkBytes, if target.Some? then target else limit)
    ensures var piece := Payload(server(req).body.chunks);
            && piece != []
            && Underway(server, data + piece, accepted + [req], total, req.number + 1, Some(Target(total, limit)), maxBytes, limit, chunkBytes)
  {
    TilesSnoc(server, accepted, size, used, req, total, req.number + 1);
    PacedSnoc(accepted, size, total, chunkBytes, limit, req);
  }

  lemma {:induction false} PacedSnoc(accepted: seq<Request>, size: nat, total: nat, chunkBytes: nat, limit: Option<nat>, req: Request)
    requires Paced(accepted, size, chunkBytes, limit) && (accepted != [] ==> size == total)
    requires Asks(req, chunkBytes, Wanted(accepted, size, limit))
    ensures Paced(accepted + [req], total, chunkBytes, limit)
  {}

  /** An accepted last range was neither stopped nor answered with the whole object. */
  lemma {:induction false} DoneDecides(server: Server, value: nat, accepted: seq<Request>, size: nat, used: nat, known: Option<nat>, maxBytes: Option<nat>)
    requires accepted != [] && Tiles(server, accepted, size, used) && known == Some(size)
    ensures Decides(server, Ok(value), accepted, size, accepted[|accepted| - 1], known, maxBytes)
  {
    var last := accepted[|accepted| - 1];
    assert Exact(last, server(last), size);
  }

  /** One turn of the loop on the way: the file grows by an accepted range, or the run ends as its reply tells. */
  method Extend(server: Server, output: File, chunkBytes: nat, maxBytes: Option<nat>, limit: Option<nat>, ghost n: nat,
                start: nat, total: Option<nat>, target: Option<nat>, number: nat, ghost accepted: seq<Request>, ghost size: nat)
    returns (r: Result<nat>, total': Option<nat>, used: nat, ghost req: Request)
    requires chunkBytes > 0 && (limit.Some? ==> limit.value > 0) && start == |output.data| && (target.Some? ==> start < target.value)
    requires Underway(server, output.data, accepted, size, number, target, maxBytes, limit, chunkBytes)
    requires total == (if target.None? then None else Some(size)) && (target.None? ==> number == start == 0)
    modifies output
    ensures used == req.number + 1
    ensures r.Ok? ==>
              && total'.Some? && (total.Some? ==> total' == total) && r.value > 0 && |output.data| == start + r.value
              && Underway(server, output.data, accepted + [req], total'.value, used, Some(Target(total'.value, limit)), maxBytes, limit, chunkBytes)
    ensures r.Err? ==>
              && output.data == old(output.data) && Tiles(server, accepted, size, used)
              && Decides(server, r, accepted, size, req, total', maxBytes) && Asks(req, chunkBytes, Wanted(accepted, size, limit))
    ensures target.None? && IgnoresRange(server(FirstRequest(chunkBytes, limit))) ==> r == Err(RangeUnsupported) && used == 1
    ensures n > 0 && Cooperative(server, n) && Within(n, maxBytes) && (total.Some? ==> size == n) ==> r.Ok? && total' == Some(n)
  {
    ghost var before := output.data;
    r, total', used, req := FetchNext(server, number, start, chunkBytes, total, target, maxBytes, limit, output, n);
    if r.Ok? { Advances(server, before, accepted, size, number, target, maxBytes, limit, chunkBytes, req, total'.value); }
    else { TilesLater(server, accepted, size, number, used); }
  }

  /** `_download_ranges`. On every exit the file holds exactly the accepted ranges, tiled from byte
      zero; on success that is the whole object or its first `limit` bytes. Against a server that
      never fails twice in a row it does succeed. */
  method DownloadRanges(server: Server, output: File, chunkBytes: nat, maxBytes: Option<nat>, limit: Option<nat>, ghost n: nat)
    returns (r: Result<nat>, ghost accepted: seq<Request>, ghost size: nat, used: nat, ghost last: Request, ghost known: Option<nat>)
    requires chunkBytes > 0 && (limit.Some? ==> limit.value > 0)
    modifies output
    ensures used == last.number + 1 && Decides(server, r, accepted, size, last, known, maxBytes)
    ensures Paced(accepted, size, chunkBytes, limit) && (r.Err? ==> Asks(last, chunkBytes, Wanted(accepted, size, limit)))
    ensures Tiles(server, accepted, size, used) && output.data == Assembled(server, accepted)
    ensures r.Ok? ==> r.value == |output.data| == Target(size, limit) && r.value > 0 && Within(size, maxBytes)
    ensures r.Err? && accepted != [] ==> |output.data| < Target(size, limit)
    ensures IgnoresRange(server(FirstRequest(chunkBytes, limit))) ==> r == Err(RangeUnsupported) && used == 1
    ensures n > 0 && Cooperative(server, n) && Within(n, maxBytes) ==> r.Ok? && size == n
  {
    var start, total: Option<nat>, target: Option<nat> := 0, None, None;
    output.data := [];
    accepted, size, used := [], 0, 0;
    last, known := FirstRequest(chunkBytes, limit), None;
    ghost var willing := n > 0 && Cooperative(server, n) && Within(n, maxBytes);
    while target.None? || start < target.value
      invariant Underway(server, output.data, accepted, size, used, target, maxBytes, limit, chunkBytes) && start == |output.data|
      invariant total == if target.None? then None else Some(size)
      invariant target.None? ==> used == start == 0
      invariant target.Some? ==> known == total && last == accepted[|accepted| - 1]
      invariant IgnoresRange(server(FirstRequest(chunkBytes, limit))) ==> total.None?
      invariant willing && total.Some? ==> size == n
      decreases target.None?, if target.Some? then target.value - start else 0
    {
      var fetched, total', used';
      fetched, total', used', last := Extend(server, output, chunkBytes, maxBytes, limit, n, start, total, target, used, accepted, size);
      used, known := used', total';
      if fetched.Err? {
        r := Err(fetched.error);
        return;
      }
      if total.None? {
        size := total'.value;
        target := Some(Target(total'.value, limit));
      }
      total, accepted, start := total', accepted + [last], start + fetched.value;
    }
    // The loop leaves nothing for the closing size check to reject.
    assert total.Some? && start == target.value == |output.data|;
    r := Ok(start);
    DoneDecides(server, start, accepted, size, used, known, maxBytes);
  }

  /** The server's replies describe one object: a body of exactly the declared length is the
      declared range of it. */
  ghost predicate Serves(server: Server, blob: seq<Byte>) {
    forall req: Request, total: nat :: Exact(req, server(req), total) ==>
      total == |blob| &&
      Payload(server(req).body.chunks) == blob[req.first..server(req).contentRange.last + 1]
  }

  /** Refinement: what the accepted ranges assemble is a prefix of the object. */
  lemma {:induction false} AssembledIsPrefix(server: Server, accepted: seq<Request>, total: nat, used: nat, blob: seq<Byte>)
    requires Tiles(server, accepted, total, used) && Serves(server, blob)
    ensures Assembled(server, accepted) <= blob
    ensures accepted != [] ==> total == |blob|
    decreases |accepted|
  {
    if accepted != [] {
      var n := |accepted| - 1;
      var req := accepted[n];
      var front := Assembled(server, accepted[..n]);
      AssembledIsPrefix(server, accepted[..n], total, req.number, blob);
      assert Exact(req, server(req), total);
      var end := server(req).contentRange.last + 1;
      assert front == blob[..req.first];
      assert Assembled(server, accepted) == blob[..req.first] + blob[req.first..end] == blob[..end];
    }
  }

  // ---------------------------------------------------------------- one full request

  /** The body ends normally, within the cap, at the advertised length if there is one. */
  ghost predicate Complete(reply: Reply, maxBytes: Option<nat>) {
    && reply.Reply? && reply.status == 200 && Undisturbed(reply.body)
    && Within(|Payload(reply.body.chunks)|, maxBytes)
    && (reply.contentLength.Some? ==> reply.contentLength.value == |Payload(reply.body.chunks)|)
  }

  /** What a full request leaves in the file, which held `before`, and returns. */
  function FullDownload(reply: Reply, before: seq<Byte>, maxBytes: Option<nat>, limit: Option<nat>): Taken
    requires limit.Some? ==> limit.value > 0
  {
    if reply.NoConnection? then Taken(Err(Transport), before)
    else if reply.status != 200 then Taken(Err(Rejected), before)
    else if maxBytes.Some? && reply.contentLength.Some? && reply.contentLength.value > maxBytes.value then Taken(Err(Rejected), before)
    else Stream(reply.body, 0, 0, reply.contentLength, maxBytes, limit)
  }

  /** A full download holds the payload or its first `limit` bytes, at the advertised length if there is
      one; a complete reply yields one; and the reply's status and advertised length can forbid it. */
  ghost predicate FullResult(reply: Reply, maxBytes: Option<nat>, limit: Option<nat>, r: Result<nat>, data: seq<Byte>) {
    && (r.Ok? ==>
          && reply.Reply? && reply.status == 200
          && r.value == |data| && data <= Payload(reply.body.chunks) && Within(r.value, limit)
          && (reply.contentLength.Some? ==> Within(reply.contentLength.value, maxBytes))
          && (limit != Some(r.value) ==> data == Payload(reply.body.chunks) && Within(r.value, maxBytes))
          && (limit != Some(r.value) && reply.contentLength.Some? ==> r.value == reply.contentLength.value))
    && (Complete(reply, maxBytes) ==> r == Ok(Target(|Payload(reply.body.chunks)|, limit)))
    && (r == Err(StopRequested) <==> BodyIsRead(reply, maxBytes) && Stops(reply.body, reply.contentLength, maxBytes, limit))
    && (r.Err? ==> r.error in {StopRequested, Transport, Rejected})
  }

  /** The body of the reply is read at all. */
  ghost predicate BodyIsRead(reply: Reply, maxBytes: Option<nat>) {
    reply.Reply? && reply.status == 200 && (reply.contentLength.Some? ==> Within(reply.contentLength.value, maxBytes))
  }

  lemma {:induction false} FullContract(reply: Reply, before: seq<Byte>, maxBytes: Option<nat>, limit: Option<nat>)
    requires limit.Some? ==> limit.value > 0
    ensures var t := FullDownload(reply, before, maxBytes, limit); FullResult(reply, maxBytes, limit, t.result, t.sent)
  {
    if reply.Reply? { StreamContract(reply.body, reply.contentLength, maxBytes, limit); }
  }

  /** `_download_full`. */
  method DownloadFull(reply: Reply, output: File, maxBytes: Option<nat>, limit: Option<nat>) returns (r: Result<nat>)
    requires limit.Some? ==> limit.value > 0
    modifies output
    ensures Taken(r, output.data) == FullDownload(reply, old(output.data), maxBytes, limit)
    ensures FullResult(reply, maxBytes, limit, r, output.data)
  {
    FullContract(reply, output.data, maxBytes, limit);
    if reply.NoConnection? { return Err(Transport); }
    if reply.status != 200 { return Err(Rejected); }
    var advertised := reply.contentLength;
    if maxBytes.Some? && advertised.Some? && advertised.value > maxBytes.value { return Err(Rejected); }
    output.data := [];
    r := StreamResponse(reply.body, output, advertised, maxBytes, limit);
  }

  /** An undisturbed body that is a prefix of the object, taken for all that is wanted of it. */
  ghost predicate Truncates(body: Body, blob: seq<Byte>, advertised: Option<nat>, maxBytes: Option<nat>, limit: Option<nat>)
    requires limit.Some? ==> limit.value > 0
  {
    && Undisturbed(body) && Payload(body.chunks) <= blob
    && var r := FullDownload(Reply(200, Malformed, advertised, body), [], maxBytes, limit).result;
       r.Ok? && r.value < Target(|blob|, limit)
  }

  /** A full response that stops short can pass for the object exactly when it advertises no length, or
      one below what is wanted. */
  lemma {:induction false} TruncationIsSilent(blob: seq<Byte>, advertised: Option<nat>, maxBytes: Option<nat>, limit: Option<nat>)
    requires blob != [] && (limit.Some? ==> limit.value > 0) && Within(|blob|, maxBytes)
    ensures (exists body :: Truncates(body, blob, advertised, maxBytes, limit)) <==>
            advertised.None? || advertised.value < Target(|blob|, limit)
  {
    if advertised.None? || advertised.value < Target(|blob|, limit) {
      var n := if advertised.None? then 0 else advertised.value;
      var body := Body([Chunk(blob[..n], false)], false);
      OneChunk(blob[..n]);
      StreamContract(body, advertised, maxBytes, limit);
      assert Truncates(body, blob, advertised, maxBytes, limit);
    }
    if body :| Truncates(body, blob, advertised, maxBytes, limit) {
      StreamContract(body, advertised, maxBytes, limit);
    }
  }

  lemma {:induction false} OneChunk(data: seq<Byte>)
    ensures Payload([Chunk(data, false)]) == data
  {
    assert PayloadFrom([Chunk(data, false)], 0) == data + PayloadFrom([Chunk(data, false)], 1);
  }

  /** In particular every object can be lost whole behind a full response without a length. */
  lemma {:induction false} UnadvertisedTruncationIsSilent(blob: seq<Byte>)
    requires blob != []
    ensures exists body :: Truncates(body, blob, None, None, None)
  {
    TruncationIsSilent(blob, None, None, None);
  }

  // ---------------------------------------------------------------- the download

  /** `full(n)` is the reply to a full request sent as request number `n`. */
  ghost predicate ServesFull(full: nat -> Reply, blob: seq<Byte>) {
    forall n :: full(n).Reply? && full(n).status == 200 ==>
      full(n).contentLength == Some(|blob|) && Payload(full(n).body.chunks) <= blob
  }

  /** What the client is told: a request that failed in transport counts as a rejected download. */
  function Public(r: Result<nat>): Result<nat> { if r == Err(Transport) then Err(Rejected) else r }

  /** The full request decides: its reply's bytes are in the file, and its result is returned. */
  ghost predicate FellBack(reply: Reply, before: seq<Byte>, maxBytes: Option<nat>, cap: Option<nat>, r: Result<nat>, data: seq<Byte>)
    requires cap.Some? ==> cap.value > 0
  {
    var t := FullDownload(reply, before, maxBytes, cap);
    data == t.sent && r == Public(t.result)
  }

  /** The ranges decide: the file is what they assemble; it succeeds exactly if that is all that is wanted,
      and is stopped exactly if the last range was. */
  ghost predicate Ranged(server: Server, accepted: seq<Request>, size: nat, last: Request, known: Option<nat>, maxBytes: Option<nat>,
                         cap: Option<nat>, r: Result<nat>, data: seq<Byte>)
  {
    && data == Assembled(server, accepted)
    && (r.Ok? <==> accepted != [] && |data| == Target(size, cap)) && (r.Ok? ==> r.value == |data|)
    && (r == Err(StopRequested) <==>
          Fitting(known, if accepted == [] then None else Some(size), maxBytes) && Stopped(last, server(last), known.value))
    && (r.Err? ==> r.error in {StopRequested, Rejected})
  }

  /** What came of the download: by ranges, or, if these were ignored, by the full request after them. */
  ghost predicate Settled(server: Server, full: nat -> Reply, accepted: seq<Request>, size: nat, last: Request, known: Option<nat>,
                          maxBytes: Option<nat>, cap: Option<nat>, r: Result<nat>, data: seq<Byte>)
    requires cap.Some? ==> cap.value > 0
  {
    && Tiles(server, accepted, size, last.number + 1)
    && if IgnoresRange(server(last)) then FellBack(full(last.number + 1), Assembled(server, accepted), maxBytes, cap, r, data)
       else Ranged(server, accepted, size, last, known, maxBytes, cap, r, data)
  }

  lemma {:induction false} RangesSettle(server: Server, full: nat -> Reply, accepted: seq<Request>, size: nat, last: Request, known: Option<nat>,
                     maxBytes: Option<nat>, cap: Option<nat>, r: Result<nat>, data: seq<Byte>)
    requires cap.Some? ==> cap.value > 0
    requires Tiles(server, accepted, size, last.number + 1) && data == Assembled(server, accepted)
    requires Decides(server, r, accepted, size, last, known, maxBytes) && r != Err(RangeUnsupported)
    requires r.Ok? ==> r.value == |data| == Target(size, cap)
    requires r.Err? && accepted != [] ==> |data| < Target(size, cap)
    ensures Settled(server, full, accepted, size, last, known, maxBytes, cap, Public(r), data)
  {
    match r {
      case Ok(_) =>
      case Err(error) =>
        match error {
          case StopRequested =>
          case Transport =>
          case RangeUnsupported =>
          case Rejected =>
          case InvalidArgument =>
        }
    }
  }

  /** Of an object described truthfully, a successful download is the prefix asked for. */
  lemma {:induction false} SettledIsPrefix(server: Server, full: nat -> Reply, accepted: seq<Request>, size: nat, last: Request, known: Option<nat>,
                        maxBytes: Option<nat>, cap: Option<nat>, r: Result<nat>, data: seq<Byte>, blob: seq<Byte>)
    requires cap.Some? ==> cap.value > 0
    requires Settled(server, full, accepted, size, last, known, maxBytes, cap, r, data) && r.Ok?
    requires Serves(server, blob) && ServesFull(full, blob)
    ensures r.value == Target(|blob|, cap) && data == blob[..r.value]
  {
    if IgnoresRange(server(last)) {
      var reply := full(last.number + 1);
      FullContract(reply, Assembled(server, accepted), maxBytes, cap);
      assert reply.contentLength == Some(|blob|);
    } else {
      AssembledIsPrefix(server, accepted, size, last.number + 1, blob);
    }
  }

  lemma {:induction false} AlwaysPrefix(server: Server, full: nat -> Reply, accepted: seq<Request>, size: nat, last: Request, known: Option<nat>,
                     maxBytes: Option<nat>, cap: Option<nat>, r: Result<nat>, data: seq<Byte>)
    requires cap.Some? ==> cap.value > 0
    requires Settled(server, full, accepted, size, last, known, maxBytes, cap, r, data) && r.Ok?
    ensures forall blob :: Serves(server, blob) && ServesFull(full, blob) ==> r.value == Target(|blob|, cap) && data == blob[..r.value]
    ensures (forall req :: !IgnoresRange(server(req))) ==> accepted != [] && data == Assembled(server, accepted)
  {
    forall blob | Serves(server, blob) && ServesFull(full, blob) ensures r.value == Target(|blob|, cap) && data == blob[..r.value] {
      SettledIsPrefix(server, full, accepted, size, last, known, maxBytes, cap, r, data, blob);
    }
  }

  lemma {:induction false} FirstIgnored(server: Server, full: nat -> Reply, accepted: seq<Request>, size: nat, last: Request, known: Option<nat>,
                     maxBytes: Option<nat>, cap: Option<nat>, r: Result<nat>, data: seq<Byte>)
    requires cap.Some? ==> cap.value > 0
    requires Settled(server, full, accepted, size, last, known, maxBytes, cap, r, data)
    requires IgnoresRange(server(last)) && last.number == 0 && Complete(full(1), maxBytes)
    ensures r == Ok(Target(|Payload(full(1).body.chunks)|, cap)) && data <= Payload(full(1).body.chunks)
  {
    FullContract(full(1), Assembled(server, accepted), maxBytes, cap);
  }

  /** The outcomes a caller can see. */
  lemma {:induction false} SettledIsPublic(server: Server, full: nat -> Reply, accepted: seq<Request>, size: nat, last: Request, known: Option<nat>,
                        maxBytes: Option<nat>, cap: Option<nat>, r: Result<nat>, data: seq<Byte>)
    requires cap.Some? ==> cap.value > 0
    requires Settled(server, full, accepted, size, last, known, maxBytes, cap, r, data)
    ensures r.Ok? ==> r.value == |data| && Within(r.value, cap)
    ensures r.Err? ==> r.error in {StopRequested, Rejected}
  {
    FullContract(full(last.number + 1), Assembled(server, accepted), maxBytes, cap);
  }

  /** The ranges, and if the server ignores them the full request. */
  method RangesOrFull(server: Server, full: nat -> Reply, output: File, chunkBytes: nat, maxBytes: Option<nat>, cap: Option<nat>, ghost n: nat)
    returns (r: Result<nat>, ghost accepted: seq<Request>, ghost size: nat, ghost last: Request, ghost known: Option<nat>)
    requires chunkBytes > 0 && (cap.Some? ==> cap.value > 0)
    modifies output
    ensures Settled(server, full, accepted, size, last, known, maxBytes, cap, r, output.data)
    ensures n > 0 && Cooperative(server, n) && Within(n, maxBytes) ==> r == Ok(Target(n, cap))
    ensures IgnoresRange(server(FirstRequest(chunkBytes, cap))) ==> IgnoresRange(server(last)) && last.number == 0
  {
    var used;
    r, accepted, size, used, last, known := DownloadRanges(server, output, chunkBytes, maxBytes, cap, n);
    if r == Err(RangeUnsupported) {
      r := DownloadFull(full(used), output, maxBytes, cap);
    } else {
      RangesSettle(server, full, accepted, size, last, known, maxBytes, cap, r, output.data);
    }
    if r == Err(Transport) { r := Err(Rejected); }
  }

  /** `download_verified`. Whatever the server does, the last range request decides: only if it was answered
      with the whole object is the full request made, and that decides then; else the file is what the
      accepted ranges assemble. So a successful download of an object described truthfully is its prefix of
      the asked length. It does succeed when the server holds an object of `n` bytes and never fails twice in
      a row, and when it answers the first range with the whole object and then the full request completely. */
  method DownloadVerified(server: Server, full: nat -> Reply, output: File, chunkBytes: int, maxBytes: Option<nat>, limit: Option<int>, ghost n: nat)
    returns (r: Result<nat>, ghost accepted: seq<Request>, ghost size: nat, ghost last: Request, ghost known: Option<nat>)
    modifies output
    ensures chunkBytes <= 0 || (limit.Some? && limit.value <= 0) ==> r == Err(InvalidArgument) && output.data == old(output.data)
    ensures chunkBytes > 0 && (limit.Some? ==> limit.value > 0) ==>
              Settled(server, full, accepted, size, last, known, maxBytes, Cap(limit), r, output.data)
    ensures forall blob :: r.Ok? && Serves(server, blob) && ServesFull(full, blob) ==>
              r.value == (if limit.Some? && limit.value < |blob| then limit.value else |blob|) && output.data == blob[..r.value]
    ensures r.Ok? ==> r.value == |output.data| && (limit.Some? ==> r.value <= limit.value)
    ensures r.Err? ==> r.error !in {Transport, RangeUnsupported}
    ensures r.Ok? && (forall req :: !IgnoresRange(server(req))) ==>
              accepted != [] && Tiles(server, accepted, size, last.number + 1) && output.data == Assembled(server, accepted)
    ensures chunkBytes > 0 && (limit.Some? ==> limit.value > 0) && n > 0 && Cooperative(server, n) && Within(n, maxBytes) ==>
              r == Ok(Target(n, Cap(limit)))
    ensures chunkBytes > 0 && (limit.Some? ==> limit.value > 0) && IgnoresRange(server(FirstRequest(chunkBytes, Cap(limit)))) &&
            Complete(full(1), maxBytes) ==>
              r == Ok(Target(|Payload(full(1).body.chunks)|, Cap(limit))) && output.data <= Payload(full(1).body.chunks)
  {
    accepted, size, last, known := [], 0, Request(0, 0, 0), None;
    if chunkBytes <= 0 { r := Err(InvalidArgument); return; }
    if limit.Some? && limit.value <= 0 { r := Err(InvalidArgument); return; }
    var cap := Cap(limit);
    r, accepted, size, last, known := RangesOrFull(server, full, output, chunkBytes, maxBytes, cap, n);
    SettledIsPublic(server, full, accepted, size, last, known, maxBytes, cap, r, output.data);
    if r.Ok? { AlwaysPrefix(server, full, accepted, size, last, known, maxBytes, cap, r, output.data); }
    if IgnoresRange(server(FirstRequest(chunkBytes, cap))) && Complete(full(1), maxBytes) {
      FirstIgnored(server, full, accepted, size, last, known, maxBytes, cap, r, output.data);
    }
  }

  function Cap(limit: Option<int>): Option<nat> {
    if limit.Some? && limit.value > 0 then Some(limit.value) else None
  }
}
