/** The two bounded read loops: a child's output, cut at a limit, and a response body, refused
    above a limit. A stream is the list of what its reads return before the end of the stream. */
module Readers {
  import opened Text

  datatype ReadError = Interrupted | Failed(message: Bytes)

  datatype Read = Data(bytes: Bytes) | Error(error: ReadError)

  /** A read that returns no bytes ends the stream, so the reads before it all return some. */
  predicate IsStream(stream: seq<Read>)
  {
    forall k :: 0 <= k < |stream| && stream[k].Data? ==> stream[k].bytes != []
  }

  /** The bytes of the first `n` reads, however they were split. */
  function Joined(stream: seq<Read>, n: nat): (b: Bytes)
    requires n <= |stream|
  {
    if n == 0 then []
    else if stream[n - 1].Data? then Joined(stream, n - 1) + stream[n - 1].bytes
    else Joined(stream, n - 1)
  }

  /** A text cut at any places and read piece by piece is joined to that text again, whatever reads were
      interrupted in between. */
  lemma {:induction false} PiecesJoin(stream: seq<Read>, text: Bytes, ends: seq<nat>, n: nat)
    requires |ends| == |stream| && n <= |stream|
    requires forall k :: 0 <= k < |stream| ==> PieceFits(stream, text, ends, k)
    ensures EndOf(ends, n) <= |text| && Joined(stream, n) == text[..EndOf(ends, n)]
  {
    if n > 0 {
      PiecesJoin(stream, text, ends, n - 1);
      assert PieceFits(stream, text, ends, n - 1);
      var from, to := EndOf(ends, n - 1), ends[n - 1];
      assert text[..from] + text[from..to] == text[..to];
    }
  }

  function EndOf(ends: seq<nat>, n: nat): (e: nat)
    requires n <= |ends|
  {
    if n == 0 then 0 else ends[n - 1]
  }

  /** Read `k` returns the piece of the text that ends at `ends[k]`, or fails and returns nothing. */
  predicate PieceFits(stream: seq<Read>, text: Bytes, ends: seq<nat>, k: nat)
    requires |ends| == |stream| && k < |stream|
  {
    var from, to := EndOf(ends, k), ends[k];
    from <= to <= |text| && match stream[k] case Data(b) => b == text[from..to] case Error(_) => from == to
  }

  function Cut(b: Bytes, limit: nat): (r: Bytes) { if |b| <= limit then b else b[..limit] }

  predicate Fatal(r: Read) { r.Error? && r.error.Failed? }

  /** Read `k` failed, and no data arrived after the limit had been reached. */
  predicate FailsAt(stream: seq<Read>, limit: nat, k: nat)
  {
    && k < |stream| && Fatal(stream[k])
    && (forall j :: 0 <= j < k ==> !Fatal(stream[j]))
    && (forall j :: 0 <= j < k && stream[j].Data? ==> |Joined(stream, j)| < limit)
  }

  lemma {:induction false} JoinedGrows(stream: seq<Read>, i: nat, j: nat)
    requires i <= j <= |stream|
    ensures |Joined(stream, i)| <= |Joined(stream, j)|
    ensures Joined(stream, j)[..|Joined(stream, i)|] == Joined(stream, i)
  {
    if i < j { JoinedGrows(stream, i, j - 1); }
  }

  lemma CutGrows(b: Bytes, more: Bytes, limit: nat)
    ensures
      var take := if |more| <= limit - |Cut(b, limit)| then |more| else limit - |Cut(b, limit)|;
      Cut(b + more, limit) == Cut(b, limit) + more[..take]
  {
  }

  lemma FullBeforeData(stream: seq<Read>, limit: nat, i: nat)
    requires i < |stream| && stream[i].Data? && |Joined(stream, i)| >= limit
    requires forall j :: 0 <= j < i ==> !Fatal(stream[j])
    ensures Cut(Joined(stream, |stream|), limit) == Cut(Joined(stream, i), limit)
    ensures forall k: nat :: !FailsAt(stream, limit, k)
  {
    hide Joined;
    JoinedGrows(stream, i, |stream|);
    var whole, part := Joined(stream, |stream|), Joined(stream, i);
    assert whole[..limit] == whole[..|part|][..limit];
  }

  /** Cutting at the limit: the first bytes of the stream, or the first failure in time. */
  method ReadStream(stream: seq<Read>, limit: nat) returns (r: Result<Bytes, Bytes>)
    requires IsStream(stream)
    ensures r.Ok? ==>
      && r.value <= Joined(stream, |stream|)
      && |r.value| == if |Joined(stream, |stream|)| < limit then |Joined(stream, |stream|)| else limit
    ensures r.Err? <==> exists k: nat :: FailsAt(stream, limit, k)
    ensures r.Err? ==> exists k: nat :: FailsAt(stream, limit, k) && r.error == stream[k].error.message
  {
    var buf: Bytes := [];
    var i := 0;
    while i < |stream|
      invariant 0 <= i <= |stream|
      invariant buf == Cut(Joined(stream, i), limit)
      invariant forall j :: 0 <= j < i ==> !Fatal(stream[j])
      invariant forall j :: 0 <= j < i && stream[j].Data? ==> |Joined(stream, j)| < limit
    {
      match stream[i]
      case Data(chunk) =>
        var remaining := limit - |buf|;
        if remaining == 0 {
          FullBeforeData(stream, limit, i);
          return Ok(buf);
        }
        var take := if |chunk| <= remaining then |chunk| else remaining;
        CutGrows(Joined(stream, i), chunk, limit);
        buf := buf + chunk[..take];
        i := i + 1;
      case Error(Interrupted) => i := i + 1;
      case Error(Failed(message)) =>
        assert FailsAt(stream, limit, i);
        return Err(message);
    }
    return Ok(buf);
  }

  datatype BodyError = ResponseBodyLimitExceeded | TransportFailure(cause: ReadError)

  /** Read `k` is the first that fails or takes the body over the limit. */
  predicate StopsAt(stream: seq<Read>, limit: nat, k: nat)
  {
    && k < |stream|
    && (forall j :: 0 <= j < k ==> stream[j].Data?)
    && |Joined(stream, k)| <= limit
    && (stream[k].Data? ==> |Joined(stream, k + 1)| > limit)
  }

  function Cause(r: Read): (e: BodyError)
  {
    if r.Data? then ResponseBodyLimitExceeded else TransportFailure(r.error)
  }

  /** The whole body, or the first read that fails or takes it over the limit. */
  method ReadBody(stream: seq<Read>, limit: nat) returns (r: Result<Bytes, BodyError>)
    requires IsStream(stream)
    ensures r.Ok? ==> r.value == Joined(stream, |stream|) && |r.value| <= limit
    ensures r.Ok? <==> forall k: nat :: !StopsAt(stream, limit, k)
    ensures r.Err? ==> exists k: nat :: StopsAt(stream, limit, k) && r.error == Cause(stream[k])
  {
    var buf: Bytes := [];
    var i := 0;
    while i < |stream|
      invariant 0 <= i <= |stream|
      invariant buf == Joined(stream, i) && |buf| <= limit
      invariant forall j :: 0 <= j < i ==> stream[j].Data?
    {
      match stream[i]
      case Error(e) =>
        assert StopsAt(stream, limit, i);
        return Err(TransportFailure(e));
      case Data(chunk) =>
        if |buf| + |chunk| > limit {
          assert StopsAt(stream, limit, i);
          return Err(ResponseBodyLimitExceeded);
        }
        buf := buf + chunk;
        i := i + 1;
    }
    FitsIffNoStop(stream, limit);
    return Ok(buf);
  }

  /** A stream that never fails is returned whole exactly when it fits; there is no stopping read
      exactly then. */
  lemma FitsIffNoStop(stream: seq<Read>, limit: nat)
    requires forall k :: 0 <= k < |stream| ==> stream[k].Data?
    ensures |Joined(stream, |stream|)| <= limit <==> forall k: nat :: !StopsAt(stream, limit, k)
  {
    if |Joined(stream, |stream|)| <= limit {
      forall k: nat ensures !StopsAt(stream, limit, k) {
        if k < |stream| { JoinedGrows(stream, k + 1, |stream|); }
      }
    } else {
      var k := FirstOver(stream, limit, |stream|);
      assert StopsAt(stream, limit, k);
    }
  }

  lemma {:induction false} FirstOver(stream: seq<Read>, limit: nat, n: nat) returns (k: nat)
    requires n <= |stream| && |Joined(stream, n)| > limit
    ensures k < n && |Joined(stream, k)| <= limit < |Joined(stream, k + 1)|
  {
    if |Joined(stream, n - 1)| <= limit { k := n - 1; } else { k := FirstOver(stream, limit, n - 1); }
  }
}
