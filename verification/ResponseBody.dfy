/** Reading a backend response into chunks, and the payload sent upstream. The reader is adversarial: a
    script says what each `Read` leaves in the buffer, how much of it counts, and how it ends. */
module ResponseBody {
  type byte = bv8

  const DEFAULT_BUFFER_SIZE: nat := 1024 * 1024

  datatype Status = More | EndOfFile | Broken

  /** One `Read` into a slice: the bytes it leaves there (it may scribble over all of it), how many of them
      it returns, and its error. */
  datatype ReadResult = ReadResult(scratch: seq<byte>, n: nat, status: Status)

  ghost predicate ObeysContract(r: ReadResult, chunkSize: nat) {
    |r.scratch| == chunkSize && r.n <= chunkSize
  }

  ghost predicate Obedient(script: seq<ReadResult>, chunkSize: nat) {
    forall i :: 0 <= i < |script| ==> ObeysContract(script[i], chunkSize)
  }

  /** How reading ended: `Unfinished` if the script ran out first. */
  datatype Body = Chunks(chunks: seq<seq<byte>>) | ReadFailed | TooLarge(total: nat) | Unfinished

  function Concat(chunks: seq<seq<byte>>): seq<byte> {
    if chunks == [] then [] else chunks[0] + Concat(chunks[1..])
  }

  lemma {:induction false} ConcatSnoc(chunks: seq<seq<byte>>, c: seq<byte>)
    ensures Concat(chunks + [c]) == Concat(chunks) + c
  {
    if chunks == [] {
      assert chunks + [c] == [c];
    } else {
      assert (chunks + [c])[1..] == chunks[1..] + [c];
      ConcatSnoc(chunks[1..], c);
    }
  }

  /** The bytes the first `k` reads returned. */
  ghost function Delivered(script: seq<ReadResult>, k: nat): seq<byte>
    requires k <= |script| && forall i :: 0 <= i < |script| ==> script[i].n <= |script[i].scratch|
  {
    if k == 0 then [] else Delivered(script, k - 1) + script[k - 1].scratch[..script[k - 1].n]
  }

  /** Where the loop must stop, stated on the reads alone: the first read that ends the body, fails, or takes
      the total past the limit. */
  ghost predicate Continues(script: seq<ReadResult>, k: nat, limit: nat)
    requires k < |script| && forall i :: 0 <= i < |script| ==> script[i].n <= |script[i].scratch|
  {
    script[k].status.More? && |Delivered(script, k + 1)| <= limit
  }

  /** The buffers `sync.Pool` holds between requests. */
  class BufferPool {
    var buffers: seq<array<byte>>

    ghost predicate Valid()
      reads this
    {
      forall i :: 0 <= i < |buffers| ==> buffers[i].Length == DEFAULT_BUFFER_SIZE
    }

    constructor ()
      ensures Valid() && buffers == []
    {
      buffers := [];
    }

    method Get() returns (buf: array<byte>)
      requires Valid()
      modifies this
      ensures Valid() && buf.Length == DEFAULT_BUFFER_SIZE
      ensures if old(buffers) == [] then fresh(buf) && buffers == []
              else buf == old(buffers)[|old(buffers)| - 1] && buffers == old(buffers)[..|old(buffers)| - 1]
    {
      if |buffers| == 0 {
        buf := new byte[DEFAULT_BUFFER_SIZE];
      } else {
        buf := buffers[|buffers| - 1];
        buffers := buffers[..|buffers| - 1];
      }
    }

    method Put(buf: array<byte>)
      requires Valid() && buf.Length == DEFAULT_BUFFER_SIZE
      modifies this
      ensures Valid() && buffers == old(buffers) + [buf]
    {
      buffers := buffers + [buf];
    }

    /** The read part of `forwardToBackend`: a pooled buffer if it is large enough, a private one otherwise;
        the pool ends up holding standard buffers only. */
    method ReadBody(chunkSize: nat, limit: nat, script: seq<ReadResult>) returns (body: Body, count: nat)
      requires Valid() && chunkSize >= 1 && Obedient(script, chunkSize)
      modifies this, set i | 0 <= i < |buffers| :: buffers[i]
      ensures Valid()
      ensures count <= |script| && Stopped(script, count, limit, body)
    {
      var buf := Get();
      var bufferFromPool := true;
      if buf.Length < chunkSize {
        buf := new byte[chunkSize];
        bufferFromPool := false;
      }
      body, count := ReadAll(buf, chunkSize, limit, script);
      if bufferFromPool && buf.Length == DEFAULT_BUFFER_SIZE {
        Put(buf);
      }
    }
  }

  /** The loop's contract: it stopped after `count` reads, not earlier, and `body` says why. */
  ghost predicate Stopped(script: seq<ReadResult>, count: nat, limit: nat, body: Body)
    requires count <= |script|
  {
    && (forall i :: 0 <= i < |script| ==> script[i].n <= |script[i].scratch|)
    && (forall k :: 0 <= k < count - 1 ==> Continues(script, k, limit))
    && match body
       case Unfinished => count == |script| && (count > 0 ==> Continues(script, count - 1, limit))
       case ReadFailed => count > 0 && script[count - 1].status.Broken?
       case TooLarge(total) =>
         count > 0 && script[count - 1].status.More? && total == |Delivered(script, count)| > limit
       case Chunks(chunks) =>
         && count > 0 && script[count - 1].status.EndOfFile?
         && chunks == Pieces(script, count)
  }

  /** The non-empty reads, in order. */
  ghost function Pieces(script: seq<ReadResult>, k: nat): seq<seq<byte>>
    requires k <= |script| && forall i :: 0 <= i < |script| ==> script[i].n <= |script[i].scratch|
  {
    if k == 0 then []
    else Pieces(script, k - 1) + if script[k - 1].n > 0 then [script[k - 1].scratch[..script[k - 1].n]] else []
  }

  /** The loop: every read reuses the same buffer, every chunk is a copy taken before the next read. */
  method ReadAll(buf: array<byte>, chunkSize: nat, limit: nat, script: seq<ReadResult>) returns (body: Body, count: nat)
    requires 1 <= chunkSize <= buf.Length && Obedient(script, chunkSize)
    modifies buf
    ensures count <= |script| && Stopped(script, count, limit, body)
  {
    var chunks: seq<seq<byte>> := [];
    var totalSize := 0;
    count := 0;
    while count < |script|
      invariant 0 <= count <= |script|
      invariant totalSize == |Delivered(script, count)|
      invariant chunks == Pieces(script, count)
      invariant forall k :: 0 <= k < count ==> Continues(script, k, limit)
    {
      var r := script[count];
      assert ObeysContract(r, chunkSize);
      forall j | 0 <= j < chunkSize {
        buf[j] := r.scratch[j];
      }
      count := count + 1;
      assert buf[..r.n] == r.scratch[..r.n];
      if r.n > 0 {
        chunks := chunks + [buf[..r.n]];
        totalSize := totalSize + r.n;
      }
      if r.status.EndOfFile? {
        return Chunks(chunks), count;
      }
      if r.status.Broken? {
        return ReadFailed, count;
      }
      if totalSize > limit {
        return TooLarge(totalSize), count;
      }
    }
    body := Unfinished;
  }

  lemma {:induction false} PiecesCarryBytes(script: seq<ReadResult>, k: nat, chunkSize: nat)
    requires k <= |script| && Obedient(script, chunkSize)
    ensures Concat(Pieces(script, k)) == Delivered(script, k)
    ensures forall c :: c in Pieces(script, k) ==> 1 <= |c| <= chunkSize
  {
    if k > 0 {
      PiecesCarryBytes(script, k - 1, chunkSize);
      var r := script[k - 1];
      if r.n > 0 {
        ConcatSnoc(Pieces(script, k - 1), r.scratch[..r.n]);
      } else {
        assert Pieces(script, k) == Pieces(script, k - 1);
      }
    }
  }

  /** On success the chunks are exactly the bytes read, each between one byte and the chunk size; a body
      longer than one chunk takes more than one. */
  lemma ChunksPreserveBody(script: seq<ReadResult>, count: nat, chunkSize: nat, limit: nat, body: Body)
    requires count <= |script| && Obedient(script, chunkSize) && body.Chunks? && Stopped(script, count, limit, body)
    ensures Concat(body.chunks) == Delivered(script, count)
    ensures forall c :: c in body.chunks ==> 1 <= |c| <= chunkSize
    ensures |Delivered(script, count)| > chunkSize ==> |body.chunks| > 1
    ensures |Delivered(script, count)| == 0 <==> body.chunks == []
  {
    PiecesCarryBytes(script, count, chunkSize);
    if |body.chunks| == 1 {
      assert Concat(body.chunks) == body.chunks[0] + [];
      assert body.chunks[0] in body.chunks;
    }
    if body.chunks != [] {
      assert body.chunks[0] in body.chunks;
    }
  }

  /** Size bounds: an accepted body exceeds the limit by at most the last read, hence never when the end came
      without data; a rejection for size is always justified. */
  lemma SizeBound(script: seq<ReadResult>, count: nat, chunkSize: nat, limit: nat, body: Body)
    requires count <= |script| && Obedient(script, chunkSize) && Stopped(script, count, limit, body)
    ensures body.Chunks? ==> |Concat(body.chunks)| <= limit + script[count - 1].n <= limit + chunkSize
    ensures body.TooLarge? ==> limit < body.total <= limit + chunkSize
  {
    if count > 0 {
      assert ObeysContract(script[count - 1], chunkSize);
      assert count > 1 ==> Continues(script, count - 2, limit);
      if body.Chunks? {
        PiecesCarryBytes(script, count, chunkSize);
      }
    }
  }

  lemma {:induction false} ReadsAddUp(script: seq<ReadResult>, k: nat)
    requires k <= |script| && forall i :: 0 <= i < |script| ==> script[i].n <= |script[i].scratch|
    requires forall i :: 0 <= i < k ==> script[i].n > 0
    ensures |Delivered(script, k)| >= k
  {
    if k > 0 {
      ReadsAddUp(script, k - 1);
    }
  }

  /** Termination: a reader that never returns nothing without an error is read at most `limit + 1`
      times, the read that learns how the body ends included. */
  lemma LoopTerminates(script: seq<ReadResult>, count: nat, chunkSize: nat, limit: nat, body: Body)
    requires count <= |script| && Obedient(script, chunkSize) && Stopped(script, count, limit, body)
    requires forall i :: 0 <= i < |script| && script[i].n == 0 ==> !script[i].status.More?
    ensures count <= limit + 1
    ensures body.Unfinished? ==> |script| <= limit
  {
    if count > 0 {
      forall k | 0 <= k < count - 1
        ensures script[k].n > 0
      {
        assert Continues(script, k, limit);
      }
      ReadsAddUp(script, count - 1);
      assert count > 1 ==> Continues(script, count - 2, limit);
      if body.Unfinished? {
        assert Continues(script, count - 1, limit);
        ReadsAddUp(script, count);
      }
    }
  }

  // ---------------------------------------------------------------------------------------------
  // The response and its payload
  // ---------------------------------------------------------------------------------------------

  datatype ProxyResponse = ProxyResponse(body: seq<byte>, chunked: bool, chunks: seq<seq<byte>>)

  datatype Field = Absent | Present(chunks: seq<seq<byte>>)

  /** The part of the outgoing payload that carries the body. */
  datatype Payload = Payload(body: seq<byte>, chunked: bool, chunks: Field)

  function BuildResponse(chunks: seq<seq<byte>>): ProxyResponse {
    var chunked := |chunks| > 1;
    ProxyResponse(if !chunked && |chunks| > 0 then chunks[0] else [], chunked, chunks)
  }

  function BuildPayload(r: ProxyResponse): Payload {
    Payload(r.body, r.chunked, if r.chunked && |r.chunks| > 0 then Present(r.chunks) else Absent)
  }

  /** How a receiver puts the body together. */
  function Receive(p: Payload): seq<byte> {
    if p.chunked && p.chunks.Present? then Concat(p.chunks.chunks) else p.body
  }

  /** From the backend's reads to the receiver: the body arrives unchanged, in the `chunks` field exactly when
      more than one read returned data, and always there when it is longer than a chunk. What is sent are then the
      non-empty reads, each of at most the chunk size. */
  lemma BodyArrives(script: seq<ReadResult>, count: nat, chunkSize: nat, limit: nat, body: Body)
    requires count <= |script| && Obedient(script, chunkSize) && body.Chunks? && Stopped(script, count, limit, body)
    ensures var p := BuildPayload(BuildResponse(body.chunks));
            && Receive(p) == Delivered(script, count)
            && (p.chunked <==> p.chunks.Present?)
            && (p.chunked <==> |Pieces(script, count)| > 1)
            && (|Delivered(script, count)| > chunkSize ==> p.chunked)
            && (p.chunked ==> p.body == [])
            && (p.chunks.Present? ==> p.chunks.chunks == Pieces(script, count))
            && (p.chunks.Present? ==> forall c :: c in p.chunks.chunks ==> 1 <= |c| <= chunkSize)
            && (p.chunks.Absent? ==> |p.body| <= chunkSize)
  {
    ChunksPreserveBody(script, count, chunkSize, limit, body);
    if |body.chunks| == 1 {
      assert Concat(body.chunks) == body.chunks[0] + [];
    }
  }
}
