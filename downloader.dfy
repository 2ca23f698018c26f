/**
 * `HTTPDownloader` (src/helpers/HTTPDownloader.ts): awaits a prepared request and
 * reports the body as a list of chunk lengths of at most 10240 bytes each; a failed
 * request reports `[0]`.
 */
module Downloader {
  import opened Wrappers
  import opened Text
  import opened Stats

  const ChunkSize := 10240

  /** Chunk lengths of a body of `length` bytes: full chunks, then the remainder. */
  function ChunkLengths(length: nat): seq<int>
    decreases length
  {
    if length == 0 then []
    else if length <= ChunkSize then [length]
    else [ChunkSize] + ChunkLengths(length - ChunkSize)
  }

  class HTTPDownloader {
    /**
     * How the prepared request settles: `Some(body)` when it resolves with data; `None`
     * when it rejects or resolves to `null` (reading `result.data` then throws into the
     * same `catch`).
     */
    const request: Option<seq<bv8>>

    constructor(request: Option<seq<bv8>>)
      ensures this.request == request
    {
      this.request := request;
    }

    /** `run()`: the loop that pushes `data.slice(i, i + 10240).length`. */
    method Run() returns (results: seq<int>)
      ensures request.None? ==> results == [0]
      ensures request.Some? ==> results == ChunkLengths(|request.value|)
    {
      if request.None? {
        return [0];
      }
      var data := request.value;
      results := [];
      var i := 0;
      while i < |data|
        invariant 0 <= i
        invariant i <= |data| ==> results + ChunkLengths(|data| - i) == ChunkLengths(|data|)
        invariant i > |data| ==> results == ChunkLengths(|data|)
        decreases |data| - i
      {
        var chunk := JsSlice(data, i, i + ChunkSize);
        assert |chunk| == (if |data| - i <= ChunkSize then |data| - i else ChunkSize);
        assert ChunkLengths(|data| - i) == [|chunk|] + ChunkLengths(if |data| - i <= ChunkSize then 0 else |data| - i - ChunkSize);
        results := results + [|chunk|];
        i := i + ChunkSize;
      }
    }
  }

  /** The chunk lengths add up to the body length. */
  lemma {:induction false} ChunkLengthsSum(length: nat)
    ensures SumInts(ChunkLengths(length)) == length
    decreases length
  {
    if length > ChunkSize {
      ChunkLengthsSum(length - ChunkSize);
      SumIntsConcat([ChunkSize], ChunkLengths(length - ChunkSize));
      assert [ChunkSize][..0] == [];
    } else if length > 0 {
      assert [length][..0] == [];
    }
  }

  /**
   * There are ceil(length / 10240) chunks (none for an empty body), all of 10240 bytes
   * except the last, which holds the remainder.
   */
  lemma {:induction false} ChunkLengthsShape(length: nat)
    ensures var r := ChunkLengths(length);
            && |r| == (length + ChunkSize - 1) / ChunkSize
            && (forall i :: 0 <= i < |r| - 1 ==> r[i] == ChunkSize)
            && (|r| > 0 ==> r[|r| - 1] == length - ChunkSize * (|r| - 1))
            && (forall i :: 0 <= i < |r| ==> 0 < r[i] <= ChunkSize)
    decreases length
  {
    if length > ChunkSize {
      ChunkLengthsShape(length - ChunkSize);
      var rest := ChunkLengths(length - ChunkSize);
      var r := ChunkLengths(length);
      assert r == [ChunkSize] + rest;
      assert forall i :: 1 <= i < |r| ==> r[i] == rest[i - 1];
    }
  }
}
