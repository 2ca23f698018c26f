/**
 * `HTTPUploaderData` (src/helpers/HTTPUploaderData.ts): the body of one speedtest.net
 * upload request. `preAllocate` fills it with "content1=" and a cyclic run of the
 * 36-character alphabet; `read(n)` hands out a prefix and records its length in `total`,
 * whose sum the uploader later reports as the bytes sent.
 */
module UploaderData {
  import opened Wrappers
  import opened Text
  import opened Stats

  const Alphabet := "0123456789ABCDEFGHIJKLMNOPQRSTUVWXYZ"
  const FormPrefix := "content1="

  /** `Math.round(length / 36)` for an integral length: halves round up. */
  function Multiplier(length: int): int {
    (length + 18) / 36
  }

  /**
   * The data `preAllocate` stores when `repeat` accepts the multiplier (it throws on a
   * negative count): the prefix, then the first length - 9 characters of the repeated
   * alphabet (`slice` counts a negative end from the back).
   */
  function Payload(length: int): string
    requires Multiplier(length) >= 0
  {
    FormPrefix + JsSlice(Repeat(Alphabet, Multiplier(length)), 0, length - 9)
  }

  class HTTPUploaderData {
    const length: int
    /** `_data`; `None` is the `null` the constructor stores. */
    var data: Option<string>
    /** `_total`: a leading 0, then the length of every chunk read. */
    var total: seq<int>
    /** The chunks handed out so far, in order. */
    ghost var chunks: seq<string>

    /** `total` records exactly the lengths of the chunks handed out. */
    ghost predicate Valid()
      reads this
    {
      && |total| == |chunks| + 1
      && total[0] == 0
      && forall i :: 0 <= i < |chunks| ==> total[i + 1] == |chunks[i]|
    }

    constructor(length: int)
      ensures this.length == length
      ensures data == None && total == [0] && chunks == []
      ensures Valid()
    {
      this.length := length;
      data := None;
      total := [0];
      chunks := [];
    }

    /** `preAllocate()`; `ok` is false when `repeat` throws, and nothing changes then. */
    method PreAllocate() returns (ok: bool)
      modifies this
      ensures ok <==> Multiplier(length) >= 0
      ensures ok ==> data == Some(Payload(length))
      ensures !ok ==> data == old(data)
      ensures total == old(total) && chunks == old(chunks)
    {
      var multiplier := Multiplier(length);
      if multiplier < 0 {
        return false;
      }
      var repeatedChars := Repeat(Alphabet, multiplier);
      data := Some(FormPrefix + JsSlice(repeatedChars, 0, length - 9));
      return true;
    }

    /**
     * `read(n)`: the first n characters of the data (`slice(0, n)`), whose length is
     * appended to `total`. Reading before `preAllocate` throws (`None`) and changes nothing.
     * (The default of 10240 for a missing n is not modelled: every caller passes n.)
     */
    method Read(n: int) returns (chunk: Option<string>)
      requires Valid()
      modifies this
      ensures Valid()
      ensures data == old(data)
      ensures old(data).None? ==> chunk.None? && total == old(total) && chunks == old(chunks)
      ensures old(data).Some? ==>
                && chunk == Some(JsSlice(old(data).value, 0, n))
                && total == old(total) + [|chunk.value|]
                && chunks == old(chunks) + [chunk.value]
    {
      if data.None? {
        return None;
      }
      var c := JsSlice(data.value, 0, n);
      total := total + [|c|];
      chunks := chunks + [c];
      return Some(c);
    }
  }

  /** The sum of the chunk lengths. */
  function ChunkBytes(chunks: seq<string>): int
    decreases |chunks|
  {
    if chunks == [] then 0 else ChunkBytes(chunks[..|chunks| - 1]) + |chunks[|chunks| - 1]|
  }

  /** Whatever was read, `sum(total)` is the number of characters handed out. */
  lemma {:induction false} TotalCountsChunks(total: seq<int>, chunks: seq<string>)
    requires |total| == |chunks| + 1 && total[0] == 0
    requires forall i :: 0 <= i < |chunks| ==> total[i + 1] == |chunks[i]|
    ensures SumInts(total) == ChunkBytes(chunks)
    decreases |chunks|
  {
    if chunks == [] {
      assert total == [0];
      assert total[..0] == [];
    } else {
      var n := |chunks| - 1;
      TotalCountsChunks(total[..n + 1], chunks[..n]);
      assert total[..|total| - 1] == total[..n + 1];
    }
  }

  /** A `read(n)` with 0 <= n takes min(n, |data|) characters from the front. */
  lemma ReadPrefix(data: string, n: int)
    requires n >= 0
    ensures var c := JsSlice(data, 0, n);
            |c| == (if n < |data| then n else |data|) && c == data[..|c|]
  {
  }

  /** The payload starts with the form prefix and then cycles through the alphabet. */
  lemma PayloadShape(length: int)
    requires Multiplier(length) >= 0
    ensures StartsWith(Payload(length), FormPrefix)
    ensures forall i :: 0 <= i < |Payload(length)| - 9 ==> Payload(length)[9 + i] == Alphabet[i % 36]
  {
    var p := Payload(length);
    var repeated := Repeat(Alphabet, Multiplier(length));
    var body := JsSlice(repeated, 0, length - 9);
    assert p == FormPrefix + body;
    assert p[..9] == FormPrefix;
    forall i | 0 <= i < |p| - 9
      ensures p[9 + i] == Alphabet[i % 36]
    {
      assert p[9 + i] == body[i];
      SliceFromStart(repeated, length - 9);
      assert body[i] == repeated[i];
      RepeatedAlphabetAt(Multiplier(length), i);
    }
  }

  /** A slice from 0 is a prefix. */
  lemma SliceFromStart(s: string, end: int)
    ensures JsSlice(s, 0, end) == s[..|JsSlice(s, 0, end)|]
  {
  }

  lemma RepeatedAlphabetAt(count: nat, i: nat)
    requires i < |Repeat(Alphabet, count)|
    ensures Repeat(Alphabet, count)[i] == Alphabet[i % 36]
  {
    RepeatedAt36(Alphabet, count, i);
  }

  /** Character i of a 36-character string repeated is its character i mod 36. */
  lemma {:induction false} RepeatedAt36(s: string, count: nat, i: nat)
    requires |s| == 36 && i < |Repeat(s, count)|
    ensures Repeat(s, count)[i] == s[i % 36]
    decreases i
  {
    if i < 36 {
      RepeatHead(s, count, i);
    } else {
      RepeatPeriodic(s, count, i);
      RepeatedAt36(s, count, i - 36);
      Mod36Shift(i);
    }
  }

  lemma Mod36Shift(i: int)
    requires i >= 36
    ensures (i - 36) % 36 == i % 36
  {
  }

  /**
   * For length >= 9 the payload has 9 + min(length - 9, 36·round(length / 36)) characters,
   * so it never exceeds `length`.
   */
  lemma PayloadLength(length: int)
    requires length >= 9
    ensures Multiplier(length) >= 0
    ensures var available := 36 * Multiplier(length);
            |Payload(length)| == 9 + (if length - 9 < available then length - 9 else available)
    ensures |Payload(length)| <= length
  {
    assert |Repeat(Alphabet, Multiplier(length))| == 36 * Multiplier(length);
  }

  /**
   * The content-length the upload test declares is the size passed in, but for 65536
   * (one of the upload sizes) round(65536 / 36) · 36 = 65520 characters are available and
   * the body is 7 characters short.
   */
  lemma PayloadShortFor65536()
    ensures |Payload(65536)| == 65529
  {
    PayloadLength(65536);
    assert Multiplier(65536) == 1820;
  }

  /** Rounding down drops characters exactly when length mod 36 is between 10 and 17. */
  lemma PayloadShortExactly(length: int)
    requires length >= 9
    ensures |Payload(length)| < length <==> 10 <= length % 36 <= 17
  {
    PayloadLength(length);
  }

  /** The evidently intended multiplier: enough repetitions to cover the whole length. */
  function CoveringMultiplier(length: int): int {
    (length + 35) / 36
  }

  function CorrectedPayload(length: int): string
    requires CoveringMultiplier(length) >= 0
  {
    FormPrefix + JsSlice(Repeat(Alphabet, CoveringMultiplier(length)), 0, length - 9)
  }

  /** With the covering multiplier the body always has exactly `length` characters. */
  lemma CorrectedPayloadLength(length: int)
    requires length >= 9
    ensures CoveringMultiplier(length) >= 0
    ensures |CorrectedPayload(length)| == length
    ensures forall i :: 0 <= i < length - 9 ==> CorrectedPayload(length)[9 + i] == Alphabet[i % 36]
  {
    var m := CoveringMultiplier(length);
    var repeated := Repeat(Alphabet, m);
    assert |repeated| == 36 * m;
    assert 36 * m >= length - 9;
    var p := CorrectedPayload(length);
    var body := JsSlice(repeated, 0, length - 9);
    assert body == repeated[..length - 9];
    forall i | 0 <= i < length - 9
      ensures p[9 + i] == Alphabet[i % 36]
    {
      assert p[9 + i] == body[i] == repeated[i];
      RepeatedAlphabetAt(m, i);
    }
  }
}
