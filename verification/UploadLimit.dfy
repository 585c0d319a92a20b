/**
 Reading an upload through limitReader: when the per-upload cap lets it pass.
 */
module UploadLimit {

  type Bytes = string

  /** What came with the bytes of a read: nothing, EOF, or an error of the client's stream. */
  datatype End = More | Eof | Broken

  /** One result of the client's io.Reader. */
  datatype ReadResult = ReadResult(data: Bytes, end: End)

  /** A reader ends once, with its last result. */
  predicate Reader(chunks: seq<ReadResult>) {
    && |chunks| > 0
    && !chunks[|chunks| - 1].end.More?
    && forall i | 0 <= i < |chunks| - 1 :: chunks[i].end.More?
  }

  /** The client's stream came to its regular end. */
  predicate Whole(chunks: seq<ReadResult>)
    requires |chunks| > 0
  {
    chunks[|chunks| - 1].end.Eof?
  }

  function Content(chunks: seq<ReadResult>): Bytes {
    if chunks == [] then [] else Content(chunks[..|chunks| - 1]) + chunks[|chunks| - 1].data
  }

  /**
   What the cap admits: less than max bytes before the read that brings the end, and no more than
   max with it. max <= 0 is no cap.
   */
  predicate Admitted(chunks: seq<ReadResult>, max: int)
    requires |chunks| > 0
  {
    max <= 0 || (|Content(chunks[..|chunks| - 1])| < max && |Content(chunks)| <= max)
  }

  datatype Saved = TooLarge | BrokenOff | Saved(content: Bytes)

  /** The copy loop of the blob store over limitReader, with the byte count kept by countWriter. */
  method ReadLimited(chunks: seq<ReadResult>, max: int) returns (r: Saved, size: nat)
    requires Reader(chunks)
    ensures r == if !Admitted(chunks, max) then TooLarge
                 else if Whole(chunks) then Saved(Content(chunks)) else BrokenOff
    ensures r.Saved? ==> size == |r.content|
    ensures r == TooLarge <==> !Admitted(chunks, max)
    ensures r == BrokenOff ==> chunks[|chunks| - 1].end == Broken
    ensures r.Saved? ==> chunks[|chunks| - 1].end == Eof
  {
    var i, n := 0, 0;
    var out: Bytes := [];
    size := 0;
    while true
      invariant 0 <= i < |chunks|
      invariant out == Content(chunks[..i]) && n == size == |out|
      invariant max > 0 ==> n <= max
      decreases |chunks| - i
    {
      if max > 0 && n >= max {
        ContentGrows(chunks, i, |chunks| - 1);
        return TooLarge, size;
      }
      var chunk := chunks[i];
      assert chunks[..i + 1][..i] == chunks[..i];
      n := n + |chunk.data|;
      size := size + |chunk.data|;
      out := out + chunk.data;
      if max > 0 && n > max {
        ContentGrows(chunks, i + 1, |chunks|);
        assert chunks[..|chunks|] == chunks;
        return TooLarge, size;
      }
      if !chunk.end.More? {
        assert chunks[..i + 1] == chunks;
        return if chunk.end.Eof? then Saved(out) else BrokenOff, size;
      }
      i := i + 1;
    }
  }

  lemma {:induction false} ContentGrows(chunks: seq<ReadResult>, i: nat, j: nat)
    requires i <= j <= |chunks|
    ensures |Content(chunks[..i])| <= |Content(chunks[..j])|
    decreases j - i
  {
    if i < j {
      ContentGrows(chunks, i, j - 1);
      assert chunks[..j][..j - 1] == chunks[..j - 1];
    }
  }

  /** The content is what the reads bring, in order. */
  lemma {:induction false} ContentJoins(a: seq<ReadResult>, b: seq<ReadResult>, data: Bytes, end: End)
    ensures Content(a + b) == Content(a) + Content(b) && Content([ReadResult(data, end)]) == data
    decreases |b|
  {
    assert [ReadResult(data, end)][..0] == [];
    if b == [] {
      assert a + b == a;
    } else {
      assert (a + b)[..|a + b| - 1] == a + b[..|b| - 1];
      ContentJoins(a, b[..|b| - 1], data, end);
    }
  }

  /**
   The cap is documented as the most an upload may hold. An upload below it passes and one above
   it fails; an upload of exactly max bytes passes only when its last bytes and EOF come together. A cap
   of zero or less is none.
   */
  lemma CapAtTheBoundary(chunks: seq<ReadResult>, max: int)
    requires Reader(chunks)
    ensures max <= 0 ==> Admitted(chunks, max)
    ensures max > 0 && |Content(chunks)| < max ==> Admitted(chunks, max)
    ensures max > 0 && |Content(chunks)| > max ==> !Admitted(chunks, max)
    ensures max > 0 && |Content(chunks)| == max ==> (Admitted(chunks, max) <==> chunks[|chunks| - 1].data != [])
  {
  }

  /** The usual reader, EOF after the data, makes an upload of exactly the cap fail. */
  lemma ExactCapRejected(data: Bytes)
    requires |data| > 0
    ensures Reader([ReadResult(data, More), ReadResult([], Eof)])
    ensures Content([ReadResult(data, More), ReadResult([], Eof)]) == data
    ensures !Admitted([ReadResult(data, More), ReadResult([], Eof)], |data|)
  {
    var chunks := [ReadResult(data, More), ReadResult([], Eof)];
    assert chunks[..1] == [ReadResult(data, More)];
    assert chunks[..1][..0] == [];
    assert Content(chunks[..1]) == data;
  }
}
