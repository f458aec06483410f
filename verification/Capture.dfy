/** Capturing output by chunks and in one shot. */
module Capture {
  import opened Utf8

  /**
   * A captured output, before the excerpt's bytes are decoded and the hashed bytes are digested; both are functions of
   * these bytes alone.
   */
  datatype Captured = Captured(excerpt: Bytes, hashed: Bytes, originalBytes: nat, truncated: bool)

  function Take(raw: Bytes, limit: nat): Bytes
  {
    if |raw| <= limit then raw else raw[..limit]
  }

  /** The one-shot capture. */
  ghost function OneShot(raw: Bytes, limit: nat): Captured
  {
    Captured(if |raw| <= limit then raw else raw[..limit], raw, |raw|, |raw| > limit)
  }

  /** The whole stream the chunks were read from. */
  ghost function Whole(chunks: seq<Bytes>): Bytes
  {
    if chunks == [] then [] else Whole(chunks[..|chunks| - 1]) + chunks[|chunks| - 1]
  }

  lemma TakeMore(before: Bytes, chunk: Bytes, limit: nat)
    ensures |Take(before, limit)| >= limit ==> Take(before + chunk, limit) == Take(before, limit)
    ensures |Take(before, limit)| < limit ==>
      Take(before + chunk, limit) == Take(before, limit) + Take(chunk, limit - |Take(before, limit)|)
  {
  }

  /** The streaming capture: however the stream is cut into chunks, the excerpt and the hashed bytes are the
      one-shot ones. */
  method StreamCapture(size: nat, chunks: seq<Bytes>, limit: nat) returns (captured: Captured)
    ensures captured == OneShot(Whole(chunks), limit).(originalBytes := size, truncated := size > limit)
    ensures size == |Whole(chunks)| <==> captured == OneShot(Whole(chunks), limit)
  {
    var digest: Bytes := [];
    var excerpt: Bytes := [];
    for i := 0 to |chunks|
      invariant digest == Whole(chunks[..i])
      invariant excerpt == Take(Whole(chunks[..i]), limit)
    {
      var chunk := chunks[i];
      assert chunks[..i + 1][..i] == chunks[..i];
      TakeMore(digest, chunk, limit);
      digest := digest + chunk;
      if |excerpt| < limit {
        excerpt := excerpt + Take(chunk, limit - |excerpt|);
      }
    }
    assert chunks[..|chunks|] == chunks;
    captured := Captured(excerpt, digest, size, size > limit);
  }
}
