/** Buffering an artifact before it is scanned (crates/proxy/src/gateway.rs, `prefetch_artifact`). */
module Prefetch {
  import opened Text

  newtype byte = x: int | 0 <= x < 256

  /** What the upstream stream yields next, and whether the temporary file accepts it. */
  datatype Chunk = Chunk(bytes: seq<byte>, written: bool) | ReadError

  datatype PrefetchResult =
    | Complete(released: seq<byte>, file: seq<byte>)
    | TooLarge(streamStarted: bool)
    | Overflow
    | Failed

  function Concat(chunks: seq<Chunk>): seq<byte> {
    if chunks == [] then []
    else Concat(chunks[..|chunks| - 1]) + (if chunks[|chunks| - 1].Chunk? then chunks[|chunks| - 1].bytes else [])
  }

  ghost predicate NoIoError(chunks: seq<Chunk>) {
    forall i :: 0 <= i < |chunks| ==> chunks[i].Chunk? && chunks[i].written
  }

  /** What the rest of the proxy may rely on: the scanner's file and the bytes to release agree. */
  predicate Agreeing(r: PrefetchResult) {
    r.Complete? ==> r.released == r.file
  }

  lemma {:induction false} ConcatPrefix(chunks: seq<Chunk>, k: nat)
    requires k <= |chunks|
    ensures |Concat(chunks[..k])| <= |Concat(chunks)|
  {
    if k == |chunks| {
      assert chunks[..k] == chunks;
    } else {
      var init := chunks[..|chunks| - 1];
      ConcatPrefix(init, k);
      assert init[..k] == chunks[..k];
    }
  }

  /** A body is complete exactly when it fits, and then the scanned file, the released bytes and
      the upstream bytes are the same. The running total never leaves 64 bits. */
  method PrefetchArtifact(declared: Option<nat>, limit: nat, chunks: seq<Chunk>, flushed: bool)
    returns (r: PrefetchResult)
    requires limit <= U64_MAX
    ensures declared.Some? && declared.value > limit ==> r == TooLarge(false)
    ensures Agreeing(r)
    ensures r.Complete? ==> r.released == Concat(chunks) && |Concat(chunks)| <= limit
    ensures !(declared.Some? && declared.value > limit) && NoIoError(chunks) && flushed ==>
              (r.Complete? <==> |Concat(chunks)| <= limit) && !r.Failed?
    ensures r.TooLarge? && r.streamStarted ==> |Concat(chunks)| > limit
    ensures r.Overflow? ==> |Concat(chunks)| > U64_MAX
  {
    if declared.Some? && declared.value > limit {
      return TooLarge(false);
    }
    var bytes: seq<byte>, file: seq<byte>, total: nat := [], [], 0;
    for k := 0 to |chunks|
      invariant total == |bytes| <= limit
      invariant bytes == file == Concat(chunks[..k])
      invariant forall i :: 0 <= i < k ==> chunks[i].Chunk? && chunks[i].written
    {
      if chunks[k].ReadError? {
        return Failed;
      }
      assert chunks[..k + 1][..k] == chunks[..k];
      ConcatPrefix(chunks, k + 1);
      if total + |chunks[k].bytes| > U64_MAX {
        return Overflow;
      }
      total := total + |chunks[k].bytes|;
      if total > limit {
        return TooLarge(true);
      }
      if !chunks[k].written {
        return Failed;
      }
      file := file + chunks[k].bytes;
      bytes := bytes + chunks[k].bytes;
    }
    assert chunks[..|chunks|] == chunks;
    if !flushed {
      return Failed;
    }
    return Complete(bytes, file);
  }
}
