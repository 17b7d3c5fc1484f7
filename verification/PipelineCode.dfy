/** The sequential pieces of the pipeline, as the code runs them under its locks. */
module PipelineCode {
  import opened Base
  import opened ChunkFormat
  import opened Pipeline
  import opened PipelineCoalescing

  /** The read-buffer pool; `Get` is the part of get that does not block. */
  class BufPool {
    const max: nat
    var mem: seq<Bytes>
    var free: seq<nat>

    ghost function Value(): Pool
      reads this
    {
      Pool(max, mem, free)
    }

    constructor (limit: int)
      ensures Value() == Pool(if limit < 1 then 1 else limit, [], [])
    {
      max := if limit < 1 then 1 else limit;
      mem, free := [], [];
    }

    /** A recycled buffer if there is one, a fresh one below the cap, otherwise nothing yet. */
    method Get() returns (b: Option<nat>)
      modifies this
      ensures old(free) != [] ==>
                b == Some(old(free)[0]) && Value() == old(Value()).(free := old(free)[1..])
      ensures old(free) == [] && |old(mem)| < max ==>
                b == Some(|old(mem)|) && Value() == PoolAllocate(old(Value()), CHUNK_SIZE)
      ensures old(free) == [] && |old(mem)| >= max ==> b == None && Value() == old(Value())
    {
      if free != [] {
        b := Some(free[0]);
        free := free[1..];
      } else if |mem| < max {
        b := Some(|mem|);
        mem := mem + [seq(CHUNK_SIZE, i => 0)];
      } else {
        b := None;
      }
    }

    method Put(b: nat)
      modifies this
      ensures Value() == PoolPut(old(Value()), b)
    {
      if |free| < max {
        free := free + [b];
      }
    }
  }

  /** Fills entry `at`, growing the slice with empty entries on the way. */
  method Place(chunks: seq<Chunk>, at: nat, c: Chunk) returns (r: seq<Chunk>)
    ensures r == Placed(chunks, at, c)
    ensures |r| == (if at < |chunks| then |chunks| else at + 1) && r[at] == c
    ensures forall i :: 0 <= i < |chunks| && i != at ==> r[i] == chunks[i]
  {
    r := chunks;
    while |r| <= at
      invariant chunks <= r
      invariant |chunks| <= at ==> |r| <= at + 1
      invariant |chunks| > at ==> r == chunks
      invariant Placed(r, at, c) == Placed(chunks, at, c)
      decreases at + 1 - |r|
    {
      r := r + [NO_CHUNK];
    }
    r := r[at := c];
    PlacedShape(chunks, at, c);
  }

  /** The closing loop of BackupStream: total the sizes, refuse the first empty entry. */
  method Assemble(chunks: seq<Chunk>) returns (r: Result<DiskManifest, CallError>)
    ensures r == Assembled(chunks)
    ensures r.Ok? <==> forall i :: 0 <= i < |chunks| ==> chunks[i].sha != ""
  {
    var size := 0;
    for i := 0 to |chunks|
      invariant size == SumSizes(chunks[..i])
      invariant forall k :: 0 <= k < i ==> chunks[k].sha != ""
      invariant FirstGap(chunks, 0) == FirstGap(chunks, i)
    {
      if chunks[i].sha == "" {
        return Err(NeverStored(i));
      }
      size := size + chunks[i].size;
      assert chunks[..i + 1][..i] == chunks[..i];
    }
    assert chunks[..|chunks|] == chunks;
    return Ok(DiskManifest(size, chunks));
  }
}
