/** The buffer that keeps the last bytes of a task's output, however the output is cut up. */
module TailBuffer {

  function Last<T>(s: seq<T>, limit: nat): seq<T> {
    if |s| > limit then s[|s| - limit..] else s
  }

  function Concat<T>(chunks: seq<seq<T>>): seq<T> {
    if chunks == [] then [] else Concat(chunks[..|chunks| - 1]) + chunks[|chunks| - 1]
  }

  class Tail<T> {
    var kept: seq<T>
    const limit: nat
    ghost var stream: seq<T>

    /** What is kept is the end of everything appended so far. */
    ghost predicate Valid()
      reads this
    {
      kept == Last(stream, limit)
    }

    constructor (limit: nat)
      ensures Valid() && this.limit == limit && stream == []
    {
      kept, stream, this.limit := [], [], limit;
    }

    method AppendTail(bytes: seq<T>)
      requires Valid()
      modifies this
      ensures Valid() && stream == old(stream) + bytes
    {
      stream := stream + bytes;
      if |bytes| >= limit {
        kept := bytes[|bytes| - limit..];
        return;
      }
      if |kept| + |bytes| > limit {
        kept := kept[|kept| + |bytes| - limit..];
      }
      kept := kept + bytes;
    }
  }

  /** Reading ends at the first empty chunk. */
  method ReadTailCapped<T>(chunks: seq<seq<T>>, limit: nat) returns (kept: seq<T>, used: nat)
    ensures used <= |chunks| && kept == Last(Concat(chunks[..used]), limit)
    ensures (forall i :: 0 <= i < used ==> chunks[i] != []) && (used < |chunks| ==> chunks[used] == [])
  {
    var tail := new Tail<T>(limit);
    used := 0;
    while used < |chunks| && chunks[used] != []
      invariant used <= |chunks| && fresh(tail)
      invariant tail.Valid() && tail.limit == limit && tail.stream == Concat(chunks[..used])
      invariant forall i :: 0 <= i < used ==> chunks[i] != []
    {
      tail.AppendTail(chunks[used]);
      assert chunks[..used + 1][..used] == chunks[..used];
      used := used + 1;
    }
    kept := tail.kept;
  }
}
