/** The capped output buffer of a relayed exec (internal/httpapi/ssh_api.go). */
module CappedBuffer {
  newtype Byte = b: int | 0 <= b < 256

  type Bytes = seq<Byte>

  /** "\n…[truncated]\n" in UTF-8. */
  const MARKER: Bytes := [10, 0xE2, 0x80, 0xA6, 0x5B, 0x74, 0x72, 0x75, 0x6E, 0x63, 0x61, 0x74, 0x65, 0x64, 0x5D, 10]

  /** What the whole output looks like once capped: all of it, or its first max bytes and one marker. */
  function Capped(all: Bytes, max: nat): Bytes {
    if |all| <= max then all else all[..max] + MARKER
  }

  class CappedBuffer {
    var buf: Bytes
    const max: nat
    var cut: bool
    /** Everything written so far. */
    ghost var all: Bytes

    ghost predicate Valid()
      reads this
    {
      buf == Capped(all, max) && (cut <==> |all| > max)
    }

    constructor (max: nat)
      ensures Valid() && all == [] && this.max == max
    {
      buf, this.max, cut, all := [], max, false, [];
    }

    /** Reports the full length whatever was kept. */
    method Write(p: Bytes) returns (n: nat)
      requires Valid()
      modifies this
      ensures Valid() && all == old(all) + p && n == |p|
      ensures (buf, cut) == WriteStep(old(buf), old(cut), max, p)
    {
      if !cut {
        var remain := max - |buf|;
        if |p| > remain {
          buf := buf + p[..remain];
          assert buf == (all + p)[..max];
          buf := buf + MARKER;
          cut := true;
        } else {
          buf := buf + p;
        }
      } else {
        assert (all + p)[..max] == all[..max];
      }
      all := all + p;
      n := |p|;
    }

    method String() returns (s: Bytes)
      requires Valid()
      ensures s == Capped(all, max)
    {
      s := buf;
    }
  }

  // --- Chunking ---

  /** One write on the two fields the code keeps, with no memory of what was written before. */
  function WriteStep(buf: Bytes, cut: bool, max: nat, p: Bytes): (Bytes, bool) {
    if cut then (buf, true)
    else if |buf| + |p| > max && |buf| <= max then (buf + p[..max - |buf|] + MARKER, true)
    else (buf + p, false)
  }

  function Writes(chunks: seq<Bytes>, max: nat): (Bytes, bool) {
    if chunks == [] then ([], false)
    else
      var (buf, cut) := Writes(chunks[..|chunks| - 1], max);
      WriteStep(buf, cut, max, chunks[|chunks| - 1])
  }

  function Concat(chunks: seq<Bytes>): Bytes {
    if chunks == [] then [] else Concat(chunks[..|chunks| - 1]) + chunks[|chunks| - 1]
  }

  /** The buffer after any writes is the capped concatenation, and until the cut it never exceeds its limit. */
  lemma {:induction false} WritesAreCapped(chunks: seq<Bytes>, max: nat)
    ensures |Concat(chunks)| <= max ==> Writes(chunks, max) == (Concat(chunks), false)
    ensures |Concat(chunks)| > max ==> Writes(chunks, max) == (Concat(chunks)[..max] + MARKER, true)
    ensures !Writes(chunks, max).1 ==> |Writes(chunks, max).0| <= max
  {
    if chunks != [] {
      var before, p := chunks[..|chunks| - 1], chunks[|chunks| - 1];
      WritesAreCapped(before, max);
      var all := Concat(before);
      if |all| > max {
        assert (all + p)[..max] == all[..max];
      } else if |all| + |p| > max {
        assert (all + p)[..max] == all + p[..max - |all|];
      }
    }
  }

  /** The result depends only on the bytes, not on how they were split into writes. */
  lemma ChunkingIsInvisible(a: seq<Bytes>, b: seq<Bytes>, max: nat)
    requires Concat(a) == Concat(b)
    ensures Writes(a, max) == Writes(b, max)
  {
    WritesAreCapped(a, max);
    WritesAreCapped(b, max);
  }
}
