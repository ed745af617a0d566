// The hash-map hasher: writes are kept inline up to 64 bytes and spill to the heap after,
// and finishing hashes whatever was written in one shot.
module MapHasher {
  import opened Words
  import opened Reference
  import OneShot
  import Streaming

  const INLINE_CAP := 64

  class HayaHasher {
    const bytes: array<Byte>
    const seed: Word
    var len: nat
    var heap: Bytes
    ghost var written: Bytes

    /** The heap is in use exactly when a write did not fit inline, and then it holds everything. */
    ghost predicate Valid()
      reads this, bytes
    {
      && bytes.Length == INLINE_CAP && len <= INLINE_CAP
      && (heap == [] <==> |written| <= INLINE_CAP)
      && (if heap == [] then written == bytes[..len] else written == heap)
    }

    constructor (seed: Word)
      ensures Valid() && fresh(bytes) && this.seed == seed && written == []
    {
      bytes := new Byte[INLINE_CAP];
      this.seed, len, heap, written := seed, 0, [], [];
    }

    method Write(x: Bytes)
      requires Valid()
      modifies this, bytes
      ensures Valid() && written == old(written) + x
      ensures bytes.Length == 64 && (heap == [] <==> |written| <= 64)
    {
      written := written + x;
      if |x| == 0 { return; }
      if heap != [] {
        heap := heap + x;
        return;
      }
      var newLen := len + |x|;
      if newLen <= INLINE_CAP {
        forall i | 0 <= i < |x| { bytes[len + i] := x[i]; }
        len := newLen;
        assert bytes[..len] == written;
        return;
      }
      heap := bytes[..len] + x;
    }

    method Buffer() returns (b: Bytes)
      requires Valid()
      ensures b == written
    {
      b := if heap == [] then bytes[..len] else heap;
    }

    method Finish() returns (d: Word)
      requires Valid()
      ensures d == Hash64(written, seed)
    {
      hide Hash64, Hash128;
      var b := Buffer();
      var r := OneShot.Hash(b, seed, false);
      d := r.lo;
    }

    method Finish128() returns (d: Digest)
      requires Valid()
      ensures d == Hash128(written, seed)
    {
      hide Hash64, Hash128;
      var b := Buffer();
      d := OneShot.Hash(b, seed, true);
    }

    /** A hasher built from this one, whatever it has buffered, starts empty with the same seed. */
    method BuildHasher() returns (r: HayaHasher)
      ensures fresh(r) && fresh(r.bytes) && r.Valid() && r.seed == seed && r.written == []
    {
      r := new HayaHasher(seed);
    }
  }

  /** The map hasher and the streaming state agree on every sequence of writes. */
  method AgreesWithState(seed: Word, chunks: seq<Bytes>) returns (a: Word, b: Word, c: Digest, d: Digest)
    ensures a == b == Hash64(Streaming.Concat(chunks), seed)
    ensures c == d == Hash128(Streaming.Concat(chunks), seed)
  {
    hide Hash64, Hash128, Streaming.Tracks, Streaming.State.LaneState;
    var m := new HayaHasher(seed);
    var st := new Streaming.State(seed);
    for i := 0 to |chunks|
      invariant m.Valid() && m.seed == seed && fresh(m) && fresh(m.bytes)
      invariant st.Valid() && st.seed == seed && fresh(st) && fresh(st.h) && fresh(st.buf) && m.bytes != st.buf
      invariant m.written == st.history == Streaming.Concat(chunks[..i])
    {
      assert chunks[..i + 1][..i] == chunks[..i];
      m.Write(chunks[i]);
      ghost var passes, copied := st.Update(chunks[i]);
    }
    assert chunks[..|chunks|] == chunks;
    a := m.Finish();
    b := st.Digest64();
    c := m.Finish128();
    d := st.Digest128();
  }
}
