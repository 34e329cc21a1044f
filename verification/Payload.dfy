// Deterministic payload bytes (pkg/payload/payload.go:44-79) and the two ways a
// synthetic target is filled with them (pkg/prepare/prepare.go:214-287).
module Payload {
  import opened Arithmetic
  import opened Files
  import DirectIO

  type Word = w: seq<Byte> | |w| == 8 witness [0, 0, 0, 0, 0, 0, 0, 0]

  // Seeded mode draws one word for each 8-byte block; how it is mixed from the
  // seed, the operation and the target does not matter here.
  datatype Config = Zero | Seeded(word: int -> Word)

  // The byte at an absolute position.
  function ByteOf(cfg: Config, pos: int): Byte {
    match cfg
    case Zero => 0
    case Seeded(word) => word(pos / 8)[pos % 8]
  }

  function Filled(cfg: Config, off: int, n: nat): (r: seq<Byte>)
    ensures |r| == n && forall i :: 0 <= i < n ==> r[i] == ByteOf(cfg, off + i)
  {
    seq<Byte>(n, i requires 0 <= i < n => ByteOf(cfg, off + i))
  }

  // ----- Fill -----

  // The first i bytes are filled and the rest are as they were.
  ghost predicate FilledUpTo(cfg: Config, off: int, now: seq<Byte>, was: seq<Byte>, i: nat) {
    |now| == |was| >= i && now == Filled(cfg, off, i) + was[i..]
  }

  lemma BlockFills(cfg: Config, off: int, before: seq<Byte>, after: seq<Byte>, was: seq<Byte>,
                   i: nat, from: nat, n: nat)
    requires cfg.Seeded? && FilledUpTo(cfg, off, before, was, i) && i + n <= |was| == |after|
    requires from == (off + i) % 8 && from + n <= 8
    requires forall k :: 0 <= k < |after| ==>
               after[k] == if i <= k < i + n then cfg.word((off + i) / 8)[k - i + from] else before[k]
    ensures FilledUpTo(cfg, off, after, was, i + n)
  {
    forall k | i <= k < i + n ensures after[k] == ByteOf(cfg, off + k) {
      assert off + k == 8 * ((off + i) / 8) + from + (k - i);
    }
  }

  // copy(dst[i:], word[from:from+n]), where word covers position off + i.
  method CopyWord(dst: array<Byte>, i: nat, word: Word, from: nat, n: nat, cfg: Config, off: int, ghost was: seq<Byte>)
    requires i + n <= dst.Length && from + n <= 8 && from == (off + i) % 8
    requires cfg.Seeded? && word == cfg.word((off + i) / 8)
    requires FilledUpTo(cfg, off, dst[..], was, i)
    modifies dst
    ensures FilledUpTo(cfg, off, dst[..], was, i + n)
  {
    ghost var before := dst[..];
    for k := 0 to n
      invariant forall x :: 0 <= x < dst.Length ==>
                  dst[x] == if i <= x < i + k then word[x - i + from] else before[x]
    {
      dst[i + k] := word[from + k];
    }
    BlockFills(cfg, off, before, dst[..], was, i, from, n);
  }

  // Fills dst[:n]: a partial leading block, whole words, a partial trailing block.
  method Fill(dst: array<Byte>, n: nat, cfg: Config, off: int)
    requires n <= dst.Length
    modifies dst
    ensures dst[..] == Filled(cfg, off, n) + old(dst[n..])
  {
    ghost var was := dst[..];
    if cfg.Zero? {
      Clear(dst, n);
      assert Filled(cfg, off, n) == Zeros(n);
      return;
    }
    var i := 0;
    var pos := off;
    var rem := pos % 8;
    if rem != 0 && i < n {
      var len := Min(n, 8 - rem);
      CopyWord(dst, 0, cfg.word(pos / 8), rem, len, cfg, off, was);
      i, pos := len, pos + len;
    }
    FillWords(dst, n, i, cfg, off, was);
  }

  // The rest of dst[:n], once it has reached a block boundary or its end.
  method FillWords(dst: array<Byte>, n: nat, start: nat, cfg: Config, off: int, ghost was: seq<Byte>)
    requires start <= n <= dst.Length && cfg.Seeded? && |was| == dst.Length
    requires start < n ==> (off + start) % 8 == 0
    requires FilledUpTo(cfg, off, dst[..], was, start)
    modifies dst
    ensures dst[..] == Filled(cfg, off, n) + was[n..]
  {
    var i, pos := start, off + start;
    while i + 8 <= n
      invariant start <= i <= n && pos == off + i
      invariant i < n ==> pos % 8 == 0
      invariant FilledUpTo(cfg, off, dst[..], was, i)
    {
      CopyWord(dst, i, cfg.word(pos / 8), 0, 8, cfg, off, was);
      i, pos := i + 8, pos + 8;
    }
    if i < n {
      CopyWord(dst, i, cfg.word(pos / 8), 0, n - i, cfg, off, was);
    }
  }

  method Clear(dst: array<Byte>, n: nat)
    requires n <= dst.Length
    modifies dst
    ensures dst[..] == Zeros(n) + old(dst[n..])
  {
    for k := 0 to n
      invariant dst[..k] == Zeros(k) && dst[k..] == old(dst[k..])
    {
      dst[k] := 0;
    }
  }

  // A whole block is its word, in the word's order.
  lemma WholeBlockIsItsWord(word: int -> Word, block: int)
    ensures Filled(Seeded(word), 8 * block, 8) == word(block)
  {
    forall i | 0 <= i < 8 ensures Filled(Seeded(word), 8 * block, 8)[i] == word(block)[i] {
      assert (8 * block + i) / 8 == block && (8 * block + i) % 8 == i;
    }
  }

  // ----- Chunking -----

  lemma FilledAppend(cfg: Config, off: int, m: nat, n: nat)
    ensures Filled(cfg, off, m) + Filled(cfg, off + m, n) == Filled(cfg, off, m + n)
  {
    var a, b := Filled(cfg, off, m), Filled(cfg, off + m, n);
    forall i | 0 <= i < m + n ensures (a + b)[i] == ByteOf(cfg, off + i) {
      assert i >= m ==> b[i - m] == ByteOf(cfg, off + m + (i - m));
    }
  }

  // What filling consecutive chunks of these sizes gives, put together.
  function InChunks(cfg: Config, off: int, sizes: seq<nat>): seq<Byte> {
    if sizes == [] then []
    else
      var front := sizes[..|sizes|-1];
      InChunks(cfg, off, front) + Filled(cfg, off + Sum(front), sizes[|sizes|-1])
  }

  // However a stretch of positions is sliced, the bytes are the same.
  lemma {:induction false} ChunkingIsInvisible(cfg: Config, off: int, sizes: seq<nat>)
    ensures InChunks(cfg, off, sizes) == Filled(cfg, off, Sum(sizes))
  {
    hide ByteOf, Filled;
    if sizes != [] {
      var front, last := sizes[..|sizes|-1], sizes[|sizes|-1];
      ChunkingIsInvisible(cfg, off, front);
      FilledAppend(cfg, off, Sum(front), last);
    }
  }

  // ----- Materializing a target -----

  // Through a file engine: offset writes from one reused buffer.
  method WritePOSIX(f: DirectIO.File, size: nat, buf: array<Byte>, cfg: Config)
    requires buf.Length > 0
    modifies f, buf
    ensures f.contents == Filled(cfg, 0, size)
  {
    f.Truncate(0);
    var off := 0;
    while off < size
      invariant 0 <= off <= size
      invariant f.contents == Filled(cfg, 0, off)
    {
      var n := Min(buf.Length, size - off);
      Fill(buf, n, cfg, off);
      assert buf[..n] == Filled(cfg, off, n);
      f.Pwrite(buf[..n], off);
      FilledAppend(cfg, 0, off, n);
      off := off + n;
    }
  }

  datatype Whence = SeekStart | SeekCurrent | SeekEnd

  // Through an object engine: a source the PUT reads as it likes.
  class FillReadSeeker {
    var off: int
    const size: nat
    const cfg: Config

    constructor (size: nat, cfg: Config)
      ensures this.size == size && this.cfg == cfg && off == 0
    {
      this.off, this.size, this.cfg := 0, size, cfg;
    }

    method Read(p: array<Byte>) returns (n: nat, eof: bool)
      modifies this`off, p
      ensures eof <==> old(off) >= size
      ensures n == if eof then 0 else Min(p.Length, size - old(off))
      ensures off == old(off) + n
      ensures p[..] == Filled(cfg, old(off), n) + old(p[n..])
    {
      if off >= size {
        assert p[..] == Filled(cfg, off, 0) + p[0..];
        return 0, true;
      }
      n := Min(p.Length, size - off);
      Fill(p, n, cfg, off);
      off := off + n;
      eof := false;
    }

    // A position before the start is reported, but kept.
    method Seek(offset: int, whence: Whence) returns (pos: int, ok: bool)
      modifies this`off
      ensures off == match whence
                     case SeekStart => offset
                     case SeekCurrent => old(off) + offset
                     case SeekEnd => size + offset
      ensures ok <==> off >= 0
      ensures pos == if ok then off else 0
    {
      match whence {
        case SeekStart => off := offset;
        case SeekCurrent => off := off + offset;
        case SeekEnd => off := size + offset;
      }
      if off < 0 {
        return 0, false;
      }
      return off, true;
    }
  }

  // A PUT that asks for these many bytes at a time, from the start, until there
  // are no more. It stores exactly what WritePOSIX does once it has asked for
  // enough.
  method Drain(z: FillReadSeeker, asks: seq<nat>) returns (stored: seq<Byte>)
    modifies z
    ensures stored == Filled(z.cfg, 0, Min(z.size, Sum(asks)))
    ensures Sum(asks) >= z.size ==> stored == Filled(z.cfg, 0, z.size)
  {
    var _, _ := z.Seek(0, SeekStart);
    stored := [];
    for i := 0 to |asks|
      invariant z.off == Min(z.size, Sum(asks[..i]))
      invariant stored == Filled(z.cfg, 0, z.off)
    {
      assert asks[..i+1][..i] == asks[..i];
      var p := new Byte[asks[i]];
      ghost var before := z.off;
      var n, eof := z.Read(p);
      assert p[..n] == Filled(z.cfg, before, n);
      FilledAppend(z.cfg, 0, before, n);
      stored := stored + p[..n];
      if eof {
        MoreAsked(asks, i + 1);
        return;
      }
    }
    assert asks[..|asks|] == asks;
  }

  lemma {:induction false} MoreAsked(asks: seq<nat>, i: nat)
    requires i <= |asks|
    ensures Sum(asks[..i]) <= Sum(asks)
  {
    if i == |asks| {
      assert asks[..i] == asks;
    } else {
      MoreAsked(asks[..|asks|-1], i);
      assert asks[..|asks|-1][..i] == asks[..i];
    }
  }
}
