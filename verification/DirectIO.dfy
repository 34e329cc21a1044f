// O_DIRECT reads and writes through an aligned staging buffer
// (pkg/engine/localfile/direct_linux.go:47-154) against plain positional I/O.
module DirectIO {
  import opened Files
  import opened Arithmetic

  // ----- Alignment by masks -----

  // x &^ m on non-negative integers, bit by bit.
  function AndNot(x: nat, m: nat): nat {
    if x == 0 then 0
    else (if x % 2 == 1 && m % 2 == 0 then 1 else 0) + 2 * AndNot(x / 2, m / 2)
  }

  predicate PowerOfTwo(a: int) {
    a == 1 || (a > 1 && a % 2 == 0 && PowerOfTwo(a / 2))
  }

  function AlignUp(x: nat, a: nat): nat
    requires a > 0
  {
    AndNot(x + a - 1, a - 1)
  }

  function AlignDown(x: nat, a: nat): nat
    requires a > 0
  {
    AndNot(x, a - 1)
  }

  lemma {:induction false} AndNotZero(x: nat)
    ensures AndNot(x, 0) == x
  {
    if x > 0 {
      AndNotZero(x / 2);
    }
  }

  lemma RemainderOfHalf(x: nat, a: nat)
    requires a > 1 && a % 2 == 0
    ensures x % a == 2 * ((x / 2) % (a / 2)) + x % 2
  {
    var half := a / 2;
    var q, r := (x / 2) / half, (x / 2) % half;
    assert x / 2 == half * q + r;
    assert a * q == 2 * (half * q);
    QuotientRemainder(x, a, q, 2 * r + x % 2);
  }

  // Dropping the low bits rounds down to a multiple.
  lemma {:induction false} AndNotMask(x: nat, a: nat)
    requires PowerOfTwo(a)
    ensures AndNot(x, a - 1) == x - x % a
    decreases a
  {
    if a == 1 {
      AndNotZero(x);
    } else {
      AndNotMask(x / 2, a / 2);
      RemainderOfHalf(x, a);
      HalfMask(x, a - 1, a / 2 - 1);
    }
  }

  lemma HalfMask(x: nat, m: nat, half: nat)
    requires m == 2 * half + 1
    ensures AndNot(x, m) == 2 * AndNot(x / 2, half)
  {
    assert m / 2 == half;
  }

  lemma AlignMeaning(x: nat, a: nat)
    requires PowerOfTwo(a)
    ensures AlignDown(x, a) == x - x % a
    ensures AlignUp(x, a) == (x + a - 1) - (x + a - 1) % a
  {
    AndNotMask(x, a);
    AndNotMask(x + a - 1, a);
  }

  predicate IsMultiple(x: int, a: int)
    requires a > 0
  {
    x % a == 0
  }

  // Multiples of a lie at least a apart.
  lemma MultiplesApart(x: int, y: int, a: int)
    requires a > 0 && IsMultiple(x, a) && IsMultiple(y, a) && x < y + a
    ensures x <= y
  {
    var p, q := x / a, y / a;
    assert x == a * p && y == a * q;
    assert a * (p - q) == a * p - a * q;
    ProductAtLeast(a, p - q);
  }

  lemma RoundedIsMultiple(x: int, a: int)
    requires a > 0
    ensures IsMultiple(x - x % a, a)
  {
    assert x - x % a == a * (x / a) + 0;
    QuotientRemainder(x - x % a, a, x / a, 0);
  }

  // AlignUp is the least multiple at or above x, AlignDown the greatest at or
  // below it.
  lemma AlignIsNearest(x: nat, a: nat, m: nat)
    requires PowerOfTwo(a) && IsMultiple(m, a)
    ensures IsMultiple(AlignUp(x, a), a) && x <= AlignUp(x, a) && (x <= m ==> AlignUp(x, a) <= m)
    ensures IsMultiple(AlignDown(x, a), a) && AlignDown(x, a) <= x && (m <= x ==> m <= AlignDown(x, a))
  {
    AlignMeaning(x, a);
    hide AlignUp, AlignDown, PowerOfTwo, IsMultiple;
    RoundedIsMultiple(x, a);
    RoundedIsMultiple(x + a - 1, a);
    if x <= m {
      MultiplesApart(AlignUp(x, a), m, a);
    }
    if m <= x {
      MultiplesApart(m, AlignDown(x, a), a);
    }
  }

  // The block boundaries around [off, off + len).
  lemma Window(off: nat, len: nat, a: nat)
    requires PowerOfTwo(a)
    ensures AlignDown(off, a) <= off < AlignDown(off, a) + a
    ensures off + len <= AlignUp(off + len, a)
  {
    AlignMeaning(off, a);
    AlignMeaning(off + len, a);
  }

  // ----- The file -----

  // An open regular file: the operating system's positional calls.
  class File {
    var contents: seq<Byte>

    constructor (contents: seq<Byte>)
      ensures this.contents == contents
    {
      this.contents := contents;
    }

    // One pread: as many bytes as there are, up to the buffer's length.
    method Pread(buf: array<Byte>, off: nat) returns (n: nat)
      modifies buf
      ensures n == |ReadAt(contents, off, buf.Length)| <= buf.Length
      ensures buf[..] == ReadAt(contents, off, buf.Length) + old(buf[n..])
    {
      var got := ReadAt(contents, off, buf.Length);
      n := |got|;
      for i := 0 to n
        invariant buf[..i] == got[..i] && buf[i..] == old(buf[i..])
      {
        buf[i] := got[i];
      }
    }

    method Pwrite(data: seq<Byte>, off: nat)
      modifies this
      ensures contents == Written(old(contents), off, data)
    {
      contents := Written(contents, off, data);
    }

    method Truncate(size: nat)
      modifies this
      ensures contents == Truncated(old(contents), size)
    {
      contents := Truncated(contents, size);
    }
  }

  // ----- Writing -----

  // What the read-modify-write writes back: the old blocks with data patched in.
  function StagedAt(file: seq<Byte>, off: nat, data: seq<Byte>, i: nat): Byte {
    if off <= i < off + |data| then data[i - off] else At(file, i)
  }

  function Staged(file: seq<Byte>, off: nat, data: seq<Byte>, start: nat, end: nat): (r: seq<Byte>)
    requires start <= off && off + |data| <= end
    ensures |r| == end - start
    ensures forall i :: 0 <= i < |r| ==> r[i] == StagedAt(file, off, data, start + i)
  {
    seq<Byte>(end - start, i requires 0 <= i < end - start => StagedAt(file, off, data, start + i))
  }

  // Writing whole blocks and cutting the file back to its intended length is a
  // plain write: the blocks around the data only restore what was there.
  lemma BlocksRefineWrite(file: seq<Byte>, off: nat, data: seq<Byte>, start: nat, end: nat)
    requires data != [] && start <= off && off + |data| <= end
    ensures var want := Max(|file|, off + |data|);
            var blocks := Written(file, start, Staged(file, off, data, start, end));
            (if end > want then Truncated(blocks, want) else blocks) == Written(file, off, data)
  {
    hide Truncated;
    var want := Max(|file|, off + |data|);
    var blocks := Written(file, start, Staged(file, off, data, start, end));
    hide Written, Staged;
    var result := if end > want then Truncated(blocks, want) else blocks;
    assert |result| == want;
    forall i | 0 <= i < want ensures result[i] == Written(file, off, data)[i] {
      assert i < |blocks|;
    }
  }

  method AlignedWriteAt(f: File, data: seq<Byte>, off: nat, align: nat) returns (n: nat)
    requires PowerOfTwo(align)
    modifies f
    ensures n == |data|
    ensures f.contents == Written(old(f.contents), off, data)
  {
    if |data| == 0 {
      return 0;
    }
    var origSize := |f.contents|;
    Window(off, |data|, align);
    hide AlignUp, AlignDown;
    var alignedOff := AlignDown(off, align);
    var alignedEnd := AlignUp(off + |data|, align);
    var alignedLen := alignedEnd - alignedOff;

    var staging := ReadBlocks(f, alignedOff, alignedLen);
    Patch(staging, off - alignedOff, data);
    assert staging[..] == Staged(f.contents, off, data, alignedOff, alignedEnd);
    BlocksRefineWrite(f.contents, off, data, alignedOff, alignedEnd);
    f.Pwrite(staging[..], alignedOff);

    var want := origSize;
    if off + |data| > want {
      want := off + |data|;
    }
    if alignedEnd > want {
      f.Truncate(want);
    }
    n := |data|;
  }

  // The window of a file, zero where the file has ended.
  method ReadBlocks(f: File, off: nat, len: nat) returns (staging: array<Byte>)
    ensures fresh(staging) && staging.Length == len
    ensures forall i :: 0 <= i < len ==> staging[i] == At(f.contents, off + i)
  {
    staging := new Byte[len](_ => 0);
    ghost var zeros := staging[..];
    var n := f.Pread(staging, off);
    assert staging[..] == ReadAt(f.contents, off, len) + zeros[n..];
    forall i | 0 <= i < len ensures staging[i] == At(f.contents, off + i) {
      assert staging[i] == staging[..][i];
    }
  }

  // copy(staging[start:], data).
  method Patch(staging: array<Byte>, start: nat, data: seq<Byte>)
    requires start + |data| <= staging.Length
    modifies staging
    ensures forall i :: 0 <= i < staging.Length ==>
              staging[i] == if start <= i < start + |data| then data[i - start] else old(staging[i])
  {
    for k := 0 to |data|
      invariant forall i :: 0 <= i < staging.Length ==>
                  staging[i] == if start <= i < start + k then data[i - start] else old(staging[i])
    {
      staging[start + k] := data[k];
    }
  }

  // ----- Reading -----

  // What the buffered path reports: a read that got nothing of something, or
  // less than it asked for, is short.
  predicate PlainReadIsShort(file: seq<Byte>, off: nat, len: nat) {
    |ReadAt(file, off, len)| < len
  }

  // The direct path also calls a read of nothing short, when the block it would
  // stage is empty or the file ends before the offset.
  predicate EmptyReadIsShort(file: seq<Byte>, off: nat, len: nat, align: nat)
    requires align > 0
  {
    len == 0 && (off % align == 0 || off >= |file|)
  }

  // Reading nothing at the start of a file of one byte, in blocks of 512.
  lemma EmptyReadDiffers()
    ensures PowerOfTwo(512)
    ensures EmptyReadIsShort([7], 0, 0, 512) && !PlainReadIsShort([7], 0, 0)
  {
    assert PowerOfTwo(8) && PowerOfTwo(64);
  }

  // copy(buf[:n], staging[from:from+n]).
  method CopyOut(buf: array<Byte>, staging: array<Byte>, from: nat, n: nat)
    requires buf != staging && from + n <= staging.Length && n <= buf.Length
    modifies buf
    ensures buf[..n] == staging[from..from + n] && buf[n..] == old(buf[n..])
  {
    for k := 0 to n
      invariant buf[..k] == staging[from..from + k]
      invariant buf[k..] == old(buf[k..])
    {
      buf[k] := staging[from + k];
    }
  }

  // What the staged bytes say of the requested window.
  lemma WindowOutcome(file: seq<Byte>, off: nat, len: nat, align: nat, start: nat, end: nat)
    requires align > 0 && start <= off && off + len <= end && off < start + align
    requires len == 0 ==> if off % align == 0 then end == start == off else off < end
    ensures var available := |ReadAt(file, start, end - start)| - (off - start);
            && (available <= 0 ==>
                  ReadAt(file, off, len) == [] &&
                  (PlainReadIsShort(file, off, len) || EmptyReadIsShort(file, off, len, align)))
            && (available > 0 ==>
                  && |ReadAt(file, off, len)| == Min(available, len)
                  && (available < len <==> PlainReadIsShort(file, off, len))
                  && !EmptyReadIsShort(file, off, len, align))
    ensures PlainReadIsShort(file, off, len) ==> !EmptyReadIsShort(file, off, len, align)
  {
  }

  method AlignedReadAt(f: File, buf: array<Byte>, off: nat, len: nat, align: nat) returns (n: nat, short: bool)
    requires PowerOfTwo(align) && len <= buf.Length
    modifies buf
    ensures n == |ReadAt(f.contents, off, len)| && buf[..n] == ReadAt(f.contents, off, len)
    ensures buf[n..] == old(buf[n..])
    ensures short <==> PlainReadIsShort(f.contents, off, len) || EmptyReadIsShort(f.contents, off, len, align)
    ensures short == PlainReadIsShort(f.contents, off, len) <==> !EmptyReadIsShort(f.contents, off, len, align)
  {
    hide AlignUp, AlignDown, PlainReadIsShort, EmptyReadIsShort;
    Window(off, len, align);
    EmptyWindow(off, align);
    var alignedOff := AlignDown(off, align);
    var alignedEnd := AlignUp(off + len, align);
    WindowOutcome(f.contents, off, len, align, alignedOff, alignedEnd);
    var alignedLen := alignedEnd - alignedOff;
    var staging := new Byte[alignedLen](_ => 0);
    var got := f.Pread(staging, alignedOff);
    ghost var whole := ReadAt(f.contents, alignedOff, alignedLen);
    assert staging[..got] == whole;

    var windowStart := off - alignedOff;
    var available := got - windowStart;
    if available <= 0 {
      return 0, true;
    }
    if available > len {
      available := len;
    }
    CopyOut(buf, staging, windowStart, available);
    n := available;
    assert buf[..n] == whole[windowStart..windowStart + n];
    short := available < len;
  }

  lemma RemainderBelow(x: int, a: int)
    requires a > 0
    ensures (x + a - 1) % a == if x % a == 0 then a - 1 else x % a - 1
  {
    var q, r := x / a, x % a;
    assert x == a * q + r;
    if r == 0 {
      QuotientRemainder(x + a - 1, a, q, a - 1);
    } else {
      assert a * (q + 1) == a * q + a;
      QuotientRemainder(x + a - 1, a, q + 1, r - 1);
    }
  }

  // The staging window of an empty read.
  lemma EmptyWindow(off: nat, align: nat)
    requires PowerOfTwo(align)
    ensures off % align == 0 ==> AlignDown(off, align) == off && AlignUp(off, align) == off
    ensures off % align != 0 ==> AlignDown(off, align) < off < AlignUp(off, align)
  {
    AlignMeaning(off, align);
    hide AlignUp, AlignDown, PowerOfTwo;
    RemainderBelow(off, align);
  }
}
