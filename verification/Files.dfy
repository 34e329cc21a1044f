// Byte contents of files and objects: what positional reads, positional writes,
// and truncation mean.
module Files {
  import opened Arithmetic

  type Byte = b: int | 0 <= b < 256

  function Zeros(n: nat): (r: seq<Byte>)
    ensures |r| == n && forall i :: 0 <= i < n ==> r[i] == 0
  {
    seq(n, _ => 0)
  }

  // A byte past the end reads as the zero a later extension would put there.
  function At(file: seq<Byte>, i: nat): Byte {
    if i < |file| then file[i] else 0
  }

  function Truncated(file: seq<Byte>, size: nat): (r: seq<Byte>)
    ensures |r| == size && forall i :: 0 <= i < size ==> r[i] == At(file, i)
  {
    if size <= |file| then file[..size] else file + Zeros(size - |file|)
  }

  // A positional write: data at off, the rest kept, any gap zero. Writing
  // nothing extends nothing.
  function Written(file: seq<Byte>, off: nat, data: seq<Byte>): (r: seq<Byte>)
    ensures |r| == if data == [] then |file| else Max(|file|, off + |data|)
    ensures forall i :: 0 <= i < |r| ==>
              r[i] == if off <= i < off + |data| then data[i - off] else At(file, i)
  {
    if data == [] then file
    else
      var end := off + |data|;
      Truncated(file, off) + data + (if end < |file| then file[end..] else [])
  }

  // A positional read of up to n bytes.
  function ReadAt(file: seq<Byte>, off: nat, n: nat): (r: seq<Byte>)
    ensures |r| == Max(0, Min(n, |file| - off))
    ensures forall i :: 0 <= i < |r| ==> r[i] == file[off + i]
  {
    if off >= |file| then [] else file[off..off + Min(n, |file| - off)]
  }

}
