/** Files as the kernel shows them: a path leads to bytes; short writes, holes and renames included. */
module Storage {
  import opened Decimal

  newtype byte = x: int | 0 <= x < 256

  type Bytes = seq<byte>
  type Disk = map<string, Bytes>

  const BLOCK_SIZE: nat := 4096

  /** A path that can name a block: absolute, and ending in a file number. */
  predicate IsBlockName(p: string) {
    p != [] && p[0] == '/' && IsDigit(p[|p| - 1])
  }

  /** `Helper::GenerateTempPath`. */
  function Tmp(p: string): string {
    p + ".tmp"
  }

  /** `GetUndoFileName`. */
  function Undo(p: string): string {
    p + ".undo"
  }

  lemma {:induction false} TmpIsNotABlock(p: string)
    ensures !IsBlockName(Tmp(p)) && !IsBlockName(Undo(p))
  {
    assert Tmp(p)[|Tmp(p)| - 1] == 'p' && Undo(p)[|Undo(p)| - 1] == 'o';
  }

  lemma {:induction false} TmpInjective(p: string, q: string)
    requires Tmp(p) == Tmp(q)
    ensures p == q
  {
    assert p == Tmp(p)[..|Tmp(p)| - 4] && q == Tmp(q)[..|Tmp(q)| - 4];
  }

  function Min(a: nat, b: nat): nat {
    if a <= b then a else b
  }

  function Max(a: nat, b: nat): nat {
    if a <= b then b else a
  }

  /** The byte at position `i` of a file, zero past its end. */
  function ByteAt(c: Bytes, i: nat): byte {
    if i < |c| then c[i] else 0
  }

  /** `pwrite`: data lands at `off`, a gap before it reads as zeros, nothing is cut off. */
  function Overwrite(c: Bytes, data: Bytes, off: nat): (r: Bytes)
    ensures data == [] ==> r == c
    ensures data != [] ==> |r| == Max(|c|, off + |data|)
    ensures forall i {:trigger ByteAt(r, i)} :: 0 <= i ==> ByteAt(r, i) == if off <= i < off + |data| then data[i - off] else ByteAt(c, i)
  {
    if data == [] then c
    else seq(Max(|c|, off + |data|), i requires 0 <= i =>
               if off <= i < off + |data| then data[i - off] else ByteAt(c, i))
  }

  lemma {:induction false} SameBytes(a: Bytes, b: Bytes)
    requires |a| == |b| && forall i :: 0 <= i < |a| ==> ByteAt(a, i) == ByteAt(b, i)
    ensures a == b
  {
    forall i | 0 <= i < |a|
      ensures a[i] == b[i]
    {
      assert ByteAt(a, i) == ByteAt(b, i);
    }
  }

  /** What `read` of at most one block returns. */
  function FirstBlock(c: Bytes): Bytes {
    c[..Min(|c|, BLOCK_SIZE)]
  }

  /** What `WriteToTempFile` leaves in a temp file that held `stale` before. */
  function Staged(stale: Bytes, original: Bytes, data: Bytes, off: nat): Bytes {
    Overwrite(Overwrite(stale, FirstBlock(original), 0), data, off)
  }

  lemma {:induction false} StagedLength(stale: Bytes, original: Bytes, data: Bytes, off: nat)
    requires data != []
    ensures |Staged(stale, original, data, off)| == Max(|stale|, Max(Min(|original|, BLOCK_SIZE), off + |data|))
  {
  }

  lemma {:induction false} StagedByte(stale: Bytes, original: Bytes, data: Bytes, off: nat, i: nat)
    requires data != []
    ensures ByteAt(Staged(stale, original, data, off), i)
            == if off <= i < off + |data| then data[i - off]
               else if i < Min(|original|, BLOCK_SIZE) then original[i] else ByteAt(stale, i)
  {
    var first := FirstBlock(original);
    assert ByteAt(Overwrite(stale, first, 0), i) == if i < |first| then first[i] else ByteAt(stale, i);
  }

  /** Old temp bytes that would show through a new write. */
  predicate StaleShowsThrough(stale: Bytes, original: Bytes, data: Bytes, off: nat) {
    || |stale| > Max(|original|, off + |data|)
    || exists i :: |original| <= i < Min(off, |stale|) && stale[i] != 0
  }

  /** Exactly when reuse of an untruncated temp file corrupts the block that is written. */
  lemma {:induction false} StagedExact(stale: Bytes, original: Bytes, data: Bytes, off: nat)
    requires |original| <= BLOCK_SIZE && data != []
    ensures Staged(stale, original, data, off) == Overwrite(original, data, off)
            <==> !StaleShowsThrough(stale, original, data, off)
  {
    assert FirstBlock(original) == original;
    var copied := Overwrite(stale, original, 0);
    assert |copied| == Max(|stale|, |original|);
    var got, want := Staged(stale, original, data, off), Overwrite(original, data, off);
    assert |got| == Max(|copied|, off + |data|);
    if got == want {
      forall i | |original| <= i < Min(off, |stale|)
        ensures stale[i] == 0
      {
        assert ByteAt(got, i) == ByteAt(copied, i) == ByteAt(stale, i);
        assert ByteAt(want, i) == 0;
      }
    }
    if !StaleShowsThrough(stale, original, data, off) {
      forall i | 0 <= i < |got|
        ensures ByteAt(got, i) == ByteAt(want, i)
      {
        assert ByteAt(copied, i) == if i < |original| then original[i] else ByteAt(stale, i);
      }
      SameBytes(got, want);
    }
  }

  /** The C string at the start of a buffer: what `string(buf)` keeps of it. */
  function CString(b: Bytes): (r: Bytes)
    ensures |r| <= |b| && r == b[..|r|] && 0 !in r
    ensures |r| < |b| ==> b[|r|] == 0
  {
    if b == [] || b[0] == 0 then [] else [b[0]] + CString(b[1..])
  }

  lemma {:induction false} CStringWhole(b: Bytes)
    ensures CString(b) == b <==> 0 !in b
  {
  }

  lemma {:induction false} CStringConcat(a: Bytes, b: Bytes)
    ensures CString(a + b) == if 0 in a then CString(a) else a + CString(b)
  {
    if a == [] {
      assert a + b == b;
    } else {
      assert (a + b)[1..] == a[1..] + b;
      assert 0 in a <==> a[0] == 0 || 0 in a[1..];
      CStringConcat(a[1..], b);
    }
  }

  /** The `size` bytes that a system call finds at `content.c_str()`: the content, its terminator, then whatever
      lies behind it in memory. */
  function InMemory(content: Bytes, size: nat, behind: Bytes): (r: Bytes)
    ensures |r| == size
  {
    seq(size, i requires 0 <= i =>
          if i < |content| then content[i] else if i == |content| then 0 else ByteAt(behind, i - |content| - 1))
  }

  lemma {:induction false} TerminatedInMemory(content: Bytes, size: nat, behind: Bytes)
    requires size <= |content| + 1 + |behind|
    ensures InMemory(content, size, behind) == (content + [0] + behind)[..size]
  {
    forall i | 0 <= i < size
      ensures InMemory(content, size, behind)[i] == (content + [0] + behind)[i]
    {
      if i > |content| {
        assert ByteAt(behind, i - |content| - 1) == behind[i - |content| - 1];
      }
    }
  }

  /** A buffer of `size` zeros after `pread(fd, buf, size, off)`. */
  function Window(c: Bytes, off: nat, size: nat): (r: Bytes)
    ensures |r| == size
  {
    seq(size, i requires 0 <= i => ByteAt(c, off + i))
  }

  /** `rename`: atomic, replaces the target, fails without effect when the source is missing. */
  function Renamed(d: Disk, src: string, dst: string): Disk {
    if src in d then (d - {src})[dst := d[src]] else d
  }

  predicate SameAt(d: Disk, e: Disk, p: string) {
    (p in d <==> p in e) && (p in d ==> d[p] == e[p])
  }

  /** Two disks that hold the same blocks. */
  ghost predicate SameBlocks(d: Disk, e: Disk) {
    forall p :: IsBlockName(p) ==> SameAt(d, e, p)
  }

  function StaleOf(d: Disk, p: string): Bytes {
    if Tmp(p) in d then d[Tmp(p)] else []
  }
}
