/**
  The sparse copy of a snapshot file: pages of zeros are seeked over and runs of data between
  them are written in one piece.
 */
module SparseCopy {
  import opened Common

  const PAGE := 4096
  const SPARSE_READ := 1048576

  function Zeros(n: nat): seq<Byte> {
    seq(n, _ => 0)
  }

  // what a file of this content reads as when a longer size is asked for
  function Padded(data: seq<Byte>, n: nat): seq<Byte> {
    if n <= |data| then data[..n] else data + Zeros(n - |data|)
  }

  function Least(a: nat, b: nat): nat {
    if a < b then a else b
  }

  predicate PageStart(i: int) {
    i % 4096 == 0
  }

  // the page that starts at i holds nothing but zeros; the last page may be short
  predicate ZeroPage(src: seq<Byte>, i: nat) {
    forall j :: i <= j < Least(i + 4096, |src|) ==> src[j] == 0
  }

  // ---- the destination ----

  datatype Write = Write(start: nat, end: nat)

  class Dest {
    var data: seq<Byte>
    var pos: nat
    ghost var writes: seq<Write>

    // opened for writing: empty
    constructor ()
      ensures data == [] && pos == 0 && writes == []
    {
      data, pos, writes := [], 0, [];
    }

    // writing past the end leaves a hole, which reads as zeros
    method WriteBytes(bytes: seq<Byte>)
      modifies this
      ensures pos == old(pos) + |bytes|
      ensures data == Padded(old(data), old(pos)) + bytes +
                      (if pos < |old(data)| then old(data)[pos..] else [])
      ensures writes == old(writes) + [Write(old(pos), pos)]
    {
      var rest := if pos + |bytes| < |data| then data[pos + |bytes|..] else [];
      data := Padded(data, pos) + bytes + rest;
      writes := writes + [Write(pos, pos + |bytes|)];
      pos := pos + |bytes|;
    }

    method SeekBy(n: nat)
      modifies this
      ensures pos == old(pos) + n && data == old(data) && writes == old(writes)
    {
      pos := pos + n;
    }

    method Truncate(size: nat)
      modifies this
      ensures data == Padded(old(data), size) && pos == old(pos) && writes == old(writes)
    {
      data := Padded(data, size);
    }
  }

  // ---- what the writes cover ----

  ghost predicate Covered(writes: seq<Write>, i: int) {
    exists w :: w in writes && w.start <= i < w.end
  }

  ghost predicate Ordered(writes: seq<Write>) {
    && (forall i :: 0 <= i < |writes| ==> writes[i].start < writes[i].end)
    && (forall i, j :: 0 <= i < j < |writes| ==> writes[i].end <= writes[j].start)
  }

  // Below a position, exactly the pages with something in them have been written.
  ghost predicate WritesData(src: seq<Byte>, writes: seq<Write>, upto: nat) {
    && Ordered(writes)
    && (forall i :: 0 <= i < |writes| ==>
          PageStart(writes[i].start) && writes[i].end <= upto && (PageStart(writes[i].end) || writes[i].end == |src|))
    && (forall i {:trigger Covered(writes, i)} :: 0 <= i < upto && PageStart(i) ==> (Covered(writes, i) <==> !ZeroPage(src, i)))
  }

  ghost predicate CopiedTo(src: seq<Byte>, dst: Dest)
    reads dst
  {
    && |dst.data| <= dst.pos <= |src|
    && Padded(dst.data, dst.pos) == src[..dst.pos]
    && WritesData(src, dst.writes, dst.pos)
  }

  // a write that ends where a page does, or the file, and after the page's start, ends after the page
  lemma WriteEndsAfterPage(src: seq<Byte>, i: nat, w: Write)
    requires PageStart(i) && i < w.end && (PageStart(w.end) || w.end == |src|)
    ensures Least(i + PAGE, |src|) <= w.end
  {
  }

  /** A page with something in it lies in one write whole, and no other write touches it. */
  lemma PageWrittenOnce(src: seq<Byte>, writes: seq<Write>, i: nat) returns (k: nat)
    requires WritesData(src, writes, |src|)
    requires i < |src| && PageStart(i) && !ZeroPage(src, i)
    ensures k < |writes| && writes[k].start <= i && Least(i + PAGE, |src|) <= writes[k].end
    ensures forall j :: 0 <= j < |writes| && j != k ==>
              writes[j].end <= i || Least(i + PAGE, |src|) <= writes[j].start
  {
    assert Covered(writes, i);
    var w :| w in writes && w.start <= i < w.end;
    k :| 0 <= k < |writes| && writes[k] == w;
    WriteEndsAfterPage(src, i, w);
    forall j | 0 <= j < |writes| && j != k
      ensures writes[j].end <= i || Least(i + PAGE, |src|) <= writes[j].start
    {
      assert if j < k then writes[j].end <= writes[k].start else writes[k].end <= writes[j].start;
    }
  }

  lemma SeekOverZeros(src: seq<Byte>, data: seq<Byte>, writes: seq<Write>, pos: nat, n: nat)
    requires |data| <= pos && pos + n <= |src| && PageStart(pos) && n == Least(PAGE, |src| - pos)
    requires Padded(data, pos) == src[..pos] && WritesData(src, writes, pos)
    requires ZeroPage(src, pos)
    ensures Padded(data, pos + n) == src[..pos + n] && WritesData(src, writes, pos + n)
  {
    assert Padded(data, pos + n) == Padded(data, pos) + Zeros(n);
    assert src[..pos + n] == src[..pos] + src[pos..pos + n];
    assert src[pos..pos + n] == Zeros(n);
    forall i | pos <= i < pos + n && PageStart(i) ensures i == pos {
    }
  }

  lemma WriteRun(src: seq<Byte>, writes: seq<Write>, pos: nat, end: nat)
    requires pos < end <= |src| && PageStart(pos) && WritesData(src, writes, pos)
    requires PageStart(end) || end == |src|
    requires forall i :: pos <= i < end && PageStart(i) ==> !ZeroPage(src, i)
    ensures WritesData(src, writes + [Write(pos, end)], end)
  {
    var more := writes + [Write(pos, end)];
    forall i | 0 <= i < end && PageStart(i) ensures Covered(more, i) <==> !ZeroPage(src, i) {
      if i < pos {
        assert Covered(writes, i) ==> Covered(more, i);
        if Covered(more, i) {
          var w :| w in more && w.start <= i < w.end;
          assert w in writes;
        }
      } else {
        assert more[|writes|] in more;
      }
    }
  }

  // write src[dst.pos..end], a run of pages with data in them
  method FlushRun(src: seq<Byte>, run: seq<Byte>, end: nat, dst: Dest)
    requires CopiedTo(src, dst) && PageStart(dst.pos)
    requires dst.pos < end <= |src| && (PageStart(end) || end == |src|)
    requires run == src[dst.pos..end]
    requires forall i :: dst.pos <= i < end && PageStart(i) ==> !ZeroPage(src, i)
    modifies dst
    ensures dst.pos == end && CopiedTo(src, dst)
  {
    WriteRun(src, dst.writes, dst.pos, end);
    assert src[..end] == src[..dst.pos] + src[dst.pos..end];
    dst.WriteBytes(run);
  }

  // Half way through a chunk that starts at base: the run of data that is open, if any, is
  // all that has not reached the destination.
  ghost predicate ChunkState(src: seq<Byte>, base: nat, size: nat, run: int, offset: nat, dst: Dest)
    reads dst
  {
    && PageStart(base) && PageStart(offset) && base + size <= |src|
    && CopiedTo(src, dst)
    && (run == -1 ==> dst.pos == base + Least(offset, size))
    && (run != -1 ==>
          && 0 <= run < offset && run < size && PageStart(run) && dst.pos == base + run
          && forall i :: base + run <= i < base + offset && PageStart(i) ==> !ZeroPage(src, i))
  }

  method CopyPage(src: seq<Byte>, base: nat, chunk: seq<Byte>, offset: nat, run: int, dst: Dest) returns (run': int)
    requires base + |chunk| <= |src| && chunk == src[base..base + |chunk|]
    requires |chunk| == Least(SPARSE_READ, |src| - base) && offset < |chunk|
    requires ChunkState(src, base, |chunk|, run, offset, dst)
    modifies dst
    ensures ChunkState(src, base, |chunk|, run', offset + PAGE, dst)
  {
    var page := chunk[offset..Least(offset + PAGE, |chunk|)];
    PageIsZero(src, base, chunk, offset, page);
    PageStartsAdd(base, offset);
    PageStartsAdd(offset, offset);
    if page == Zeros(|page|) {
      if run != -1 {
        CloseRun(src, base, chunk, offset, run, dst);
      }
      SeekOverZeros(src, dst.data, dst.writes, dst.pos, |page|);
      dst.SeekBy(|page|);
      run' := -1;
    } else {
      run' := if run == -1 then offset else run;
      OnlyPageStart(base + offset);
    }
  }

  lemma OnlyPageStart(i: nat)
    requires PageStart(i)
    ensures forall j :: i <= j < i + PAGE && PageStart(j) ==> j == i
  {
  }

  lemma PageStartsAdd(i: nat, j: nat)
    requires PageStart(i) && PageStart(j)
    ensures PageStart(i + j) && PageStart(i + PAGE)
  {
  }

  lemma SliceOfSlice(src: seq<Byte>, base: nat, n: nat, i: nat, j: nat)
    requires base + n <= |src| && i <= j <= n
    ensures src[base..base + n][i..j] == src[base + i..base + j]
  {
    var slice := src[base..base + n][i..j];
    assert forall k :: 0 <= k < |slice| ==> slice[k] == src[base + i..base + j][k];
  }

  method CloseRun(src: seq<Byte>, base: nat, chunk: seq<Byte>, offset: nat, run: nat, dst: Dest)
    requires base + |chunk| <= |src| && chunk == src[base..base + |chunk|] && offset < |chunk|
    requires ChunkState(src, base, |chunk|, run, offset, dst)
    modifies dst
    ensures ChunkState(src, base, |chunk|, -1, offset, dst)
  {
    PageStartsAdd(base, offset);
    PageStartsAdd(base, run);
    SliceOfSlice(src, base, |chunk|, run, offset);
    FlushRun(src, chunk[run..offset], base + offset, dst);
  }

  /**
    Copy one chunk, page by page. A run of data stays open until a zero page or the end of
    the chunk closes it.
   */
  method CopyChunk(src: seq<Byte>, base: nat, chunk: seq<Byte>, dst: Dest)
    requires CopiedTo(src, dst) && dst.pos == base && PageStart(base)
    requires base + |chunk| <= |src| && chunk == src[base..base + |chunk|]
    requires |chunk| == Least(SPARSE_READ, |src| - base)
    modifies dst
    ensures CopiedTo(src, dst) && dst.pos == base + |chunk|
  {
    var run := -1;
    var offset := 0;
    while offset < |chunk|
      invariant 0 <= offset && ChunkState(src, base, |chunk|, run, offset, dst)
      decreases |chunk| - offset
    {
      run := CopyPage(src, base, chunk, offset, run, dst);
      offset := offset + PAGE;
    }
    if run != -1 {
      assert PageStart(base + |chunk|) || base + |chunk| == |src|;
      SliceOfSlice(src, base, |chunk|, run, |chunk|);
      assert chunk[run..] == chunk[run..|chunk|];
      FlushRun(src, chunk[run..], base + |chunk|, dst);
    }
  }

  lemma PageIsZero(src: seq<Byte>, base: nat, chunk: seq<Byte>, offset: nat, page: seq<Byte>)
    requires base + |chunk| <= |src| && chunk == src[base..base + |chunk|]
    requires |chunk| == Least(SPARSE_READ, |src| - base) && offset < |chunk| && PageStart(offset)
    requires page == chunk[offset..Least(offset + PAGE, |chunk|)]
    ensures |page| == Least(PAGE, |src| - (base + offset))
    ensures page == Zeros(|page|) <==> ZeroPage(src, base + offset)
  {
    assert SPARSE_READ % PAGE == 0;
    assert forall j :: 0 <= j < |page| ==> page[j] == src[base + offset + j];
    if ZeroPage(src, base + offset) {
      forall j | 0 <= j < |page| ensures page[j] == 0 {
        assert src[base + offset + j] == 0;
      }
      assert page == Zeros(|page|);
    }
    if page == Zeros(|page|) {
      forall j | base + offset <= j < Least(base + offset + PAGE, |src|) ensures src[j] == 0 {
        assert page[j - base - offset] == Zeros(|page|)[j - base - offset];
      }
    }
  }

  /**
    The copy is identical to the source, byte for byte and in length. Every page with a
    nonzero byte is written, once, and no page of zeros is.
   */
  method Copy(src: seq<Byte>) returns (dst: Dest)
    ensures fresh(dst) && dst.data == src
    ensures WritesData(src, dst.writes, |src|)
  {
    dst := new Dest();
    var tell := 0;
    while tell < |src|
      invariant 0 <= tell <= |src|
      invariant tell < |src| ==> PageStart(tell)
      invariant fresh(dst) && CopiedTo(src, dst) && dst.pos == tell
    {
      var chunk := src[tell..Least(tell + SPARSE_READ, |src|)];
      CopyChunk(src, tell, chunk, dst);
      tell := tell + |chunk|;
    }
    dst.Truncate(tell);
    assert src[..|src|] == src;
  }
}
