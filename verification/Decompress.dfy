/** Copying a decompressed stream, buffer by buffer, into the pages that a read asked for. */
module Decompress {
  import opened Tree

  import opened Words

  class Page {
    const offset: nat            // page_offset: where the page lies in the file
    const data: array<Byte>

    constructor (offset: nat, size: nat)
      ensures this.offset == offset && fresh(data) && data.Length == size
    {
      this.offset := offset;
      data := new Byte[size](_ => 0);
    }
  }

  datatype BioVec = BioVec(page: Page, offset: nat, len: nat)

  /** A bio and its iterator: bi_idx, bi_bvec_done and bi_size. */
  class Bio {
    const vecs: seq<BioVec>
    var idx: nat
    var done: nat
    var size: nat

    constructor (vecs: seq<BioVec>, origin: int)
      requires SoundVecs(vecs, origin) && vecs != []
      ensures this.vecs == vecs && idx == 0 && done == 0 && Valid(origin)
    {
      this.vecs := vecs;
      idx, done, size := 0, 0, Bytes(vecs, 0);
    }

    ghost predicate Valid(origin: int)
      reads this
    {
      && SoundVecs(vecs, origin)
      && idx <= |vecs| && (if idx < |vecs| then done < vecs[idx].len else done == 0)
      && size == Bytes(vecs, idx) - done
    }

    /** Byte j of vector k has been copied to. */
    predicate Passed(k: nat, j: nat)
      reads this
    {
      k < idx || (k == idx && j < done)
    }

    /** Every byte passed so far is the byte of the extent that belongs there. */
    ghost predicate Filled(origin: int, d: seq<Byte>)
      requires SoundVecs(vecs, origin)
      reads this, Arrays(vecs)
    {
      forall k: nat, j: nat :: InVec(vecs, k, j) && Passed(k, j) ==>
        Place(vecs[k], origin) + j < |d| && ByteOf(vecs, k, j) == d[Place(vecs[k], origin) + j]
    }

    /** Where the next byte lies in the extent. */
    ghost function Next(origin: int): int
      requires idx < |vecs|
      reads this
    {
      Place(vecs[idx], origin) + done
    }

    /** bio_iter_iovec */
    method IoVec() returns (v: BioVec)
      requires idx < |vecs| && done <= vecs[idx].len
      ensures v == BioVec(vecs[idx].page, vecs[idx].offset + done, vecs[idx].len - done)
    {
      v := BioVec(vecs[idx].page, vecs[idx].offset + done, vecs[idx].len - done);
    }

    /** bio_advance, within the current vector. */
    method Advance(n: nat, ghost origin: int)
      requires Valid(origin) && idx < |vecs| && 0 < n <= vecs[idx].len - done
      modifies this`idx, this`done, this`size
      ensures Valid(origin) && size == old(size) - n
      ensures forall k: nat, j: nat :: InVec(vecs, k, j) ==>
                (Passed(k, j) <==> old(Passed(k, j)) || (k == old(idx) && old(done) <= j < old(done) + n))
      ensures idx < |vecs| ==> Next(origin) >= old(Next(origin)) + n
      ensures size == 0 <==> idx == |vecs|
    {
      BytesStep(vecs, idx);
      done, size := done + n, size - n;
      if done == vecs[idx].len {
        idx, done := idx + 1, 0;
      }
      if idx < |vecs| {
        BytesStep(vecs, idx);
      }
    }
  }

  /** Byte j of vector k. */
  predicate InVec(vecs: seq<BioVec>, k: nat, j: nat) {
    k < |vecs| && j < vecs[k].len && vecs[k].offset + j < vecs[k].page.data.Length
  }

  function ByteOf(vecs: seq<BioVec>, k: nat, j: nat): Byte
    requires InVec(vecs, k, j)
    reads vecs[k].page.data
  {
    vecs[k].page.data[vecs[k].offset + j]
  }

  /** Bytes of the vectors from k on. */
  function Bytes(vecs: seq<BioVec>, k: nat): nat
    requires k <= |vecs|
    decreases |vecs| - k
  {
    if k == |vecs| then 0 else vecs[k].len + Bytes(vecs, k + 1)
  }

  lemma BytesStep(vecs: seq<BioVec>, k: nat)
    requires k < |vecs|
    ensures Bytes(vecs, k) == vecs[k].len + Bytes(vecs, k + 1)
  {
  }

  function Arrays(vecs: seq<BioVec>): set<array<Byte>> {
    set k | 0 <= k < |vecs| :: vecs[k].page.data
  }

  /** Where a vector starts in the decompressed extent; origin is the extent's start in
      the file, which may lie before 0. */
  function Place(v: BioVec, origin: int): int {
    v.page.offset + v.offset - origin
  }

  /** Non-empty vectors, in rising order and apart, with gaps allowed. */
  ghost predicate SoundVecs(vecs: seq<BioVec>, origin: int) {
    && (forall k :: 0 <= k < |vecs| ==> SoundVec(vecs[k], origin))
    && (forall k, l :: 0 <= k < l < |vecs| ==> Place(vecs[k], origin) + vecs[k].len <= Place(vecs[l], origin))
    && (forall k, l :: 0 <= k < l < |vecs| && vecs[k].page.data == vecs[l].page.data
            ==> vecs[k].page.offset == vecs[l].page.offset)
  }

  predicate SoundVec(v: BioVec, origin: int) {
    0 < v.len && v.offset + v.len <= v.page.data.Length && 0 <= Place(v, origin) && Place(v, origin) + v.len < U32
  }

  /** No two bytes of the bio share their memory. */
  lemma NoAliases(vecs: seq<BioVec>, origin: int, k: nat, j: nat, l: nat, i: nat)
    requires SoundVecs(vecs, origin) && k < |vecs| && l < |vecs| && j < vecs[k].len && i < vecs[l].len
    requires vecs[k].page.data == vecs[l].page.data && vecs[k].offset + j == vecs[l].offset + i
    ensures k == l && j == i
  {
  }

  /** The subtraction in 32 bits gives the place in the extent, even when the start has
      wrapped around. */
  lemma OffsetInExtent(file: nat, origin: int, start: nat)
    requires start == origin % U64 && 0 <= file - origin < U32
    ensures (file - start) % U32 == file - origin
  {
    var q := origin / U64;
    assert origin == q * U64 + start;
    assert file - start == (file - origin) + q * U64;
    assert q * U64 == (q * U32) * U32;
    Remainder(file - origin, q * U32);
  }

  lemma Remainder(x: int, q: int)
    requires 0 <= x < U32
    ensures (x + q * U32) % U32 == x
  {
  }

  function Max(a: int, b: int): int {
    if a > b then a else b
  }

  function Min(a: int, b: int): int {
    if a < b then a else b
  }

  /** memcpy_to_page */
  method CopyToPage(page: Page, offset: nat, bytes: seq<Byte>)
    requires offset + |bytes| <= page.data.Length
    modifies page.data
    ensures forall i :: 0 <= i < page.data.Length ==>
              page.data[i] == if offset <= i < offset + |bytes| then bytes[i - offset] else old(page.data[i])
  {
    forall i | 0 <= i < |bytes| {
      page.data[offset + i] := bytes[i];
    }
  }

  /** memcpy_to_page, seen from the bio: n bytes from the current position on. */
  method CopyWindow(bio: Bio, n: nat, bytes: seq<Byte>, ghost origin: int)
    requires SoundVecs(bio.vecs, origin) && bio.idx < |bio.vecs| && |bytes| == n
             && bio.done + n <= bio.vecs[bio.idx].len
    modifies Arrays(bio.vecs)
    ensures forall k: nat, j: nat :: InVec(bio.vecs, k, j) ==>
              ByteOf(bio.vecs, k, j) == if k == bio.idx && bio.done <= j < bio.done + n then bytes[j - bio.done]
                else old(ByteOf(bio.vecs, k, j))
    ensures forall a, i :: a in Arrays(bio.vecs) && 0 <= i < a.Length && !Covered(bio.vecs, a, i) ==> a[i] == old(a[i])
  {
    var v := bio.IoVec();
    CopyToPage(v.page, v.offset, bytes);
    forall k: nat, j: nat | InVec(bio.vecs, k, j)
        && bio.vecs[k].page.data == v.page.data && v.offset <= bio.vecs[k].offset + j < v.offset + n
      ensures k == bio.idx && bio.done <= j < bio.done + n
    {
      NoAliases(bio.vecs, origin, k, j, bio.idx, bio.vecs[k].offset + j - v.offset + bio.done);
    }
  }

  /** One copy of btrfs_decompress_buf2page: the current vector gets n bytes. */
  method CopyOne(bio: Bio, n: nat, bytes: seq<Byte>, ghost origin: int, ghost d: seq<Byte>)
    requires bio.Valid(origin) && bio.idx < |bio.vecs| && 0 < n == |bytes| <= bio.vecs[bio.idx].len - bio.done
    requires bio.Filled(origin, d) && bio.Next(origin) + n <= |d| && bytes == d[bio.Next(origin)..bio.Next(origin) + n]
    modifies bio`idx, bio`done, bio`size, Arrays(bio.vecs)
    ensures bio.Valid(origin) && bio.Filled(origin, d)
    ensures bio.size == old(bio.size) - n && (bio.size == 0 <==> bio.idx == |bio.vecs|)
    ensures bio.idx < |bio.vecs| ==> bio.Next(origin) >= old(bio.Next(origin)) + n
    ensures Untouched(bio)
  {
    hide Covered;
    CopyWindow(bio, n, bytes, origin);
    bio.Advance(n, origin);
  }

  /** A byte that belongs to the bio. */
  ghost predicate Covered(vecs: seq<BioVec>, a: array<Byte>, i: int) {
    exists k :: 0 <= k < |vecs| && vecs[k].page.data == a && vecs[k].offset <= i < vecs[k].offset + vecs[k].len
  }

  /** Only bytes of the bio that were passed have changed. */
  twostate predicate Untouched(bio: Bio)
    reads bio, Arrays(bio.vecs)
  {
    && (forall a, i :: a in Arrays(bio.vecs) && 0 <= i < a.Length && !Covered(bio.vecs, a, i) ==> a[i] == old(a[i]))
    && (forall k: nat, j: nat :: InVec(bio.vecs, k, j) && old(bio.Passed(k, j)) ==> bio.Passed(k, j))
    && (forall k: nat, j: nat :: InVec(bio.vecs, k, j) && !bio.Passed(k, j)
            ==> ByteOf(bio.vecs, k, j) == old(ByteOf(bio.vecs, k, j)))
  }

  /** btrfs_decompress_buf2page: d is everything decompressed so far, ending with buf;
      0 when the bio has all its bytes, 1 when more is needed. */
  method Buf2Page(buf: seq<Byte>, bio: Bio, start: nat, decompressed: nat, ghost origin: int, ghost d: seq<Byte>)
      returns (ret: int)
    requires bio.Valid(origin) && bio.size > 0 && start == origin % U64
    requires |d| == decompressed + |buf| < U32 && d[decompressed..] == buf
    requires bio.Filled(origin, d[..decompressed]) && (bio.idx < |bio.vecs| ==> bio.Next(origin) >= decompressed)
    modifies bio`idx, bio`done, bio`size, Arrays(bio.vecs)
    ensures bio.Valid(origin) && bio.Filled(origin, d) && Untouched(bio)
    ensures ret == if bio.size == 0 then 0 else 1
    ensures bio.size > 0 ==> bio.idx < |bio.vecs| && bio.Next(origin) >= |d|
  {
    hide Covered, SoundVecs;
    FilledLonger(bio, origin, d, decompressed);
    NotEmpty(bio, origin);
    var end := decompressed + |buf|;
    var curOffset := decompressed;
    while curOffset < end
      invariant bio.Valid(origin) && bio.Filled(origin, d) && Untouched(bio)
      invariant decompressed <= curOffset && bio.size > 0 && bio.idx < |bio.vecs| && bio.Next(origin) >= curOffset
      decreases bio.size
    {
      var bvec := bio.IoVec();
      PlaceBounds(bio, origin);
      OffsetInExtent(bvec.page.offset + bvec.offset, origin, start);
      var bvecOffset := (bvec.page.offset + bvec.offset - start) % U32;
      assert bvecOffset == bio.Next(origin);
      if end <= bvecOffset {
        return 1;
      }
      var copyStart := Max(curOffset, bvecOffset);
      var copyLen := Min(bvecOffset + bvec.len, end) - copyStart;
      assert copyLen > 0;                           // ASSERT(copy_len)
      assert copyStart - decompressed < |buf|;      // ASSERT(copy_start - decompressed < buf_len)
      PartOf(d, buf, decompressed, copyStart, copyLen);
      CopyOne(bio, copyLen, buf[copyStart - decompressed..copyStart - decompressed + copyLen], origin, d);
      curOffset := curOffset + copyLen;
      if bio.size == 0 {
        return 0;
      }
    }
    return 1;
  }

  lemma PartOf(d: seq<Byte>, buf: seq<Byte>, base: nat, at: int, n: int)
    requires base <= |d| && d[base..] == buf && base <= at && 0 <= n && at + n <= |d|
    ensures buf[at - base..at - base + n] == d[at..at + n]
  {
    var u, v := buf[at - base..at - base + n], d[at..at + n];
    forall i | 0 <= i < n ensures u[i] == v[i] {
      assert u[i] == buf[at - base + i] == d[base..][at - base + i] == d[at + i];
    }
  }

  lemma FilledLonger(bio: Bio, origin: int, d: seq<Byte>, n: nat)
    requires n <= |d| && SoundVecs(bio.vecs, origin) && bio.Filled(origin, d[..n])
    ensures bio.Filled(origin, d)
  {
  }

  lemma NotEmpty(bio: Bio, origin: int)
    requires bio.Valid(origin) && bio.size > 0
    ensures bio.idx < |bio.vecs|
  {
  }

  lemma PlaceBounds(bio: Bio, origin: int)
    requires bio.Valid(origin) && bio.idx < |bio.vecs|
    ensures 0 <= bio.Next(origin) < U32
  {
    assert SoundVec(bio.vecs[bio.idx], origin);
  }

  // ----- the whole stream -----

  function Concat(bufs: seq<seq<Byte>>): seq<Byte> {
    if bufs == [] then [] else Concat(bufs[..|bufs| - 1]) + bufs[|bufs| - 1]
  }

  /** The end of the bio in the extent. */
  function LastPlace(vecs: seq<BioVec>, origin: int): int
    requires vecs != []
  {
    Place(vecs[|vecs| - 1], origin) + vecs[|vecs| - 1].len
  }

  /** Feeding a stream, buffer by buffer, to a fresh bio: it fills up exactly when the
      stream reaches the bio's end, every byte that the stream reaches is copied, and no
      other one is touched. */
  method Stream(bufs: seq<seq<Byte>>, bio: Bio, start: nat, ghost origin: int) returns (ret: int)
    requires bio.Valid(origin) && bio.idx == 0 && bio.done == 0 && bio.size > 0 && start == origin % U64
    requires |Concat(bufs)| < U32
    modifies bio`idx, bio`done, bio`size, Arrays(bio.vecs)
    ensures bio.vecs != [] && SoundVecs(bio.vecs, origin)
    ensures var last := bio.vecs[|bio.vecs| - 1];
            ret == if last.page.offset + last.offset + last.len - origin <= |Concat(bufs)| then 0 else 1
    ensures forall k: nat, j: nat :: InVec(bio.vecs, k, j) ==>
              var at := bio.vecs[k].page.offset + bio.vecs[k].offset + j - origin;
              && 0 <= at
              && ByteOf(bio.vecs, k, j)
                 == if at < |Concat(bufs)| then Concat(bufs)[at] else old(ByteOf(bio.vecs, k, j))
    ensures Untouched(bio)
  {
    hide Covered, SoundVecs, Concat;
    Fresh(bio, origin);
    Pieces(bufs, 0);
    var total := 0;
    for i := 0 to |bufs|
      invariant bio.Valid(origin) && bio.size > 0 && bio.idx < |bio.vecs| && bio.Filled(origin, Concat(bufs[..i]))
                && Untouched(bio)
      invariant total == |Concat(bufs[..i])| && bio.Next(origin) >= total
    {
      Pieces(bufs, i);
      ret := Buf2Page(bufs[i], bio, start, total, origin, Concat(bufs[..i + 1]));
      total := total + |bufs[i]|;
      if ret == 0 {
        FullBio(bio, origin, Concat(bufs[..i + 1]), Concat(bufs));
        InOrder(bio, origin);
        return 0;
      }
    }
    assert bufs[..|bufs|] == bufs;
    NotFull(bio, origin);
    InOrder(bio, origin);
    return 1;
  }

  /** What was passed lies before what was not. */
  lemma InOrder(bio: Bio, origin: int)
    requires bio.Valid(origin)
    ensures forall k: nat, j: nat :: InVec(bio.vecs, k, j) ==>
              && 0 <= Place(bio.vecs[k], origin) + j
              && (!bio.Passed(k, j) ==> bio.idx < |bio.vecs| && bio.Next(origin) <= Place(bio.vecs[k], origin) + j)
  {
    forall k: nat, j: nat | InVec(bio.vecs, k, j)
      ensures && 0 <= Place(bio.vecs[k], origin) + j
              && (!bio.Passed(k, j) ==> bio.idx < |bio.vecs| && bio.Next(origin) <= Place(bio.vecs[k], origin) + j)
    {
      assert SoundVec(bio.vecs[k], origin);
    }
  }

  lemma Fresh(bio: Bio, origin: int)
    requires bio.Valid(origin) && bio.idx == 0 && bio.done == 0 && bio.size > 0
    ensures bio.vecs != [] && bio.Filled(origin, []) && bio.Next(origin) >= 0
  {
    assert SoundVec(bio.vecs[0], origin);
  }

  lemma {:induction false} Pieces(bufs: seq<seq<Byte>>, i: nat)
    requires i <= |bufs|
    ensures Concat(bufs[..0]) == [] && |Concat(bufs[..i])| <= |Concat(bufs)|
    ensures Concat(bufs)[..|Concat(bufs[..i])|] == Concat(bufs[..i])
    ensures i < |bufs| ==> Concat(bufs[..i + 1]) == Concat(bufs[..i]) + bufs[i]
    ensures i < |bufs|
            ==> |Concat(bufs[..i + 1])| <= |Concat(bufs)|
                && Concat(bufs)[..|Concat(bufs[..i + 1])|] == Concat(bufs[..i + 1])
    decreases |bufs| - i
  {
    if i == |bufs| {
      assert bufs[..i] == bufs;
    } else {
      Pieces(bufs, i + 1);
      assert bufs[..i + 1][..i] == bufs[..i];
      var whole, more, less := Concat(bufs), Concat(bufs[..i + 1]), Concat(bufs[..i]);
      assert more == less + bufs[i];
      assert whole[..|less|] == whole[..|more|][..|less|];
    }
  }

  lemma FullBio(bio: Bio, origin: int, d: seq<Byte>, whole: seq<Byte>)
    requires bio.Valid(origin) && bio.size == 0 && bio.Filled(origin, d) && bio.vecs != []
    requires |d| <= |whole| && whole[..|d|] == d
    ensures LastPlace(bio.vecs, origin) <= |whole|
    ensures forall k: nat, j: nat :: InVec(bio.vecs, k, j) ==>
              Place(bio.vecs[k], origin) + j < |whole|
                && ByteOf(bio.vecs, k, j) == whole[Place(bio.vecs[k], origin) + j]
  {
    AllPassed(bio, origin);
    forall k: nat, j: nat | InVec(bio.vecs, k, j)
      ensures Place(bio.vecs[k], origin) + j < |whole|
              && ByteOf(bio.vecs, k, j) == whole[Place(bio.vecs[k], origin) + j]
    {
      assert bio.Passed(k, j);
      assert SoundVec(bio.vecs[k], origin);
      assert whole[..|d|][Place(bio.vecs[k], origin) + j] == whole[Place(bio.vecs[k], origin) + j];
    }
    var n := |bio.vecs| - 1;
    assert SoundVec(bio.vecs[n], origin);
    assert InVec(bio.vecs, n, bio.vecs[n].len - 1);
  }

  lemma AllPassed(bio: Bio, origin: int)
    requires bio.Valid(origin) && bio.size == 0
    ensures bio.idx == |bio.vecs|
  {
  }

  lemma NotFull(bio: Bio, origin: int)
    requires bio.Valid(origin) && bio.idx < |bio.vecs|
    ensures bio.Next(origin) < LastPlace(bio.vecs, origin)
  {
    var n := |bio.vecs| - 1;
    assert SoundVec(bio.vecs[n], origin);
  }
}
