/**
 The two file hashes that read a file at chosen offsets. The digest is not modelled: what is
 stated is which bytes are fed to it.
*/
module FileHash {
  import opened Wrappers

  const HASH_SAMPLE_SIZE: nat := 10000
  const HASH_SAMPLE_COUNT: nat := 4

  /** A digest being computed. */
  class Context {
    var fed: seq<Byte>

    constructor ()
      ensures fed == []
    {
      fed := [];
    }

    method Update(bytes: seq<Byte>)
      modifies this
      ensures fed == old(fed) + bytes
    {
      fed := fed + bytes;
    }
  }

  function Min(a: int, b: int): int {
    if a < b then a else b
  }

  function Zeros(n: nat): (r: seq<Byte>)
    ensures |r| == n && forall k :: 0 <= k < n ==> r[k] == 0
  {
    seq(n, _ => 0 as Byte)
  }

  /** A buffer of this size after one full read at an offset: zeros where the file has ended. */
  function Block(file: seq<Byte>, offset: nat, size: nat): (r: seq<Byte>)
    ensures |r| == size
    ensures forall k :: 0 <= k < size ==> r[k] == if offset + k < |file| then file[offset + k] else 0
  {
    if offset >= |file| then Zeros(size)
    else
      var bytes := file[offset..Min(offset + size, |file|)];
      bytes + Zeros(size - |bytes|)
  }

  // ------------------------------------------------------------------- the sampled hash

  /** The sampled parts of a long file: four at equal strides, and its end. */
  function SampleOffset(length: nat, i: nat): nat
    requires length > HASH_SAMPLE_SIZE * HASH_SAMPLE_COUNT && i <= HASH_SAMPLE_COUNT
  {
    if i < HASH_SAMPLE_COUNT then (length / HASH_SAMPLE_COUNT) * i else length - HASH_SAMPLE_SIZE
  }

  /** The first `n` samples of a file said to have this length. */
  function Samples(file: seq<Byte>, length: nat, n: nat): seq<Byte>
    requires length > HASH_SAMPLE_SIZE * HASH_SAMPLE_COUNT && n <= HASH_SAMPLE_COUNT + 1
  {
    if n == 0 then []
    else Samples(file, length, n - 1) + Block(file, SampleOffset(length, n - 1), HASH_SAMPLE_SIZE)
  }

  function SampledBytes(file: seq<Byte>, length: nat): seq<Byte> {
    if length <= HASH_SAMPLE_SIZE * HASH_SAMPLE_COUNT then Block(file, 0, length)
    else Samples(file, length, HASH_SAMPLE_COUNT + 1)
  }

  /** `generate`, told any length. */
  method Generate(file: seq<Byte>, bytes: nat) returns (context: Context)
    ensures fresh(context) && context.fed == SampledBytes(file, bytes)
  {
    context := new Context();
    if bytes <= HASH_SAMPLE_SIZE * HASH_SAMPLE_COUNT {
      context.Update(Block(file, 0, bytes));
    } else {
      for i := 0 to HASH_SAMPLE_COUNT
        invariant fresh(context) && context.fed == Samples(file, bytes, i)
      {
        context.Update(Block(file, (bytes / HASH_SAMPLE_COUNT) * i, HASH_SAMPLE_SIZE));
      }
      context.Update(Block(file, bytes - HASH_SAMPLE_SIZE, HASH_SAMPLE_SIZE));
    }
  }

  lemma WholeFile(file: seq<Byte>)
    ensures Block(file, 0, |file|) == file
  {
  }

  /** Every sample lies inside the file, and the four strided ones do not overlap. */
  lemma SamplesAreInTheFile(length: nat, i: nat)
    requires length > HASH_SAMPLE_SIZE * HASH_SAMPLE_COUNT && i <= HASH_SAMPLE_COUNT
    ensures SampleOffset(length, i) + HASH_SAMPLE_SIZE <= length
    ensures i + 1 < HASH_SAMPLE_COUNT ==> SampleOffset(length, i) + HASH_SAMPLE_SIZE <= SampleOffset(length, i + 1)
  {
    var stride := length / HASH_SAMPLE_COUNT;
    assert stride >= HASH_SAMPLE_SIZE && stride * HASH_SAMPLE_COUNT <= length;
    assert stride * (i + 1) == stride * i + stride;
    if i < HASH_SAMPLE_COUNT {
      assert stride * (HASH_SAMPLE_COUNT - i - 1) >= 0;
      assert stride * HASH_SAMPLE_COUNT == stride * (i + 1) + stride * (HASH_SAMPLE_COUNT - i - 1);
    }
  }

  /** The samples start at each quarter of the length, rounded down, and ten thousand bytes before
      the end. */
  lemma SampleOffsetsAre(quarter: nat)
    requires quarter > HASH_SAMPLE_SIZE
    ensures
      var length := 4 * quarter;
      && SampleOffset(length, 0) == 0 && SampleOffset(length, 1) == quarter
      && SampleOffset(length, 2) == 2 * quarter && SampleOffset(length, 3) == 3 * quarter
      && SampleOffset(length, 4) == length - 10000
    ensures SampleOffset(50003, 1) == 12500 && SampleOffset(50003, 3) == 37500 && SampleOffset(50003, 4) == 40003
  {
  }

  ghost predicate AgreeOnSamples(file: seq<Byte>, other: seq<Byte>, length: nat, n: nat)
    requires length > HASH_SAMPLE_SIZE * HASH_SAMPLE_COUNT && n <= HASH_SAMPLE_COUNT + 1
  {
    forall i: nat :: i < n ==>
      Block(file, SampleOffset(length, i), HASH_SAMPLE_SIZE) == Block(other, SampleOffset(length, i), HASH_SAMPLE_SIZE)
  }

  lemma {:induction false} SamplesAgreeIff(file: seq<Byte>, other: seq<Byte>, length: nat, n: nat)
    requires length > HASH_SAMPLE_SIZE * HASH_SAMPLE_COUNT && n <= HASH_SAMPLE_COUNT + 1
    ensures Samples(file, length, n) == Samples(other, length, n) <==> AgreeOnSamples(file, other, length, n)
    ensures |Samples(file, length, n)| == |Samples(other, length, n)|
  {
    if n > 0 {
      SamplesAgreeIff(file, other, length, n - 1);
      var offset := SampleOffset(length, n - 1);
      var (x, y) := (Block(file, offset, HASH_SAMPLE_SIZE), Block(other, offset, HASH_SAMPLE_SIZE));
      SameParts(Samples(file, length, n - 1), x, Samples(other, length, n - 1), y);
    }
  }

  lemma SameParts(a: seq<Byte>, x: seq<Byte>, b: seq<Byte>, y: seq<Byte>)
    requires |a| == |b|
    ensures a + x == b + y <==> a == b && x == y
  {
    if a + x == b + y {
      assert a == (a + x)[..|a|] && b == (b + y)[..|b|];
      assert x == (a + x)[|a|..] && y == (b + y)[|b|..];
    }
  }

  /** Told one length, two files feed the digest the same bytes exactly when they are the same at
      every sampled position; told their true length, if it is short, when they are the same. */
  lemma SampledBytesAgreeIff(file: seq<Byte>, other: seq<Byte>, length: nat)
    ensures SampledBytes(file, length) == SampledBytes(other, length) <==>
      if length <= HASH_SAMPLE_SIZE * HASH_SAMPLE_COUNT then Block(file, 0, length) == Block(other, 0, length)
      else AgreeOnSamples(file, other, length, HASH_SAMPLE_COUNT + 1)
    ensures |file| == |other| == length <= HASH_SAMPLE_SIZE * HASH_SAMPLE_COUNT ==>
      (SampledBytes(file, length) == SampledBytes(other, length) <==> file == other)
  {
    if length > HASH_SAMPLE_SIZE * HASH_SAMPLE_COUNT {
      SamplesAgreeIff(file, other, length, HASH_SAMPLE_COUNT + 1);
    } else {
      if |file| == |other| == length {
        WholeFile(file);
        WholeFile(other);
      }
    }
  }

  // ------------------------------------------------------------------- the KOReader hash

  const STEP: nat := 1024

  const LAST: int := 10

  /** `1 << (2 * i)`. */
  function FourTo(i: nat): (r: nat)
    ensures r >= 1
  {
    if i == 0 then 1 else 4 * FourTo(i - 1)
  }

  function Offset(i: int): nat
    requires -1 <= i
  {
    if i == -1 then 0 else STEP * FourTo(i)
  }

  /** The blocks at those of the offsets before `n` that lie inside the file. */
  function BlocksInside(file: seq<Byte>, n: int): seq<Byte>
    requires -1 <= n
  {
    if n == -1 then []
    else BlocksInside(file, n - 1) + if Offset(n - 1) < |file| then Block(file, Offset(n - 1), STEP) else []
  }

  /** The offsets: the start, and then 1 KiB times the powers of four, up to 1 GiB. */
  lemma OffsetsAre()
    ensures Offset(-1) == 0 && Offset(0) == 1024 && Offset(1) == 4096 && Offset(2) == 16384
    ensures Offset(3) == 65536 && Offset(4) == 262144 && Offset(5) == 1048576 && Offset(6) == 4194304
    ensures Offset(7) == 16777216 && Offset(8) == 67108864 && Offset(9) == 268435456 && Offset(LAST) == 1073741824
  {
    assert FourTo(1) == 4 && FourTo(2) == 16 && FourTo(3) == 64;
    assert FourTo(4) == 256 && FourTo(5) == 1024 && FourTo(6) == 4096;
    assert FourTo(7) == 16384 && FourTo(8) == 65536 && FourTo(9) == 262144;
    assert FourTo(10) == 1048576;
  }

  /** While the offsets are inside the file, there is one block for each, in their order. */
  lemma {:induction false} BlockAt(file: seq<Byte>, n: nat, j: int)
    requires -1 <= j < n && Offset(n - 1) < |file|
    ensures |BlocksInside(file, n)| == STEP * (n + 1)
    ensures BlocksInside(file, n)[STEP * (j + 1)..STEP * (j + 2)] == Block(file, Offset(j), STEP)
  {
    BlocksFill(file, n);
    if j < n - 1 {
      OffsetsIncrease(n - 2, n - 1);
      BlockAt(file, n - 1, j);
    }
  }

  lemma {:induction false} BlocksFill(file: seq<Byte>, n: int)
    requires 0 <= n && Offset(n - 1) < |file|
    ensures |BlocksInside(file, n)| == STEP * (n + 1)
  {
    if n > 0 {
      OffsetsIncrease(n - 2, n - 1);
      BlocksFill(file, n - 1);
    } else {
      assert BlocksInside(file, -1) == [];
    }
  }

  lemma {:induction false} OffsetsIncrease(i: int, j: int)
    requires -1 <= i < j
    ensures Offset(i) < Offset(j)
    decreases j
  {
    if i < j - 1 {
      OffsetsIncrease(i, j - 1);
    }
  }

  /** From the first offset at or after the end of the file there is nothing more to feed. */
  lemma {:induction false} NothingAfterTheEnd(file: seq<Byte>, i: int, n: int)
    requires -1 <= i < n && Offset(i) >= |file|
    ensures BlocksInside(file, n) == BlocksInside(file, i)
    decreases n
  {
    if i < n - 1 {
      OffsetsIncrease(i, n - 1);
      NothingAfterTheEnd(file, i, n - 1);
    }
  }

  /** `generate_koreader_hash`, with reads that are full away from the end of the file. Leaving
      the loop at the first empty read feeds the same blocks as filtering all the offsets. */
  method GenerateKoreaderHash(file: seq<Byte>) returns (context: Context)
    ensures fresh(context) && context.fed == BlocksInside(file, LAST + 1)
  {
    context := new Context();
    for i := -1 to LAST + 1
      invariant fresh(context) && context.fed == BlocksInside(file, i)
    {
      var offset := Offset(i);
      var bytesRead := if offset >= |file| then 0 else Min(STEP, |file| - offset);
      if bytesRead == 0 {
        NothingAfterTheEnd(file, i, LAST + 1);
        return;
      }
      context.Update(Block(file, offset, STEP));
    }
  }
}
