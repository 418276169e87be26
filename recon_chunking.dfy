/**
 * The partitioning half of `Proceed` (application/recon/service.go): grouping
 * both record sets by bank code, and cutting one bank code's records into
 * positional chunks.
 */
module ReconChunking {
  import opened ReconModel
  import opened ReconMatching
  import Wrappers
  import Configuration

  function TxCode(tx: TransactionUploadFile): string { tx.BankCode }

  function BankRowCode(b: BankStatementUploadFile): string { b.BankCode }

  /**
   * The grouping loop: each record is appended to the bucket of its code,
   * a missing bucket reading as the empty (nil) slice.
   */
  function GroupBy<T>(s: seq<T>, code: T -> string): map<string, seq<T>>
  {
    if s == [] then map[]
    else
      var groups, x := GroupBy(s[..|s| - 1], code), s[|s| - 1];
      groups[code(x) := Bucket(groups, code(x)) + [x]]
  }

  /** A map lookup as Go reads it: a missing key gives the empty slice. */
  function Bucket<T>(groups: map<string, seq<T>>, c: string): seq<T>
  {
    if c in groups then groups[c] else []
  }

  /** The records of `s` whose code is `c`, in input order. */
  function WithCode<T>(s: seq<T>, code: T -> string, c: string): seq<T>
  {
    if s == [] then []
    else WithCode(s[..|s| - 1], code, c) + (if code(s[|s| - 1]) == c then [s[|s| - 1]] else [])
  }

  /** The set of codes occurring in `s`. */
  function Codes<T(==)>(s: seq<T>, code: T -> string): set<string>
  {
    set x | x in s :: code(x)
  }

  /** Grouping puts every record in the bucket of its code and keeps their relative order. */
  lemma {:induction false} GroupByBucket<T>(s: seq<T>, code: T -> string, c: string)
    ensures Bucket(GroupBy(s, code), c) == WithCode(s, code, c)
  {
    if s != [] {
      GroupByBucket(s[..|s| - 1], code, c);
    }
  }

  /** There is a bucket exactly for each code that occurs. */
  lemma {:induction false} GroupByKeys<T>(s: seq<T>, code: T -> string)
    ensures GroupBy(s, code).Keys == Codes(s, code)
  {
    if s != [] {
      var init := s[..|s| - 1];
      GroupByKeys(init, code);
      assert s == init + [s[|s| - 1]];
      assert Codes(s, code) == Codes(init, code) + {code(s[|s| - 1])};
    }
  }

  /** The records of code `c` are exactly the records of `s` whose code is `c`. */
  lemma {:induction false} WithCodeMembers<T>(s: seq<T>, code: T -> string, c: string, x: T)
    ensures x in WithCode(s, code, c) <==> x in s && code(x) == c
  {
    if s != [] {
      var init := s[..|s| - 1];
      WithCodeMembers(init, code, c, x);
      assert s == init + [s[|s| - 1]];
    }
  }

  /** A code that occurs has at least one record in its bucket. */
  lemma {:induction false} WithCodeNonEmpty<T>(s: seq<T>, code: T -> string, c: string)
    requires c in Codes(s, code)
    ensures |WithCode(s, code, c)| > 0
  {
    var init := s[..|s| - 1];
    assert s == init + [s[|s| - 1]];
    if code(s[|s| - 1]) != c {
      assert c in Codes(init, code);
      WithCodeNonEmpty(init, code, c);
    }
  }

  /** Selecting by code distributes over concatenation. */
  lemma {:induction false} WithCodeAppend<T>(a: seq<T>, b: seq<T>, code: T -> string, c: string)
    ensures WithCode(a + b, code, c) == WithCode(a, code, c) + WithCode(b, code, c)
  {
    if b == [] {
      assert a + b == a;
    } else {
      var init := b[..|b| - 1];
      WithCodeAppend(a, init, code, c);
      assert (a + b)[..|a + b| - 1] == a + init;
    }
  }

  /** Selecting by code keeps every copy of a record of that code and none of the others. */
  lemma {:induction false} WithCodeMultiplicity<T>(s: seq<T>, code: T -> string, c: string, x: T)
    ensures multiset(WithCode(s, code, c))[x] == if code(x) == c then multiset(s)[x] else 0
  {
    if s != [] {
      var init := s[..|s| - 1];
      WithCodeMultiplicity(init, code, c, x);
      assert s == init + [s[|s| - 1]];
    }
  }

  // ---------------------------------------------------------------------------
  // Chunking one bank code

  function Max(a: int, b: int): int { if a < b then b else a }

  function Min(a: int, b: int): int { if a < b then a else b }

  /** Rows per chunk: ceil(maxLen / maxChunk). */
  function ChunkSize(maxLen: nat, maxChunk: int): (size: int)
    requires maxChunk >= 1
    ensures maxLen > 0 ==> size >= 1
    ensures size * maxChunk >= maxLen
    ensures (size - 1) * maxChunk < maxLen || size == 0
  {
    (maxLen + maxChunk - 1) / maxChunk
  }

  /** Go's int64 arithmetic: the mathematical value reduced into [MinInt64, MaxInt64] (two's complement). */
  function Wrap64(x: int): (w: int)
    ensures Configuration.MinInt64 <= w <= Configuration.MaxInt64
    ensures Configuration.MinInt64 <= x <= Configuration.MaxInt64 ==> w == x
    ensures (w - x) % 0x1_0000_0000_0000_0000 == 0
  {
    (x - Configuration.MinInt64) % 0x1_0000_0000_0000_0000 + Configuration.MinInt64
  }

  /** Go's integer division, which truncates toward zero. */
  function QuoTrunc(a: int, b: int): (q: int)
    requires b != 0
    ensures a >= 0 && b > 0 ==> q == a / b
    ensures a < 0 && b < 0 ==> q == (-a) / (-b)
    ensures a >= 0 && b < 0 ==> q == -(a / -b)
    ensures a < 0 && b > 0 ==> q == -(-a / b)
  {
    var m := (if a < 0 then -a else a) / (if b < 0 then -b else b);
    if (a < 0) != (b < 0) then -m else m
  }

  /**
   * `chunkSize := (maxLen + maxChunk - 1) / maxChunk` as Go evaluates it on
   * int64, None standing for the division-by-zero panic.
   */
  function ChunkSizeAsWritten(maxLen: nat, maxChunk: int): (size: Wrappers.Option<int>)
    ensures size.None? <==> maxChunk == 0
  {
    if maxChunk == 0 then Wrappers.None
    else Wrappers.Some(QuoTrunc(Wrap64(maxLen + maxChunk - 1), maxChunk))
  }

  /** While the sum stays within int64, the Go expression is the ceiling ChunkSize computes. */
  lemma ChunkSizeAsWrittenAgrees(maxLen: nat, maxChunk: int)
    requires maxChunk >= 1 && maxLen + maxChunk - 1 <= Configuration.MaxInt64
    ensures ChunkSizeAsWritten(maxLen, maxChunk) == Wrappers.Some(ChunkSize(maxLen, maxChunk))
  {
  }

  /**
   * A max.chunk of MaxInt64 and a bank code with two records: the sum wraps
   * to MinInt64, the chunk size becomes -1 and the first slice `txs[0:-1]`
   * panics, where the intended ceiling is 1.
   */
  lemma ChunkSizeWraps()
    ensures ChunkSizeAsWritten(2, Configuration.MaxInt64) == Wrappers.Some(-1)
    ensures ChunkSize(2, Configuration.MaxInt64) == 1
  {
  }

  /**
   * A negative max.chunk: -1 over three records gives chunk size -1 (the
   * slice panics), -5 over two records gives 0 (the loop never advances),
   * and -5 over one record gives 1 (the loop runs normally).
   */
  lemma NegativeChunkSizes()
    ensures ChunkSizeAsWritten(3, -1) == Wrappers.Some(-1)
    ensures ChunkSizeAsWritten(2, -5) == Wrappers.Some(0)
    ensures ChunkSizeAsWritten(1, -5) == Wrappers.Some(1)
  {
  }

  /**
   * The source's guarded slicing: `s[i:min(end, len(s))]` when `i < len(s)`,
   * otherwise the empty (nil) slice.
   */
  function SafeSlice<T>(s: seq<T>, i: nat, end: nat): seq<T>
    requires i <= end
  {
    if i < |s| then s[i..Min(end, |s|)] else []
  }

  /** The transaction part and the bank part of one chunk. */
  datatype Chunk = Chunk(txs: seq<TransactionUploadFile>, banks: seq<BankStatementUploadFile>)

  /** The chunks whose offsets are i, i + size, ... below maxLen. */
  function ChunksFrom(txs: seq<TransactionUploadFile>, banks: seq<BankStatementUploadFile>, size: int, i: nat, maxLen: nat): seq<Chunk>
    requires size >= 1
    decreases maxLen - i
  {
    if i >= maxLen then []
    else [Chunk(SafeSlice(txs, i, i + size), SafeSlice(banks, i, i + size))] + ChunksFrom(txs, banks, size, i + size, maxLen)
  }

  /** The chunks of one bank code, in offset order. */
  function Chunks(txs: seq<TransactionUploadFile>, banks: seq<BankStatementUploadFile>, maxChunk: int): seq<Chunk>
    requires maxChunk >= 1
  {
    var maxLen := Max(|txs|, |banks|);
    if maxLen == 0 then [] else ChunksFrom(txs, banks, ChunkSize(maxLen, maxChunk), 0, maxLen)
  }

  /** The chunk results of a bank code, in chunk order. */
  function ChunkResults(chunks: seq<Chunk>, bc: string): seq<ResultReconciliation>
  {
    if chunks == [] then []
    else [ChunkResult(chunks[0].txs, chunks[0].banks, bc)] + ChunkResults(chunks[1..], bc)
  }

  function ConcatTxs(chunks: seq<Chunk>): seq<TransactionUploadFile>
  {
    if chunks == [] then [] else chunks[0].txs + ConcatTxs(chunks[1..])
  }

  function ConcatBanks(chunks: seq<Chunk>): seq<BankStatementUploadFile>
  {
    if chunks == [] then [] else chunks[0].banks + ConcatBanks(chunks[1..])
  }

  /** A chunk's part and everything after it make up everything from the chunk's offset on. */
  lemma SafeSliceThenRest<T>(s: seq<T>, i: nat, size: nat)
    ensures SafeSlice(s, i, i + size) + s[Min(i + size, |s|)..] == s[Min(i, |s|)..]
  {
    if i < |s| {
      assert s[i..] == s[i..Min(i + size, |s|)] + s[Min(i + size, |s|)..];
    }
  }

  /** The chunks from offset i cover the transactions and bank rows from i on, each exactly once and in order. */
  lemma {:induction false} ChunksFromCover(txs: seq<TransactionUploadFile>, banks: seq<BankStatementUploadFile>, size: int, i: nat, maxLen: nat)
    requires size >= 1 && |txs| <= maxLen && |banks| <= maxLen
    ensures ConcatTxs(ChunksFrom(txs, banks, size, i, maxLen)) == txs[Min(i, |txs|)..]
    ensures ConcatBanks(ChunksFrom(txs, banks, size, i, maxLen)) == banks[Min(i, |banks|)..]
    decreases maxLen - i
  {
    if i < maxLen {
      ChunksFromCover(txs, banks, size, i + size, maxLen);
      var cs := ChunksFrom(txs, banks, size, i, maxLen);
      assert cs[1..] == ChunksFrom(txs, banks, size, i + size, maxLen);
      SafeSliceThenRest(txs, i, size);
      SafeSliceThenRest(banks, i, size);
    }
  }

  /** Chunk k of those from offset i is cut at offset i + k * size. */
  lemma ChunksFromAt(txs: seq<TransactionUploadFile>, banks: seq<BankStatementUploadFile>, size: int, i: nat, maxLen: nat, k: nat)
    requires size >= 1 && k < |ChunksFrom(txs, banks, size, i, maxLen)|
    ensures i + k * size < maxLen
    ensures ChunksFrom(txs, banks, size, i, maxLen)[k]
         == Chunk(SafeSlice(txs, i + k * size, i + k * size + size), SafeSlice(banks, i + k * size, i + k * size + size))
  {
    ChunksFromAtOffset(txs, banks, size, i, maxLen, k);
    OffsetIsProduct(i, k, size);
  }

  /** The offset of the k-th chunk from offset i: k steps of `size`. */
  ghost function Offset(i: nat, k: nat, size: nat): nat
    decreases k
  {
    if k == 0 then i else Offset(i + size, k - 1, size)
  }

  lemma {:induction false} OffsetIsProduct(i: nat, k: nat, size: nat)
    ensures Offset(i, k, size) == i + k * size
    decreases k
  {
    if k > 0 {
      OffsetIsProduct(i + size, k - 1, size);
      MulStep(k, size);
    }
  }

  lemma {:induction false} ChunksFromAtOffset(txs: seq<TransactionUploadFile>, banks: seq<BankStatementUploadFile>, size: int, i: nat, maxLen: nat, k: nat)
    requires size >= 1 && k < |ChunksFrom(txs, banks, size, i, maxLen)|
    ensures Offset(i, k, size) < maxLen
    ensures ChunksFrom(txs, banks, size, i, maxLen)[k]
         == Chunk(SafeSlice(txs, Offset(i, k, size), Offset(i, k, size) + size),
                  SafeSlice(banks, Offset(i, k, size), Offset(i, k, size) + size))
    decreases k
  {
    var cs := ChunksFrom(txs, banks, size, i, maxLen);
    var rest := ChunksFrom(txs, banks, size, i + size, maxLen);
    assert cs == [Chunk(SafeSlice(txs, i, i + size), SafeSlice(banks, i, i + size))] + rest;
    if k > 0 {
      assert cs[k] == rest[k - 1];
      ChunksFromAtOffset(txs, banks, size, i + size, maxLen, k - 1);
    }
  }

  lemma MulStep(k: int, size: int)
    ensures (k - 1) * size + size == k * size
  {
  }

  /** From offset i below maxLen, there are at most 1 + (maxLen - i - 1) / size chunks, i.e. (count - 1) * size < maxLen - i. */
  lemma {:induction false} ChunksFromCount(txs: seq<TransactionUploadFile>, banks: seq<BankStatementUploadFile>, size: int, i: nat, maxLen: nat)
    requires size >= 1
    ensures i < maxLen ==> |ChunksFrom(txs, banks, size, i, maxLen)| >= 1
    ensures i < maxLen ==> (|ChunksFrom(txs, banks, size, i, maxLen)| - 1) * size < maxLen - i
    ensures i >= maxLen ==> |ChunksFrom(txs, banks, size, i, maxLen)| == 0
    decreases maxLen - i
  {
    if i < maxLen {
      ChunksFromCount(txs, banks, size, i + size, maxLen);
      var rest := ChunksFrom(txs, banks, size, i + size, maxLen);
      assert ChunksFrom(txs, banks, size, i, maxLen) == [Chunk(SafeSlice(txs, i, i + size), SafeSlice(banks, i, i + size))] + rest;
      var n := |rest|;
      if i + size < maxLen {
        CountStep(n, size, maxLen - i);
      } else {
        assert n == 0;
      }
    }
  }

  lemma CountStep(n: int, size: int, room: int)
    requires size >= 1 && (n - 1) * size < room - size
    ensures n * size < room
  {
    assert n * size == (n - 1) * size + size;
  }

  /**
   * The chunks of one bank code cover both record sequences exactly: every
   * transaction and every bank row lands in exactly one chunk, in order.
   */
  lemma {:induction false} ChunkingCovers(txs: seq<TransactionUploadFile>, banks: seq<BankStatementUploadFile>, maxChunk: int)
    requires maxChunk >= 1
    ensures ConcatTxs(Chunks(txs, banks, maxChunk)) == txs
    ensures ConcatBanks(Chunks(txs, banks, maxChunk)) == banks
  {
    var maxLen := Max(|txs|, |banks|);
    if maxLen > 0 {
      ChunksFromCover(txs, banks, ChunkSize(maxLen, maxChunk), 0, maxLen);
    }
  }

  /** There are at most maxChunk chunks, and at least one when the code has any record. */
  lemma {:induction false} ChunkingCount(txs: seq<TransactionUploadFile>, banks: seq<BankStatementUploadFile>, maxChunk: int)
    requires maxChunk >= 1
    ensures |Chunks(txs, banks, maxChunk)| <= maxChunk
    ensures (|txs| > 0 || |banks| > 0) ==> |Chunks(txs, banks, maxChunk)| >= 1
  {
    var maxLen := Max(|txs|, |banks|);
    if maxLen > 0 {
      var size := ChunkSize(maxLen, maxChunk);
      ChunksFromCount(txs, banks, size, 0, maxLen);
      var n := |ChunksFrom(txs, banks, size, 0, maxLen)|;
      // (n - 1) * size < maxLen <= size * maxChunk, hence n - 1 < maxChunk
      LessAfterScaling(n - 1, maxChunk, size);
    }
  }

  /**
   * Chunk k is cut at offset k * size with size = ceil(maxLen / maxChunk);
   * so the chunks are consecutive and do not overlap, and a side's part is
   * empty once the chunk's offset reaches that side's length.
   */
  lemma {:induction false} ChunkingOffsets(txs: seq<TransactionUploadFile>, banks: seq<BankStatementUploadFile>, maxChunk: int, k: int)
    requires maxChunk >= 1 && 0 <= k < |Chunks(txs, banks, maxChunk)|
    ensures var size := ChunkSize(Max(|txs|, |banks|), maxChunk);
      Chunks(txs, banks, maxChunk)[k] == Chunk(SafeSlice(txs, k * size, k * size + size), SafeSlice(banks, k * size, k * size + size))
    ensures var size := ChunkSize(Max(|txs|, |banks|), maxChunk);
      (k * size >= |txs| ==> Chunks(txs, banks, maxChunk)[k].txs == []) &&
      (k * size >= |banks| ==> Chunks(txs, banks, maxChunk)[k].banks == [])
  {
    var maxLen := Max(|txs|, |banks|);
    var size := ChunkSize(maxLen, maxChunk);
    var cs := Chunks(txs, banks, maxChunk);
    assert cs == ChunksFrom(txs, banks, size, 0, maxLen);
    ChunkCut(txs, banks, size, maxLen, k);
  }

  /** Chunk k of a run from offset 0, for any size. */
  lemma ChunkCut(txs: seq<TransactionUploadFile>, banks: seq<BankStatementUploadFile>, size: int, maxLen: nat, k: nat)
    requires size >= 1 && k < |ChunksFrom(txs, banks, size, 0, maxLen)|
    ensures ChunksFrom(txs, banks, size, 0, maxLen)[k] == Chunk(SafeSlice(txs, k * size, k * size + size), SafeSlice(banks, k * size, k * size + size))
    ensures k * size >= |txs| ==> ChunksFrom(txs, banks, size, 0, maxLen)[k].txs == []
    ensures k * size >= |banks| ==> ChunksFrom(txs, banks, size, 0, maxLen)[k].banks == []
  {
    ChunksFromAtOffset(txs, banks, size, 0, maxLen, k);
    OffsetIsProduct(0, k, size);
  }

  lemma LessAfterScaling(a: int, b: int, c: int)
    requires c > 0 && a * c < c * b
    ensures a < b
  {
  }

  /** A bank code's chunk results carry that code and together process every transaction of the code. */
  lemma {:induction false} ChunkResultsCover(chunks: seq<Chunk>, bc: string)
    ensures |ChunkResults(chunks, bc)| == |chunks|
    ensures forall k :: 0 <= k < |chunks| ==> ChunkResults(chunks, bc)[k] == ChunkResult(chunks[k].txs, chunks[k].banks, bc)
  {
    if chunks != [] {
      ChunkResultsCover(chunks[1..], bc);
    }
  }
}
