/**
 * The LLVM raw profile format, version 8: a header of eleven words, one record per function, the counters
 * and the function names, all little-endian.
 */
module ProfileFormat {
  import opened Base
  import opened Varints

  // ---------------------------------------------------------------- little-endian words

  function LE(v: nat, n: nat): (bs: Bytes)
    ensures |bs| == n
  {
    if n == 0 then [] else [v % 256] + LE(v / 256, n - 1)
  }

  function FromLE(bs: Bytes): nat {
    if bs == [] then 0 else bs[0] + 256 * FromLE(bs[1..])
  }

  function Limit(n: nat): (m: nat)
    ensures m > 0
  {
    if n == 0 then 1 else 256 * Limit(n - 1)
  }

  lemma Limits()
    ensures Limit(1) == 256 && Limit(4) == TWO_32 && Limit(8) == TWO_64
  {
    assert Limit(4) == TWO_32;
    assert Limit(8) == 256 * (256 * (256 * (256 * Limit(4))));
  }

  lemma {:induction false} WordRoundTrip(v: nat, n: nat)
    requires v < Limit(n)
    ensures FromLE(LE(v, n)) == v
    decreases n
  {
    if n > 0 {
      WordRoundTrip(v / 256, n - 1);
      assert LE(v, n)[1..] == LE(v / 256, n - 1);
    }
  }

  /** Words of a given size one after the other. */
  function Words(ws: seq<nat>, size: nat): (bs: Bytes)
    ensures |bs| == size * |ws|
  {
    if ws == [] then [] else MulSucc(size, |ws| - 1); LE(ws[0], size) + Words(ws[1..], size)
  }

  lemma MulSucc(a: nat, b: nat)
    ensures a * (b + 1) == a + a * b
  {
  }

  /** The word at a byte position. */
  function WordAt(bs: Bytes, pos: nat, size: nat): nat
    requires pos + size <= |bs|
  {
    FromLE(bs[pos..pos + size])
  }

  lemma WordInside(k: nat, n: nat, size: nat)
    requires k < n
    ensures size * k + size <= size * n
  {
    MulSucc(size, k);
    MulMono(k + 1, n, size);
  }

  lemma TailSlice(head: Bytes, tail: Bytes, p: nat, size: nat)
    requires p + size <= |tail|
    ensures (head + tail)[|head| + p..|head| + p + size] == tail[p..p + size]
  {
  }

  lemma {:induction false} WordsAt(ws: seq<nat>, size: nat, k: nat)
    requires k < |ws| && ws[k] < Limit(size)
    ensures size * k + size <= size * |ws| && WordAt(Words(ws, size), size * k, size) == ws[k]
  {
    hide FromLE;
    hide LE;
    WordInside(k, |ws|, size);
    var head, tail := LE(ws[0], size), Words(ws[1..], size);
    assert Words(ws, size) == head + tail;
    hide Words;
    if k == 0 {
      assert size * k == 0;
      assert (head + tail)[0..size] == head;
      WordRoundTrip(ws[0], size);
    } else {
      WordsAt(ws[1..], size, k - 1);
      MulSucc(size, k - 1);
      TailSlice(head, tail, size * (k - 1), size);
    }
  }

  // ---------------------------------------------------------------- records

  type Uint16 = x: int | 0 <= x < 0x1_0000

  datatype Record = Record(nameRef: Uint64, funcHash: Uint64, counterPtr: Uint64, functionPointer: Uint64,
                           values: Uint64, numCounters: Uint32, callSites: Uint16, memorySites: Uint16)

  const RECORD_SIZE: nat := 48

  function EncodeRecord(r: Record): (bs: Bytes)
    ensures |bs| == RECORD_SIZE
  {
    LE(r.nameRef, 8) + (LE(r.funcHash, 8) + (LE(r.counterPtr, 8) + (LE(r.functionPointer, 8) + (LE(r.values, 8) +
      (LE(r.numCounters, 4) + (LE(r.callSites, 2) + LE(r.memorySites, 2)))))))
  }

  function EncodeRecords(rs: seq<Record>): (bs: Bytes)
    ensures |bs| == RECORD_SIZE * |rs|
  {
    if rs == [] then [] else EncodeRecord(rs[0]) + EncodeRecords(rs[1..])
  }

  lemma {:induction false} RecordsAt(rs: seq<Record>, k: nat)
    requires k < |rs|
    ensures EncodeRecords(rs)[RECORD_SIZE * k..RECORD_SIZE * k + RECORD_SIZE] == EncodeRecord(rs[k])
  {
    hide EncodeRecord;
    var bs := EncodeRecords(rs);
    if k > 0 {
      RecordsAt(rs[1..], k - 1);
      TailSlice(EncodeRecord(rs[0]), EncodeRecords(rs[1..]), RECORD_SIZE * (k - 1), RECORD_SIZE);
    }
  }

  /** The fields of a record that reading it in place looks at. */
  lemma RecordFields(r: Record)
    ensures WordAt(EncodeRecord(r), 0, 8) == r.nameRef && WordAt(EncodeRecord(r), 8, 8) == r.funcHash
    ensures WordAt(EncodeRecord(r), 16, 8) == r.counterPtr && WordAt(EncodeRecord(r), 40, 4) == r.numCounters
  {
    hide LE;
    hide FromLE;
    var bs := EncodeRecord(r);
    Limits();
    hide Limit;
    assert bs[0..8] == LE(r.nameRef, 8);
    assert bs[8..16] == LE(r.funcHash, 8);
    assert bs[16..24] == LE(r.counterPtr, 8);
    assert bs[40..44] == LE(r.numCounters, 4);
    WordRoundTrip(r.nameRef, 8);
    WordRoundTrip(r.funcHash, 8);
    WordRoundTrip(r.counterPtr, 8);
    WordRoundTrip(r.numCounters, 4);
  }

  lemma SliceOfSlice(bs: Bytes, from: nat, to: nat, p: nat, size: nat)
    requires from <= to <= |bs| && from + p + size <= to
    ensures bs[from..to][p..p + size] == bs[from + p..from + p + size]
  {
    var x, y := bs[from..to][p..p + size], bs[from + p..from + p + size];
    forall i | 0 <= i < size ensures x[i] == y[i] {
      assert x[i] == bs[from..to][p + i] == bs[from + p + i];
    }
    assert x == y;
  }

  /** Reading a word of a slice in place. */
  lemma WordOfSlice(bs: Bytes, from: nat, to: nat, pos: nat, size: nat)
    requires from <= to <= |bs| && pos + size <= to - from
    ensures WordAt(bs, from + pos, size) == WordAt(bs[from..to], pos, size)
  {
    SliceOfSlice(bs, from, to, pos, size);
  }

  // ---------------------------------------------------------------- the instrumented program

  const MAGIC: Uint64 := 0xff6c_7072_6f66_7281
  const HEADER_SIZE: nat := 88
  const BYTE_COVERAGE := 0x1000_0000_0000_0000
  const DEBUG_CORRELATE := 0x800_0000_0000_0000

  /** What the linker fixes: where the sections are, the records, the names and the build ids. */
  datatype Binary = Binary(version: Uint64, dataAddr: Uint64, countersAddr: Uint64, namesAddr: Uint64,
                           records: seq<Record>, names: Bytes, ids: Bytes)

  predicate ByteMode(version: nat) {
    version / BYTE_COVERAGE % 2 == 1
  }

  predicate DebugMode(version: nat) {
    version / DEBUG_CORRELATE % 2 == 1
  }

  function EntrySize(version: nat): (n: nat)
    ensures n > 0
  {
    if ByteMode(version) then 1 else 8
  }

  // ---------------------------------------------------------------- sizes and padding

  /** The size of so many counters: eight bytes each, or one in byte mode. */
  function CountersSize(version: nat, n: nat): nat {
    if ByteMode(version) then n else 8 * n
  }

  function EncodeCounters(version: nat, counters: seq<nat>): (bs: Bytes)
    ensures |bs| == CountersSize(version, |counters|)
  {
    Words(counters, EntrySize(version))
  }

  /** The number of records between two addresses, rounded up. */
  function NumData(begin: nat, end: nat): nat
    requires begin <= end
  {
    (end + RECORD_SIZE - 1 - begin) / RECORD_SIZE
  }

  function NumCounters(begin: nat, end: nat, version: nat): nat
    requires begin <= end
  {
    (end + EntrySize(version) - 1 - begin) / EntrySize(version)
  }

  function PaddingBytes(size: nat): nat {
    (8 - size % 8) % 8
  }

  function ToPage(offset: nat, pageSize: nat): nat
    requires pageSize > 0
  {
    var rest := offset % pageSize;
    if rest > 0 then pageSize - rest else 0
  }

  /** With a page size, counters start on a page; without, only the names are padded. */
  datatype Padding = Padding(beforeCounters: nat, afterCounters: nat, afterNames: nat)

  function PaddingSizes(page: Option<nat>, dataSize: nat, countersSize: nat, namesSize: nat): Padding
    requires page.Some? ==> page.value > 0
  {
    match page
    case None => Padding(0, 0, PaddingBytes(namesSize))
    case Some(p) => Padding(ToPage(HEADER_SIZE + dataSize, p), ToPage(countersSize, p), ToPage(namesSize, p))
  }

  /** The rounded sizes cover the sections, with less than one element to spare. */
  lemma SectionSizes(begin: nat, end: nat, version: nat)
    requires begin <= end
    ensures end - begin <= RECORD_SIZE * NumData(begin, end) < end - begin + RECORD_SIZE
    ensures end - begin <= EntrySize(version) * NumCounters(begin, end, version) < end - begin + EntrySize(version)
  {
  }

  /** Padding reaches the next multiple, and no farther. */
  lemma {:induction false} PageIsLeast(size: nat, pageSize: nat)
    requires pageSize > 0
    ensures (size + ToPage(size, pageSize)) % pageSize == 0 && ToPage(size, pageSize) < pageSize
  {
    var q, r := size / pageSize, size % pageSize;
    assert size == q * pageSize + r;
    if r > 0 {
      MulDist(q, 1, pageSize);
      MultipleMod(q + 1, pageSize);
    }
  }

  lemma PaddingIsLeast(size: nat)
    ensures (size + PaddingBytes(size)) % 8 == 0 && PaddingBytes(size) < 8
  {
  }
}
