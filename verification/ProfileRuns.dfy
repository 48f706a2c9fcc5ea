/**
 * Capturing and merging together: what arrives in the counters of a program when the profiles of other runs
 * of it are merged, and exactly when that is the pointwise sum.
 */
module ProfileRuns {
  import opened Base
  import opened Varints
  import opened ProfileFormat
  import opened ProfileWriter
  import opened ProfileMerge

  // ---------------------------------------------------------------- merging is a fold over the records

  /** The delta when the merge is at record i. */
  function DeltaAt(b: Binary, i: nat): Uint64 {
    (Delta(b) - RECORD_SIZE * i) % TWO_64
  }

  lemma SubtractWrapped(x: int, y: int)
    ensures (x - y % TWO_64) % TWO_64 == (x - y) % TWO_64
  {
    var q, r := y / TWO_64, y % TWO_64;
    assert y == q * TWO_64 + r;
    var p := (x - y) / TWO_64;
    assert x - r == (p + q) * TWO_64 + (x - y) % TWO_64;
  }

  /** The sliding delta resolves record i to its own counters. */
  lemma SlidingDelta(b: Binary, i: nat)
    requires i < |b.records|
    ensures (b.records[i].counterPtr - DeltaAt(b, i)) % TWO_64 == Offset(b, i)
  {
    var p, d := b.records[i].counterPtr, b.countersAddr - b.dataAddr;
    SubtractWrapped(p, Delta(b) - RECORD_SIZE * i);
    SubtractWrapped(p + RECORD_SIZE * i, d);
    assert Delta(b) == d % TWO_64;
    assert p - (Delta(b) - RECORD_SIZE * i) == p + RECORD_SIZE * i - d % TWO_64;
  }

  lemma NextDelta(b: Binary, i: nat)
    ensures (DeltaAt(b, i) - RECORD_SIZE) % TWO_64 == DeltaAt(b, i + 1)
  {
    var x := Delta(b) - RECORD_SIZE * i;
    var q, r := x / TWO_64, x % TWO_64;
    assert x == q * TWO_64 + r;
    var q', r' := (r - RECORD_SIZE) / TWO_64, (r - RECORD_SIZE) % TWO_64;
    assert x - RECORD_SIZE == (q + q') * TWO_64 + r';
  }

  /** The profile has the records of b, and counters where the merge looks for them: behind the records. */
  ghost predicate Describes(profile: Bytes, b: Binary, n: nat) {
    && Readable(b, profile) && HeaderField(profile, 5) == n && HeaderField(profile, 8) == Delta(b)
    && forall i: nat :: i < |b.records| ==> WordAt(profile, RecordPos(profile, i) + 16, 8) == b.records[i].counterPtr
  }

  /** What stands behind the records of a profile, read as counters. */
  ghost function Section(b: Binary, profile: Bytes, n: nat): (xs: seq<nat>)
    requires Describes(profile, b, n)
    ensures |xs| == n
  {
    Source(b.version, profile, RecordPos(profile, |b.records|), n)
  }

  /** From record i on there is one without counters. */
  predicate HasEmpty(b: Binary, i: nat)
    requires i <= |b.records|
    decreases |b.records| - i
  {
    i < |b.records| && (b.records[i].numCounters == 0 || HasEmpty(b, i + 1))
  }

  /** Merging counters record by record, each record's into its own, up to a record without any. */
  ghost function MergeFold(b: Binary, from: seq<nat>, i: nat, cur: seq<nat>): (r: seq<nat>)
    requires LaidOut(b, |cur|) && |from| == |cur| && i <= |b.records|
    ensures |r| == |cur|
    decreases |b.records| - i
  {
    if i == |b.records| || b.records[i].numCounters == 0 then cur
    else
      var f, n := First(b, i), b.records[i].numCounters;
      MergeFold(b, from, i + 1, Blend(b.version, cur, f, from[f..f + n]))
  }

  lemma SourceSlice(version: nat, profile: Bytes, pos: nat, n: nat, k: nat, m: nat)
    requires k + m <= n && pos + CountersSize(version, n) <= |profile|
    ensures Source(version, profile, pos + CountersSize(version, k), m) == Source(version, profile, pos, n)[k..k + m]
  {
    hide WordAt;
    var all := Source(version, profile, pos, n);
    var part := Source(version, profile, pos + CountersSize(version, k), m);
    forall j | 0 <= j < m
      ensures part[j] == all[k..k + m][j]
    {
      assert CountersSize(version, k) + CountersSize(version, j) == CountersSize(version, k + j);
    }
  }

  /** One round of merging, for a record whose counters lie in the profile. */
  lemma MergeRound(b: Binary, profile: Bytes, i: nat, delta: nat, cur: seq<nat>, off: nat, src: seq<nat>, delta': nat)
    requires Readable(b, profile) && LaidOut(b, |cur|) && i < |b.records| && b.records[i].numCounters > 0
    requires off == (WordAt(profile, RecordPos(profile, i) + 16, 8) - delta) % TWO_64
    requires off + CountersSize(b.version, b.records[i].numCounters) <= CountersSize(b.version, HeaderField(profile, 5))
    requires src == Source(b.version, profile, RecordPos(profile, |b.records|) + off, b.records[i].numCounters)
    requires delta' == (delta - RECORD_SIZE) % TWO_64
    ensures MergeFrom(b, profile, i, delta, cur)
            == MergeFrom(b, profile, i + 1, delta', Blend(b.version, cur, First(b, i), src))
  {
    hide WordAt;
    hide Offset;
    hide Blend;
    hide Source;
  }

  /** What a round needs to know about the profile. */
  lemma RoundFacts(profile: Bytes, b: Binary, n: nat, i: nat)
    requires Describes(profile, b, n) && LaidOut(b, n) && i < |b.records| && b.records[i].numCounters > 0
    ensures var f, nc, off := First(b, i), b.records[i].numCounters, Offset(b, i);
            && f + nc <= n
            && off + CountersSize(b.version, nc) <= CountersSize(b.version, HeaderField(profile, 5))
            && off == (WordAt(profile, RecordPos(profile, i) + 16, 8) - DeltaAt(b, i)) % TWO_64
            && Section(b, profile, n)[f..f + nc]
               == Source(b.version, profile, RecordPos(profile, |b.records|) + off, nc)
            && DeltaAt(b, i + 1) == (DeltaAt(b, i) - RECORD_SIZE) % TWO_64
  {
    hide WordAt;
    hide Source;
    SlidingDelta(b, i);
    NextDelta(b, i);
    hide Offset;
    hide DeltaAt;
    hide HeaderField;
    hide RecordPos;
    hide ByteMode;
    SourceSlice(b.version, profile, RecordPos(profile, |b.records|), n, First(b, i), b.records[i].numCounters);
  }

  /** The merge combines the counters behind the records, and fails if it meets a record without any. */
  lemma {:induction false} MergeIsFold(profile: Bytes, b: Binary, n: nat, i: nat, cur: seq<nat>)
    requires Describes(profile, b, n) && LaidOut(b, n) && |cur| == n && i <= |b.records|
    ensures MergeFrom(b, profile, i, DeltaAt(b, i), cur)
            == (HasEmpty(b, i), MergeFold(b, Section(b, profile, n), i, cur))
    decreases |b.records| - i
  {
    hide First;
    hide DeltaAt;
    hide Blend;
    hide WordAt;
    hide Source;
    hide RecordPos;
    hide Offset;
    if i < |b.records| && b.records[i].numCounters > 0 {
      hide MergeFrom;
      var f, nc, from := First(b, i), b.records[i].numCounters, Section(b, profile, n);
      RoundFacts(profile, b, n, i);
      MergeRound(b, profile, i, DeltaAt(b, i), cur, Offset(b, i), from[f..f + nc], DeltaAt(b, i + 1));
      MergeIsFold(profile, b, n, i + 1, Blend(b.version, cur, f, from[f..f + nc]));
    }
  }

  // ---------------------------------------------------------------- counter by counter

  predicate Covers(b: Binary, i: nat, j: nat)
    requires i < |b.records|
  {
    First(b, i) <= j < First(b, i) + b.records[i].numCounters
  }

  /** How many records cover counter j, from record i on and up to a record without counters. */
  function Covered(b: Binary, i: nat, j: nat): nat
    requires i <= |b.records|
    decreases |b.records| - i
  {
    if i == |b.records| || b.records[i].numCounters == 0 then 0
    else (if Covers(b, i, j) then 1 else 0) + Covered(b, i + 1, j)
  }

  function Repeat(version: nat, x: nat, y: nat, n: nat): nat
    decreases n
  {
    if n == 0 then x else Repeat(version, Combine(version, x, y), y, n - 1)
  }

  lemma {:induction false} FoldAt(b: Binary, from: seq<nat>, i: nat, cur: seq<nat>, j: nat)
    requires LaidOut(b, |cur|) && |from| == |cur| && i <= |b.records| && j < |cur|
    ensures MergeFold(b, from, i, cur)[j] == Repeat(b.version, cur[j], from[j], Covered(b, i, j))
    decreases |b.records| - i
  {
    hide Combine;
    hide Offset;
    if i < |b.records| && b.records[i].numCounters > 0 {
      var f, n := First(b, i), b.records[i].numCounters;
      hide First;
      FoldAt(b, from, i + 1, Blend(b.version, cur, f, from[f..f + n]), j);
    }
  }

  lemma {:induction false} RepeatAdds(version: nat, x: nat, y: nat, n: nat)
    requires !ByteMode(version) && x < TWO_64
    ensures Repeat(version, x, y, n) == (x + n * y) % TWO_64
    decreases n
  {
    if n == 0 {
      SmallMod(x, TWO_64);
    } else {
      var x' := (x + y) % TWO_64;
      RepeatAdds(version, x', y, n - 1);
      MulDist(n - 1, 1, y);
      var q := (x + y) / TWO_64;
      assert x + n * y == x' + (n - 1) * y + q * TWO_64;
      AddMultipleMod(x' + (n - 1) * y, q, TWO_64);
    }
  }

  lemma {:induction false} RepeatAnds(version: nat, x: nat, y: nat, n: nat)
    requires ByteMode(version) && n > 0
    ensures Repeat(version, x, y, n) == BitAnd(x, y)
    decreases n
  {
    if n > 1 {
      RepeatAnds(version, BitAnd(x, y), y, n - 1);
      AndAgain(x, y);
    }
  }

  /** What a merge leaves in a counter that so many records cover. */
  function Merged(version: nat, x: nat, y: nat, times: nat): nat {
    if !ByteMode(version) then (x + times * y) % TWO_64
    else if times == 0 then x
    else BitAnd(x, y)
  }

  lemma MergedAt(b: Binary, from: seq<nat>, cur: seq<nat>, j: nat)
    requires LaidOut(b, |cur|) && |from| == |cur| && AllEntries(b.version, cur) && j < |cur|
    ensures MergeFold(b, from, 0, cur)[j] == Merged(b.version, cur[j], from[j], Covered(b, 0, j))
  {
    hide LaidOut;
    hide MergeFold;
    hide Covered;
    FoldAt(b, from, 0, cur, j);
    assert Entry(b.version, cur[j]);
    var n := Covered(b, 0, j);
    if !ByteMode(b.version) {
      RepeatAdds(b.version, cur[j], from[j], n);
    } else if n > 0 {
      RepeatAnds(b.version, cur[j], from[j], n);
    }
  }

  function Pointwise(version: nat, xs: seq<nat>, ys: seq<nat>): (r: seq<nat>)
    requires |xs| == |ys|
    ensures |r| == |xs|
  {
    seq(|xs|, j requires 0 <= j < |xs| => Combine(version, xs[j], ys[j]))
  }

  /** A counter is counted once: covered by one record, up to wrap-around; in byte mode, by any. */
  predicate CountedOnce(b: Binary, j: nat) {
    if ByteMode(b.version) then Covered(b, 0, j) > 0 else Covered(b, 0, j) % TWO_64 == 1
  }

  /** No record is empty, and every counter is counted once. */
  ghost predicate WellCovered(b: Binary, n: nat) {
    !HasEmpty(b, 0) && forall j: nat :: j < n ==> CountedOnce(b, j)
  }

  lemma FoldIsPointwise(b: Binary, from: seq<nat>, cur: seq<nat>)
    requires LaidOut(b, |cur|) && |from| == |cur| && AllEntries(b.version, cur) && WellCovered(b, |cur|)
    ensures MergeFold(b, from, 0, cur) == Pointwise(b.version, cur, from)
  {
    hide LaidOut;
    hide AllEntries;
    hide MergeFold;
    hide CountedOnce;
    hide Combine;
    hide HasEmpty;
    var r := MergeFold(b, from, 0, cur);
    forall j | 0 <= j < |cur|
      ensures r[j] == Combine(b.version, cur[j], from[j])
    {
      assert CountedOnce(b, j);
      MergedAt(b, from, cur, j);
      OnceIsCombined(b, j, cur[j], from[j]);
    }
  }

  lemma {:induction false} OnceIsCombined(b: Binary, j: nat, x: nat, y: nat)
    requires CountedOnce(b, j)
    ensures Merged(b.version, x, y, Covered(b, 0, j)) == Combine(b.version, x, y)
  {
    hide Covered;
    if !ByteMode(b.version) {
      OddTimes(x, y, Covered(b, 0, j));
    }
  }

  lemma {:induction false} OddTimes(x: nat, y: nat, n: nat)
    requires n % TWO_64 == 1
    ensures (x + n * y) % TWO_64 == (x + y) % TWO_64
  {
    var q := n / TWO_64;
    assert n == q * TWO_64 + 1;
    MulDist(q * TWO_64, 1, y);
    MulAssoc(q, TWO_64, y);
    MulAssoc(q, y, TWO_64);
    AddMultipleMod(x + y, q * y, TWO_64);
  }

  // ---------------------------------------------------------------- reading a captured profile

  /** Everything in the profile is written with words that hold it. */
  ghost predicate WordSized(b: Binary, n: nat) {
    && |b.ids| < TWO_64 && |b.records| < TWO_64 && n < TWO_64 && |b.names| < TWO_64
    && CountersSize(b.version, n) <= TWO_64
  }

  /** The same function; the pointers to it and to its value sites depend on where the program is loaded. */
  predicate SameFunction(x: Record, y: Record) {
    && x.nameRef == y.nameRef && x.funcHash == y.funcHash
    && x.counterPtr == y.counterPtr && x.numCounters == y.numCounters
  }

  /** The same program, loaded perhaps at another address: its sections keep their distance. */
  predicate SameProgram(a: Binary, b: Binary) {
    && a.version == b.version && a.names == b.names && a.ids == b.ids && Delta(a) == Delta(b)
    && |a.records| == |b.records| && forall i :: 0 <= i < |a.records| ==> SameFunction(a.records[i], b.records[i])
  }

  /** The words of the header other than the sizes of the padding, which the merge does not read. */
  predicate Read(k: nat) {
    k < 11 && k != 4 && k != 6
  }

  lemma HeaderWordsFit(a: Binary, n: nat, pad: Padding, k: nat)
    requires WordSized(a, n) && !DebugMode(a.version) && Read(k)
    ensures HeaderWords(a, |a.records|, n, |a.names|, pad)[k] < Limit(8)
  {
    Limits();
  }

  lemma HeaderIs(profile: Bytes, a: Binary, counters: seq<nat>, pad: Padding, k: nat)
    requires Captured(profile, a, counters, pad) && WordSized(a, |counters|) && !DebugMode(a.version) && Read(k)
    ensures HeaderField(profile, k) == HeaderWords(a, |a.records|, |counters|, |a.names|, pad)[k]
  {
    hide Words;
    hide WordAt;
    var ws := HeaderWords(a, |a.records|, |counters|, |a.names|, pad);
    assert profile[0..HEADER_SIZE] == Words(ws, 8);
    hide Captured;
    HeaderWordsFit(a, |counters|, pad, k);
    hide HeaderWords;
    WordsAt(ws, 8, k);
    WordOfSlice(profile, 0, HEADER_SIZE, 8 * k, 8);
  }

  lemma RecordBytes(profile: Bytes, a: Binary, counters: seq<nat>, pad: Padding, i: nat)
    requires Captured(profile, a, counters, pad) && WordSized(a, |counters|) && !DebugMode(a.version) && i < |a.records|
    ensures RecordPos(profile, i) + RECORD_SIZE <= |profile|
    ensures profile[RecordPos(profile, i)..RecordPos(profile, i) + RECORD_SIZE] == EncodeRecord(a.records[i])
  {
    hide EncodeRecord;
    hide EncodeRecords;
    hide EncodeCounters;
    hide HeaderOf;
    HeaderIs(profile, a, counters, pad, 2);
    hide HeaderField;
    hide WordSized;
    var data, all, p := HEADER_SIZE + |a.ids|, EncodeRecords(a.records), RECORD_SIZE * i;
    assert profile[data..RecordsEnd(a)] == all;
    hide Captured;
    RecordsAt(a.records, i);
    SliceOfSlice(profile, data, RecordsEnd(a), p, RECORD_SIZE);
  }

  lemma RecordIs(profile: Bytes, a: Binary, counters: seq<nat>, pad: Padding, i: nat)
    requires Captured(profile, a, counters, pad) && WordSized(a, |counters|) && !DebugMode(a.version) && i < |a.records|
    ensures RecordPos(profile, i) + RECORD_SIZE <= |profile|
    ensures var pos := RecordPos(profile, i);
            && WordAt(profile, pos, 8) == a.records[i].nameRef && WordAt(profile, pos + 8, 8) == a.records[i].funcHash
            && WordAt(profile, pos + 16, 8) == a.records[i].counterPtr
            && WordAt(profile, pos + 40, 4) == a.records[i].numCounters
  {
    hide EncodeRecord;
    hide WordAt;
    hide RecordPos;
    RecordBytes(profile, a, counters, pad, i);
    hide Captured;
    var pos := RecordPos(profile, i);
    RecordFields(a.records[i]);
    WordOfSlice(profile, pos, pos + RECORD_SIZE, 0, 8);
    WordOfSlice(profile, pos, pos + RECORD_SIZE, 8, 8);
    WordOfSlice(profile, pos, pos + RECORD_SIZE, 16, 8);
    WordOfSlice(profile, pos, pos + RECORD_SIZE, 40, 4);
  }

  /** A captured profile is compatible with every run of the same program, wherever it is loaded. */
  lemma CapturedIsCompatible(profile: Bytes, a: Binary, counters: seq<nat>, pad: Padding, b: Binary)
    requires Captured(profile, a, counters, pad) && WordSized(a, |counters|) && !DebugMode(a.version)
    requires SameProgram(a, b)
    ensures Compatible(b, |counters|, profile) && Describes(profile, b, |counters|)
    ensures RecordPos(profile, |b.records|) == RecordsEnd(b)
  {
    hide EncodeRecords;
    hide EncodeCounters;
    hide HeaderOf;
    HeaderIs(profile, a, counters, pad, 0);
    HeaderIs(profile, a, counters, pad, 1);
    HeaderIs(profile, a, counters, pad, 2);
    HeaderIs(profile, a, counters, pad, 3);
    HeaderIs(profile, a, counters, pad, 5);
    HeaderIs(profile, a, counters, pad, 7);
    HeaderIs(profile, a, counters, pad, 8);
    HeaderIs(profile, a, counters, pad, 10);
    hide HeaderField;
    hide WordAt;
    forall i: nat | i < |b.records|
      ensures Matches(profile, i, b.records[i])
      ensures WordAt(profile, RecordPos(profile, i) + 16, 8) == b.records[i].counterPtr
    {
      RecordIs(profile, a, counters, pad, i);
    }
    CompatibleIsReadable(b, |counters|, profile);
  }

  lemma CounterIs(profile: Bytes, a: Binary, counters: seq<nat>, pad: Padding, k: nat)
    requires Captured(profile, a, counters, pad) && AllEntries(a.version, counters) && k < |counters|
    ensures CountersSize(a.version, k) + EntrySize(a.version) <= CountersSize(a.version, |counters|)
    ensures WordAt(profile, RecordsEnd(a) + pad.beforeCounters + CountersSize(a.version, k), EntrySize(a.version))
            == counters[k]
  {
    hide EncodeRecords;
    hide HeaderOf;
    var cs, size, es := RecordsEnd(a) + pad.beforeCounters, CountersSize(a.version, |counters|), EntrySize(a.version);
    assert profile[cs..cs + size] == EncodeCounters(a.version, counters);
    hide Captured;
    hide RecordsEnd;
    Limits();
    assert Entry(a.version, counters[k]) && counters[k] < Limit(es);
    WordsAt(counters, es, k);
    hide Words;
    assert es * k == CountersSize(a.version, k);
    WordOfSlice(profile, cs, cs + size, es * k, es);
  }

  /** Without padding before them, the counters captured are the ones the merge reads. */
  lemma SectionIs(profile: Bytes, a: Binary, counters: seq<nat>, pad: Padding, b: Binary)
    requires Captured(profile, a, counters, pad) && WordSized(a, |counters|) && !DebugMode(a.version)
    requires SameProgram(a, b) && AllEntries(a.version, counters) && pad.beforeCounters == 0
    ensures Describes(profile, b, |counters|) && Section(b, profile, |counters|) == counters
  {
    CapturedIsCompatible(profile, a, counters, pad, b);
    hide WordAt;
    hide Captured;
    hide Describes;
    hide RecordPos;
    hide RecordsEnd;
    hide AllEntries;
    hide Section;
    hide CountersSize;
    hide EntrySize;
    var xs := Section(b, profile, |counters|);
    forall k | 0 <= k < |counters|
      ensures xs[k] == counters[k]
    {
      SectionAt(profile, b, |counters|, k);
      CounterIs(profile, a, counters, pad, k);
    }
  }

  /** Counter k of the section, read in place. */
  lemma SectionAt(profile: Bytes, b: Binary, n: nat, k: nat)
    requires Describes(profile, b, n) && k < n
    ensures var pos := RecordPos(profile, |b.records|) + CountersSize(b.version, k);
            && pos + EntrySize(b.version) <= |profile|
            && Section(b, profile, n)[k] == WordAt(profile, pos, EntrySize(b.version))
  {
    hide WordAt;
    hide HeaderField;
    hide RecordPos;
  }

  // ---------------------------------------------------------------- runs

  /** A run of a program whose counters have been captured into a buffer. */
  datatype Run = Run(binary: Binary, counters: seq<nat>, buffer: Bytes, page: Option<nat>)

  /** A run of the program b with n counters. */
  ghost predicate RunOf(r: Run, b: Binary, n: nat) {
    && Paged(r.page) && !DebugMode(b.version) && b.records != [] && SameProgram(r.binary, b)
    && |r.counters| == n && |r.buffer| == SizeForBuffer(r.binary, n, r.page)
    && WordSized(b, n) && AllEntries(b.version, r.counters)
  }

  /** Whether the layout of the profile leaves room between records and counters. */
  ghost predicate Unpadded(r: Run)
    requires Paged(r.page)
  {
    Pads(r.binary, |r.counters|, r.page).beforeCounters == 0
  }

  ghost function Dump(r: Run): Bytes
    requires Paged(r.page) && |r.buffer| == SizeForBuffer(r.binary, |r.counters|, r.page)
  {
    ProfileOf(r.buffer, r.binary, r.counters, r.page)
  }

  /** What the merge of a captured profile amounts to, in any layout. */
  lemma DumpMerges(b: Binary, r: Run, cur: seq<nat>)
    requires RunOf(r, b, |cur|) && LaidOut(b, |cur|)
    ensures Describes(Dump(r), b, |cur|)
    ensures MergeProfile(b, Dump(r), cur) == (!HasEmpty(b, 0), MergeFold(b, Section(b, Dump(r), |cur|), 0, cur))
    ensures Unpadded(r) ==> Section(b, Dump(r), |cur|) == r.counters
  {
    hide SizeForBuffer;
    hide ProfileOf;
    hide Pads;
    hide Captured;
    hide LaidOut;
    var pad, profile := Pads(r.binary, |cur|, r.page), Dump(r);
    CaptureHolds(r.buffer, r.binary, r.counters, r.page);
    assert WordSized(r.binary, |cur|) && AllEntries(r.binary.version, r.counters);
    CapturedIsCompatible(profile, r.binary, r.counters, pad, b);
    hide Compatible;
    hide WordSized;
    hide AllEntries;
    if Unpadded(r) {
      SectionIs(profile, r.binary, r.counters, pad, b);
    }
    MergeIsFold(profile, b, |cur|, 0, cur);
    SmallMod(Delta(b), TWO_64);
  }

  /**
   * Capturing the counters of one run and merging the profile into another run of the same program is
   * accepted if and only if no record is empty, and combines each counter with the captured one as often as
   * records cover it.
   */
  lemma CaptureThenMerge(b: Binary, r: Run, cur: seq<nat>, j: nat)
    requires RunOf(r, b, |cur|) && Unpadded(r) && LaidOut(b, |cur|) && AllEntries(b.version, cur) && j < |cur|
    ensures MergeProfile(b, Dump(r), cur).0 == !HasEmpty(b, 0)
    ensures MergeProfile(b, Dump(r), cur).1[j] == Merged(b.version, cur[j], r.counters[j], Covered(b, 0, j))
  {
    hide RunOf;
    hide MergeProfile;
    DumpMerges(b, r, cur);
    MergedAt(b, r.counters, cur, j);
  }

  /** Capture A, merge into B, get A + B, if every counter is counted once and nothing is padded. */
  lemma MergeIsSum(b: Binary, r: Run, cur: seq<nat>)
    requires RunOf(r, b, |cur|) && LaidOut(b, |cur|) && AllEntries(b.version, cur)
    requires Unpadded(r) && WellCovered(b, |cur|)
    ensures MergeProfile(b, Dump(r), cur) == (true, Pointwise(b.version, cur, r.counters))
  {
    hide RunOf;
    hide MergeProfile;
    DumpMerges(b, r, cur);
    FoldIsPointwise(b, r.counters, cur);
  }

  /** Merging into reset counters takes the captured ones over. */
  lemma ResetThenMerge(b: Binary, r: Run, cur: seq<nat>)
    requires RunOf(r, b, |cur|) && LaidOut(b, |cur|) && Unpadded(r) && WellCovered(b, |cur|)
    requires forall j :: 0 <= j < |cur| ==> cur[j] == ResetValue(b.version)
    ensures MergeProfile(b, Dump(r), cur) == (true, r.counters)
  {
    hide LaidOut;
    hide MergeProfile;
    hide WellCovered;
    hide Unpadded;
    MergeIsSum(b, r, cur);
    NeutralSum(b.version, cur, r.counters);
  }

  lemma NeutralSum(version: nat, cur: seq<nat>, xs: seq<nat>)
    requires |cur| == |xs| && AllEntries(version, xs)
    requires forall j :: 0 <= j < |cur| ==> cur[j] == ResetValue(version)
    ensures Pointwise(version, cur, xs) == xs
  {
    forall j | 0 <= j < |cur|
      ensures Combine(version, cur[j], xs[j]) == xs[j]
    {
      assert Entry(version, xs[j]);
      ResetIsNeutral(version, xs[j]);
    }
  }

  // ---------------------------------------------------------------- only then

  /** A program with an empty record refuses every profile, its own included. */
  lemma EmptyRecordRefuses(b: Binary, r: Run, cur: seq<nat>)
    requires RunOf(r, b, |cur|) && LaidOut(b, |cur|) && HasEmpty(b, 0)
    ensures !MergeProfile(b, Dump(r), cur).0
  {
    hide RunOf;
    hide MergeProfile;
    DumpMerges(b, r, cur);
  }

  /** Where a counter is not counted once, a captured count of one (in byte mode, of covered code) goes wrong. */
  lemma UncountedBreaksMerge(b: Binary, r: Run, cur: seq<nat>, j: nat)
    requires RunOf(r, b, |cur|) && LaidOut(b, |cur|) && Unpadded(r) && j < |cur| && !CountedOnce(b, j)
    requires AllEntries(b.version, cur) && cur[j] == (if ByteMode(b.version) then 1 else 0)
    requires r.counters[j] == (if ByteMode(b.version) then 0 else 1)
    ensures MergeProfile(b, Dump(r), cur).1[j] != Combine(b.version, cur[j], r.counters[j])
  {
    hide LaidOut;
    hide MergeProfile;
    hide Covered;
    hide Unpadded;
    hide Merged;
    hide Combine;
    CaptureThenMerge(b, r, cur, j);
    hide RunOf;
    MiscountedIsWrong(b.version, Covered(b, 0, j));
  }

  lemma MiscountedIsWrong(version: nat, times: nat)
    requires if ByteMode(version) then times == 0 else times % TWO_64 != 1
    ensures var x, y := if ByteMode(version) then 1 else 0, if ByteMode(version) then 0 else 1;
            Merged(version, x, y, times) != Combine(version, x, y)
  {
    if !ByteMode(version) {
      assert 0 + times * 1 == times;
      SmallMod(1, TWO_64);
    }
  }

  /** What the merge takes for the first counter of a padded profile begins with a byte of padding. */
  lemma PaddedSection(b: Binary, r: Run, n: nat)
    requires RunOf(r, b, n) && LaidOut(b, n) && !Unpadded(r) && n > 0
    requires forall i :: 0 <= i < |r.buffer| ==> r.buffer[i] == 0
    ensures Describes(Dump(r), b, n) && Section(b, Dump(r), n)[0] % 256 == 0
  {
    hide SizeForBuffer;
    hide ProfileOf;
    hide Pads;
    hide Captured;
    var pad, profile := Pads(r.binary, n, r.page), Dump(r);
    CaptureHolds(r.buffer, r.binary, r.counters, r.page);
    PaddingKept(r.buffer, r.binary, r.counters, r.page);
    assert WordSized(r.binary, n);
    CapturedIsCompatible(profile, r.binary, r.counters, pad, b);
    hide Describes;
    FirstByte(profile, RecordsEnd(b), EntrySize(b.version));
    assert CountersSize(b.version, 0) == 0;
  }

  lemma FirstByte(bs: Bytes, pos: nat, size: nat)
    requires size > 0 && pos + size <= |bs|
    ensures WordAt(bs, pos, size) % 256 == bs[pos]
  {
    var w := bs[pos..pos + size];
    assert FromLE(w) == w[0] + 256 * FromLE(w[1..]);
  }

  /** A captured and a current first counter for which reading padding instead shows. */
  function Telling(version: nat, times: nat): (nat, nat) {
    if !ByteMode(version) then (1, 0) else if times == 0 then (0, 1) else (0xFF, 0xFF)
  }

  /**
   * A profile with padding before the counters is not merged as it should be, however often records cover the
   * first counter: the merge takes the bytes right behind the records for counters. With a buffer zeroed
   * beforehand a first count of one never arrives; in byte mode uncovered code is taken for covered.
   */
  lemma PaddingBreaksMerge(b: Binary, r: Run, cur: seq<nat>)
    requires RunOf(r, b, |cur|) && LaidOut(b, |cur|) && |cur| > 0
    requires !Unpadded(r) && forall i :: 0 <= i < |r.buffer| ==> r.buffer[i] == 0
    requires AllEntries(b.version, cur) && (r.counters[0], cur[0]) == Telling(b.version, Covered(b, 0, 0))
    ensures MergeProfile(b, Dump(r), cur).1[0] != Combine(b.version, cur[0], r.counters[0])
  {
    var n := |cur|;
    DumpMerges(b, r, cur);
    PaddedSection(b, r, n);
    hide RunOf;
    hide MergeProfile;
    hide Describes;
    var xs := Section(b, Dump(r), n);
    hide Section;
    hide LaidOut;
    hide Covered;
    hide Merged;
    hide Combine;
    MergedAt(b, xs, cur, 0);
    PaddedCombine(b.version, xs[0], Covered(b, 0, 0));
  }

  lemma PaddedCombine(version: nat, x: nat, times: nat)
    requires x % 256 == 0
    ensures var (y, cur) := Telling(version, times);
            Merged(version, cur, x, times) != Combine(version, cur, y)
  {
    if !ByteMode(version) {
      MultipleOf256(x, times);
      SmallMod(1, TWO_64);
    } else if times > 0 {
      Pow2Values();
      AndOnes(0xFF, 8);
      AndMultiple(0xFF, x, 8);
    }
  }

  lemma MultipleOf256(x: nat, times: nat)
    requires x % 256 == 0
    ensures (0 + times * x) % TWO_64 != 1
  {
    var q := x / 256;
    assert x == q * 256;
    MulAssoc(times, q, 256);
    var y := times * q;
    assert times * x == y * 256;
    var k, r := (y * 256) / TWO_64, (y * 256) % TWO_64;
    assert y * 256 == k * TWO_64 + r;
    assert r == (y - k * 0x100_0000_0000_0000) * 256;
  }

  /** And-ing a number below 2^n with a multiple of 2^n gives nothing. */
  lemma {:induction false} AndMultiple(a: nat, b: nat, n: nat)
    requires a < Pow2(n) && b % Pow2(n) == 0
    ensures BitAnd(a, b) == 0
    decreases n
  {
    if n > 0 && a > 0 && b > 0 {
      var p, q := Pow2(n - 1), b / Pow2(n);
      assert b == q * (2 * p);
      MulAssoc(q, 2, p);
      assert b == 2 * (q * p);
      MultipleMod(q, p);
      AndMultiple(a / 2, b / 2, n - 1);
    }
  }

  // ---------------------------------------------------------------- exactly then

  /** Whatever was captured in this layout, and wherever it is merged, the result is the pointwise sum. */
  ghost predicate AlwaysSums(b: Binary, n: nat, page: Option<nat>)
    requires LaidOut(b, n)
  {
    forall r: Run, cur: seq<nat> ::
      RunOf(r, b, n) && r.page == page && |cur| == n && AllEntries(b.version, cur)
      ==> MergeProfile(b, Dump(r), cur) == (true, Pointwise(b.version, cur, r.counters))
  }

  /** A run with given counters, captured into a zeroed buffer. */
  ghost function ZeroedRun(b: Binary, counters: seq<nat>, page: Option<nat>): Run
    requires Paged(page)
  {
    Run(b, counters, seq(SizeForBuffer(b, |counters|, page), _ => 0), page)
  }

  lemma ZeroedRunIsRun(b: Binary, counters: seq<nat>, page: Option<nat>)
    requires Paged(page) && !DebugMode(b.version) && b.records != []
    requires WordSized(b, |counters|) && AllEntries(b.version, counters)
    ensures RunOf(ZeroedRun(b, counters, page), b, |counters|)
  {
    hide SizeForBuffer;
  }

  /** How much padding there is does not depend on where the program is loaded. */
  lemma SamePads(r: Run, b: Binary, n: nat)
    requires RunOf(r, b, n)
    ensures Unpadded(r) <==> Pads(b, n, r.page).beforeCounters == 0
  {
    hide PaddingSizes;
    hide SizeForBuffer;
  }

  /** A program with an empty record, a miscounted counter or padding before the counters: some merge is wrong. */
  lemma SomeMergeIsWrong(b: Binary, n: nat, page: Option<nat>)
    requires Paged(page) && LaidOut(b, n) && !DebugMode(b.version) && b.records != [] && WordSized(b, n)
    requires !WellCovered(b, n) || Pads(b, n, page).beforeCounters != 0
    ensures !AlwaysSums(b, n, page)
  {
    hide Pads;
    hide MergeProfile;
    hide Dump;
    if HasEmpty(b, 0) {
      var cur: seq<nat> := seq(n, _ => 0);
      var r := ZeroedRun(b, cur, page);
      ZeroedRunIsRun(b, cur, page);
      hide LaidOut;
      hide RunOf;
      EmptyRecordRefuses(b, r, cur);
      assert MergeProfile(b, Dump(r), cur) != (true, Pointwise(b.version, cur, r.counters));
    } else if Pads(b, n, page).beforeCounters != 0 {
      CountersExist(b, n);
      PaddedMergeIsWrong(b, n, page);
    } else {
      var j: nat :| j < n && !CountedOnce(b, j);
      MiscountedMergeIsWrong(b, n, page, j);
    }
  }

  /** Without an empty record there is a counter. */
  lemma CountersExist(b: Binary, n: nat)
    requires LaidOut(b, n) && b.records != [] && !HasEmpty(b, 0)
    ensures n > 0
  {
    assert b.records[0].numCounters > 0;
  }

  lemma PaddedMergeIsWrong(b: Binary, n: nat, page: Option<nat>)
    requires Paged(page) && LaidOut(b, n) && !DebugMode(b.version) && b.records != [] && WordSized(b, n)
    requires Pads(b, n, page).beforeCounters != 0 && n > 0
    ensures !AlwaysSums(b, n, page)
  {
    hide Pads;
    hide MergeProfile;
    hide Dump;
    hide SizeForBuffer;
    hide Covered;
    var (y, x) := Telling(b.version, Covered(b, 0, 0));
    var counters: seq<nat>, cur: seq<nat> := seq(n, _ => y), seq(n, _ => x);
    var r := ZeroedRun(b, counters, page);
    ZeroedRunIsRun(b, counters, page);
    SamePads(r, b, n);
    hide LaidOut;
    hide Unpadded;
    hide RunOf;
    hide WordSized;
    assert AllEntries(b.version, cur);
    PaddingBreaksMerge(b, r, cur);
    assert MergeProfile(b, Dump(r), cur) != (true, Pointwise(b.version, cur, r.counters));
  }

  lemma MiscountedMergeIsWrong(b: Binary, n: nat, page: Option<nat>, j: nat)
    requires Paged(page) && LaidOut(b, n) && !DebugMode(b.version) && b.records != [] && WordSized(b, n)
    requires Pads(b, n, page).beforeCounters == 0 && j < n && !CountedOnce(b, j)
    ensures !AlwaysSums(b, n, page)
  {
    hide Pads;
    hide MergeProfile;
    hide Dump;
    hide SizeForBuffer;
    hide CountedOnce;
    var byte := ByteMode(b.version);
    var counters: seq<nat>, cur: seq<nat> := seq(n, _ => if byte then 0 else 1), seq(n, _ => if byte then 1 else 0);
    var r := ZeroedRun(b, counters, page);
    ZeroedRunIsRun(b, counters, page);
    SamePads(r, b, n);
    hide LaidOut;
    hide Unpadded;
    hide RunOf;
    hide WordSized;
    assert AllEntries(b.version, cur);
    UncountedBreaksMerge(b, r, cur, j);
    assert MergeProfile(b, Dump(r), cur) != (true, Pointwise(b.version, cur, r.counters));
  }

  /**
   * Capturing in a given layout and merging always gives the pointwise sum if and only if no record is empty,
   * every counter is counted once and there is no padding before the counters.
   */
  lemma MergeIsSumIff(b: Binary, n: nat, page: Option<nat>)
    requires Paged(page) && LaidOut(b, n) && !DebugMode(b.version) && b.records != [] && WordSized(b, n)
    ensures AlwaysSums(b, n, page) <==> WellCovered(b, n) && Pads(b, n, page).beforeCounters == 0
  {
    hide Pads;
    if WellCovered(b, n) && Pads(b, n, page).beforeCounters == 0 {
      forall r: Run, cur: seq<nat> | RunOf(r, b, n) && r.page == page && |cur| == n && AllEntries(b.version, cur)
        ensures MergeProfile(b, Dump(r), cur) == (true, Pointwise(b.version, cur, r.counters))
      {
        SamePads(r, b, n);
        hide RunOf;
        hide MergeProfile;
        MergeIsSum(b, r, cur);
      }
    } else {
      SomeMergeIsWrong(b, n, page);
    }
  }

  // ---------------------------------------------------------------- many runs

  ghost predicate AllRunsOf(runs: seq<Run>, b: Binary, n: nat) {
    forall i :: 0 <= i < |runs| ==> RunOf(runs[i], b, n) && Unpadded(runs[i])
  }

  /** The profiles of the runs merged one after the other. */
  ghost function MergeRuns(b: Binary, runs: seq<Run>, cur: seq<nat>): (r: (bool, seq<nat>))
    requires LaidOut(b, |cur|) && AllRunsOf(runs, b, |cur|)
    ensures |r.1| == |cur|
    decreases |runs|
  {
    if runs == [] then (true, cur)
    else
      var first := MergeProfile(b, Dump(runs[0]), cur);
      var rest := MergeRuns(b, runs[1..], first.1);
      (first.0 && rest.0, rest.1)
  }

  function SumAt(runs: seq<Run>, j: nat): nat
    requires forall i :: 0 <= i < |runs| ==> j < |runs[i].counters|
  {
    if runs == [] then 0 else runs[0].counters[j] + SumAt(runs[1..], j)
  }

  /** The profiles of any number of runs merged one after the other add up, modulo 2^64. */
  lemma {:induction false} RunsAddUp(b: Binary, runs: seq<Run>, cur: seq<nat>, j: nat)
    requires LaidOut(b, |cur|) && AllEntries(b.version, cur) && !ByteMode(b.version) && j < |cur|
    requires AllRunsOf(runs, b, |cur|) && WellCovered(b, |cur|)
    ensures MergeRuns(b, runs, cur).0
    ensures MergeRuns(b, runs, cur).1[j] == (cur[j] + SumAt(runs, j)) % TWO_64
    decreases |runs|
  {
    hide LaidOut;
    hide WellCovered;
    hide MergeProfile;
    hide Dump;
    hide Unpadded;
    assert Entry(b.version, cur[j]);
    if runs == [] {
      SmallMod(cur[j], TWO_64);
    } else {
      MergeIsSum(b, runs[0], cur);
      var cur' := Pointwise(b.version, cur, runs[0].counters);
      assert AllEntries(b.version, cur');
      RunsAddUp(b, runs[1..], cur', j);
      var x, y, z := cur[j], runs[0].counters[j], SumAt(runs[1..], j);
      AddMultipleMod((x + y) % TWO_64 + z, (x + y) / TWO_64, TWO_64);
    }
  }

  /** In byte mode a counter is zero once its code has run, and all ones before. */
  ghost predicate Flags(xs: seq<nat>) {
    forall i :: 0 <= i < |xs| ==> xs[i] == 0 || xs[i] == 0xFF
  }

  lemma AndOfFlags(x: nat, y: nat)
    requires (x == 0 || x == 0xFF) && (y == 0 || y == 0xFF)
    ensures BitAnd(x, y) == if x == 0 || y == 0 then 0 else 0xFF
  {
    if x == 0xFF && y == 0xFF {
      Pow2Values();
      AndOnes(0xFF, 8);
    }
  }

  /** In byte mode, code counts as covered after merging if and only if it was covered in one of the runs. */
  lemma {:induction false} CoveredInSomeRun(b: Binary, runs: seq<Run>, cur: seq<nat>, j: nat)
    requires LaidOut(b, |cur|) && Flags(cur) && ByteMode(b.version) && j < |cur|
    requires AllRunsOf(runs, b, |cur|) && WellCovered(b, |cur|)
    requires forall i :: 0 <= i < |runs| ==> Flags(runs[i].counters)
    ensures MergeRuns(b, runs, cur).0
    ensures MergeRuns(b, runs, cur).1[j] == 0
            <==> cur[j] == 0 || exists i :: 0 <= i < |runs| && runs[i].counters[j] == 0
    decreases |runs|
  {
    hide LaidOut;
    hide WellCovered;
    hide MergeProfile;
    hide Dump;
    hide Unpadded;
    if runs != [] {
      MergeIsSum(b, runs[0], cur);
      var cur' := Pointwise(b.version, cur, runs[0].counters);
      forall k | 0 <= k < |cur|
        ensures cur'[k] == if cur[k] == 0 || runs[0].counters[k] == 0 then 0 else 0xFF
      {
        AndOfFlags(cur[k], runs[0].counters[k]);
      }
      CoveredInSomeRun(b, runs[1..], cur', j);
      assert forall i :: 0 < i < |runs| ==> runs[i] == runs[1..][i - 1];
    }
  }
}
