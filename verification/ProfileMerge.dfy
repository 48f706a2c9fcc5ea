/**
 * Merging a captured profile into the counters of a running program, and resetting them. Records address
 * their counters relative to their own address, so the merge slides a delta along with the record it is at.
 */
module ProfileMerge {
  import opened Base
  import opened Varints
  import opened ProfileFormat

  // ---------------------------------------------------------------- combining counters

  function BitAnd(a: nat, b: nat): nat {
    if a == 0 || b == 0 then 0
    else 2 * BitAnd(a / 2, b / 2) + if a % 2 == 1 && b % 2 == 1 then 1 else 0
  }

  /** Counts add up and wrap; in byte mode a zero means covered, so the bits are and-ed. */
  function Combine(version: nat, x: nat, y: nat): nat {
    if ByteMode(version) then BitAnd(x, y) else (x + y) % TWO_64
  }

  function ResetValue(version: nat): nat {
    if ByteMode(version) then 0xFF else 0
  }

  predicate Entry(version: nat, x: nat) {
    x < if ByteMode(version) then 256 else TWO_64
  }

  ghost predicate AllEntries(version: nat, xs: seq<nat>) {
    forall i :: 0 <= i < |xs| ==> Entry(version, xs[i])
  }

  lemma {:induction false} AndAgain(a: nat, b: nat)
    ensures BitAnd(BitAnd(a, b), b) == BitAnd(a, b)
  {
    if a > 0 && b > 0 {
      AndAgain(a / 2, b / 2);
      var c := BitAnd(a, b);
      assert c / 2 == BitAnd(a / 2, b / 2);
    }
  }

  lemma {:induction false} AndOnes(x: nat, n: nat)
    requires x < Pow2(n)
    ensures BitAnd(Pow2(n) - 1, x) == x
    decreases n
  {
    if n > 0 && x > 0 {
      AndOnes(x / 2, n - 1);
      var m, m' := Pow2(n) - 1, Pow2(n - 1) - 1;
      hide Pow2;
      assert m == 2 * m' + 1 && m / 2 == m' && m % 2 == 1;
      assert BitAnd(m, x) == 2 * BitAnd(m', x / 2) + x % 2;
    }
  }

  /** The reset value is neutral: what is merged into reset counters is taken over. */
  lemma ResetIsNeutral(version: nat, x: nat)
    requires Entry(version, x)
    ensures Combine(version, ResetValue(version), x) == x
  {
    if ByteMode(version) {
      Pow2Values();
      AndOnes(x, 8);
    }
  }

  // ---------------------------------------------------------------- where the counters of a record are

  /** The distance of a record's counters from the start of the counter section, in memory. */
  function Offset(b: Binary, i: nat): Uint64
    requires i < |b.records|
  {
    (b.dataAddr + RECORD_SIZE * i + b.records[i].counterPtr - b.countersAddr) % TWO_64
  }

  function First(b: Binary, i: nat): nat
    requires i < |b.records|
  {
    Offset(b, i) / EntrySize(b.version)
  }

  /** The counters of each record lie in the section; a word-sized counter is aligned. */
  ghost predicate LaidOut(b: Binary, n: nat) {
    forall i: nat :: i < |b.records| && b.records[i].numCounters > 0 ==>
      && Offset(b, i) == CountersSize(b.version, First(b, i))
      && First(b, i) + b.records[i].numCounters <= n
  }

  // ---------------------------------------------------------------- the profile read in place

  function HeaderField(profile: Bytes, k: nat): nat
    requires |profile| >= HEADER_SIZE && k < 11
  {
    WordAt(profile, 8 * k, 8)
  }

  function RecordPos(profile: Bytes, i: nat): nat
    requires |profile| >= HEADER_SIZE
  {
    HEADER_SIZE + HeaderField(profile, 2) + RECORD_SIZE * i
  }

  /** The number of bytes the header accounts for, names apart. */
  function Claimed(version: nat, profile: Bytes): nat
    requires |profile| >= HEADER_SIZE
  {
    RecordPos(profile, HeaderField(profile, 3)) + CountersSize(version, HeaderField(profile, 5))
  }

  /** The header's sizes fit the buffer and the running program. */
  predicate Readable(b: Binary, profile: Bytes) {
    && |profile| >= HEADER_SIZE
    && HeaderField(profile, 3) == |b.records|
    && Claimed(b.version, profile) <= |profile|
    && forall i :: 0 <= i < |b.records| ==> WordAt(profile, RecordPos(profile, i) + 40, 4) == b.records[i].numCounters
  }

  /** Counters from a position of the profile on. */
  function Source(version: nat, profile: Bytes, pos: nat, n: nat): (xs: seq<nat>)
    requires pos + CountersSize(version, n) <= |profile|
    ensures |xs| == n
  {
    seq(n, k requires 0 <= k < n => WordAt(profile, pos + CountersSize(version, k), EntrySize(version)))
  }

  function Blend(version: nat, cur: seq<nat>, at: nat, src: seq<nat>): (r: seq<nat>)
    requires at + |src| <= |cur|
    ensures |r| == |cur|
  {
    seq(|cur|, j requires 0 <= j < |cur| =>
      if at <= j < at + |src| then Combine(version, cur[j], src[j - at]) else cur[j])
  }

  /** Merging from record i on: whether it fails, and the counters it leaves. */
  function MergeFrom(b: Binary, profile: Bytes, i: nat, delta: nat, cur: seq<nat>): (r: (bool, seq<nat>))
    requires Readable(b, profile) && LaidOut(b, |cur|) && i <= |b.records|
    ensures |r.1| == |cur|
    decreases |b.records| - i
  {
    if i == |b.records| then (false, cur)
    else
      var pos := RecordPos(profile, i);
      var start := RecordPos(profile, |b.records|);
      var off := (WordAt(profile, pos + 16, 8) - delta) % TWO_64;
      var nc := b.records[i].numCounters;
      var size := CountersSize(b.version, HeaderField(profile, 5));
      if nc == 0 || off >= size || off + CountersSize(b.version, nc) > size then (true, cur)
      else
        var src := Source(b.version, profile, start + off, nc);
        MergeFrom(b, profile, i + 1, (delta - RECORD_SIZE) % TWO_64, Blend(b.version, cur, First(b, i), src))
  }

  /** Merges counters one by one, in place. */
  method BlendInto(version: nat, counters: array<nat>, at: nat, profile: Bytes, pos: nat, nc: nat)
    requires at + nc <= counters.Length && pos + CountersSize(version, nc) <= |profile|
    modifies counters
    ensures counters[..] == Blend(version, old(counters[..]), at, Source(version, profile, pos, nc))
  {
    ghost var src := Source(version, profile, pos, nc);
    var k := 0;
    while k < nc
      invariant k <= nc
      invariant forall j :: 0 <= j < counters.Length ==>
                  counters[j] == if at <= j < at + k then Combine(version, old(counters[j]), src[j - at])
                                 else old(counters[j])
    {
      var x := WordAt(profile, pos + CountersSize(version, k), EntrySize(version));
      assert x == src[k];
      counters[at + k] := Combine(version, counters[at + k], x);
      k := k + 1;
    }
  }

  /** Merges a profile into the counters; true means that it was refused. */
  method MergeFromBuffer(b: Binary, counters: array<nat>, profile: Bytes) returns (failed: bool)
    requires LaidOut(b, counters.Length) && Readable(b, profile)
    modifies counters
    ensures DebugMode(b.version) ==> failed && counters[..] == old(counters[..])
    ensures !DebugMode(b.version) ==>
              (failed, counters[..]) == MergeFrom(b, profile, 0, HeaderField(profile, 8), old(counters[..]))
  {
    if DebugMode(b.version) {
      return true;
    }
    var delta: nat, i := HeaderField(profile, 8), 0;
    var start, size := RecordPos(profile, |b.records|), CountersSize(b.version, HeaderField(profile, 5));
    ghost var spec := MergeFrom(b, profile, 0, delta, counters[..]);
    while i < |b.records|
      invariant i <= |b.records|
      invariant spec == MergeFrom(b, profile, i, delta, counters[..])
    {
      var off := (WordAt(profile, RecordPos(profile, i) + 16, 8) - delta) % TWO_64;
      delta := (delta - RECORD_SIZE) % TWO_64;
      var nc := WordAt(profile, RecordPos(profile, i) + 40, 4);
      if nc == 0 || off >= size || off + CountersSize(b.version, nc) > size {
        return true;
      }
      BlendInto(b.version, counters, First(b, i), profile, start + off, nc);
      i := i + 1;
    }
    failed := false;
  }

  /**
   * The source checks pointers, not offsets. As long as no pointer into the profile or one counter array
   * behind it wraps, the two checks are the same, even where the subtraction of the delta wrapped.
   */
  lemma PointerCheckIsOffsetCheck(start: Uint64, size: nat, off: Uint64, len: nat)
    requires start + size + len <= TWO_64
    ensures var p := (start + off) % TWO_64;
            (p < start || p >= start + size || (p + len) % TWO_64 > start + size)
            <==> (off >= size || off + len > size)
  {
    var p := (start + off) % TWO_64;
    if start + off < TWO_64 {
      assert p == start + off;
    } else {
      assert p == start + off - TWO_64;
    }
    if off < size {
      assert p + len < TWO_64;
      assert (p + len) % TWO_64 == p + len;
    }
  }

  // ---------------------------------------------------------------- compatibility

  /** What a record must share with the running program's. */
  predicate Matches(profile: Bytes, i: nat, r: Record)
    requires |profile| >= HEADER_SIZE && RecordPos(profile, i) + RECORD_SIZE <= |profile|
  {
    var pos := RecordPos(profile, i);
    && WordAt(profile, pos, 8) == r.nameRef && WordAt(profile, pos + 8, 8) == r.funcHash
    && WordAt(profile, pos + 40, 4) == r.numCounters
  }

  predicate HeaderMatches(b: Binary, n: nat, profile: Bytes) {
    && |profile| >= HEADER_SIZE
    && HeaderField(profile, 0) == MAGIC && HeaderField(profile, 1) == b.version
    && HeaderField(profile, 3) == |b.records| && HeaderField(profile, 5) == n
    && HeaderField(profile, 7) == |b.names| && HeaderField(profile, 10) == 1
    && |profile| >= Claimed(b.version, profile) + |b.names|
  }

  predicate Compatible(b: Binary, n: nat, profile: Bytes) {
    && HeaderMatches(b, n, profile)
    && forall i :: 0 <= i < |b.records| ==> Matches(profile, i, b.records[i])
  }

  /** Compares a profile with the running program; true means that it does not match. */
  method CheckCompatibility(b: Binary, n: nat, profile: Bytes) returns (bad: bool)
    ensures bad == !Compatible(b, n, profile)
  {
    if !HeaderMatches(b, n, profile) {
      return true;
    }
    var i := 0;
    while i < |b.records|
      invariant i <= |b.records| && forall j :: 0 <= j < i ==> Matches(profile, j, b.records[j])
    {
      if !Matches(profile, i, b.records[i]) {
        return true;
      }
      i := i + 1;
    }
    bad := false;
  }

  lemma CompatibleIsReadable(b: Binary, n: nat, profile: Bytes)
    requires Compatible(b, n, profile)
    ensures Readable(b, profile)
  {
    assert forall i :: 0 <= i < |b.records| ==> Matches(profile, i, b.records[i]);
  }

  /** Merging a profile: whether it is accepted, and the counters afterwards. */
  ghost function MergeProfile(b: Binary, profile: Bytes, cur: seq<nat>): (r: (bool, seq<nat>))
    requires LaidOut(b, |cur|)
    ensures |r.1| == |cur|
  {
    if !Compatible(b, |cur|, profile) || DebugMode(b.version) then (false, cur)
    else
      CompatibleIsReadable(b, |cur|, profile);
      var r := MergeFrom(b, profile, 0, HeaderField(profile, 8), cur);
      (!r.0, r.1)
  }

  /** Merges a profile if it is compatible; an incompatible one changes nothing. */
  method MergeCoverage(b: Binary, counters: array<nat>, profile: Bytes) returns (ok: bool)
    requires LaidOut(b, counters.Length)
    modifies counters
    ensures (ok, counters[..]) == MergeProfile(b, profile, old(counters[..]))
  {
    var bad := CheckCompatibility(b, counters.Length, profile);
    if bad {
      return false;
    }
    CompatibleIsReadable(b, counters.Length, profile);
    var failed := MergeFromBuffer(b, counters, profile);
    ok := !failed;
  }

  method Reset(b: Binary, counters: array<nat>)
    modifies counters
    ensures counters[..] == seq(counters.Length, _ => ResetValue(b.version))
  {
    forall i | 0 <= i < counters.Length {
      counters[i] := ResetValue(b.version);
    }
  }
}
