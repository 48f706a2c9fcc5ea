/** Capturing a profile: sections are copied one after the other into a buffer of a size computed beforehand. */
module ProfileWriter {
  import opened Base
  import opened Varints
  import opened ProfileFormat

  // ---------------------------------------------------------------- copying into a buffer

  /** A piece to write; without data the position only advances. */
  datatype Vec = Vec(data: Option<Bytes>, length: nat)

  predicate Proper(v: Vec) {
    v.data.Some? ==> |v.data.value| == v.length
  }

  predicate AllProper(vs: seq<Vec>) {
    forall i :: 0 <= i < |vs| ==> Proper(vs[i])
  }

  function Total(vs: seq<Vec>): nat {
    if vs == [] then 0 else vs[0].length + Total(vs[1..])
  }

  ghost function WriteVec(buf: Bytes, pos: nat, v: Vec): (r: Bytes)
    requires Proper(v) && pos + v.length <= |buf|
    ensures |r| == |buf|
  {
    if v.data.Some? then Overwritten(buf, pos, v.data.value) else buf
  }

  ghost function WriteVecs(buf: Bytes, pos: nat, vs: seq<Vec>): (r: Bytes)
    requires AllProper(vs) && pos + Total(vs) <= |buf|
    ensures |r| == |buf|
    decreases |vs|
  {
    if vs == [] then buf else WriteVecs(WriteVec(buf, pos, vs[0]), pos + vs[0].length, vs[1..])
  }

  lemma {:induction false} TotalConcat(a: seq<Vec>, b: seq<Vec>)
    ensures Total(a + b) == Total(a) + Total(b)
  {
    if a == [] {
      assert a + b == b;
    } else {
      assert (a + b)[0] == a[0] && (a + b)[1..] == a[1..] + b;
      TotalConcat(a[1..], b);
    }
  }

  lemma {:induction false} WriteConcat(buf: Bytes, pos: nat, a: seq<Vec>, b: seq<Vec>)
    requires AllProper(a) && AllProper(b) && pos + Total(a) + Total(b) <= |buf|
    ensures Total(a + b) == Total(a) + Total(b)
    ensures WriteVecs(buf, pos, a + b) == WriteVecs(WriteVecs(buf, pos, a), pos + Total(a), b)
    decreases |a|
  {
    hide WriteVec;
    TotalConcat(a, b);
    if a == [] {
      assert a + b == b;
    } else {
      assert (a + b)[0] == a[0] && (a + b)[1..] == a[1..] + b;
      WriteConcat(WriteVec(buf, pos, a[0]), pos + a[0].length, a[1..], b);
    }
  }

  /** Writing touches nothing before the position and nothing behind what is written. */
  lemma {:induction false} WritesInside(buf: Bytes, pos: nat, vs: seq<Vec>, i: nat)
    requires AllProper(vs) && pos + Total(vs) <= |buf| && i < |buf| && (i < pos || pos + Total(vs) <= i)
    ensures WriteVecs(buf, pos, vs)[i] == buf[i]
    decreases |vs|
  {
    if vs != [] {
      WritesInside(WriteVec(buf, pos, vs[0]), pos + vs[0].length, vs[1..], i);
    }
  }

  /** Each piece ends up where the pieces before it end. */
  lemma {:induction false} PieceAt(buf: Bytes, pos: nat, vs: seq<Vec>, k: nat)
    requires AllProper(vs) && pos + Total(vs) <= |buf| && k < |vs| && vs[k].data.Some?
    ensures pos + Total(vs[..k]) + vs[k].length <= |buf|
    ensures var at := pos + Total(vs[..k]);
            WriteVecs(buf, pos, vs)[at..at + vs[k].length] == vs[k].data.value
    decreases |vs|
  {
    hide WriteVec;
    var buf', next := WriteVec(buf, pos, vs[0]), pos + vs[0].length;
    if k == 0 {
      assert vs[..0] == [];
      FirstPiece(buf, pos, vs[0], vs[1..]);
    } else {
      PieceAt(buf', next, vs[1..], k - 1);
      assert vs[..k][0] == vs[0] && vs[..k][1..] == vs[1..][..k - 1];
    }
  }

  lemma FirstPiece(buf: Bytes, pos: nat, v: Vec, vs: seq<Vec>)
    requires AllProper(vs) && Proper(v) && v.data.Some? && pos + v.length + Total(vs) <= |buf|
    ensures WriteVecs(WriteVec(buf, pos, v), pos + v.length, vs)[pos..pos + v.length] == v.data.value
  {
    var out := WriteVecs(WriteVec(buf, pos, v), pos + v.length, vs);
    forall i | 0 <= i < v.length ensures out[pos + i] == v.data.value[i] {
      WritesInside(WriteVec(buf, pos, v), pos + v.length, vs, pos + i);
    }
  }

  /** The writer that copies into memory; its position survives from call to call. */
  class BufferWriter {
    const buffer: array<Byte>
    var pos: nat

    constructor (buffer: array<Byte>)
      ensures this.buffer == buffer && pos == 0
    {
      this.buffer := buffer;
      pos := 0;
    }

    method Write(vs: seq<Vec>)
      requires AllProper(vs) && pos + Total(vs) <= buffer.Length
      modifies this, buffer
      ensures pos == old(pos) + Total(vs)
      ensures buffer[..] == WriteVecs(old(buffer[..]), old(pos), vs)
    {
      var i := 0;
      ghost var orig: Bytes := buffer[..];
      assert vs[0..] == vs;
      while i < |vs|
        invariant i <= |vs| && pos + Total(vs[i..]) == old(pos) + Total(vs)
        invariant WriteVecs(buffer[..], pos, vs[i..]) == WriteVecs(orig, old(pos), vs)
      {
        assert vs[i..][0] == vs[i] && vs[i..][1..] == vs[i + 1..];
        ghost var was: Bytes := buffer[..];
        Copy(vs[i]);
        pos := pos + vs[i].length;
        i := i + 1;
      }
    }

    method Copy(v: Vec)
      requires Proper(v) && pos + v.length <= buffer.Length
      modifies buffer
      ensures buffer[..] == WriteVec(old(buffer[..]), pos, v)
    {
      if v.data.Some? {
        forall k | 0 <= k < v.length {
          buffer[pos + k] := v.data.value[k];
        }
      }
    }
  }

  // ---------------------------------------------------------------- a profile

  predicate Paged(page: Option<nat>) {
    page.Some? ==> page.value > 0
  }

  function DataEnd(b: Binary): nat {
    b.dataAddr + RECORD_SIZE * |b.records|
  }

  function CountersEnd(b: Binary, n: nat): nat {
    b.countersAddr + CountersSize(b.version, n)
  }

  function Delta(b: Binary): Uint64 {
    (b.countersAddr - b.dataAddr) % TWO_64
  }

  /** The size the caller is told to allocate. */
  function SizeForBuffer(b: Binary, n: nat, page: Option<nat>): nat
    requires Paged(page)
  {
    var dataSize := RECORD_SIZE * NumData(b.dataAddr, DataEnd(b));
    var countersSize := CountersSize(b.version, NumCounters(b.countersAddr, CountersEnd(b, n), b.version));
    var pad := PaddingSizes(page, dataSize, countersSize, |b.names|);
    HEADER_SIZE + |b.ids| + dataSize + pad.beforeCounters + countersSize + pad.afterCounters
    + |b.names| + pad.afterNames
  }

  function HeaderWords(b: Binary, numData: nat, numCounters: nat, namesSize: nat, pad: Padding): (ws: seq<nat>)
    ensures |ws| == 11
  {
    [MAGIC, b.version, |b.ids|, numData, pad.beforeCounters, numCounters, pad.afterCounters, namesSize,
     if DebugMode(b.version) then 0 else Delta(b), if DebugMode(b.version) then 0 else b.namesAddr, 1]
  }

  /** The pieces of a profile; a program without records writes nothing. */
  function Pieces(b: Binary, counters: seq<nat>, page: Option<nat>): (vs: seq<Vec>)
    requires Paged(page)
    ensures AllProper(vs)
  {
    var debug := DebugMode(b.version);
    var numData := if debug then 0 else |b.records|;
    if numData == 0 && (!debug || |counters| == 0) then []
    else
      var dataSize, namesSize := RECORD_SIZE * numData, if debug then 0 else |b.names|;
      var countersSize := CountersSize(b.version, |counters|);
      var pad := PaddingSizes(page, dataSize, countersSize, namesSize);
      [Vec(Some(Words(HeaderWords(b, numData, |counters|, namesSize, pad), 8)), HEADER_SIZE),
       Vec(Some(b.ids), |b.ids|),
       Vec(if debug then None else Some(EncodeRecords(b.records)), dataSize),
       Vec(None, pad.beforeCounters),
       Vec(Some(EncodeCounters(b.version, counters)), countersSize),
       Vec(None, pad.afterCounters),
       Vec(if debug then None else Some(b.names), namesSize),
       Vec(None, pad.afterNames)]
  }

  lemma ExactSections(b: Binary, n: nat)
    ensures NumData(b.dataAddr, DataEnd(b)) == |b.records|
    ensures NumCounters(b.countersAddr, CountersEnd(b, n), b.version) == n
  {
    var es := EntrySize(b.version);
    DivModUnique(RECORD_SIZE * |b.records| + RECORD_SIZE - 1, RECORD_SIZE, |b.records|, RECORD_SIZE - 1);
    DivModUnique(es * n + es - 1, es, n, es - 1);
  }

  lemma TotalOfPieces(vs: seq<Vec>)
    requires |vs| == 8
    ensures Total(vs) == vs[0].length + vs[1].length + vs[2].length + vs[3].length + vs[4].length + vs[5].length
                         + vs[6].length + vs[7].length
  {
    hide Total;
    Prefixes(vs);
    assert vs == vs[..6] + vs[6..];
    TotalConcat(vs[..6], vs[6..]);
    TotalOfTwo(vs[6..]);
  }

  lemma TotalOfTwo(vs: seq<Vec>)
    requires |vs| == 2
    ensures Total(vs) == vs[0].length + vs[1].length
  {
    assert Total(vs[1..]) == vs[1].length by {
      assert vs[1..][1..] == [];
    }
  }

  /** Aligning without the records never needs more than the records and their own padding. */
  lemma {:induction false} PageOfLess(header: nat, data: nat, p: nat)
    requires p > 0
    ensures ToPage(header, p) <= data + ToPage(header + data, p)
  {
    PageIsLeast(header, p);
    PageIsLeast(header + data, p);
    var x, y := header + ToPage(header, p), header + data + ToPage(header + data, p);
    if y < x {
      var q, q' := x / p, y / p;
      assert x == q * p && y == q' * p;
      if q' < q {
        MulMono(q' + 1, q, p);
        MulDist(q', 1, p);
        assert false;
      } else {
        MulMono(q, q', p);
        assert false;
      }
    }
  }

  /**
   * What is written never exceeds the size promised, in either padding mode; it is exactly that size if
   * there is a record and records are not left to the debug information.
   */
  lemma {:induction false} PromisedSize(b: Binary, counters: seq<nat>, page: Option<nat>)
    requires Paged(page)
    ensures Total(Pieces(b, counters, page)) <= SizeForBuffer(b, |counters|, page)
    ensures !DebugMode(b.version) && b.records != []
            ==> Total(Pieces(b, counters, page)) == SizeForBuffer(b, |counters|, page)
  {
    hide Total;
    hide Words;
    hide EncodeRecords;
    hide EncodeCounters;
    hide HeaderWords;
    hide DebugMode;
    hide ByteMode;
    ExactSections(b, |counters|);
    hide NumData;
    hide NumCounters;
    hide CountersSize;
    var vs := Pieces(b, counters, page);
    if vs == [] {
      EmptyTotal();
    } else {
      TotalOfPieces(vs);
      assert PaddingBytes(0) == 0;
      hide PaddingBytes;
      if page.Some? {
        PageOfLess(HEADER_SIZE, RECORD_SIZE * |b.records|, page.value);
        assert ToPage(0, page.value) == 0;
        hide ToPage;
      }
    }
  }

  lemma EmptyTotal()
    ensures Total([]) == 0
  {
  }

  /** Writes a profile of the current counters into a buffer of the promised size. */
  method Capture(b: Binary, counters: array<nat>, page: Option<nat>, buffer: array<Byte>) returns (written: nat)
    requires Paged(page) && buffer.Length == SizeForBuffer(b, counters.Length, page)
    modifies buffer
    ensures written == Total(Pieces(b, counters[..], page)) <= buffer.Length
    ensures buffer[..] == WriteVecs(old(buffer[..]), 0, Pieces(b, counters[..], page))
  {
    hide WriteVecs;
    hide Total;
    hide SizeForBuffer;
    hide Words;
    var vs := Pieces(b, counters[..], page);
    PromisedSize(b, counters[..], page);
    var writer := new BufferWriter(buffer);
    ghost var orig: Bytes := buffer[..];
    if vs != [] {
      ghost var front, back := vs[..2], vs[2..];
      assert front == vs[..1] + vs[1..2] && vs == front + back;
      TotalConcat(vs[..1], vs[1..2]);
      TotalConcat(front, back);
      WriteConcat(orig, 0, vs[..1], vs[1..2]);
      WriteConcat(orig, 0, front, back);
      writer.Write(vs[..1]);
      writer.Write(vs[1..2]);
      writer.Write(vs[2..]);
    } else {
      EmptyWrite(orig);
    }
    written := writer.pos;
  }

  lemma EmptyWrite(buf: Bytes)
    ensures Total([]) == 0 && WriteVecs(buf, 0, []) == buf
  {
  }

  // ---------------------------------------------------------------- what a captured profile holds

  /** The profile that capturing leaves in a buffer; padding keeps what the buffer held. */
  ghost function ProfileOf(buf: Bytes, b: Binary, counters: seq<nat>, page: Option<nat>): (profile: Bytes)
    requires Paged(page) && |buf| == SizeForBuffer(b, |counters|, page)
    ensures |profile| == |buf|
  {
    PromisedSize(b, counters, page);
    WriteVecs(buf, 0, Pieces(b, counters, page))
  }

  function Pads(b: Binary, n: nat, page: Option<nat>): Padding
    requires Paged(page)
  {
    PaddingSizes(page, RECORD_SIZE * |b.records|, CountersSize(b.version, n), |b.names|)
  }

  function RecordsEnd(b: Binary): nat {
    HEADER_SIZE + |b.ids| + RECORD_SIZE * |b.records|
  }

  function HeaderOf(b: Binary, n: nat, pad: Padding): (bs: Bytes)
    ensures |bs| == HEADER_SIZE
  {
    Words(HeaderWords(b, |b.records|, n, |b.names|, pad), 8)
  }

  /** A profile of a program with records: its header, records, counters and names, each in its place. */
  ghost predicate Captured(profile: Bytes, b: Binary, counters: seq<nat>, pad: Padding) {
    && var cs, size := RecordsEnd(b) + pad.beforeCounters, CountersSize(b.version, |counters|);
    && var ns := cs + size + pad.afterCounters;
    && ns + |b.names| <= |profile|
    && profile[0..HEADER_SIZE] == HeaderOf(b, |counters|, pad)
    && profile[HEADER_SIZE + |b.ids|..RecordsEnd(b)] == EncodeRecords(b.records)
    && profile[cs..cs + size] == EncodeCounters(b.version, counters)
    && profile[ns..ns + |b.names|] == b.names
  }

  lemma PiecesAre(b: Binary, counters: seq<nat>, page: Option<nat>)
    requires Paged(page) && !DebugMode(b.version) && b.records != []
    ensures var vs, pad := Pieces(b, counters, page), Pads(b, |counters|, page);
            && |vs| == 8
            && vs[0] == Vec(Some(HeaderOf(b, |counters|, pad)), HEADER_SIZE) && vs[1].length == |b.ids|
            && vs[2] == Vec(Some(EncodeRecords(b.records)), RECORD_SIZE * |b.records|)
            && vs[3] == Vec(None, pad.beforeCounters)
            && vs[4] == Vec(Some(EncodeCounters(b.version, counters)), CountersSize(b.version, |counters|))
            && vs[5].length == pad.afterCounters && vs[6] == Vec(Some(b.names), |b.names|)
  {
  }

  /** Piece k, given where it starts. */
  lemma {:induction false} PieceFound(buf: Bytes, vs: seq<Vec>, k: nat, at: nat, d: Bytes)
    requires AllProper(vs) && Total(vs) <= |buf| && k < |vs| && vs[k].data == Some(d) && at == Total(vs[..k])
    ensures at + |d| <= |buf| && WriteVecs(buf, 0, vs)[at..at + |d|] == d
  {
    PieceAt(buf, 0, vs, k);
  }

  /** A piece without data leaves what the buffer held. */
  lemma {:induction false} GapKept(buf: Bytes, pos: nat, vs: seq<Vec>, k: nat, i: nat)
    requires AllProper(vs) && pos + Total(vs) <= |buf| && k < |vs| && vs[k].data.None?
    requires pos + Total(vs[..k]) <= i < pos + Total(vs[..k]) + vs[k].length
    ensures i < |buf| && WriteVecs(buf, pos, vs)[i] == buf[i]
    decreases |vs|
  {
    if k == 0 {
      assert vs[..0] == [];
      WritesInside(buf, pos + vs[0].length, vs[1..], i);
    } else {
      assert vs[..k][0] == vs[0] && vs[..k][1..] == vs[1..][..k - 1];
      GapKept(WriteVec(buf, pos, vs[0]), pos + vs[0].length, vs[1..], k - 1, i);
    }
  }

  lemma {:induction false} CaptureHolds(buf: Bytes, b: Binary, counters: seq<nat>, page: Option<nat>)
    requires Paged(page) && !DebugMode(b.version) && b.records != [] && |buf| == SizeForBuffer(b, |counters|, page)
    ensures Captured(ProfileOf(buf, b, counters, page), b, counters, Pads(b, |counters|, page))
  {
    hide Total;
    hide WriteVecs;
    hide Pieces;
    hide EncodeRecords;
    hide EncodeCounters;
    hide CountersSize;
    hide SizeForBuffer;
    hide HeaderOf;
    hide Pads;
    hide Captured;
    var vs, pad := Pieces(b, counters, page), Pads(b, |counters|, page);
    PromisedSize(b, counters, page);
    assert AllProper(vs);
    PiecesAre(b, counters, page);
    Prefixes(vs);
    var cs, size := RecordsEnd(b) + pad.beforeCounters, CountersSize(b.version, |counters|);
    PieceFound(buf, vs, 0, 0, HeaderOf(b, |counters|, pad));
    PieceFound(buf, vs, 2, HEADER_SIZE + |b.ids|, EncodeRecords(b.records));
    PieceFound(buf, vs, 4, cs, EncodeCounters(b.version, counters));
    PieceFound(buf, vs, 6, cs + size + pad.afterCounters, b.names);
    InPlace(WriteVecs(buf, 0, vs), b, counters, pad);
  }

  lemma InPlace(profile: Bytes, b: Binary, counters: seq<nat>, pad: Padding)
    requires var cs, size := RecordsEnd(b) + pad.beforeCounters, CountersSize(b.version, |counters|);
             var ns := cs + size + pad.afterCounters;
             && ns + |b.names| <= |profile|
             && profile[0..HEADER_SIZE] == HeaderOf(b, |counters|, pad)
             && profile[HEADER_SIZE + |b.ids|..RecordsEnd(b)] == EncodeRecords(b.records)
             && profile[cs..cs + size] == EncodeCounters(b.version, counters)
             && profile[ns..ns + |b.names|] == b.names
    ensures Captured(profile, b, counters, pad)
  {
  }

  /** The first byte of padding before the counters is what the buffer held there. */
  lemma PaddingKept(buf: Bytes, b: Binary, counters: seq<nat>, page: Option<nat>)
    requires Paged(page) && !DebugMode(b.version) && b.records != [] && |buf| == SizeForBuffer(b, |counters|, page)
    requires Pads(b, |counters|, page).beforeCounters > 0
    ensures RecordsEnd(b) < |buf| && ProfileOf(buf, b, counters, page)[RecordsEnd(b)] == buf[RecordsEnd(b)]
  {
    hide Total;
    hide WriteVecs;
    hide Pieces;
    hide SizeForBuffer;
    hide Pads;
    var vs := Pieces(b, counters, page);
    PromisedSize(b, counters, page);
    PiecesAre(b, counters, page);
    Prefixes(vs);
    TotalOfThree(vs);
    GapKept(buf, 0, vs, 3, RecordsEnd(b));
  }

  lemma TotalOfThree(vs: seq<Vec>)
    requires |vs| == 8
    ensures Total(vs[..3]) == vs[0].length + vs[1].length + vs[2].length
  {
    hide Total;
    Prefixes(vs);
    assert vs[..3] == vs[..2] + vs[2..3];
    TotalConcat(vs[..2], vs[2..3]);
    TotalOfOne(vs[2..3]);
  }

  lemma TotalOfOne(vs: seq<Vec>)
    requires |vs| == 1
    ensures Total(vs) == vs[0].length
  {
    assert vs[1..] == [];
  }

  lemma Prefixes(vs: seq<Vec>)
    requires |vs| == 8
    ensures Total(vs[..0]) == 0 && Total(vs[..2]) == vs[0].length + vs[1].length
    ensures Total(vs[..4]) == Total(vs[..2]) + vs[2].length + vs[3].length
    ensures Total(vs[..6]) == Total(vs[..4]) + vs[4].length + vs[5].length
  {
    hide Total;
    assert vs[..0] == [];
    EmptyTotal();
    TotalOfTwo(vs[..2]);
    assert vs[..4] == vs[..2] + vs[2..4] && vs[..6] == vs[..4] + vs[4..6];
    TotalConcat(vs[..2], vs[2..4]);
    TotalConcat(vs[..4], vs[4..6]);
    TotalOfTwo(vs[2..4]);
    TotalOfTwo(vs[4..6]);
  }
}
