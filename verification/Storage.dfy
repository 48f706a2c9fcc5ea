/**
 * Contract storage: a map from keys to values shared by everybody who works on the same contract, and
 * range iterators over it that are fixed at the moment they are created.
 */
module Storage {
  import opened Base

  type Key = Bytes
  type Record = (Key, Bytes)

  datatype Order = Ascending | Descending

  // ---------------------------------------------------------------- the order of keys

  predicate Less(a: Key, b: Key) {
    b != [] && (a == [] || a[0] < b[0] || (a[0] == b[0] && Less(a[1..], b[1..])))
  }

  lemma {:induction false} LessTransitive(a: Key, b: Key, c: Key)
    requires Less(a, b) && Less(b, c)
    ensures Less(a, c)
  {
    if a != [] && a[0] == b[0] == c[0] {
      LessTransitive(a[1..], b[1..], c[1..]);
    }
  }

  lemma {:induction false} LessIrreflexive(a: Key)
    ensures !Less(a, a)
  {
    if a != [] {
      LessIrreflexive(a[1..]);
    }
  }

  lemma {:induction false} LessTotal(a: Key, b: Key)
    ensures a == b || Less(a, b) || Less(b, a)
    ensures !(Less(a, b) && Less(b, a)) && !Less(a, a)
  {
    LessIrreflexive(a);
    if a != [] && b != [] {
      LessTotal(a[1..], b[1..]);
      if a[0] == b[0] && a[1..] == b[1..] {
        assert a == [a[0]] + a[1..] && b == [b[0]] + b[1..];
      }
    }
  }

  predicate Least(k: Key, keys: set<Key>) {
    k in keys && forall j :: j in keys && j != k ==> Less(k, j)
  }

  lemma {:induction false} LeastExists(keys: set<Key>) returns (k: Key)
    requires keys != {}
    ensures Least(k, keys)
    decreases keys
  {
    k :| k in keys;
    if keys != {k} {
      var rest := keys - {k};
      var m := LeastExists(rest);
      LessTotal(k, m);
      if Less(k, m) {
        forall j | j in keys && j != k
          ensures Less(k, j)
        {
          if j != m {
            LessTransitive(k, m, j);
          }
        }
      } else {
        k := m;
      }
    }
  }

  lemma OneLeast(keys: set<Key>)
    requires keys != {}
    ensures exists k :: Least(k, keys)
    ensures forall k, j :: Least(k, keys) && Least(j, keys) ==> k == j
  {
    var k := LeastExists(keys);
    forall k, j | Least(k, keys) && Least(j, keys)
      ensures k == j
    {
      LessTotal(k, j);
    }
  }

  function Min(keys: set<Key>): (k: Key)
    requires keys != {}
    ensures Least(k, keys)
  {
    OneLeast(keys);
    var k :| Least(k, keys);
    k
  }

  // ---------------------------------------------------------------- ranges

  predicate InRange(k: Key, start: Option<Key>, end: Option<Key>) {
    (start.Some? ==> !Less(k, start.value)) && (end.Some? ==> Less(k, end.value))
  }

  /** Keys in ascending order. */
  function Sorted(keys: set<Key>): seq<Key>
    decreases |keys|
  {
    if keys == {} then [] else var k := Min(keys); [k] + Sorted(keys - {k})
  }

  predicate StrictlyAscending(ks: seq<Key>) {
    forall i, j :: 0 <= i < j < |ks| ==> Less(ks[i], ks[j])
  }

  lemma {:induction false} SortedIsSorted(keys: set<Key>)
    ensures StrictlyAscending(Sorted(keys))
    ensures forall k :: k in keys <==> k in Sorted(keys)
    decreases |keys|
  {
    if keys != {} {
      var k := Min(keys);
      var rest := Sorted(keys - {k});
      SortedIsSorted(keys - {k});
      assert Sorted(keys) == [k] + rest;
      forall i, j | 0 <= i < j < |rest| + 1
        ensures Less(([k] + rest)[i], ([k] + rest)[j])
      {
        assert rest[j - 1] in rest;
      }
    }
  }

  function Reversed<T>(s: seq<T>): seq<T> {
    seq(|s|, i requires 0 <= i < |s| => s[|s| - 1 - i])
  }

  function Ordered<T>(s: seq<T>, order: Order): seq<T> {
    if order.Ascending? then s else Reversed(s)
  }

  function Entries(m: map<Key, Bytes>, ks: seq<Key>): seq<Record>
    requires forall i :: 0 <= i < |ks| ==> ks[i] in m
  {
    seq(|ks|, i requires 0 <= i < |ks| => (ks[i], m[ks[i]]))
  }

  function KeysIn(m: map<Key, Bytes>, start: Option<Key>, end: Option<Key>): set<Key> {
    set k | k in m && InRange(k, start, end)
  }

  lemma SortedAreKeys(m: map<Key, Bytes>, start: Option<Key>, end: Option<Key>)
    ensures forall i :: 0 <= i < |Sorted(KeysIn(m, start, end))| ==> Sorted(KeysIn(m, start, end))[i] in m
  {
    var ks := Sorted(KeysIn(m, start, end));
    SortedIsSorted(KeysIn(m, start, end));
    assert forall i :: 0 <= i < |ks| ==> ks[i] in KeysIn(m, start, end);
  }

  /** The entries of a range, in ascending order. */
  function Range(m: map<Key, Bytes>, start: Option<Key>, end: Option<Key>): seq<Record> {
    SortedAreKeys(m, start, end);
    Entries(m, Sorted(KeysIn(m, start, end)))
  }

  /** What a range contains and in which order. */
  lemma RangeIsExact(m: map<Key, Bytes>, start: Option<Key>, end: Option<Key>, order: Order)
    ensures var rs := Ordered(Range(m, start, end), order);
            && (forall k, v :: (k, v) in rs <==> k in m && m[k] == v && InRange(k, start, end))
            && (forall i, j :: 0 <= i < j < |rs| ==>
                  if order.Ascending? then Less(rs[i].0, rs[j].0) else Less(rs[j].0, rs[i].0))
  {
    hide Sorted;
    hide Less;
    var ks := Sorted(KeysIn(m, start, end));
    SortedIsSorted(KeysIn(m, start, end));
    SortedAreKeys(m, start, end);
    var range := Range(m, start, end);
    var rs := Ordered(range, order);
    assert forall i :: 0 <= i < |ks| ==> range[i] == (ks[i], m[ks[i]]);
    forall k, v
      ensures (k, v) in rs <==> k in m && m[k] == v && InRange(k, start, end)
    {
      if (k, v) in rs {
        var i :| 0 <= i < |rs| && rs[i] == (k, v);
        var j := if order.Ascending? then i else |rs| - 1 - i;
        assert range[j] == (k, v);
        assert ks[j] in KeysIn(m, start, end);
      }
      if k in m && m[k] == v && InRange(k, start, end) {
        assert k in KeysIn(m, start, end);
        var j :| 0 <= j < |ks| && ks[j] == k;
        var i := if order.Ascending? then j else |rs| - 1 - j;
        assert rs[i] == (k, v);
      }
    }
  }

  /** A range whose start is not below its end is empty. */
  lemma EmptyRange(m: map<Key, Bytes>, start: Key, end: Key)
    requires !Less(start, end)
    ensures Range(m, Some(start), Some(end)) == []
  {
    forall k | k in m
      ensures !InRange(k, Some(start), Some(end))
    {
      if Less(k, end) {
        LessTotal(start, end);
        if Less(end, start) {
          LessTransitive(k, end, start);
        }
      }
    }
    assert KeysIn(m, Some(start), Some(end)) == {};
  }

  lemma RangeFromEmptyKey(m: map<Key, Bytes>)
    ensures Range(m, Some([]), None) == Range(m, None, None)
  {
    assert KeysIn(m, Some([]), None) == KeysIn(m, None, None);
  }

  // ---------------------------------------------------------------- the storage as a value

  datatype Cursor = Cursor(records: seq<Record>, index: nat)

  datatype Store = Store(inner: map<Key, Bytes>, iterators: map<nat, Cursor>, counter: nat)

  /** `Elsewhere` is a change of the shared map by somebody else. */
  datatype Op =
    | Get(key: Key)
    | Scan(start: Option<Key>, end: Option<Key>, order: Order)
    | Next(id: nat)
    | Set(key: Key, value: Bytes)
    | Remove(key: Key)
    | Elsewhere(contents: map<Key, Bytes>)

  datatype Output =
    | Nothing
    | Value(value: Option<Bytes>)
    | Iterator(id: nat)
    | Item(record: Option<Record>)
    | NoIterator(id: nat)

  datatype Result = Result(store: Store, output: Output)

  function NewIterator(s: Store, records: seq<Record>): Result {
    Result(s.(iterators := s.iterators[s.counter := Cursor(records, 0)], counter := s.counter + 1), Iterator(s.counter))
  }

  function Act(s: Store, op: Op): Result {
    match op
    case Get(k) => Result(s, Value(if k in s.inner then Some(s.inner[k]) else None))
    case Scan(start, end, order) => NewIterator(s, Ordered(Range(s.inner, start, end), order))
    case Next(id) =>
      if id !in s.iterators then Result(s, NoIterator(id))
      else
        var c := s.iterators[id];
        if c.index >= |c.records| then Result(s, Item(None))
        else Result(s.(iterators := s.iterators[id := c.(index := c.index + 1)]), Item(Some(c.records[c.index])))
    case Set(k, v) => Result(s.(inner := s.inner[k := v]), Nothing)
    case Remove(k) => Result(s.(inner := s.inner - {k}), Nothing)
    case Elsewhere(m) => Result(s.(inner := m), Nothing)
  }

  // ---------------------------------------------------------------- draining an iterator

  /** What the calls of `Next(id)` among a sequence of operations return. */
  function Drained(s: Store, ops: seq<Op>, id: nat): seq<Output>
    decreases |ops|
  {
    if ops == [] then []
    else
      var r := Act(s, ops[0]);
      (if ops[0] == Next(id) then [r.output] else []) + Drained(r.store, ops[1..], id)
  }

  /** The j-th item of a fixed list of records, and nothing once they are exhausted. */
  function NthItem(records: seq<Record>, j: nat): Output {
    Item(if j < |records| then Some(records[j]) else None)
  }

  predicate Yields(out: seq<Output>, records: seq<Record>, at: nat) {
    forall j :: 0 <= j < |out| ==> out[j] == NthItem(records, at + j)
  }

  lemma {:induction false} DrainFollowsCursor(s: Store, ops: seq<Op>, id: nat, records: seq<Record>, at: nat)
    requires id in s.iterators && id < s.counter
    requires s.iterators[id].records == records
    requires s.iterators[id].index == if at <= |records| then at else |records|
    ensures Yields(Drained(s, ops, id), records, at)
    decreases |ops|
  {
    if ops != [] {
      var r := Act(s, ops[0]);
      var rest := Drained(r.store, ops[1..], id);
      if ops[0] == Next(id) {
        DrainFollowsCursor(r.store, ops[1..], id, records, at + 1);
        var out := [r.output] + rest;
        forall j | 0 <= j < |out|
          ensures out[j] == NthItem(records, at + j)
        {
          if j > 0 {
            assert rest[j - 1] == NthItem(records, at + 1 + (j - 1));
          }
        }
      } else {
        DrainFollowsCursor(r.store, ops[1..], id, records, at);
        assert Drained(s, ops, id) == rest;
      }
    }
  }

  /**
   * However an iterator is drained, and whatever is written, removed or scanned in between by anybody,
   * it yields the entries its range had at the moment of the scan, one after the other in the order
   * asked for, and then nothing forever.
   */
  lemma IteratorIsASnapshot(s: Store, start: Option<Key>, end: Option<Key>, order: Order, ops: seq<Op>)
    ensures var r := Act(s, Scan(start, end, order));
            var records := Ordered(Range(s.inner, start, end), order);
            Yields(Drained(r.store, ops, r.output.id), records, 0)
  {
    var r := Act(s, Scan(start, end, order));
    DrainFollowsCursor(r.store, ops, r.output.id, Ordered(Range(s.inner, start, end), order), 0);
  }

  // ---------------------------------------------------------------- the storage objects

  /** The map shared by everybody who holds the same contract. */
  class StorageCell {
    var entries: map<Key, Bytes>

    constructor (entries: map<Key, Bytes>)
      ensures this.entries == entries
    {
      this.entries := entries;
    }
  }

  /** What a running contract sees of its storage. */
  class RpcMockStorage {
    const inner: StorageCell
    var iterators: map<nat, Cursor>
    var iteratorIdCtr: nat

    ghost function AsStore(): Store
      reads this, inner
    {
      Store(inner.entries, iterators, iteratorIdCtr)
    }

    constructor (inner: StorageCell)
      ensures this.inner == inner && AsStore() == Store(inner.entries, map[], 0)
    {
      this.inner := inner;
      iterators, iteratorIdCtr := map[], 0;
    }

    method AddIterator(records: seq<Record>) returns (id: nat)
      modifies this
      ensures Result(AsStore(), Iterator(id)) == NewIterator(old(AsStore()), records)
    {
      iteratorIdCtr := iteratorIdCtr + 1;
      iterators := iterators[iteratorIdCtr - 1 := Cursor(records, 0)];
      id := iteratorIdCtr - 1;
    }

    method Get(key: Key) returns (value: Option<Bytes>)
      ensures Result(AsStore(), Value(value)) == Act(old(AsStore()), Op.Get(key))
    {
      value := if key in inner.entries then Some(inner.entries[key]) else None;
    }

    method Scan(start: Option<Key>, end: Option<Key>, order: Order) returns (id: nat)
      modifies this
      ensures Result(AsStore(), Iterator(id)) == Act(old(AsStore()), Op.Scan(start, end, order))
    {
      var records;
      match (start, end) {
        case (Some(s), Some(e)) =>
          if Less(e, s) {
            LessTotal(s, e);
            EmptyRange(inner.entries, s, e);
            assert Reversed<Record>([]) == [];
            id := AddIterator([]);
            return;
          }
          records := Range(inner.entries, Some(s), Some(e));
        case (Some(s), None) =>
          records := Range(inner.entries, Some(s), None);
        case (None, Some(e)) =>
          records := Range(inner.entries, None, Some(e));
        case (None, None) =>
          RangeFromEmptyKey(inner.entries);
          records := Range(inner.entries, Some([]), None);
      }
      if order.Descending? {
        records := Reversed(records);
      }
      id := AddIterator(records);
    }

    method Next(id: nat) returns (output: Output)
      modifies this
      ensures Result(AsStore(), output) == Act(old(AsStore()), Op.Next(id))
    {
      if id in iterators {
        var Cursor(records, index) := iterators[id];
        if index >= |records| {
          output := Item(None);
        } else {
          iterators := iterators[id := Cursor(records, index + 1)];
          output := Item(Some(records[index]));
        }
      } else {
        output := NoIterator(id);
      }
    }

    method Set(key: Key, value: Bytes)
      modifies inner
      ensures Result(AsStore(), Nothing) == Act(old(AsStore()), Op.Set(key, value))
    {
      inner.entries := inner.entries[key := value];
    }

    method Remove(key: Key)
      modifies inner
      ensures Result(AsStore(), Nothing) == Act(old(AsStore()), Op.Remove(key))
    {
      inner.entries := inner.entries - {key};
    }
  }
}
