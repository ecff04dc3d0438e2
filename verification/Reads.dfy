/** Reading a table: rows go out in batches through a buffer of fixed capacity.

    `Batches` says how a list of entities is cut up; the methods are proved to send exactly
    these batches, or as many as the receiver takes. */
module Reads {
  import opened Common
  import opened Text
  import opened Entries
  import opened TableStore
  import opened Tables

  const CAPACITY: nat := 64

  datatype ReadType = ReadTableEntry | ReadDirectCounter | ReadDirectMeter

  datatype Entity =
    | EntryEntity(entry: TableEntry)
    | CounterEntity(entry: TableEntry, data: Option<CounterData>)
    | MeterEntity(entry: TableEntry, config: Option<MeterConfig>, meterData: Option<MeterData>)

  function EntityOf(t: ReadType, r: RowValue): Entity {
    match t
    case ReadDirectCounter => CounterEntity(r.entry, r.counterData)
    case ReadDirectMeter => MeterEntity(r.entry, r.meterConfig, r.meterData)
    case ReadTableEntry => EntryEntity(r.entry)
  }

  // ---- Batches

  /** The batches that fill up, and what is left in the buffer. */
  function Full<T>(items: seq<T>): seq<seq<T>> {
    if |items| < CAPACITY then [] else [items[..CAPACITY]] + Full(items[CAPACITY..])
  }

  function Rest<T>(items: seq<T>): (r: seq<T>)
    ensures |r| < CAPACITY
  {
    if |items| < CAPACITY then items else Rest(items[CAPACITY..])
  }

  /** The final batch is sent even if nothing is left. */
  function Batches<T>(items: seq<T>): seq<seq<T>> {
    Full(items) + [Rest(items)]
  }

  /** Batches lose nothing, repeat nothing and keep the order; all but the last are full. */
  lemma {:induction false} BatchesExact<T>(items: seq<T>)
    ensures Flatten(Batches(items)) == items
    ensures forall i | 0 <= i < |Batches(items)| - 1 :: |Batches(items)[i]| == 64
    ensures |Batches(items)[|Batches(items)| - 1]| < 64
  {
    if |items| < CAPACITY {
      assert Batches(items) == [items] && [items][1..] == [];
    } else {
      BatchesExact(items[CAPACITY..]);
      assert Batches(items)[1..] == Batches(items[CAPACITY..]);
      assert items == items[..CAPACITY] + items[CAPACITY..];
    }
  }

  /** Some of the batches, from the first one on, hold some of the entities, from the first one on. */
  lemma {:induction false} PrefixBatches<T>(items: seq<T>, k: nat)
    requires k <= |Batches(items)|
    ensures Flatten(Batches(items)[..k]) <= items
  {
    if k > 0 {
      if |items| < CAPACITY {
        assert Batches(items)[..k] == [items] && [items][1..] == [];
      } else {
        PrefixBatches(items[CAPACITY..], k - 1);
        assert Batches(items)[..k][1..] == Batches(items[CAPACITY..])[..k - 1];
        assert items == items[..CAPACITY] + items[CAPACITY..];
      }
    }
  }

  /** One more entity: it fills a batch up, or joins what is left. */
  lemma {:induction false} BatchesSnoc<T>(items: seq<T>, x: T)
    ensures |Rest(items)| + 1 == CAPACITY ==> Full(items + [x]) == Full(items) + [Rest(items) + [x]] && Rest(items + [x]) == []
    ensures |Rest(items)| + 1 < CAPACITY ==> Full(items + [x]) == Full(items) && Rest(items + [x]) == Rest(items) + [x]
  {
    if |items| < CAPACITY {
      if |items| + 1 == CAPACITY {
        assert (items + [x])[..CAPACITY] == items + [x] && (items + [x])[CAPACITY..] == [];
      }
    } else {
      assert (items + [x])[..CAPACITY] == items[..CAPACITY] && (items + [x])[CAPACITY..] == items[CAPACITY..] + [x];
      BatchesSnoc(items[CAPACITY..], x);
    }
  }

  lemma {:induction false} FullPrefix<T>(a: seq<T>, b: seq<T>)
    ensures Full(a) <= Full(a + b)
  {
    if |a| >= CAPACITY {
      assert (a + b)[..CAPACITY] == a[..CAPACITY] && (a + b)[CAPACITY..] == a[CAPACITY..] + b;
      FullPrefix(a[CAPACITY..], b);
    }
  }

  // ---- Sending

  /** A receiver of batches: what it has been passed, and which calls it fails. */
  class Sender {
    var batches: seq<seq<Entity>>
    const failures: set<nat>

    constructor (failures: set<nat>)
      ensures batches == [] && this.failures == failures
    {
      batches := [];
      this.failures := failures;
    }

    method Send(es: seq<Entity>) returns (ok: bool)
      modifies this
      ensures batches == old(batches) + [es] && ok == (|old(batches)| !in failures)
    {
      ok := |batches| !in failures;
      batches := batches + [es];
    }
  }

  /** What a receiver gets of some batches, its `n`-th call being the next, and whether it
      takes them all: sending stops at the first call that fails. */
  function Delivered<T>(n: nat, failures: set<nat>, bs: seq<seq<T>>): (seq<seq<T>>, bool)
    decreases |bs|
  {
    if bs == [] then ([], true)
    else if n in failures then ([bs[0]], false)
    else
      var (sent, ok) := Delivered(n + 1, failures, bs[1..]);
      ([bs[0]] + sent, ok)
  }

  lemma {:induction false} DeliveredUpTo<T>(n: nat, failures: set<nat>, bs: seq<seq<T>>, k: nat)
    requires k < |bs| && n + k in failures && forall i | n <= i < n + k :: i !in failures
    ensures Delivered(n, failures, bs) == (bs[..k + 1], false)
    decreases k
  {
    if k == 0 {
      assert bs[..1] == [bs[0]];
    } else {
      DeliveredUpTo(n + 1, failures, bs[1..], k - 1);
      assert bs[..k + 1] == [bs[0]] + bs[1..][..k];
    }
  }

  lemma {:induction false} DeliveredAll<T>(n: nat, failures: set<nat>, bs: seq<seq<T>>)
    requires forall i | n <= i < n + |bs| :: i !in failures
    ensures Delivered(n, failures, bs) == (bs, true)
    decreases |bs|
  {
    if bs != [] {
      DeliveredAll(n + 1, failures, bs[1..]);
      assert bs == [bs[0]] + bs[1..];
    }
  }

  class EntityBuffer {
    const entities: array<Entity>
    var count: nat
    const sender: Sender

    constructor (sender: Sender)
      ensures Valid() && Pending() == [] && this.sender == sender && fresh(entities)
    {
      entities := new Entity[CAPACITY](_ => EntryEntity(BLANK));
      count := 0;
      this.sender := sender;
    }

    ghost predicate Valid()
      reads this
    {
      entities.Length == CAPACITY && count < CAPACITY
    }

    /** What waits in the buffer. */
    ghost function Pending(): seq<Entity>
      requires Valid()
      reads this, entities
    {
      entities[..count]
    }

    method SendEntity(e: Entity) returns (ok: bool)
      requires Valid()
      modifies this`count, entities, sender
      ensures Valid()
      ensures if |old(Pending())| + 1 == CAPACITY
              then Pending() == [] && sender.batches == old(sender.batches) + [old(Pending()) + [e]] &&
                   ok == (|old(sender.batches)| !in sender.failures)
              else Pending() == old(Pending()) + [e] && sender.batches == old(sender.batches) && ok
    {
      ok := true;
      entities[count] := e;
      if count + 1 == entities.Length {
        assert entities[..count + 1] == old(Pending()) + [e];
        ok := sender.Send(entities[..count + 1]);
        count := 0;
      } else {
        count := count + 1;
      }
    }

    method Flush() returns (ok: bool)
      requires Valid()
      modifies this`count, sender
      ensures Valid() && Pending() == []
      ensures sender.batches == old(sender.batches) + [old(Pending())] && ok == (|old(sender.batches)| !in sender.failures)
    {
      ok := sender.Send(entities[..count]);
      count := 0;
    }
  }

  const BLANK := TableEntry(0, [], None, 0, false, None, None, None)

  // ---- Reading a table

  lemma SomeOrder<K>(keys: set<K>) returns (order: seq<K>)
    ensures Enumerates(order, keys)
  {
    if keys == {} {
      order := [];
    } else {
      var k :| k in keys;
      var rest := SomeOrder(keys - {k});
      order := rest + [k];
    }
  }

  ghost function RowEntities<K>(t: ReadType, rows: map<K, RowValue>, order: seq<K>): seq<Entity>
    requires forall k | k in order :: k in rows
  {
    if order == [] then []
    else RowEntities(t, rows, order[..|order| - 1]) + [EntityOf(t, rows[order[|order| - 1]])]
  }

  /** The entities of all rows in some order, and of the default row at the end. */
  ghost function TableEntities<K>(t: ReadType, s: Store<K>, order: seq<K>): seq<Entity>
    requires forall k | k in order :: k in s.rows
  {
    RowEntities(t, s.rows, order) + if s.default.Some? then [EntityOf(t, s.default.value)] else []
  }

  lemma RowEntitiesConcat<K>(t: ReadType, rows: map<K, RowValue>, a: seq<K>, b: seq<K>)
    requires forall k | k in a + b :: k in rows
    ensures (forall k | k in a :: k in rows) && RowEntities(t, rows, a) <= RowEntities(t, rows, a + b)
  {
    if b == [] {
      assert a + b == a;
    } else {
      assert (a + b)[..|a + b| - 1] == a + b[..|b| - 1];
      RowEntitiesConcat(t, rows, a, b[..|b| - 1]);
    }
  }

  /** A receiver that fails a batch has got just the batches up to it, whatever would have followed. */
  lemma StoppedShort<T>(n: nat, failures: set<nat>, done: seq<T>, all: seq<T>)
    requires done <= all && |Full(done)| > 0 && n + |Full(done)| - 1 in failures
    requires forall i | n <= i < n + |Full(done)| - 1 :: i !in failures
    ensures Delivered(n, failures, Batches(all)) == (Full(done), false)
  {
    var k := |Full(done)| - 1;
    assert all == done + all[|done|..];
    FullPrefix(done, all[|done|..]);
    DeliveredUpTo(n, failures, Batches(all), k);
    assert Batches(all)[..k + 1] == Full(done);
  }

  /** The receiver has taken all full batches of some entities. */
  ghost predicate Taken(before: seq<seq<Entity>>, sender: Sender, items: seq<Entity>)
    reads sender
  {
    && sender.batches == before + Full(items)
    && forall i | |before| <= i < |before| + |Full(items)| :: i !in sender.failures
  }

  /** The receiver has refused the last full batch of some entities. */
  ghost predicate Refused(before: seq<seq<Entity>>, sender: Sender, items: seq<Entity>)
    reads sender
  {
    && sender.batches == before + Full(items)
    && |Full(items)| > 0 && |before| + |Full(items)| - 1 in sender.failures
    && forall i | |before| <= i < |before| + |Full(items)| - 1 :: i !in sender.failures
  }

  method SendOne(buffer: EntityBuffer, e: Entity, ghost before: seq<seq<Entity>>, ghost items: seq<Entity>) returns (ok: bool)
    requires buffer.Valid() && Taken(before, buffer.sender, items) && buffer.Pending() == Rest(items)
    modifies buffer, buffer.entities, buffer.sender
    ensures buffer.Valid()
    ensures ok ==> Taken(before, buffer.sender, items + [e]) && buffer.Pending() == Rest(items + [e])
    ensures !ok ==> Refused(before, buffer.sender, items + [e])
  {
    BatchesSnoc(items, e);
    ok := buffer.SendEntity(e);
  }

  lemma Extended<K>(order: seq<K>, k: K, keys: set<K>)
    requires k in keys && Enumerates(order, keys - {k})
    ensures Enumerates(order + [k], keys)
  {
  }

  lemma Completed<K>(t: ReadType, s: Store<K>, order: seq<K>, keys: set<K>) returns (all: seq<K>)
    requires keys <= s.rows.Keys && Enumerates(order, s.rows.Keys - keys)
    ensures Enumerates(all, s.rows.Keys) && RowEntities(t, s.rows, order) <= TableEntities(t, s, all)
  {
    var rest := SomeOrder(keys);
    all := order + rest;
    assert forall i | 0 <= i < |all| :: if i < |order| then all[i] in order else all[i] in rest;
    RowEntitiesConcat(t, s.rows, order, rest);
  }

  /** Sends every row, in whatever order the map of rows is gone through. */
  method SendRows(table: Table, readType: ReadType, buffer: EntityBuffer) returns (ok: bool, ghost order: seq<seq<Byte>>, ghost items: seq<Entity>)
    requires table.Valid() && buffer.Valid() && buffer.Pending() == []
    modifies buffer, buffer.entities, buffer.sender
    ensures buffer.Valid() && Enumerates(order, table.State().rows.Keys)
    ensures ok ==>
              && items == RowEntities(readType, table.State().rows, order)
              && Taken(old(buffer.sender.batches), buffer.sender, items) && buffer.Pending() == Rest(items)
    ensures !ok ==>
              items <= TableEntities(readType, table.State(), order) && Refused(old(buffer.sender.batches), buffer.sender, items)
  {
    var keys := table.rows.Keys;
    ghost var s, before := table.State(), buffer.sender.batches;
    ok, order, items := true, [], [];
    while keys != {}
      invariant buffer.Valid() && table.Valid() && table.State() == s && s.rows.Keys == table.rows.Keys
      invariant keys <= s.rows.Keys && Enumerates(order, s.rows.Keys - keys)
      invariant items == RowEntities(readType, s.rows, order)
      invariant Taken(before, buffer.sender, items) && buffer.Pending() == Rest(items)
      invariant ok
    {
      var k :| k in keys;
      var e := EntityOf(readType, table.rows[k].Value());
      ok := SendOne(buffer, e, before, items);
      keys := keys - {k};
      assert (s.rows.Keys - keys) - {k} == s.rows.Keys - (keys + {k});
      Extended(order, k, s.rows.Keys - keys);
      assert (order + [k])[..|order|] == order;
      order, items := order + [k], items + [e];
      hide Enumerates, Taken, Refused, Full, Rest;
      assert table.State() == s;
      if !ok {
        order := Completed(readType, s, order, keys);
        return;
      }
    }
  }

  /** Sends every row and then the default row. */
  method SendAll(table: Table, readType: ReadType, buffer: EntityBuffer) returns (ok: bool, ghost order: seq<seq<Byte>>, ghost items: seq<Entity>)
    requires table.Valid() && buffer.Valid() && buffer.Pending() == []
    modifies buffer, buffer.entities, buffer.sender
    ensures buffer.Valid() && Enumerates(order, table.State().rows.Keys)
    ensures items <= TableEntities(readType, table.State(), order)
    ensures ok ==>
              && items == TableEntities(readType, table.State(), order)
              && Taken(old(buffer.sender.batches), buffer.sender, items) && buffer.Pending() == Rest(items)
    ensures !ok ==> Refused(old(buffer.sender.batches), buffer.sender, items)
  {
    ghost var s, before := table.State(), buffer.sender.batches;
    ok, order, items := SendRows(table, readType, buffer);
    assert table.State() == s;
    hide Enumerates, Taken, Refused, Full, Rest, RowEntities;
    if ok && table.defaultRow != null {
      var e := EntityOf(readType, table.defaultRow.Value());
      ok := SendOne(buffer, e, before, items);
      items := items + [e];
      assert table.State() == s;
    }
  }

  /** Sends every row and then the default row: exactly the batches that these make in some
      order of the rows, up to the first one refused. */
  method ReadTableEntries(table: Table, readType: ReadType, sender: Sender) returns (ok: bool, ghost order: seq<seq<Byte>>)
    requires table.Valid()
    modifies sender
    ensures Enumerates(order, table.State().rows.Keys)
    ensures var (sent, all) := Delivered(|old(sender.batches)|, sender.failures,
                                         Batches(TableEntities(readType, table.State(), order)));
            sender.batches == old(sender.batches) + sent && ok == all
  {
    var buffer := new EntityBuffer(sender);
    ghost var s, before := table.State(), sender.batches;
    ghost var items;
    ok, order, items := SendAll(table, readType, buffer);
    assert table.State() == s;
    if !ok {
      StoppedShort(|before|, sender.failures, items, TableEntities(readType, s, order));
    } else {
      ok := buffer.Flush();
      assert table.State() == s;
      assert sender.batches == before + Batches(items) && |before + Full(items)| == |before| + |Full(items)|;
      Flushed(|before|, sender.failures, items);
    }
    hide Batches, Delivered, TableEntities, Full, Rest, Enumerates;
  }

  /** Once all full batches are taken, the rest goes out with the last call. */
  lemma Flushed<T>(n: nat, failures: set<nat>, items: seq<T>)
    requires forall i | n <= i < n + |Full(items)| :: i !in failures
    ensures Delivered(n, failures, Batches(items)) == (Batches(items), n + |Full(items)| !in failures)
  {
    var k := |Full(items)|;
    if n + k in failures {
      DeliveredUpTo(n, failures, Batches(items), k);
      assert Batches(items)[..k + 1] == Batches(items);
    } else {
      DeliveredAll(n, failures, Batches(items));
    }
  }

  lemma {:induction false} DeliveredPrefix<T>(n: nat, failures: set<nat>, bs: seq<seq<T>>)
    ensures var (sent, all) := Delivered(n, failures, bs);
            && |sent| <= |bs| && sent == bs[..|sent|]
            && (all <==> forall i | n <= i < n + |bs| :: i !in failures)
            && (all ==> sent == bs)
            && (!all ==> |sent| > 0 && n + |sent| - 1 in failures)
    decreases |bs|
  {
    if bs != [] && n !in failures {
      var (sent, all) := Delivered(n + 1, failures, bs[1..]);
      DeliveredPrefix(n + 1, failures, bs[1..]);
      assert bs == [bs[0]] + bs[1..] && bs[..|sent| + 1] == [bs[0]] + bs[1..][..|sent|];
    } else if bs != [] {
      assert bs[..1] == [bs[0]];
    }
  }

  /** A read either hands over all entities, in batches that are full but for the last, or
      is refused and has then handed over the first of them. */
  lemma ReadExact<T>(n: nat, failures: set<nat>, items: seq<T>)
    ensures var (sent, all) := Delivered(n, failures, Batches(items));
            && (all ==> Flatten(sent) == items) && Flatten(sent) <= items
            && (all <==> forall i | n <= i < n + |Batches(items)| :: i !in failures)
            && (forall i | 0 <= i < |sent| - 1 :: |sent[i]| == 64)
            && (|sent| > 0 ==> |sent[|sent| - 1]| <= 64)
  {
    var sent := Delivered(n, failures, Batches(items)).0;
    DeliveredPrefix(n, failures, Batches(items));
    BatchesExact(items);
    PrefixBatches(items, |sent|);
    hide Delivered, Batches, Flatten;
  }

  // ---- What a read says about the rows

  /** The rows that an entity may have been made from. */
  function Sources<K>(t: ReadType, rows: map<K, RowValue>, keys: set<K>, x: Entity): set<K> {
    set k | k in keys && k in rows && EntityOf(t, rows[k]) == x
  }

  lemma SourcesMore<K>(t: ReadType, rows: map<K, RowValue>, keys: set<K>, k: K, x: Entity)
    requires k !in keys && k in rows
    ensures |Sources(t, rows, keys + {k}, x)| == |Sources(t, rows, keys, x)| + if EntityOf(t, rows[k]) == x then 1 else 0
  {
    hide EntityOf;
    var before := Sources(t, rows, keys, x);
    assert Sources(t, rows, keys + {k}, x) == if EntityOf(t, rows[k]) == x then before + {k} else before;
  }

  lemma RowsSnoc<K>(t: ReadType, rows: map<K, RowValue>, front: seq<K>, k: K)
    requires k in rows && forall j | j in front :: j in rows
    ensures RowEntities(t, rows, front + [k]) == RowEntities(t, rows, front) + [EntityOf(t, rows[k])]
  {
    assert (front + [k])[..|front|] == front;
  }

  lemma CountSnoc<T>(s: seq<T>, v: T, x: T)
    ensures multiset(s + [v])[x] == multiset(s)[x] + if v == x then 1 else 0
  {
  }

  lemma {:induction false} RowsCounted<K>(t: ReadType, rows: map<K, RowValue>, order: seq<K>, keys: set<K>, x: Entity)
    requires Enumerates(order, keys) && keys <= rows.Keys
    ensures |order| == |keys| && (forall k | k in order :: k in rows) && |RowEntities(t, rows, order)| == |keys|
    ensures multiset(RowEntities(t, rows, order))[x] == |Sources(t, rows, keys, x)|
  {
    hide *;
    if order == [] {
      NothingListed(t, rows, order, keys, x);
    } else {
      var front, k := order[..|order| - 1], order[|order| - 1];
      LastListed(order, keys);
      RowsCounted(t, rows, front, keys - {k}, x);
      RowsSnoc(t, rows, front, k);
      SourcesMore(t, rows, keys - {k}, k, x);
      CountSnoc(RowEntities(t, rows, front), EntityOf(t, rows[k]), x);
    }
  }

  lemma NothingListed<K>(t: ReadType, rows: map<K, RowValue>, order: seq<K>, keys: set<K>, x: Entity)
    requires Enumerates(order, keys) && order == []
    ensures keys == {} && RowEntities(t, rows, order) == [] && Sources(t, rows, keys, x) == {}
  {
  }

  lemma LastListed<K>(order: seq<K>, keys: set<K>)
    requires Enumerates(order, keys) && order != []
    ensures var front, k := order[..|order| - 1], order[|order| - 1];
            && order == front + [k] && k in keys && Enumerates(front, keys - {k})
            && keys - {k} + {k} == keys && |keys| == |keys - {k}| + 1
            && (forall j | j in front :: j in keys) && forall j | j in order :: j in keys
  {
    var front, k := order[..|order| - 1], order[|order| - 1];
    assert order == front + [k];
  }

  lemma TableCounted<K>(t: ReadType, s: Store<K>, order: seq<K>, x: Entity)
    requires Enumerates(order, s.rows.Keys)
    ensures |TableEntities(t, s, order)| == |s.rows| + if s.default.Some? then 1 else 0
    ensures multiset(TableEntities(t, s, order))[x] ==
            |Sources(t, s.rows, s.rows.Keys, x)| + if s.default.Some? && EntityOf(t, s.default.value) == x then 1 else 0
  {
    hide RowEntities, EntityOf, Sources, Enumerates;
    RowsCounted(t, s.rows, order, s.rows.Keys, x);
    assert |s.rows| == |s.rows.Keys|;
  }

  /** A read that is not refused hands over, batch after batch, one entity for each row and one
      for the default row, none more often than there are rows to make it from. */
  lemma TableRead<K>(n: nat, failures: set<nat>, t: ReadType, s: Store<K>, order: seq<K>, x: Entity)
    requires Enumerates(order, s.rows.Keys)
    ensures var (sent, all) := Delivered(n, failures, Batches(TableEntities(t, s, order)));
            all ==>
              && |Flatten(sent)| == |s.rows| + (if s.default.Some? then 1 else 0)
              && multiset(Flatten(sent))[x] ==
                   |Sources(t, s.rows, s.rows.Keys, x)| + (if s.default.Some? && EntityOf(t, s.default.value) == x then 1 else 0)
              && (s.default.Some? ==> Flatten(sent)[|s.rows|] == EntityOf(t, s.default.value))
  {
    if s.default.Some? {
      DefaultLast(t, s, order);
    }
    hide TableEntities, Delivered, Batches, Flatten, Sources, EntityOf;
    ReadExact(n, failures, TableEntities(t, s, order));
    TableCounted(t, s, order, x);
  }

  lemma DefaultLast<K>(t: ReadType, s: Store<K>, order: seq<K>)
    requires Enumerates(order, s.rows.Keys) && s.default.Some?
    ensures |TableEntities(t, s, order)| == |s.rows| + 1 && TableEntities(t, s, order)[|s.rows|] == EntityOf(t, s.default.value)
  {
    RowsCounted(t, s.rows, order, s.rows.Keys, EntityOf(t, s.default.value));
    assert |s.rows| == |s.rows.Keys|;
    hide RowEntities, EntityOf, Sources, Enumerates;
  }

  lemma EntrySources<K>(rows: map<K, RowValue>, e: TableEntry)
    ensures Sources(ReadTableEntry, rows, rows.Keys, EntryEntity(e)) == set k | k in rows && rows[k].entry == e
    ensures forall r :: EntityOf(ReadTableEntry, r) == EntryEntity(r.entry)
  {
  }

  lemma CounterSources<K>(rows: map<K, RowValue>, e: TableEntry, data: Option<CounterData>)
    ensures Sources(ReadDirectCounter, rows, rows.Keys, CounterEntity(e, data)) ==
            set k | k in rows && rows[k].entry == e && rows[k].counterData == data
    ensures forall r :: EntityOf(ReadDirectCounter, r) == CounterEntity(r.entry, r.counterData)
  {
  }

  lemma MeterSources<K>(rows: map<K, RowValue>, e: TableEntry, config: Option<MeterConfig>, data: Option<MeterData>)
    ensures Sources(ReadDirectMeter, rows, rows.Keys, MeterEntity(e, config, data)) ==
            set k | k in rows && rows[k].entry == e && rows[k].meterConfig == config && rows[k].meterData == data
    ensures forall r :: EntityOf(ReadDirectMeter, r) == MeterEntity(r.entry, r.meterConfig, r.meterData)
  {
  }

  /** A read of entries that is not refused hands over one entity for each row and one for the
      default row: those with an entry are as many as the rows that hold it. */
  lemma EntriesRead<K>(n: nat, failures: set<nat>, s: Store<K>, order: seq<K>, e: TableEntry)
    requires Enumerates(order, s.rows.Keys)
    ensures var (sent, all) := Delivered(n, failures, Batches(TableEntities(ReadTableEntry, s, order)));
            all ==>
              && |Flatten(sent)| == |s.rows| + (if s.default.Some? then 1 else 0)
              && multiset(Flatten(sent))[EntryEntity(e)] ==
                   |set k | k in s.rows && s.rows[k].entry == e| + (if s.default.Some? && s.default.value.entry == e then 1 else 0)
              && (s.default.Some? ==> Flatten(sent)[|s.rows|] == EntryEntity(s.default.value.entry))
  {
    hide *;
    TableRead(n, failures, ReadTableEntry, s, order, EntryEntity(e));
    EntrySources(s.rows, e);
  }

  /** A read of counters pairs each row's entry with its counter data. */
  lemma CountersRead<K>(n: nat, failures: set<nat>, s: Store<K>, order: seq<K>, e: TableEntry, data: Option<CounterData>)
    requires Enumerates(order, s.rows.Keys)
    ensures var (sent, all) := Delivered(n, failures, Batches(TableEntities(ReadDirectCounter, s, order)));
            all ==>
              && |Flatten(sent)| == |s.rows| + (if s.default.Some? then 1 else 0)
              && multiset(Flatten(sent))[CounterEntity(e, data)] ==
                   |set k | k in s.rows && s.rows[k].entry == e && s.rows[k].counterData == data| +
                   (if s.default.Some? && s.default.value.entry == e && s.default.value.counterData == data then 1 else 0)
              && (s.default.Some? ==> Flatten(sent)[|s.rows|] == CounterEntity(s.default.value.entry, s.default.value.counterData))
  {
    hide *;
    TableRead(n, failures, ReadDirectCounter, s, order, CounterEntity(e, data));
    CounterSources(s.rows, e, data);
  }

  /** A read of meters pairs it with its meter configuration and meter data. */
  lemma MetersRead<K>(n: nat, failures: set<nat>, s: Store<K>, order: seq<K>, e: TableEntry, config: Option<MeterConfig>, data: Option<MeterData>)
    requires Enumerates(order, s.rows.Keys)
    ensures var (sent, all) := Delivered(n, failures, Batches(TableEntities(ReadDirectMeter, s, order)));
            all ==>
              && |Flatten(sent)| == |s.rows| + (if s.default.Some? then 1 else 0)
              && multiset(Flatten(sent))[MeterEntity(e, config, data)] ==
                   |set k | k in s.rows && s.rows[k].entry == e && s.rows[k].meterConfig == config && s.rows[k].meterData == data| +
                   (if s.default.Some? && s.default.value.entry == e && s.default.value.meterConfig == config && s.default.value.meterData == data then 1 else 0)
              && (s.default.Some? ==>
                    Flatten(sent)[|s.rows|] == MeterEntity(s.default.value.entry, s.default.value.meterConfig, s.default.value.meterData))
  {
    hide *;
    TableRead(n, failures, ReadDirectMeter, s, order, MeterEntity(e, config, data));
    MeterSources(s.rows, e, config, data);
  }
}
