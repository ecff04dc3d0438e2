/** The simulator's tables: rows as objects that are updated in place, filed under key bytes
    in a map, each operation proved to do what TableStore says. */
module Tables {
  import opened Common
  import opened Text
  import opened Entries
  import opened TableStore
  import Sorting

  datatype FieldInfo = FieldInfo(id: nat, name: string)
  datatype TableInfo = TableInfo(id: nat, fields: seq<FieldInfo>, actions: seq<nat>)

  function FieldNumber(f: FieldInfo): int {
    f.id
  }

  /** A table's fields in the order of their IDs. */
  function Ordered(fields: seq<FieldInfo>): seq<FieldInfo> {
    Sorting.StableSort(fields, FieldNumber)
  }

  method OrderFields(fields: seq<FieldInfo>) returns (r: seq<FieldInfo>)
    ensures r == Ordered(fields)
  {
    var a := new FieldInfo[|fields|](i requires 0 <= i < |fields| => fields[i]);
    assert a[..] == fields;
    Sorting.SortInPlace(a, FieldNumber);
    r := a[..];
  }

  method SortFieldMatches(ms: seq<FieldMatch>) returns (r: seq<FieldMatch>)
    ensures r == Canonical(ms)
  {
    var a := new FieldMatch[|ms|](i requires 0 <= i < |ms| => ms[i]);
    assert a[..] == ms;
    Sorting.SortInPlace(a, FieldId);
    r := a[..];
  }

  class Row {
    var entry: TableEntry
    var counterData: Option<CounterData>
    var meterConfig: Option<MeterConfig>
    var meterData: Option<MeterData>

    constructor (e: TableEntry)
      ensures Value() == NewRow(e)
    {
      entry, meterConfig, counterData, meterData := e, e.meterConfig, Some(NO_COUNTS), None;
      if e.counterData.Some? {
        counterData := e.counterData;
      }
      if e.meterData.Some? {
        meterData := e.meterData;
      }
    }

    function Value(): RowValue
      reads this
    {
      RowValue(entry, counterData, meterConfig, meterData)
    }
  }

  class Table {
    const id: nat
    const fields: seq<FieldInfo>
    const actions: seq<nat>
    var rows: map<seq<Byte>, Row>
    var defaultRow: Row?

    constructor (info: TableInfo)
      ensures Valid() && rows == map[] && defaultRow == null && State() == Store(map[], None)
      ensures id == info.id && fields == Ordered(info.fields) && actions == info.actions
    {
      var ordered := OrderFields(info.fields);
      id, fields, actions := info.id, ordered, info.actions;
      rows, defaultRow := map[], null;
    }

    ghost function Objects(): set<Row>
      reads this
    {
      rows.Values + if defaultRow == null then {} else {defaultRow}
    }

    /** No row object is filed twice. */
    ghost predicate Valid()
      reads this
    {
      && (forall j, k | j in rows && k in rows && j != k :: rows[j] != rows[k])
      && (forall k | k in rows :: rows[k] != defaultRow)
    }

    ghost function State(): Store<seq<Byte>>
      reads this, Objects()
    {
      assert forall k | k in rows :: rows[k] in Objects();
      Store(map k | k in rows :: rows[k].Value(), if defaultRow == null then None else Some(defaultRow.Value()))
    }

    /** The table's entries, in no particular order. */
    method Entries() returns (es: seq<TableEntry>)
      ensures forall e :: e in es <==> e in EntriesOf(State())
    {
      es := [];
      var keys := rows.Keys;
      while keys != {}
        invariant keys <= rows.Keys
        invariant forall e :: e in es <==> exists k :: k in rows && k !in keys && rows[k].entry == e
      {
        var k :| k in keys;
        es := es + [rows[k].entry];
        keys := keys - {k};
      }
      assert forall k | k in rows :: State().rows[k].entry == rows[k].entry;
      if defaultRow != null {
        es := es + [defaultRow.entry];
      }
    }

    /** The key bytes of an entry whose matches are in canonical order; none if it has more
        matches than the table has fields. */
    method EntryKey(e: TableEntry) returns (key: Option<seq<Byte>>)
      ensures key == if |e.matches| > |fields| then None else Some(MatchBytes(e.matches) + PriorityBytes(e.priority))
    {
      var bytes: seq<Byte> := [];
      for i := 0 to |e.matches|
        invariant i <= |fields| && bytes == MatchBytes(e.matches[..i])
      {
        if i >= |fields| {
          return None;
        }
        assert e.matches[..i + 1][..i] == e.matches[..i];
        bytes := bytes + PatternBytes(e.matches[i].pattern);
      }
      assert e.matches[..|e.matches|] == e.matches;
      key := Some(bytes + PriorityBytes(e.priority));
    }

    /** The entry with its matches sorted, and its key. */
    method Prepare(entry: TableEntry) returns (e: TableEntry, key: Option<seq<Byte>>)
      ensures e == Normal(entry)
      ensures key == if |e.matches| > |fields| then None else Some(KeyOf(IdentityOf(entry)))
    {
      var ms := SortFieldMatches(entry.matches);
      e := entry.(matches := ms);
      key := EntryKey(e);
    }

    method ModifyTableEntry(entry: TableEntry, insert: bool) returns (o: Outcome)
      requires Valid()
      modifies this, Objects()
      ensures Valid() && fresh(Objects() - old(Objects()))
      ensures (State(), o) == Step(|fields|, KeyOf, old(State()), Write(entry, insert))
    {
      if entry.isDefault {
        if insert || |entry.matches| > 0 {
          return Invalid;
        }
        ReplaceDefault(entry);
        return Done;
      }
      WriteStep(entry, insert);
      hide *;
      var e, k := Prepare(entry);
      if k == None {
        return Invalid;
      }
      if k.value in rows && insert {
        return AlreadyExists;
      }
      if k.value !in rows && !insert {
        return NotFound;
      }
      Enter(k.value, e, insert);
      o := Done;
    }

    lemma WriteStep(entry: TableEntry, insert: bool)
      requires Valid() && !entry.isDefault
      ensures var s, e := State(), Normal(entry);
              var k := KeyOf(IdentityOf(entry));
              (k in s.rows <==> k in rows) &&
              Step(|fields|, KeyOf, s, Write(entry, insert)) ==
                if |e.matches| > |fields| then (s, Invalid)
                else if k in rows && insert then (s, AlreadyExists)
                else if k !in rows && !insert then (s, NotFound)
                else (Apply(s, k, Put(if insert then NewRow(e) else Updated(s.rows[k], e))), Done)
    {
      Sorting.StableSortCorrect(entry.matches, FieldId);
    }

    method ReplaceDefault(entry: TableEntry)
      requires Valid()
      modifies this`defaultRow
      ensures Valid() && fresh(Objects() - old(Objects()))
      ensures State() == old(State()).(default := Some(NewRow(entry)))
    {
      defaultRow := new Row(entry);
      assert State().rows == old(State()).rows;
    }

    /** Enters a new row, or updates the one that exists. */
    method Enter(key: seq<Byte>, e: TableEntry, insert: bool)
      requires Valid() && (insert <==> key !in rows)
      modifies this, Objects()
      ensures Valid() && fresh(Objects() - old(Objects()))
      ensures State() == Apply(old(State()), key, Put(if insert then NewRow(e) else Updated(old(State()).rows[key], e)))
    {
      if key !in rows && insert {
        AddRow(key, e);
      }
      Refresh(key, e, insert);
    }

    method AddRow(key: seq<Byte>, e: TableEntry)
      requires Valid() && key !in rows
      modifies this`rows
      ensures Valid() && fresh(Objects() - old(Objects())) && rows.Keys == old(rows).Keys + {key}
      ensures State() == old(State()).(rows := old(State()).rows[key := NewRow(e)])
    {
      ghost var s := State();
      var row := new Row(e);
      rows := rows[key := row];
      assert State().rows == s.rows[key := NewRow(e)];
    }

    /** Updates the entry of a row and its direct resources. */
    method Refresh(key: seq<Byte>, e: TableEntry, insert: bool)
      requires Valid() && key in rows
      modifies rows[key]
      ensures Valid() && Objects() == old(Objects())
      ensures var r := old(State()).rows[key];
              State() == Apply(old(State()), key, Put(
                if insert then r.(entry := e, meterConfig := e.meterConfig) else Updated(r, e)))
    {
      ghost var s := State();
      var row := rows[key];
      row.entry := e;
      row.meterConfig := e.meterConfig;
      if !insert && e.counterData.Some? {
        row.counterData := e.counterData;
      }
      assert State().rows == s.rows[key := row.Value()];
    }

    method RemoveTableEntry(entry: TableEntry) returns (o: Outcome)
      requires Valid()
      modifies this
      ensures Valid() && Objects() <= old(Objects())
      ensures (State(), o) == Step(|fields|, KeyOf, old(State()), Remove(entry))
    {
      if entry.isDefault {
        return Invalid;
      }
      var e, k := Prepare(entry);
      if k == None {
        return Invalid;
      }
      rows := rows - {k.value};
      o := Done;
      assert State().rows == old(State()).rows - {k.value};
    }

    method ModifyDirectCounterEntry(entry: TableEntry, data: Option<CounterData>) returns (o: Outcome)
      requires Valid()
      modifies Objects()
      ensures Valid() && Objects() == old(Objects())
      ensures (State(), o) == Step(|fields|, KeyOf, old(State()), SetCounter(entry, data))
    {
      var e, k := Prepare(entry);
      if k == None {
        return Invalid;
      }
      if k.value !in rows {
        return NotFound;
      }
      rows[k.value].counterData := data;
      o := Done;
      ghost var s, r := old(State()), old(rows[k.value].Value());
      assert State().rows == s.rows[k.value := r.(counterData := data)];
      assert Decide(|fields|, SetCounter(entry, data), RowAt(s, k.value)) == (Put(r.(counterData := data)), Done);
    }

    method ModifyDirectMeterEntry(entry: TableEntry, config: Option<MeterConfig>) returns (o: Outcome)
      requires Valid()
      modifies Objects()
      ensures Valid() && Objects() == old(Objects())
      ensures (State(), o) == Step(|fields|, KeyOf, old(State()), SetMeter(entry, config))
    {
      var e, k := Prepare(entry);
      if k == None {
        return Invalid;
      }
      if k.value !in rows {
        return NotFound;
      }
      rows[k.value].meterConfig := config;
      o := Done;
      ghost var s, r := old(State()), old(rows[k.value].Value());
      assert State().rows == s.rows[k.value := r.(meterConfig := config)];
      assert Decide(|fields|, SetMeter(entry, config), RowAt(s, k.value)) == (Put(r.(meterConfig := config)), Done);
    }

    /** Any of the four. */
    method Perform(op: Op) returns (o: Outcome)
      requires Valid()
      modifies this, Objects()
      ensures Valid() && fresh(Objects() - old(Objects()))
      ensures (State(), o) == Step(|fields|, KeyOf, old(State()), op)
    {
      hide Step;
      match op
      case Write(entry, insert) => o := ModifyTableEntry(entry, insert);
      case Remove(entry) => o := RemoveTableEntry(entry);
      case SetCounter(entry, data) => o := ModifyDirectCounterEntry(entry, data);
      case SetMeter(entry, config) => o := ModifyDirectMeterEntry(entry, config);
    }
  }

  /** The empty tables of a pipeline; of tables with one ID only the last is kept. */
  function NewTables(infos: seq<TableInfo>): map<nat, TableState> {
    if infos == [] then map[]
    else
      var info := infos[|infos| - 1];
      NewTables(infos[..|infos| - 1])[info.id := TableState(|info.fields|, Store(map[], None))]
  }

  class Tables {
    var tables: map<nat, Table>
    ghost var Repr: set<object>

    constructor (infos: seq<TableInfo>)
      ensures Valid() && fresh(Repr) && State() == NewTables(infos)
    {
      tables := map[];
      Repr := {this};
      new;
      for k := 0 to |infos|
        invariant Owned() && fresh(Repr) && Blank(NewTables(infos[..k]))
      {
        assert infos[..k + 1][..k] == infos[..k];
        var table := new Table(infos[k]);
        tables := tables[infos[k].id := table];
        Repr := Repr + {table};
        Sorting.StableSortCorrect(infos[k].fields, FieldNumber);
        hide Ordered;
      }
      assert infos[..|infos|] == infos;
      BlankState(NewTables(infos));
    }

    ghost predicate Owned()
      reads this
    {
      this in Repr && forall i | i in tables :: tables[i] in Repr
    }

    /** The tables have no rows, and as many match fields as they should. */
    ghost predicate Blank(s: map<nat, TableState>)
      reads this, tables.Values
    {
      && tables.Keys == s.Keys
      && forall i | i in tables ::
           && tables[i].id == i && tables[i].rows == map[] && tables[i].defaultRow == null
           && s[i] == TableState(|tables[i].fields|, Store(map[], None))
    }

    lemma BlankState(s: map<nat, TableState>)
      requires Owned() && Blank(s)
      ensures Valid() && State() == s
    {
      assert forall i | i in tables :: tables[i].Objects() == {} && tables[i].State() == Store(map[], None);
    }

    /** Tables share neither each other nor rows. */
    ghost predicate Valid()
      reads this, Repr
    {
      && Owned()
      && (forall i | i in tables :: tables[i].Objects() <= Repr && tables[i].Valid() && tables[i].id == i)
      && (forall i, j | i in tables && j in tables && i != j :: tables[i].Objects() !! tables[j].Objects())
    }

    ghost function State(): map<nat, TableState>
      requires Valid()
      reads this, Repr
    {
      map i | i in tables :: TableState(|tables[i].fields|, tables[i].State())
    }

    /** An operation on one table's objects leaves the other tables alone. */
    twostate lemma OtherTables(id: nat)
      requires id in tables && old(Valid()) && unchanged(this`tables)
      requires unchanged(old(Repr - {this, tables[id]} - tables[id].Objects()))
      ensures forall i | i in tables && i != id ::
                && tables[i].Objects() == old(tables[i].Objects()) <= old(Repr) && tables[i].Valid()
                && tables[i].State() == old(tables[i].State())
    {
      assert forall i | i in tables && i != id :: tables[i] in old(Repr) && tables[i] != tables[id];
      assert forall i | i in tables && i != id :: unchanged(tables[i]);
      assert forall i | i in tables && i != id :: tables[i].Objects() == old(tables[i].Objects()) && tables[i].Valid();
    }

    twostate lemma OneTable(id: nat)
      requires id in tables && old(Valid()) && unchanged(this`tables) && Repr == old(Repr) + tables[id].Objects()
      requires tables[id].Valid() && fresh(tables[id].Objects() - old(tables[id].Objects()))
      requires unchanged(old(Repr - {this, tables[id]} - tables[id].Objects()))
      ensures Valid() && fresh(Repr - old(Repr))
      ensures State() == old(State())[id := TableState(|tables[id].fields|, tables[id].State())]
    {
      OtherTables(id);
    }

    method PerformOn(id: nat, op: Op) returns (o: Outcome)
      requires Valid() && id in tables
      modifies this`Repr, tables[id], tables[id].Objects()
      ensures Repr == old(Repr) + tables[id].Objects()
      ensures tables[id].Valid() && fresh(tables[id].Objects() - old(tables[id].Objects()))
      ensures (tables[id].State(), o) == Step(|tables[id].fields|, KeyOf, old(tables[id].State()), op)
    {
      hide Step;
      o := tables[id].Perform(op);
      Repr := Repr + tables[id].Objects();
    }

    /** Performs an operation on the table that its entry names. */
    method Perform(op: Op) returns (o: Outcome)
      requires Valid()
      modifies Repr
      ensures Valid() && fresh(Repr - old(Repr)) && tables == old(tables)
      ensures (State(), o) == SetStep(old(State()), op)
    {
      var id := op.entry.tableId;
      if id !in tables {
        return NotFound;
      }
      hide Step;
      o := PerformOn(id, op);
      OneTable(id);
    }

    method ModifyTableEntry(entry: TableEntry, insert: bool) returns (o: Outcome)
      requires Valid()
      modifies Repr
      ensures Valid() && fresh(Repr - old(Repr)) && tables == old(tables)
      ensures (State(), o) == SetStep(old(State()), Write(entry, insert))
    {
      o := Perform(Write(entry, insert));
    }

    method RemoveTableEntry(entry: TableEntry) returns (o: Outcome)
      requires Valid()
      modifies Repr
      ensures Valid() && fresh(Repr - old(Repr)) && tables == old(tables)
      ensures (State(), o) == SetStep(old(State()), Remove(entry))
    {
      o := Perform(Remove(entry));
    }

    method ModifyDirectCounterEntry(entry: TableEntry, data: Option<CounterData>, insert: bool) returns (o: Outcome)
      requires Valid()
      modifies Repr
      ensures Valid() && fresh(Repr - old(Repr)) && tables == old(tables)
      ensures (State(), o) == if insert then (old(State()), Invalid) else SetStep(old(State()), SetCounter(entry, data))
    {
      if insert {
        return Invalid;
      }
      o := Perform(SetCounter(entry, data));
    }

    method ModifyDirectMeterEntry(entry: TableEntry, config: Option<MeterConfig>, insert: bool) returns (o: Outcome)
      requires Valid()
      modifies Repr
      ensures Valid() && fresh(Repr - old(Repr)) && tables == old(tables)
      ensures (State(), o) == if insert then (old(State()), Invalid) else SetStep(old(State()), SetMeter(entry, config))
    {
      if insert {
        return Invalid;
      }
      o := Perform(SetMeter(entry, config));
    }
  }
}
