/** What the operations on a table leave in its rows: field by field after one operation, and
    over runs, where each part of a row is what the last operation that brought one brought. */
module TableContents {
  import opened Common
  import opened Text
  import opened Entries
  import opened TableStore
  import opened Tables
  import Pipeline
  import Reads
  import Sorting

  // ---- One operation

  /** What is found where an operation's entry is filed, and that it touched nothing else. */
  ghost predicate OnlyRow<K>(s: Store<K>, t: Store<K>, k: K) {
    && t.default == s.default && k in t.rows
    && t.rows.Keys == s.rows.Keys + {k} && forall j | j in s.rows && j != k :: t.rows[j] == s.rows[j]
  }

  lemma MatchesKept(e: TableEntry)
    ensures |Normal(e).matches| == |e.matches|
  {
    Sorting.StableSortCorrect(e.matches, FieldId);
  }

  /** An insert succeeds exactly for a new entry that is not the default one and has no more
      matches than the table has fields.  The row holds the entry in canonical order, the counter
      data given or zeros, and the meter configuration and data given. */
  lemma InsertStores<K>(n: nat, key: Identity -> K, s: Store<K>, e: TableEntry)
    ensures var (t, o) := Step(n, key, s, Write(e, true));
            var k := key(IdentityOf(e));
            && (o == Done <==> !e.isDefault && |e.matches| <= n && k !in s.rows)
            && (o == AlreadyExists <==> !e.isDefault && |e.matches| <= n && k in s.rows)
            && (o != Done && o != AlreadyExists ==> o == Invalid)
            && (o == Done ==>
                  && OnlyRow(s, t, k) && t.rows[k].entry == e.(matches := Canonical(e.matches))
                  && t.rows[k].counterData == (if e.counterData.Some? then e.counterData else Some(CounterData(0, 0)))
                  && t.rows[k].meterConfig == e.meterConfig && t.rows[k].meterData == e.meterData)
  {
    MatchesKept(e);
    hide Canonical;
  }

  /** A modification succeeds exactly for an entry that is there.  The entry and its meter
      configuration are replaced, the counter data if any is given; meter data stays. */
  lemma ModifyStores<K>(n: nat, key: Identity -> K, s: Store<K>, e: TableEntry)
    requires !e.isDefault
    ensures var (t, o) := Step(n, key, s, Write(e, false));
            var k := key(IdentityOf(e));
            && (o == Done <==> |e.matches| <= n && k in s.rows)
            && (o == NotFound <==> |e.matches| <= n && k !in s.rows) && (o == Invalid <==> |e.matches| > n)
            && (o == Done ==>
                  && OnlyRow(s, t, k) && t.rows[k].entry == e.(matches := Canonical(e.matches))
                  && t.rows[k].counterData == (if e.counterData.Some? then e.counterData else s.rows[k].counterData)
                  && t.rows[k].meterConfig == e.meterConfig && t.rows[k].meterData == s.rows[k].meterData)
  {
    MatchesKept(e);
    hide Canonical;
  }

  /** The default row is set by a modification without matches, to the entry and its direct
      resources; no other row changes. */
  lemma DefaultStores<K>(n: nat, key: Identity -> K, s: Store<K>, e: TableEntry, insert: bool)
    requires e.isDefault
    ensures var (t, o) := Step(n, key, s, Write(e, insert));
            && (o == Done <==> !insert && e.matches == []) && (o != Done ==> o == Invalid)
            && (o == Done ==>
                  && t.rows == s.rows && t.default.Some? && t.default.value.entry == e
                  && t.default.value.counterData == (if e.counterData.Some? then e.counterData else Some(CounterData(0, 0)))
                  && t.default.value.meterConfig == e.meterConfig && t.default.value.meterData == e.meterData)
  {
    MatchesKept(e);
    hide Canonical;
  }

  /** A removal succeeds for any entry but the default one; the row, if there is one, goes. */
  lemma RemoveDrops<K>(n: nat, key: Identity -> K, s: Store<K>, e: TableEntry)
    ensures var (t, o) := Step(n, key, s, Remove(e));
            var k := key(IdentityOf(e));
            && (o == Done <==> !e.isDefault && |e.matches| <= n) && (o != Done ==> o == Invalid)
            && (o == Done ==>
                  && t.default == s.default && t.rows.Keys == s.rows.Keys - {k}
                  && forall j | j in t.rows :: t.rows[j] == s.rows[j])
  {
    MatchesKept(e);
    hide Canonical;
  }

  /** Setting a counter succeeds exactly for an entry that is there, whose row then has just
      the data given; nothing else changes. */
  lemma CounterStores<K>(n: nat, key: Identity -> K, s: Store<K>, e: TableEntry, data: Option<CounterData>)
    ensures var (t, o) := Step(n, key, s, SetCounter(e, data));
            var k := key(IdentityOf(e));
            && (o == Done <==> |e.matches| <= n && k in s.rows)
            && (o == NotFound <==> |e.matches| <= n && k !in s.rows) && (o == Invalid <==> |e.matches| > n)
            && (o == Done ==>
                  && OnlyRow(s, t, k) && t.rows[k].counterData == data && t.rows[k].entry == s.rows[k].entry
                  && t.rows[k].meterConfig == s.rows[k].meterConfig && t.rows[k].meterData == s.rows[k].meterData)
  {
    MatchesKept(e);
    hide Canonical;
  }

  /** The same for a meter and its configuration. */
  lemma MeterStores<K>(n: nat, key: Identity -> K, s: Store<K>, e: TableEntry, config: Option<MeterConfig>)
    ensures var (t, o) := Step(n, key, s, SetMeter(e, config));
            var k := key(IdentityOf(e));
            && (o == Done <==> |e.matches| <= n && k in s.rows)
            && (o == NotFound <==> |e.matches| <= n && k !in s.rows) && (o == Invalid <==> |e.matches| > n)
            && (o == Done ==>
                  && OnlyRow(s, t, k) && t.rows[k].meterConfig == config && t.rows[k].entry == s.rows[k].entry
                  && t.rows[k].counterData == s.rows[k].counterData && t.rows[k].meterData == s.rows[k].meterData)
  {
    MatchesKept(e);
    hide Canonical;
  }

  // ---- Over runs

  /** What an operation brings for a part of the row it is filed under, if anything. */
  function EntryBrought(op: Op): Option<TableEntry> {
    match op case Write(e, _) => Some(e.(matches := Canonical(e.matches))) case _ => None
  }

  function CounterBrought(op: Op): Option<Option<CounterData>> {
    match op
    case Write(e, true) => Some(if e.counterData.Some? then e.counterData else Some(CounterData(0, 0)))
    case Write(e, false) => if e.counterData.Some? then Some(e.counterData) else None
    case SetCounter(_, data) => Some(data)
    case _ => None
  }

  function ConfigBrought(op: Op): Option<Option<MeterConfig>> {
    match op
    case Write(e, _) => Some(e.meterConfig)
    case SetMeter(_, config) => Some(config)
    case _ => None
  }

  function MeterBrought(op: Op): Option<Option<MeterData>> {
    match op case Write(e, true) => Some(e.meterData) case _ => None
  }

  /** Inserts bring a row, removals bring its end. */
  function RowBrought(op: Op): Option<bool> {
    match op
    case Write(_, true) => Some(true)
    case Remove(_) => Some(false)
    case _ => None
  }

  /** The default row that an operation brings. */
  function DefaultBrought(op: Op): Option<RowValue> {
    match op
    case Write(e, _) =>
      Some(RowValue(e, if e.counterData.Some? then e.counterData else Some(CounterData(0, 0)), e.meterConfig, e.meterData))
    case _ => None
  }

  /** The operations on the row filed under a key; those on the default row are `ForDefault`. */
  function ForRow<K(==)>(key: Identity -> K, k: K): Op -> bool {
    op => !ForDefault(op) && key(IdentityOf(op.entry)) == k
  }

  predicate DoneOn(about: Op -> bool, op: Op, o: Outcome) {
    o == Done && about(op)
  }

  /** `v` is what was brought by the last operation, of those done on a row, that brought any. */
  ghost predicate LastBrought<T>(about: Op -> bool, ops: seq<Op>, outcomes: seq<Outcome>, brought: Op -> Option<T>, v: T)
    requires |outcomes| == |ops|
  {
    exists j ::
      && 0 <= j < |ops| && DoneOn(about, ops[j], outcomes[j]) && brought(ops[j]) == Some(v)
      && forall i | j < i < |ops| && DoneOn(about, ops[i], outcomes[i]) :: brought(ops[i]) == None
  }

  lemma BroughtSnoc<T>(about: Op -> bool, ops: seq<Op>, outcomes: seq<Outcome>, op: Op, o: Outcome, brought: Op -> Option<T>, v: T)
    requires |outcomes| == |ops|
    ensures LastBrought(about, ops + [op], outcomes + [o], brought, v) <==>
            if DoneOn(about, op, o) && brought(op).Some? then brought(op) == Some(v)
            else LastBrought(about, ops, outcomes, brought, v)
  {
    hide DoneOn;
    var xs, ys, n := ops + [op], outcomes + [o], |ops|;
    assert xs[n] == op && ys[n] == o && forall i | 0 <= i < n :: xs[i] == ops[i] && ys[i] == outcomes[i];
    if DoneOn(about, op, o) && brought(op) == Some(v) {
      assert 0 <= n < |xs| && DoneOn(about, xs[n], ys[n]) && brought(xs[n]) == Some(v);
    }
    if j :| 0 <= j < n && DoneOn(about, ops[j], outcomes[j]) && brought(ops[j]) == Some(v) &&
            forall i | j < i < n && DoneOn(about, ops[i], outcomes[i]) :: brought(ops[i]) == None {
      assert DoneOn(about, xs[j], ys[j]);
      assert !(DoneOn(about, op, o) && brought(op).Some?) ==> LastBrought(about, xs, ys, brought, v);
    }
  }

  /** What one operation does to the row under one key, part by part. */
  lemma RowStep<K>(n: nat, key: Identity -> K, s: Store<K>, op: Op, k: K)
    ensures var (t, o) := Step(n, key, s, op);
            if !DoneOn(ForRow(key, k), op, o) then (k in t.rows <==> k in s.rows) && (k in s.rows ==> t.rows[k] == s.rows[k])
            else
              && (k in t.rows <==> if RowBrought(op).Some? then RowBrought(op).value else k in s.rows)
              && (k in t.rows ==>
                    && t.rows[k].entry == (if EntryBrought(op).Some? || k !in s.rows then EntryBrought(op).value else s.rows[k].entry)
                    && t.rows[k].counterData == (if CounterBrought(op).Some? || k !in s.rows then CounterBrought(op).value else s.rows[k].counterData)
                    && t.rows[k].meterConfig == (if ConfigBrought(op).Some? || k !in s.rows then ConfigBrought(op).value else s.rows[k].meterConfig)
                    && t.rows[k].meterData == (if MeterBrought(op).Some? || k !in s.rows then MeterBrought(op).value else s.rows[k].meterData))
  {
    hide Canonical;
  }

  lemma DefaultStep<K>(n: nat, key: Identity -> K, s: Store<K>, op: Op)
    ensures var (t, o) := Step(n, key, s, op);
            t.default == if DoneOn(ForDefault, op, o) && DefaultBrought(op).Some? then DefaultBrought(op) else s.default
  {
    hide Canonical;
  }

  /** The store after a run, and the outcomes, one operation further. */
  lemma RunSnoc<K>(n: nat, key: Identity -> K, ops: seq<Op>)
    requires ops != []
    ensures var front, op := ops[..|ops| - 1], ops[|ops| - 1];
            var (t, o) := Step(n, key, Run(n, key, front), op);
            && ops == front + [op] && Run(n, key, ops) == t && Outcomes(n, key, ops) == Outcomes(n, key, front) + [o]
  {
  }

  /** A row is there exactly if the last operation done on it that brought one or its end,
      brought one; and each part of it is what the last operation brought that brought any. */
  ghost predicate Traced<K>(key: Identity -> K, ops: seq<Op>, outcomes: seq<Outcome>, s: Store<K>, k: K)
    requires |outcomes| == |ops|
  {
    && (k in s.rows <==> LastBrought(ForRow(key, k), ops, outcomes, RowBrought, true))
    && (k in s.rows ==>
          && LastBrought(ForRow(key, k), ops, outcomes, EntryBrought, s.rows[k].entry)
          && LastBrought(ForRow(key, k), ops, outcomes, CounterBrought, s.rows[k].counterData)
          && LastBrought(ForRow(key, k), ops, outcomes, ConfigBrought, s.rows[k].meterConfig)
          && LastBrought(ForRow(key, k), ops, outcomes, MeterBrought, s.rows[k].meterData))
  }

  lemma StepTraced<K>(n: nat, key: Identity -> K, ops: seq<Op>, outcomes: seq<Outcome>, s: Store<K>, op: Op, k: K)
    requires |outcomes| == |ops| && Traced(key, ops, outcomes, s, k)
    ensures var (t, o) := Step(n, key, s, op); Traced(key, ops + [op], outcomes + [o], t, k)
  {
    hide Step, LastBrought, DoneOn, ForRow;
    var (t, o) := Step(n, key, s, op);
    var about := ForRow(key, k);
    RowStep(n, key, s, op, k);
    BroughtSnoc(about, ops, outcomes, op, o, RowBrought, true);
    if k in t.rows {
      BroughtSnoc(about, ops, outcomes, op, o, EntryBrought, t.rows[k].entry);
      BroughtSnoc(about, ops, outcomes, op, o, CounterBrought, t.rows[k].counterData);
      BroughtSnoc(about, ops, outcomes, op, o, ConfigBrought, t.rows[k].meterConfig);
      BroughtSnoc(about, ops, outcomes, op, o, MeterBrought, t.rows[k].meterData);
    }
  }

  /** After any run of operations, whatever their outcomes. */
  lemma {:induction false} RunContents<K>(n: nat, key: Identity -> K, ops: seq<Op>, k: K)
    ensures Traced(key, ops, Outcomes(n, key, ops), Run(n, key, ops), k)
  {
    hide Traced, Step;
    if ops == [] {
      NothingTraced(n, key, k);
    } else {
      var front, op := ops[..|ops| - 1], ops[|ops| - 1];
      RunContents(n, key, front, k);
      RunSnoc(n, key, ops);
      StepTraced(n, key, front, Outcomes(n, key, front), Run(n, key, front), op, k);
    }
  }

  lemma NothingTraced<K>(n: nat, key: Identity -> K, k: K)
    ensures Traced(key, [], Outcomes(n, key, []), Run(n, key, []), k)
  {
  }

  /** The default row is the one last brought, if any was. */
  lemma {:induction false} RunDefault<K>(n: nat, key: Identity -> K, ops: seq<Op>)
    ensures var d := Run(n, key, ops).default;
            forall r :: d == Some(r) <==> LastBrought(ForDefault, ops, Outcomes(n, key, ops), DefaultBrought, r)
  {
    if ops != [] {
      var front, op := ops[..|ops| - 1], ops[|ops| - 1];
      RunDefault(n, key, front);
      RunSnoc(n, key, ops);
      DefaultStep(n, key, Run(n, key, front), op);
      var o := Step(n, key, Run(n, key, front), op).1;
      forall r
        ensures LastBrought(ForDefault, ops, Outcomes(n, key, ops), DefaultBrought, r) <==>
                if DoneOn(ForDefault, op, o) && DefaultBrought(op).Some? then DefaultBrought(op) == Some(r)
                else LastBrought(ForDefault, front, Outcomes(n, key, front), DefaultBrought, r)
      {
        BroughtSnoc(ForDefault, front, Outcomes(n, key, front), op, o, DefaultBrought, r);
      }
      hide Step, LastBrought, DoneOn;
    }
  }

  // ---- Sets of tables, and updates to them

  /** An operation concerns the table its entry names, and no other. */
  lemma SetStepOn(ts: map<nat, TableState>, op: Op)
    ensures var (us, o) := SetStep(ts, op);
            && us.Keys == ts.Keys && (forall i | i in ts && i != op.entry.tableId :: us[i] == ts[i])
            && (op.entry.tableId !in ts ==> us == ts && o == NotFound)
            && (op.entry.tableId in ts ==>
                  var t, u := ts[op.entry.tableId], us[op.entry.tableId];
                  u.fieldCount == t.fieldCount && (u.store, o) == Step(t.fieldCount, KeyOf, t.store, op))
  {
  }

  /** Of the described tables with an ID, the last. */
  ghost predicate LastWith(infos: seq<TableInfo>, i: nat, id: nat) {
    i < |infos| && infos[i].id == id && forall j | i < j < |infos| :: infos[j].id != id
  }

  lemma LastSnoc(infos: seq<TableInfo>, i: nat, id: nat)
    requires infos != []
    ensures var n := |infos| - 1;
            LastWith(infos, i, id) <==> if infos[n].id == id then i == n else LastWith(infos[..n], i, id)
    ensures LastWith(infos[..|infos| - 1], i, id) ==> i < |infos| - 1 && infos[..|infos| - 1][i] == infos[i]
  {
    assert forall j | 0 <= j < |infos| - 1 :: infos[..|infos| - 1][j] == infos[j];
  }

  /** A new pipeline's tables: those described, of tables with one ID the last, all empty. */
  lemma {:induction false} FreshTables(infos: seq<TableInfo>, id: nat)
    ensures id in NewTables(infos) <==> exists i: nat :: LastWith(infos, i, id)
    ensures forall i: nat | LastWith(infos, i, id) ::
              id in NewTables(infos) && i < |infos| && NewTables(infos)[id].fieldCount == |infos[i].fields| &&
              NewTables(infos)[id].store.rows == map[] && NewTables(infos)[id].store.default == None
  {
    if infos != [] {
      var n := |infos| - 1;
      FreshTables(infos[..n], id);
      forall i: nat
        ensures LastWith(infos, i, id) <==> if infos[n].id == id then i == n else LastWith(infos[..n], i, id)
        ensures LastWith(infos[..n], i, id) ==> i < n && infos[..n][i] == infos[i]
      {
        LastSnoc(infos, i, id);
      }
      hide LastWith;
      if i: nat :| LastWith(infos[..n], i, id) {
        assert infos[n].id != id ==> LastWith(infos, i, id);
      }
      if infos[n].id == id {
        assert LastWith(infos, n, id);
      }
    }
  }

  /** Which updates of what is not a table entry are refused out of hand, and which are ignored. */
  lemma OtherUpdates(ts: map<nat, TableState>, kind: Pipeline.Kind, e: TableEntry, data: Option<CounterData>, config: Option<MeterConfig>, verdict: Outcome)
    ensures var none := kind == Pipeline.Unspecified;
            var refused := kind == Pipeline.Insert || kind == Pipeline.Delete;
            && Pipeline.UpdateStep(ts, Pipeline.Update(kind, Pipeline.Ignored)) == (ts, Done)
            && Pipeline.UpdateStep(ts, Pipeline.Update(kind, Pipeline.Managed(verdict))) == (ts, if none then Done else verdict)
            && Pipeline.UpdateStep(ts, Pipeline.Update(kind, Pipeline.Indirect(verdict))) ==
                 (ts, if none then Done else if refused then Invalid else verdict)
            && (none || refused ==>
                  && Pipeline.UpdateStep(ts, Pipeline.Update(kind, Pipeline.DirectCounter(e, data))) == (ts, if none then Done else Invalid)
                  && Pipeline.UpdateStep(ts, Pipeline.Update(kind, Pipeline.DirectMeter(e, config))) == (ts, if none then Done else Invalid))
  {
  }

  /** The table of an entry, and its row there. */
  ghost predicate HasRow(ts: map<nat, TableState>, e: TableEntry, r: RowValue) {
    e.tableId in ts && KeyOf(IdentityOf(e)) in ts[e.tableId].store.rows && ts[e.tableId].store.rows[KeyOf(IdentityOf(e))] == r
  }

  /** What a successful update of a table entry leaves: an insert and a modification the entry,
      a deletion nothing, each in the table that the entry names. */
  lemma EntryUpdated(ts: map<nat, TableState>, kind: Pipeline.Kind, e: TableEntry)
    requires Pipeline.UpdateStep(ts, Pipeline.Update(kind, Pipeline.TableEntity(e))).1 == Done && !e.isDefault
    ensures var us := Pipeline.UpdateStep(ts, Pipeline.Update(kind, Pipeline.TableEntity(e))).0;
            match kind
            case Unspecified => us == ts
            case Delete => forall r :: !HasRow(us, e, r)
            case Insert => (forall r :: !HasRow(ts, e, r)) && exists r :: HasRow(us, e, r) && r.entry == e.(matches := Canonical(e.matches))
            case Modify => exists q, r :: HasRow(ts, e, q) && HasRow(us, e, r) && r.entry == e.(matches := Canonical(e.matches))
  {
    if kind != Pipeline.Unspecified {
      var op := if kind == Pipeline.Delete then Remove(e) else Write(e, kind == Pipeline.Insert);
      SetStepOn(ts, op);
      if e.tableId in ts {
        var t := ts[e.tableId];
        InsertStores(t.fieldCount, KeyOf, t.store, e);
        ModifyStores(t.fieldCount, KeyOf, t.store, e);
        RemoveDrops(t.fieldCount, KeyOf, t.store, e);
        hide Step, KeyOf, IdentityOf, Canonical;
        var us := SetStep(ts, op).0;
        if kind != Pipeline.Delete {
          assert HasRow(us, e, us[e.tableId].store.rows[KeyOf(IdentityOf(e))]);
        }
        if kind == Pipeline.Modify {
          assert HasRow(ts, e, t.store.rows[KeyOf(IdentityOf(e))]);
        }
      }
    }
  }

  /** A successful update of a direct counter or meter: the row has the data given, and is
      otherwise as before. */
  lemma ResourceUpdated(ts: map<nat, TableState>, e: TableEntry, data: Option<CounterData>, config: Option<MeterConfig>)
    ensures var (us, o) := Pipeline.UpdateStep(ts, Pipeline.Update(Pipeline.Modify, Pipeline.DirectCounter(e, data)));
            o == Done ==> exists r :: HasRow(ts, e, r) && HasRow(us, e, r.(counterData := data))
    ensures var (us, o) := Pipeline.UpdateStep(ts, Pipeline.Update(Pipeline.Modify, Pipeline.DirectMeter(e, config)));
            o == Done ==> exists r :: HasRow(ts, e, r) && HasRow(us, e, r.(meterConfig := config))
  {
    SetStepOn(ts, SetCounter(e, data));
    SetStepOn(ts, SetMeter(e, config));
    if e.tableId in ts {
      var t := ts[e.tableId];
      CounterStores(t.fieldCount, KeyOf, t.store, e, data);
      MeterStores(t.fieldCount, KeyOf, t.store, e, config);
      hide Step, KeyOf, IdentityOf;
      if KeyOf(IdentityOf(e)) in t.store.rows {
        assert HasRow(ts, e, t.store.rows[KeyOf(IdentityOf(e))]);
      }
    }
  }

  // ---- Setting a counter and reading it

  /** Once a counter is set, a read of counters that is not refused hands the data over with the
      entry filed there, which has the canonical matches and the priority of the one named if the
      two follow one schema. */
  lemma CounterReadBack(n: nat, s: Store<seq<Byte>>, e: TableEntry, data: Option<CounterData>, calls: nat, failures: set<nat>, order: seq<seq<Byte>>)
    requires Keyed(n, KeyOf, s) && Step(n, KeyOf, s, SetCounter(e, data)).1 == Done
    requires Enumerates(order, Step(n, KeyOf, s, SetCounter(e, data)).0.rows.Keys)
    ensures KeyOf(IdentityOf(e)) in s.rows
    ensures var (sent, all) := Reads.Delivered(calls, failures, Reads.Batches(
              Reads.TableEntities(Reads.ReadDirectCounter, Step(n, KeyOf, s, SetCounter(e, data)).0, order)));
            var stored := s.rows[KeyOf(IdentityOf(e))].entry;
            && (all ==> Reads.CounterEntity(stored, data) in Flatten(sent))
            && (SameSchema(stored.matches, Canonical(e.matches)) ==>
                  stored.matches == Canonical(e.matches) && stored.priority == e.priority)
  {
    CounterStores(n, KeyOf, s, e, data);
    var k := KeyOf(IdentityOf(e));
    var stored, t := s.rows[k].entry, Step(n, KeyOf, s, SetCounter(e, data)).0;
    StoredUnder(n, s, e);
    Reads.CountersRead(calls, failures, t, order, stored, data);
    SomeRow(t.rows, k, stored, data);
    hide *;
  }

  lemma SomeRow<K>(rows: map<K, RowValue>, k: K, e: TableEntry, data: Option<CounterData>)
    requires k in rows && rows[k].entry == e && rows[k].counterData == data
    ensures |set j | j in rows && rows[j].entry == e && rows[j].counterData == data| > 0
  {
    var found := set j | j in rows && rows[j].entry == e && rows[j].counterData == data;
    assert k in found;
    if |found| == 0 {
      assert false;
    }
  }

  lemma StoredUnder(n: nat, s: Store<seq<Byte>>, e: TableEntry)
    requires Keyed(n, KeyOf, s) && KeyOf(IdentityOf(e)) in s.rows
    ensures var stored := s.rows[KeyOf(IdentityOf(e))].entry;
            SameSchema(stored.matches, Canonical(e.matches)) ==>
              stored.matches == Canonical(e.matches) && stored.priority == e.priority
  {
    var stored := s.rows[KeyOf(IdentityOf(e))].entry;
    assert stored == Normal(stored) && KeyOf(IdentityOf(stored)) == KeyOf(IdentityOf(e));
    hide KeyOf, Canonical, SameSchema;
    if SameSchema(stored.matches, Canonical(e.matches)) {
      KeyInjective(IdentityOf(stored), IdentityOf(e));
    }
  }
}
