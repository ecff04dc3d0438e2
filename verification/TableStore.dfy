/** The operations on one table's rows, as functions on a store of rows that is indexed by
    some type of key, and the refinement between two choices of key: the entry's identity,
    as the P4Runtime specification has it, and key bytes, as the simulator has it. */
module TableStore {
  import opened Common
  import opened Text
  import opened Entries
  import Sorting

  datatype RowValue = RowValue(
    entry: TableEntry,
    counterData: Option<CounterData>,
    meterConfig: Option<MeterConfig>,
    meterData: Option<MeterData>)

  datatype Store<K> = Store(rows: map<K, RowValue>, default: Option<RowValue>)

  const NO_COUNTS := CounterData(0, 0)

  datatype Op =
    | Write(entry: TableEntry, insert: bool)
    | Remove(entry: TableEntry)
    | SetCounter(entry: TableEntry, data: Option<CounterData>)
    | SetMeter(entry: TableEntry, config: Option<MeterConfig>)

  function NewRow(e: TableEntry): RowValue {
    RowValue(e, if e.counterData.Some? then e.counterData else Some(NO_COUNTS), e.meterConfig, e.meterData)
  }

  /** A row with its entry replaced: counter data stays unless new data is given, meter data stays. */
  function Updated(r: RowValue, e: TableEntry): RowValue {
    r.(entry := e, meterConfig := e.meterConfig,
       counterData := if e.counterData.Some? then e.counterData else r.counterData)
  }

  datatype Change = Keep | PutDefault(row: RowValue) | Put(row: RowValue) | Drop

  /** What an operation does, given the row it concerns; `n` is the number of match fields
      the table has. */
  function Decide(n: nat, op: Op, row: Option<RowValue>): (Change, Outcome) {
    var e := Normal(op.entry);
    if op.Write? && e.isDefault then
      if op.insert || |e.matches| > 0 then (Keep, Invalid) else (PutDefault(NewRow(op.entry)), Done)
    else if op.Remove? && e.isDefault then (Keep, Invalid)
    else if |e.matches| > n then (Keep, Invalid)
    else
      match (op, row)
      case (Write(_, true), None) => (Put(NewRow(e)), Done)
      case (Write(_, true), Some(_)) => (Keep, AlreadyExists)
      case (Remove(_), _) => (Drop, Done)
      case (_, None) => (Keep, NotFound)
      case (Write(_, false), Some(r)) => (Put(Updated(r, e)), Done)
      case (SetCounter(_, data), Some(r)) => (Put(r.(counterData := data)), Done)
      case (SetMeter(_, config), Some(r)) => (Put(r.(meterConfig := config)), Done)
  }

  function Apply<K>(s: Store<K>, k: K, c: Change): Store<K> {
    match c
    case Keep => s
    case PutDefault(r) => s.(default := Some(r))
    case Put(r) => s.(rows := s.rows[k := r])
    case Drop => s.(rows := s.rows - {k})
  }

  function RowAt<K>(s: Store<K>, k: K): Option<RowValue> {
    if k in s.rows then Some(s.rows[k]) else None
  }

  function Step<K>(n: nat, key: Identity -> K, s: Store<K>, op: Op): (Store<K>, Outcome) {
    var k := key(IdentityOf(op.entry));
    var (c, o) := Decide(n, op, RowAt(s, k));
    (Apply(s, k, c), o)
  }

  /** The store after a run of operations, whatever their outcomes. */
  function Run<K>(n: nat, key: Identity -> K, ops: seq<Op>): Store<K> {
    if ops == [] then Store(map[], None) else Step(n, key, Run(n, key, ops[..|ops| - 1]), ops[|ops| - 1]).0
  }

  function Outcomes<K(==)>(n: nat, key: Identity -> K, ops: seq<Op>): (r: seq<Outcome>)
    ensures |r| == |ops|
  {
    if ops == [] then []
    else
      Outcomes(n, key, ops[..|ops| - 1]) +
      [Step(n, key, Run(n, key, ops[..|ops| - 1]), ops[|ops| - 1]).1]
  }

  /** An operation that fails changes nothing. */
  lemma FailureChangesNothing<K>(n: nat, key: Identity -> K, s: Store<K>, op: Op)
    requires Step(n, key, s, op).1 != Done
    ensures Step(n, key, s, op).0 == s
  {
  }

  /** A modification that brings no counter data leaves the counter; it never touches meter
      data; and it concerns no other row. */
  lemma ModifyKeepsCounter<K>(n: nat, key: Identity -> K, s: Store<K>, e: TableEntry)
    requires !e.isDefault && Step(n, key, s, Write(e, false)).1 == Done
    ensures var t, k := Step(n, key, s, Write(e, false)).0, key(IdentityOf(e));
            && k in s.rows && t.rows.Keys == s.rows.Keys && t.default == s.default
            && (e.counterData == None ==> t.rows[k].counterData == s.rows[k].counterData)
            && t.rows[k].meterData == s.rows[k].meterData && t.rows[k].entry == Normal(e)
            && forall j | j in s.rows && j != k :: t.rows[j] == s.rows[j]
  {
    Sorting.StableSortCorrect(e.matches, FieldId);
  }

  // ---- Rows are filed under their keys

  /** Every row holds an entry in canonical order, under the key of that entry. */
  predicate Keyed<K>(n: nat, key: Identity -> K, s: Store<K>) {
    forall k | k in s.rows ::
      var e := s.rows[k].entry;
      e == Normal(e) && !e.isDefault && |e.matches| <= n && key(IdentityOf(e)) == k
  }

  lemma NormalKeyed(e: TableEntry)
    ensures Normal(Normal(e)) == Normal(e) && IdentityOf(Normal(e)) == IdentityOf(e)
    ensures |Normal(e).matches| == |e.matches|
  {
    Sorting.SortIdempotent(e.matches, FieldId);
    Sorting.StableSortCorrect(e.matches, FieldId);
  }

  lemma StepKeyed<K>(n: nat, key: Identity -> K, s: Store<K>, op: Op)
    requires Keyed(n, key, s)
    ensures Keyed(n, key, Step(n, key, s, op).0)
  {
    NormalKeyed(op.entry);
    hide Canonical;
  }

  lemma RunKeyed<K>(n: nat, key: Identity -> K, ops: seq<Op>)
    ensures Keyed(n, key, Run(n, key, ops))
  {
    if ops != [] {
      RunKeyed(n, key, ops[..|ops| - 1]);
      StepKeyed(n, key, Run(n, key, ops[..|ops| - 1]), ops[|ops| - 1]);
      hide Keyed, Step;
    }
  }

  // ---- Refinement

  /** Entries identified as the specification does. */
  function Itself(id: Identity): Identity {
    id
  }

  ghost predicate InjectiveOn(ids: set<Identity>) {
    forall x, y | x in ids && y in ids && KeyOf(x) == KeyOf(y) :: x == y
  }

  /** Writes and removals of the default entry concern no row. */
  predicate ForDefault(op: Op) {
    op.entry.isDefault && (op.Write? || op.Remove?)
  }

  ghost predicate Over(ops: seq<Op>, ids: set<Identity>) {
    forall op | op in ops && !ForDefault(op) :: IdentityOf(op.entry) in ids
  }

  /** The concrete rows are the abstract ones, each under its key bytes. */
  ghost predicate Refines(c: Store<seq<Byte>>, a: Store<Identity>, ids: set<Identity>) {
    && c.default == a.default
    && (forall id | id in a.rows :: id in ids && KeyOf(id) in c.rows && c.rows[KeyOf(id)] == a.rows[id])
    && (forall k | k in c.rows :: exists id :: id in a.rows && KeyOf(id) == k)
  }

  lemma RefinesAt(c: Store<seq<Byte>>, a: Store<Identity>, ids: set<Identity>, id: Identity)
    requires InjectiveOn(ids) && Refines(c, a, ids) && id in ids
    ensures KeyOf(id) in c.rows <==> id in a.rows
    ensures id in a.rows ==> c.rows[KeyOf(id)] == a.rows[id]
    ensures RowAt(c, KeyOf(id)) == RowAt(a, id)
  {
    hide KeyOf;
  }

  lemma PutRefines(c: Store<seq<Byte>>, a: Store<Identity>, ids: set<Identity>, id: Identity, r: RowValue)
    requires InjectiveOn(ids) && Refines(c, a, ids) && id in ids
    ensures Refines(c.(rows := c.rows[KeyOf(id) := r]), a.(rows := a.rows[id := r]), ids)
  {
    hide KeyOf;
    var d, b := c.rows[KeyOf(id) := r], a.rows[id := r];
    forall k | k in d
      ensures exists x :: x in b && KeyOf(x) == k
    {
      if k == KeyOf(id) {
        assert id in b;
      } else {
        var x :| x in a.rows && KeyOf(x) == k;
        assert x in b;
      }
    }
  }

  lemma DropRefines(c: Store<seq<Byte>>, a: Store<Identity>, ids: set<Identity>, id: Identity)
    requires InjectiveOn(ids) && Refines(c, a, ids) && id in ids
    ensures Refines(c.(rows := c.rows - {KeyOf(id)}), a.(rows := a.rows - {id}), ids)
  {
    hide KeyOf;
    var d, b := c.rows - {KeyOf(id)}, a.rows - {id};
    forall x | x in b
      ensures x in ids && KeyOf(x) in d && d[KeyOf(x)] == b[x]
    {
      assert x in a.rows && x != id;
    }
    forall k | k in d
      ensures exists x :: x in b && KeyOf(x) == k
    {
      var x :| x in a.rows && KeyOf(x) == k;
      assert x in b;
    }
    Restricted(c, a, ids, d, b);
  }

  lemma Restricted(c: Store<seq<Byte>>, a: Store<Identity>, ids: set<Identity>, d: map<seq<Byte>, RowValue>, b: map<Identity, RowValue>)
    requires c.default == a.default
    requires forall x | x in b :: x in ids && KeyOf(x) in d && d[KeyOf(x)] == b[x]
    requires forall k | k in d :: exists x :: x in b && KeyOf(x) == k
    ensures Refines(c.(rows := d), a.(rows := b), ids)
  {
    hide KeyOf;
  }

  lemma DefaultRefines(c: Store<seq<Byte>>, a: Store<Identity>, ids: set<Identity>, d: Option<RowValue>)
    requires Refines(c, a, ids)
    ensures Refines(c.(default := d), a.(default := d), ids)
  {
  }

  lemma DefaultDecided(n: nat, op: Op, row: Option<RowValue>, other: Option<RowValue>)
    requires ForDefault(op)
    ensures Decide(n, op, row) == Decide(n, op, other)
    ensures Decide(n, op, row).0.Keep? || Decide(n, op, row).0.PutDefault?
  {
  }

  lemma StepRefines(n: nat, c: Store<seq<Byte>>, a: Store<Identity>, ids: set<Identity>, op: Op)
    requires InjectiveOn(ids) && Refines(c, a, ids) && (ForDefault(op) || IdentityOf(op.entry) in ids)
    ensures Step(n, KeyOf, c, op).1 == Step(n, Itself, a, op).1
    ensures Refines(Step(n, KeyOf, c, op).0, Step(n, Itself, a, op).0, ids)
  {
    hide Decide, Refines, InjectiveOn, KeyOf, RowAt, IdentityOf;
    var id := IdentityOf(op.entry);
    if ForDefault(op) {
      DefaultDecided(n, op, RowAt(c, KeyOf(id)), RowAt(a, id));
    } else {
      RefinesAt(c, a, ids, id);
    }
    match Decide(n, op, RowAt(a, id)).0
    case Keep =>
    case PutDefault(r) => DefaultRefines(c, a, ids, Some(r));
    case Put(r) => PutRefines(c, a, ids, id, r);
    case Drop => DropRefines(c, a, ids, id);
  }

  lemma {:induction false} RunRefines(n: nat, ids: set<Identity>, ops: seq<Op>)
    requires InjectiveOn(ids) && Over(ops, ids)
    ensures Refines(Run(n, KeyOf, ops), Run(n, Itself, ops), ids)
    ensures Outcomes(n, KeyOf, ops) == Outcomes(n, Itself, ops)
  {
    if ops != [] {
      var front, op := ops[..|ops| - 1], ops[|ops| - 1];
      RunRefines(n, ids, front);
      StepRefines(n, Run(n, KeyOf, front), Run(n, Itself, front), ids, op);
      hide Step, Refines, InjectiveOn, KeyOf, Itself;
    }
  }

  /** Two entries, inserted one after the other. */
  function Both(x: Identity, y: Identity): seq<Op> {
    [Write(TableEntry(0, x.matches, None, x.priority, false, None, None, None), true),
     Write(TableEntry(0, y.matches, None, y.priority, false, None, None, None), true)]
  }

  lemma TwoOutcomes<K>(n: nat, key: Identity -> K, p: Op, q: Op)
    ensures var (s, o) := Step(n, key, Store(map[], None), p);
            Outcomes(n, key, [p, q]) == [o, Step(n, key, s, q).1]
  {
    assert [p, q][..1] == [p] && [p][..0] == [];
    assert Run<K>(n, key, []) == Store(map[], None) && Outcomes<K>(n, key, []) == [];
    assert Outcomes(n, key, [p]) == [Step(n, key, Store(map[], None), p).1];
    assert Run(n, key, [p]) == Step(n, key, Store(map[], None), p).0;
    hide Step;
  }

  lemma ClashShows(n: nat, x: Identity, y: Identity)
    requires x != y && KeyOf(x) == KeyOf(y)
    requires Canonical(x.matches) == x.matches && Canonical(y.matches) == y.matches && |x.matches| <= n && |y.matches| <= n
    ensures Outcomes(n, KeyOf, Both(x, y)) != Outcomes(n, Itself, Both(x, y))
  {
    var ops := Both(x, y);
    hide KeyOf, Canonical, Outcomes;
    TwoOutcomes(n, KeyOf, ops[0], ops[1]);
    TwoOutcomes(n, Itself, ops[0], ops[1]);
    assert Outcomes(n, KeyOf, ops)[1] == AlreadyExists;
    assert Outcomes(n, Itself, ops)[1] == Done;
  }

  /** Whatever is done to some entries, in whatever order, the table answers as one that
      identifies entries as the specification does. */
  ghost predicate Conforms(n: nat, ids: set<Identity>) {
    forall ops | Over(ops, ids) :: Outcomes(n, KeyOf, ops) == Outcomes(n, Itself, ops)
  }

  lemma BothOver(x: Identity, y: Identity, ids: set<Identity>)
    requires x in ids && y in ids && Canonical(x.matches) == x.matches && Canonical(y.matches) == y.matches
    ensures Over(Both(x, y), ids)
  {
    hide Canonical;
  }

  /** A table conforms on a set of entries exactly if no two of them share key bytes. */
  lemma RefinementIff(n: nat, ids: set<Identity>)
    requires forall id | id in ids :: Canonical(id.matches) == id.matches && |id.matches| <= n
    ensures Conforms(n, ids) <==> InjectiveOn(ids)
  {
    if InjectiveOn(ids) {
      forall ops | Over(ops, ids)
        ensures Outcomes(n, KeyOf, ops) == Outcomes(n, Itself, ops)
      {
        RunRefines(n, ids, ops);
      }
    } else {
      var x, y :| x in ids && y in ids && KeyOf(x) == KeyOf(y) && x != y;
      ClashShows(n, x, y);
      BothOver(x, y, ids);
      hide KeyOf, Both, Over, Outcomes, Canonical, Itself;
    }
  }

  /** Entries that all follow one schema satisfy the condition. */
  lemma SchemaInjective(ids: set<Identity>)
    requires forall x, y | x in ids && y in ids :: SameSchema(x.matches, y.matches)
    ensures InjectiveOn(ids)
  {
    forall x, y | x in ids && y in ids && KeyOf(x) == KeyOf(y)
      ensures x == y
    {
      KeyInjective(x, y);
    }
  }

  /** The identities of the entries that operations are about, those of the default row left out. */
  function Concerned(ops: seq<Op>): set<Identity> {
    set op | op in ops && !ForDefault(op) :: IdentityOf(op.entry)
  }

  /** A table whose entries all follow one schema, its default row apart, is the abstract map. */
  lemma SchemaConforms(n: nat, ops: seq<Op>)
    requires forall p, q | p in ops && q in ops && !ForDefault(p) && !ForDefault(q) ::
               SameSchema(IdentityOf(p.entry).matches, IdentityOf(q.entry).matches)
    ensures Refines(Run(n, KeyOf, ops), Run(n, Itself, ops), Concerned(ops))
    ensures Outcomes(n, KeyOf, ops) == Outcomes(n, Itself, ops)
  {
    hide IdentityOf, SameSchema, Run, Outcomes, Refines;
    SchemaInjective(Concerned(ops));
    RunRefines(n, Concerned(ops), ops);
  }

  /** The entries in a store, that of the default row among them. */
  function EntriesOf<K>(s: Store<K>): set<TableEntry> {
    (set k | k in s.rows :: s.rows[k].entry) + if s.default.Some? then {s.default.value.entry} else {}
  }

  /** The entries a step leaves: those before, and the one written. */
  lemma StepEntries<K>(n: nat, key: Identity -> K, s: Store<K>, op: Op)
    ensures forall e | e in EntriesOf(Step(n, key, s, op).0) ::
              e in EntriesOf(s) || (op.Write? && (e == op.entry || e == Normal(op.entry)))
  {
    hide Normal;
  }

  // ---- A set of tables

  /** Tables by ID: how many match fields each has, and its rows. */
  datatype TableState = TableState(fieldCount: nat, store: Store<seq<Byte>>)

  /** An operation on the table its entry names.  Direct resources cannot be inserted. */
  function SetStep(ts: map<nat, TableState>, op: Op): (map<nat, TableState>, Outcome) {
    var id := op.entry.tableId;
    if id !in ts then (ts, NotFound)
    else
      var (s, o) := Step(ts[id].fieldCount, KeyOf, ts[id].store, op);
      (ts[id := ts[id].(store := s)], o)
  }

  lemma SetFailureChangesNothing(ts: map<nat, TableState>, op: Op)
    requires SetStep(ts, op).1 != Done
    ensures SetStep(ts, op).0 == ts
  {
    var id := op.entry.tableId;
    if id in ts {
      FailureChangesNothing(ts[id].fieldCount, KeyOf, ts[id].store, op);
      assert ts[id := ts[id]] == ts;
    }
  }
}
