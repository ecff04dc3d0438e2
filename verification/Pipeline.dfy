/** The forwarding pipeline of a device: batches of writes to its tables, and the index of
    Ethernet types that its tables punt to the controller.

    A view of the device is a value; `Proceeds` says what one update may make of it.
    `IndexExact` says from when on the index agrees with a full scan of the tables. */
module Pipeline {
  import opened Common
  import opened Text
  import opened Entries
  import opened TableStore
  import opened Tables
  import Sorting

  datatype ParamInfo = ParamInfo(id: nat, name: string)
  datatype ActionInfo = ActionInfo(id: nat, name: string, params: seq<ParamInfo>)
  datatype PipelineInfo = PipelineInfo(actions: seq<ActionInfo>, tables: seq<TableInfo>)

  const CPU_SUFFIX := "_to_cpu"
  const ROLE_AGENT_PARAM := "set_role_agent_id"
  const ETH_TYPE_FIELD := "eth_type"

  // ---- What the pipeline says about punting

  predicate Contains(s: string, t: string) {
    exists i | 0 <= i <= |s| :: t <= s[i..]
  }

  function RoleParam(params: seq<ParamInfo>): nat {
    if params == [] then 0
    else if params[0].name == ROLE_AGENT_PARAM then params[0].id
    else RoleParam(params[1..])
  }

  /** The actions that punt, with the parameter that holds the role agent. */
  function CpuActions(actions: seq<ActionInfo>): map<nat, nat> {
    if actions == [] then map[]
    else
      var a, m := actions[|actions| - 1], CpuActions(actions[..|actions| - 1]);
      if Contains(a.name, CPU_SUFFIX) then m[a.id := RoleParam(a.params)] else m
  }

  predicate HasCpuAction(refs: seq<nat>, cpuActions: map<nat, nat>) {
    exists r | r in refs :: r in cpuActions
  }

  function EthTypeField(fields: seq<FieldInfo>): Option<nat> {
    if fields == [] then None
    else if fields[0].name == ETH_TYPE_FIELD then Some(fields[0].id)
    else EthTypeField(fields[1..])
  }

  /** The tables that can punt by Ethernet type, with the field that matches it. */
  function CpuFields(tables: seq<TableInfo>, cpuActions: map<nat, nat>): map<nat, nat> {
    if tables == [] then map[]
    else
      var t, m := tables[|tables| - 1], CpuFields(tables[..|tables| - 1], cpuActions);
      var f := EthTypeField(Ordered(t.fields));
      if HasCpuAction(t.actions, cpuActions) && f.Some? then m[t.id := f.value] else m
  }

  // ---- Punt rules

  datatype Rule = Rule(ethType: nat, roleAgent: nat)

  /** Pipeline facts that rules depend on; how role agent IDs are decoded is a parameter. */
  datatype Punting = Punting(actions: map<nat, nat>, fields: map<nat, nat>, decode: seq<Byte> -> nat)

  /** `binary.BigEndian.Uint16`, which needs two bytes. */
  function EthType(value: seq<Byte>): nat
    requires |value| >= 2
  {
    var high: nat, low: nat := value[0], value[1];
    high * 0x100 + low
  }

  function RoleAgent(params: seq<Param>, id: nat, decode: seq<Byte> -> nat): nat {
    if params == [] then 0
    else if params[0].id == id then decode(params[0].value)
    else RoleAgent(params[1..], id, decode)
  }

  predicate Punts(p: Punting, e: TableEntry) {
    e.action.Some? && e.action.value.id in p.actions
  }

  predicate OnField(m: FieldMatch, field: nat) {
    m.fieldId == field && m.pattern.Ternary?
  }

  /** Ethernet types can be read off the entry. */
  predicate Readable(p: Punting, field: nat, e: TableEntry) {
    Punts(p, e) ==> forall m | m in e.matches && OnField(m, field) :: |m.pattern.value| >= 2
  }

  /** The rules that an entry makes. */
  function EntryRules(p: Punting, field: nat, e: TableEntry): set<Rule>
    requires Readable(p, field, e)
  {
    if Punts(p, e) then
      set m | m in e.matches && OnField(m, field) ::
        Rule(EthType(m.pattern.value), RoleAgent(e.action.value.params, p.actions[e.action.value.id], p.decode))
    else {}
  }

  predicate AllReadable(p: Punting, ts: map<nat, TableState>) {
    forall id, e | id in p.fields && id in ts && e in EntriesOf(ts[id].store) :: Readable(p, p.fields[id], e)
  }

  /** The rules of some entries, of one table, of some tables, and of all that can punt. */
  ghost function RulesOf(p: Punting, field: nat, es: set<TableEntry>): set<Rule>
    requires forall e | e in es :: Readable(p, field, e)
  {
    set e, r | e in es && r in EntryRules(p, field, e) :: r
  }

  ghost function TableRules(p: Punting, ts: map<nat, TableState>, id: nat): set<Rule>
    requires AllReadable(p, ts)
  {
    if id in p.fields && id in ts then RulesOf(p, p.fields[id], EntriesOf(ts[id].store)) else {}
  }

  ghost function RulesIn(ids: set<nat>, p: Punting, ts: map<nat, TableState>): set<Rule>
    requires AllReadable(p, ts)
  {
    set id, r | id in ids && r in TableRules(p, ts, id) :: r
  }

  lemma RulesMore(ids: set<nat>, id: nat, p: Punting, ts: map<nat, TableState>)
    requires AllReadable(p, ts)
    ensures RulesIn(ids + {id}, p, ts) == RulesIn(ids, p, ts) + TableRules(p, ts, id)
  {
    hide TableRules;
  }

  lemma ReadableIn(p: Punting, ts: map<nat, TableState>, id: nat, es: seq<TableEntry>)
    requires AllReadable(p, ts) && id in p.fields && id in ts && (set e | e in es) == EntriesOf(ts[id].store)
    ensures forall e | e in es :: Readable(p, p.fields[id], e)
    ensures TableRules(p, ts, id) == RulesOf(p, p.fields[id], set e | e in es)
  {
    assert forall e | e in EntriesOf(ts[id].store) :: Readable(p, p.fields[id], e);
    hide Readable, EntriesOf, EntryRules;
  }

  ghost function AllRules(p: Punting, ts: map<nat, TableState>): set<Rule>
    requires AllReadable(p, ts)
  {
    RulesIn(p.fields.Keys, p, ts)
  }

  /** An index has an Ethernet type exactly if some rule does, and the role agent of one. */
  ghost predicate Reflects(punt: map<nat, nat>, rules: set<Rule>) {
    && (forall t | t in punt :: Rule(t, punt[t]) in rules)
    && (forall r | r in rules :: r.ethType in punt)
  }

  // ---- Updates

  datatype Kind = Insert | Modify | Delete | Unspecified

  /** What is written.  Of entities kept elsewhere only the verdict of their store counts:
      counters and meters, which can only be modified, and action profiles and replication
      entries, which can.  Registers, value sets, digests and externs are ignored. */
  datatype Entity =
    | TableEntity(entry: TableEntry)
    | DirectCounter(entry: TableEntry, data: Option<CounterData>)
    | DirectMeter(entry: TableEntry, config: Option<MeterConfig>)
    | Indirect(verdict: Outcome)
    | Managed(verdict: Outcome)
    | Ignored

  datatype Update = Update(kind: Kind, entity: Entity)

  function UpdateStep(ts: map<nat, TableState>, u: Update): (map<nat, TableState>, Outcome) {
    match (u.kind, u.entity)
    case (Unspecified, _) => (ts, Done)
    case (_, Ignored) => (ts, Done)
    case (_, Managed(verdict)) => (ts, verdict)
    case (Delete, TableEntity(e)) => SetStep(ts, Remove(e))
    case (Delete, _) => (ts, Invalid)
    case (_, TableEntity(e)) => SetStep(ts, Write(e, u.kind == Insert))
    case (Insert, _) => (ts, Invalid)
    case (_, Indirect(verdict)) => (ts, verdict)
    case (_, DirectCounter(e, data)) => SetStep(ts, SetCounter(e, data))
    case (_, DirectMeter(e, config)) => SetStep(ts, SetMeter(e, config))
  }

  /** A batch: updates one by one up to the first that fails. */
  function Writes(ts: map<nat, TableState>, us: seq<Update>): (map<nat, TableState>, Outcome)
    decreases |us|
  {
    if us == [] then (ts, Done)
    else
      var (t, o) := UpdateStep(ts, us[0]);
      if o != Done then (t, o) else Writes(t, us[1..])
  }

  /** The tables after some updates that all succeed. */
  function Folded(ts: map<nat, TableState>, us: seq<Update>): map<nat, TableState> {
    if us == [] then ts else UpdateStep(Folded(ts, us[..|us| - 1]), us[|us| - 1]).0
  }

  predicate AllDone(ts: map<nat, TableState>, us: seq<Update>) {
    us == [] || (AllDone(ts, us[..|us| - 1]) && UpdateStep(Folded(ts, us[..|us| - 1]), us[|us| - 1]).1 == Done)
  }

  lemma UpdateFailureChangesNothing(ts: map<nat, TableState>, u: Update)
    requires UpdateStep(ts, u).1 != Done
    ensures UpdateStep(ts, u).0 == ts
  {
    match (u.kind, u.entity)
    case (Delete, TableEntity(e)) => SetFailureChangesNothing(ts, Remove(e));
    case (_, TableEntity(e)) => SetFailureChangesNothing(ts, Write(e, u.kind == Insert));
    case (Modify, DirectCounter(e, data)) => SetFailureChangesNothing(ts, SetCounter(e, data));
    case (Modify, DirectMeter(e, config)) => SetFailureChangesNothing(ts, SetMeter(e, config));
    case _ =>
  }

  lemma {:induction false} FoldedCons(ts: map<nat, TableState>, u: Update, us: seq<Update>)
    ensures Folded(ts, [u] + us) == Folded(UpdateStep(ts, u).0, us)
    ensures AllDone(ts, [u] + us) <==> UpdateStep(ts, u).1 == Done && AllDone(UpdateStep(ts, u).0, us)
  {
    hide UpdateStep;
    if us == [] {
      assert [u] + us == [u] && [u][..0] == [];
      assert Folded(ts, []) == ts && AllDone(ts, []);
    } else {
      assert ([u] + us)[..|us|] == [u] + us[..|us| - 1];
      FoldedCons(ts, u, us[..|us| - 1]);
    }
  }

  /** A batch does the longest prefix of its updates that succeeds, and nothing else; it
      reports an error exactly if that is not all of them. */
  lemma {:induction false} BatchPrefix(ts: map<nat, TableState>, us: seq<Update>) returns (n: nat)
    ensures n <= |us| && AllDone(ts, us[..n])
    ensures n < |us| ==> !AllDone(ts, us[..n + 1])
    ensures Writes(ts, us).0 == Folded(ts, us[..n])
    ensures Writes(ts, us).1 == Done <==> n == |us|
    decreases |us|
  {
    if us == [] {
      n := 0;
    } else {
      var (t, o) := UpdateStep(ts, us[0]);
      assert us[..1] == [us[0]] + [] && us[..0] == [];
      FoldedCons(ts, us[0], []);
      if o != Done {
        UpdateFailureChangesNothing(ts, us[0]);
        n := 0;
      } else {
        n := BatchPrefix(t, us[1..]);
        assert us[..n + 1] == [us[0]] + us[1..][..n];
        FoldedCons(ts, us[0], us[1..][..n]);
        if n < |us[1..]| {
          assert us[..n + 2] == [us[0]] + us[1..][..n + 1];
          FoldedCons(ts, us[0], us[1..][..n + 1]);
        }
        n := n + 1;
      }
    }
  }

  // ---- The index over runs

  /** Updates after which the index is made anew. */
  predicate Touches(u: Update) {
    u.kind != Unspecified && u.entity.TableEntity?
  }

  /** Updates that reach for a store: counters and meters refuse anything but modifications
      before they do, and what is ignored never does. */
  predicate Writing(u: Update) {
    match u.entity
    case TableEntity(_) => u.kind != Unspecified
    case Managed(_) => u.kind != Unspecified
    case Ignored => false
    case _ => u.kind == Modify
  }

  datatype View = View(punting: Punting, tables: map<nat, TableState>, punt: map<nat, nat>)

  ghost predicate Agrees(v: View) {
    AllReadable(v.punting, v.tables) && Reflects(v.punt, AllRules(v.punting, v.tables))
  }

  /** What one update may make of a device. */
  ghost predicate Proceeds(v: View, u: Update, w: View) {
    && w.punting == v.punting && w.tables == UpdateStep(v.tables, u).0
    && if Touches(u) && UpdateStep(v.tables, u).1 == Done then Agrees(w) else w.punt == v.punt
  }

  /** What a new pipeline makes of a device: empty tables, the index as it was. */
  ghost predicate Configures(v: View, info: PipelineInfo, w: View) {
    && w.punting.actions == CpuActions(info.actions)
    && w.punting.fields == CpuFields(info.tables, w.punting.actions) && w.punting.decode == v.punting.decode
    && w.tables == NewTables(info.tables) && w.punt == v.punt
  }

  datatype Event = Configure(info: PipelineInfo) | One(update: Update)

  /** A history of a device, with its view after each event. */
  datatype History = Start(view: View) | After(before: History, event: Event, view: View)

  ghost predicate Possible(h: History) {
    h.After? ==>
      && Possible(h.before)
      && match h.event
         case Configure(info) => Configures(h.before.view, info, h.view)
         case One(u) => Proceeds(h.before.view, u, h.view)
  }

  /** Some table write has succeeded since the pipeline was last set. */
  predicate Written(h: History) {
    h.After? && h.event.One? &&
    (Written(h.before) || (Touches(h.event.update) && UpdateStep(h.before.view.tables, h.event.update).1 == Done))
  }

  lemma EntriesKept(ts: map<nat, TableState>, op: Op, id: nat)
    requires (op.SetCounter? || op.SetMeter?) && id in ts
    ensures id in SetStep(ts, op).0 && EntriesOf(SetStep(ts, op).0[id].store) == EntriesOf(ts[id].store)
  {
    if id == op.entry.tableId {
      var k := KeyOf(IdentityOf(op.entry));
      var s, t := ts[id].store, SetStep(ts, op).0[id].store;
      hide KeyOf, IdentityOf, Normal;
      assert t.rows.Keys == s.rows.Keys && forall j | j in s.rows :: t.rows[j].entry == s.rows[j].entry;
    }
  }

  lemma OtherUpdatesKeepRules(v: View, u: Update, w: View)
    requires Agrees(v) && Proceeds(v, u, w) && !Touches(u)
    ensures Agrees(w)
  {
    forall id
      ensures id in w.tables <==> id in v.tables
      ensures id in v.tables ==> EntriesOf(w.tables[id].store) == EntriesOf(v.tables[id].store)
    {
      match (u.kind, u.entity)
      case (_, DirectCounter(e, data)) =>
        if id in v.tables {
          EntriesKept(v.tables, SetCounter(e, data), id);
        }
      case (_, DirectMeter(e, config)) =>
        if id in v.tables {
          EntriesKept(v.tables, SetMeter(e, config), id);
        }
      case _ =>
    }
    SameRules(v.punting, v.tables, w.tables);
  }

  lemma SameRules(p: Punting, a: map<nat, TableState>, b: map<nat, TableState>)
    requires AllReadable(p, a) && a.Keys == b.Keys
    requires forall id | id in a :: EntriesOf(b[id].store) == EntriesOf(a[id].store)
    ensures AllReadable(p, b) && AllRules(p, b) == AllRules(p, a)
  {
    hide EntriesOf, EntryRules;
    assert AllReadable(p, b);
    assert forall id :: TableRules(p, b, id) == TableRules(p, a, id);
  }

  /** From the first table write that succeeds after the pipeline is set, and until it is
      set again, the index agrees with a full scan of the tables after every update. */
  lemma {:induction false} IndexExact(h: History)
    requires Possible(h) && Written(h)
    ensures Agrees(h.view)
    decreases h
  {
    var u := h.event.update;
    var v, w := h.before.view, h.view;
    if !(Touches(u) && UpdateStep(v.tables, u).1 == Done) {
      IndexExact(h.before);
      hide Agrees;
      if Touches(u) {
        UpdateFailureChangesNothing(v.tables, u);
      } else {
        OtherUpdatesKeepRules(v, u, w);
      }
    }
  }

  /** Before that it does not in general: a new pipeline leaves the old index standing. */
  lemma IndexStale(v: View, info: PipelineInfo, w: View)
    requires Configures(v, info, w)
    ensures Agrees(w) <==> v.punt == map[]
  {
    NewTablesEmpty(info.tables);
    assert AllRules(w.punting, w.tables) == {};
    if w.punt != map[] {
      var t :| t in w.punt;
      assert !Reflects(w.punt, {});
    }
  }

  lemma NewTablesEmpty(infos: seq<TableInfo>)
    ensures forall id | id in NewTables(infos) :: EntriesOf(NewTables(infos)[id].store) == {}
  {
  }

  // ---- A run that leaves the index stale

  const ONE_PUNT := PipelineInfo([ActionInfo(1, "punt_to_cpu", [])], [TableInfo(1, [FieldInfo(1, ETH_TYPE_FIELD)], [1])])
  const PUNT_LLDP := TableEntry(1, [FieldMatch(1, Ternary([0x88, 0xcc], [0xff, 0xff]))], Some(Action(1, [])), 0, false, None, None, None)

  lemma OnePuntFacts()
    ensures CpuActions(ONE_PUNT.actions) == map[1 := 0] && CpuFields(ONE_PUNT.tables, map[1 := 0]) == map[1 := 1]
    ensures NewTables(ONE_PUNT.tables) == map[1 := TableState(1, Store(map[], None))]
  {
    var a, t := ONE_PUNT.actions, ONE_PUNT.tables;
    assert CPU_SUFFIX <= a[0].name[4..];
    assert a[..0] == [] && t[..0] == [];
    assert t[0].fields[..0] == [];
    assert Ordered(t[0].fields) == t[0].fields;
  }

  lemma PuntInserted()
    ensures var ts, key := map[1 := TableState(1, Store(map[], None))], KeyOf(IdentityOf(PUNT_LLDP));
            UpdateStep(ts, Update(Insert, TableEntity(PUNT_LLDP))) ==
            (map[1 := TableState(1, Store(map[key := NewRow(PUNT_LLDP)], None))], Done)
  {
    assert PUNT_LLDP.matches[..0] == [];
    assert Normal(PUNT_LLDP) == PUNT_LLDP;
    hide KeyOf, IdentityOf, Normal;
    var empty: Store<seq<Byte>>, op, key := Store(map[], None), Write(PUNT_LLDP, true), KeyOf(IdentityOf(PUNT_LLDP));
    assert Decide(1, op, RowAt(empty, key)) == (Put(NewRow(PUNT_LLDP)), Done);
    assert empty.rows[key := NewRow(PUNT_LLDP)] == map[key := NewRow(PUNT_LLDP)];
    assert Step(1, KeyOf, empty, op) == (Store(map[key := NewRow(PUNT_LLDP)], None), Done);
    hide Step;
    var ts := map[1 := TableState(1, empty)];
    assert ts[1 := TableState(1, Store(map[key := NewRow(PUNT_LLDP)], None))] ==
           map[1 := TableState(1, Store(map[key := NewRow(PUNT_LLDP)], None))];
  }

  lemma OneEntry(key: seq<Byte>, e: TableEntry)
    ensures EntriesOf(Store(map[key := NewRow(e)], None)) == {e}
  {
    var s := Store(map[key := NewRow(e)], None);
    assert key in s.rows && s.rows[key].entry == e;
    assert forall k | k in s.rows :: k == key;
  }

  lemma PuntIndexed(decode: seq<Byte> -> nat, key: seq<Byte>)
    ensures Agrees(View(Punting(map[1 := 0], map[1 := 1], decode),
                        map[1 := TableState(1, Store(map[key := NewRow(PUNT_LLDP)], None))], map[0x88cc := 0]))
  {
    var p := Punting(map[1 := 0], map[1 := 1], decode);
    var ts := map[1 := TableState(1, Store(map[key := NewRow(PUNT_LLDP)], None))];
    OneEntry(key, PUNT_LLDP);
    assert PUNT_LLDP.matches[0] in PUNT_LLDP.matches && Readable(p, 1, PUNT_LLDP);
    assert EntryRules(p, 1, PUNT_LLDP) == {Rule(0x88cc, 0)};
    hide EntryRules, EntriesOf, Readable;
    assert TableRules(p, ts, 1) == {Rule(0x88cc, 0)};
    hide TableRules;
    assert AllRules(p, ts) == {Rule(0x88cc, 0)};
  }

  /** LLDP is punted by an entry, and then the same pipeline is set again: its tables are
      empty, and the index still has LLDP. */
  lemma StaleRun(decode: seq<Byte> -> nat) returns (h: History)
    ensures h.After? && Possible(h) && h.event == Configure(ONE_PUNT)
    ensures h.view.punt == map[0x88cc := 0] && h.view.tables == NewTables(ONE_PUNT.tables) && !Agrees(h.view)
  {
    var p, key := Punting(map[1 := 0], map[1 := 1], decode), KeyOf(IdentityOf(PUNT_LLDP));
    var filled := map[1 := TableState(1, Store(map[key := NewRow(PUNT_LLDP)], None))];
    OnePuntFacts();
    PuntInserted();
    PuntIndexed(decode, key);
    hide CpuActions, CpuFields, NewTables, UpdateStep, Agrees, KeyOf, IdentityOf;
    var start := View(Punting(map[], map[], decode), map[], map[]);
    var blank := View(p, NewTables(ONE_PUNT.tables), map[]);
    var punting := View(p, filled, map[0x88cc := 0]);
    var again := View(p, NewTables(ONE_PUNT.tables), map[0x88cc := 0]);
    assert Configures(start, ONE_PUNT, blank);
    assert Proceeds(blank, Update(Insert, TableEntity(PUNT_LLDP)), punting);
    assert Configures(punting, ONE_PUNT, again);
    IndexStale(punting, ONE_PUNT, again);
    hide Configures, Proceeds;
    var first := After(Start(start), Configure(ONE_PUNT), blank);
    assert Possible(first);
    var second := After(first, One(Update(Insert, TableEntity(PUNT_LLDP))), punting);
    assert Possible(second);
    h := After(second, Configure(ONE_PUNT), again);
  }

  function Events(h: History): seq<Event> {
    if h.Start? then [] else Events(h.before) + [h.event]
  }

  function Ones(us: seq<Update>): seq<Event> {
    seq(|us|, i requires 0 <= i < |us| => One(us[i]))
  }

  /** How many updates of a batch are tried: those that succeed, and the one that fails. */
  function Tried(ts: map<nat, TableState>, us: seq<Update>): (n: nat)
    ensures n <= |us|
    decreases |us|
  {
    if us == [] then 0
    else
      var (t, o) := UpdateStep(ts, us[0]);
      if o != Done then 1 else 1 + Tried(t, us[1..])
  }

  /** The first `i` updates of a batch are done, the rest is still to come. */
  ghost predicate Underway(before: History, us: seq<Update>, i: nat, h: History) {
    && i <= |us|
    && Writes(before.view.tables, us) == Writes(h.view.tables, us[i..])
    && Tried(before.view.tables, us) == i + Tried(h.view.tables, us[i..])
    && Events(h) == Events(before) + Ones(us[..i])
  }

  /** A batch is over: its history is that of the updates tried. */
  ghost predicate BatchOver(before: History, us: seq<Update>, o: Outcome, h: History) {
    && (h.view.tables, o) == Writes(before.view.tables, us)
    && Events(h) == Events(before) + Ones(us[..Tried(before.view.tables, us)])
  }

  lemma BatchStep(before: History, us: seq<Update>, i: nat, h: History, g: History, o: Outcome)
    requires i < |us| && Underway(before, us, i, h)
    requires g.After? && g.before == h && g.event == One(us[i]) && (g.view.tables, o) == UpdateStep(h.view.tables, us[i])
    ensures if o == Done then Underway(before, us, i + 1, g) else BatchOver(before, us, o, g)
  {
    assert us[i..][1..] == us[i + 1..] && us[i..][0] == us[i];
    assert Ones(us[..i + 1]) == Ones(us[..i]) + [One(us[i])];
    hide UpdateStep;
  }

  lemma StillTried(before: History, us: seq<Update>, i: nat, h: History)
    requires i < |us| && Underway(before, us, i, h)
    ensures us[i] in us[..Tried(before.view.tables, us)]
  {
    assert us[i..] != [];
    assert us[..Tried(before.view.tables, us)][i] == us[i];
    hide UpdateStep;
  }

  lemma BatchEnds(before: History, us: seq<Update>, h: History)
    requires Underway(before, us, |us|, h)
    ensures BatchOver(before, us, Done, h)
  {
    assert us[|us|..] == [];
  }

  /** The entry written, if any, can be scanned for Ethernet types. */
  predicate ReadableUpdate(p: Punting, u: Update) {
    u.entity.TableEntity? && u.entity.entry.tableId in p.fields ==>
      Readable(p, p.fields[u.entity.entry.tableId], u.entity.entry)
  }

  lemma NormalReadable(p: Punting, field: nat, e: TableEntry)
    requires Readable(p, field, e)
    ensures Readable(p, field, Normal(e))
  {
    forall m | m in Normal(e).matches
      ensures m in e.matches
    {
      Sorting.SortElement(e.matches, FieldId, m);
    }
  }

  lemma SetStepReadable(p: Punting, ts: map<nat, TableState>, op: Op)
    requires AllReadable(p, ts)
    requires op.Write? && op.entry.tableId in p.fields ==> Readable(p, p.fields[op.entry.tableId], op.entry)
    ensures AllReadable(p, SetStep(ts, op).0)
  {
    var id := op.entry.tableId;
    if id in ts {
      StepEntries(ts[id].fieldCount, KeyOf, ts[id].store, op);
      if op.Write? && id in p.fields {
        NormalReadable(p, p.fields[id], op.entry);
      }
    }
    hide Step, EntriesOf, Readable, Normal;
  }

  lemma UpdateReadable(p: Punting, ts: map<nat, TableState>, u: Update)
    requires AllReadable(p, ts) && ReadableUpdate(p, u)
    ensures AllReadable(p, UpdateStep(ts, u).0)
  {
    match (u.kind, u.entity)
    case (Delete, TableEntity(e)) => SetStepReadable(p, ts, Remove(e));
    case (_, TableEntity(e)) => SetStepReadable(p, ts, Write(e, u.kind == Insert));
    case (Modify, DirectCounter(e, data)) => SetStepReadable(p, ts, SetCounter(e, data));
    case (Modify, DirectMeter(e, config)) => SetStepReadable(p, ts, SetMeter(e, config));
    case _ =>
  }

  // ---- The device's forwarding part

  datatype CpuTable = CpuTable(table: Table, ethTypeField: nat)

  class Forwarding {
    const decode: seq<Byte> -> nat
    var config: PipelineInfo
    var pipelineSet: bool                   // before that there are no tables
    var tables: Tables
    var cpuActions: map<nat, nat>
    var cpuTables: map<nat, CpuTable>
    var puntToCPU: map<nat, nat>

    constructor (decode: seq<Byte> -> nat)
      ensures Valid() && !pipelineSet && puntToCPU == map[] && Recorded(Start(Seen()))
      ensures fresh(tables) && fresh(tables.Repr)
    {
      this.decode := decode;
      config, pipelineSet, cpuActions, cpuTables, puntToCPU := PipelineInfo([], []), false, map[], map[], map[];
      tables := new Tables([]);
    }

    /** CPU tables are tables of the pipeline. */
    ghost predicate Valid()
      reads this, tables, tables.Repr
    {
      && tables.Valid() && this !in tables.Repr
      && forall id | id in cpuTables :: id in tables.tables && cpuTables[id].table == tables.tables[id]
    }

    ghost function Facts(): Punting
      reads `cpuActions, `cpuTables
    {
      Punting(cpuActions, map id | id in cpuTables :: cpuTables[id].ethTypeField, decode)
    }

    ghost function Seen(): View
      requires Valid()
      reads this, tables, tables.Repr
    {
      View(Facts(), tables.State(), puntToCPU)
    }

    /** Writing to the index leaves the tables alone. */
    twostate lemma TablesKept()
      requires old(Valid()) && unchanged(`tables) && unchanged(`cpuTables) && unchanged(`cpuActions) && unchanged(old(tables.Repr))
      ensures Valid() && Facts() == old(Facts()) && tables.State() == old(tables.State())
    {
    }

    /** Enters the rules of one entry into the index. */
    method RecordEntry(e: TableEntry, field: nat, ghost rules: set<Rule>)
      requires Readable(Facts(), field, e) && Reflects(puntToCPU, rules)
      modifies this`puntToCPU
      ensures Reflects(puntToCPU, rules + EntryRules(Facts(), field, e))
    {
      if e.action == None || e.action.value.id !in cpuActions {
        return;
      }
      var action := e.action.value;
      ghost var found: set<Rule> := {};
      for i := 0 to |e.matches|
        invariant Reflects(puntToCPU, rules + found)
        invariant found == set m | m in e.matches[..i] && OnField(m, field) ::
                             Rule(EthType(m.pattern.value), RoleAgent(action.params, cpuActions[action.id], decode))
      {
        var m := e.matches[i];
        assert e.matches[..i + 1] == e.matches[..i] + [m];
        if m.fieldId == field && m.pattern.Ternary? {
          var r := Rule(EthType(m.pattern.value), RoleAgent(action.params, cpuActions[action.id], decode));
          puntToCPU := puntToCPU[r.ethType := r.roleAgent];
          found := found + {r};
        }
      }
      assert e.matches[..|e.matches|] == e.matches;
    }

    /** Makes the index anew from all tables that can punt. */
    method CheckPuntToCPU()
      requires Valid() && AllReadable(Facts(), tables.State())
      modifies this`puntToCPU
      ensures Valid() && Agrees(Seen()) && Facts() == old(Facts()) && tables.State() == old(tables.State())
    {
      ghost var p, ts := Facts(), tables.State();
      puntToCPU := map[];
      TablesKept();
      assert Scanned(p, ts, {});
      hide *;
      ScanTables(p, ts);
      ScannedAll(p, ts);
    }

    /** The tables are as given, and the index holds the rules of some of them. */
    ghost predicate Scanned(p: Punting, ts: map<nat, TableState>, ids: set<nat>)
      reads this, tables, tables.Repr
    {
      && Valid() && Facts() == p && tables.State() == ts
      && AllReadable(p, ts) && Reflects(puntToCPU, RulesIn(ids, p, ts))
    }

    lemma ScannedAll(p: Punting, ts: map<nat, TableState>)
      requires Scanned(p, ts, cpuTables.Keys)
      ensures Valid() && tables.Valid() && Facts() == p && tables.State() == ts && Agrees(Seen())
    {
      assert Facts().fields.Keys == cpuTables.Keys;
    }

    method ScanTables(ghost p: Punting, ghost ts: map<nat, TableState>)
      requires Scanned(p, ts, {})
      modifies this`puntToCPU
      ensures Scanned(p, ts, cpuTables.Keys)
    {
      var ids := cpuTables.Keys;
      ghost var done := {};
      hide *;
      while ids != {}
        invariant ids <= cpuTables.Keys && done == cpuTables.Keys - ids && Scanned(p, ts, done)
      {
        var id :| id in ids;
        ScanTable(id, p, ts, done);
        ids := ids - {id};
        done := done + {id};
      }
      assert done == cpuTables.Keys;
    }

    /** Enters the rules of one table into the index. */
    method ScanTable(id: nat, ghost p: Punting, ghost ts: map<nat, TableState>, ghost done: set<nat>)
      requires id in cpuTables && Scanned(p, ts, done)
      modifies this`puntToCPU
      ensures Scanned(p, ts, done + {id})
    {
      var field := cpuTables[id].ethTypeField;
      var es := CpuEntries(id);
      assert id in p.fields && p.fields[id] == field && id in ts;
      ReadableIn(p, ts, id, es);
      RulesMore(done, id, p, ts);
      hide AllReadable, Readable, RulesOf, TableRules, EntriesOf, Reflects, RulesIn;
      ScanEntries(es, field, RulesIn(done, p, ts));
      TablesKept();
    }

    method CpuEntries(id: nat) returns (es: seq<TableEntry>)
      requires Valid() && id in cpuTables
      ensures id in tables.State() && (set e | e in es) == EntriesOf(tables.State()[id].store)
      ensures tables.State() == old(tables.State()) && Facts() == old(Facts())
    {
      es := cpuTables[id].table.Entries();
    }

    method ScanEntries(es: seq<TableEntry>, field: nat, ghost rules: set<Rule>)
      requires (forall e | e in es :: Readable(Facts(), field, e)) && Reflects(puntToCPU, rules)
      modifies this`puntToCPU
      ensures Facts() == old(Facts())
      ensures Reflects(puntToCPU, rules + RulesOf(Facts(), field, set e | e in es))
    {
      ghost var p, more := Facts(), rules;
      for i := 0 to |es|
        invariant Facts() == p && Reflects(puntToCPU, more)
        invariant forall e | e in es[..i] :: e in es
        invariant more == rules + set e, r | e in es[..i] && r in EntryRules(p, field, e) :: r
      {
        hide Readable, EntryRules, Reflects;
        assert es[..i + 1] == es[..i] + [es[i]];
        RecordEntry(es[i], field, more);
        more := more + EntryRules(p, field, es[i]);
      }
      assert es[..|es|] == es;
    }

    method FindCpuActions(actions: seq<ActionInfo>)
      modifies this`cpuActions
      ensures cpuActions == CpuActions(actions)
    {
      cpuActions := map[];
      for i := 0 to |actions|
        invariant cpuActions == CpuActions(actions[..i])
      {
        assert actions[..i + 1][..i] == actions[..i];
        if Contains(actions[i].name, CPU_SUFFIX) {
          cpuActions := cpuActions[actions[i].id := RoleParam(actions[i].params)];
        }
      }
      assert actions[..|actions|] == actions;
    }

    method FindCpuTables(infos: seq<TableInfo>)
      requires forall t | t in infos :: t.id in tables.tables
      modifies this`cpuTables
      ensures (map id | id in cpuTables :: cpuTables[id].ethTypeField) == CpuFields(infos, cpuActions)
      ensures forall id | id in cpuTables :: id in tables.tables && cpuTables[id].table == tables.tables[id]
    {
      cpuTables := map[];
      for i := 0 to |infos|
        invariant (map id | id in cpuTables :: cpuTables[id].ethTypeField) == CpuFields(infos[..i], cpuActions)
        invariant forall id | id in cpuTables :: id in tables.tables && cpuTables[id].table == tables.tables[id]
      {
        var t := infos[i];
        assert infos[..i + 1][..i] == infos[..i];
        assert CpuFields(infos[..i + 1], cpuActions) ==
               if HasCpuAction(t.actions, cpuActions) && EthTypeField(Ordered(t.fields)).Some?
               then CpuFields(infos[..i], cpuActions)[t.id := EthTypeField(Ordered(t.fields)).value]
               else CpuFields(infos[..i], cpuActions);
        hide *;
        var fields := OrderFields(t.fields);
        if HasCpuAction(t.actions, cpuActions) && EthTypeField(fields).Some? {
          cpuTables := cpuTables[t.id := CpuTable(tables.tables[t.id], EthTypeField(fields).value)];
        }
      }
      assert infos[..|infos|] == infos;
    }

    method SetPipelineConfig(info: PipelineInfo, ghost before: History) returns (ghost h: History)
      requires Valid() && Possible(before) && before.view == Seen()
      modifies this
      ensures pipelineSet && config == info && fresh(tables) && fresh(tables.Repr)
      ensures Recorded(h) && h == After(before, Configure(info), Seen()) && Seen().tables == NewTables(info.tables)
    {
      CreateTables(info);
      FindPuntToCPUTables(info);
      h := After(before, Configure(info), Seen());
      NewPipeline(info, before);
      hide *;
    }

    method CreateTables(info: PipelineInfo)
      modifies this`config, this`pipelineSet, this`tables
      ensures pipelineSet && config == info && fresh(tables) && fresh(tables.Repr)
      ensures tables.Valid() && tables.State() == NewTables(info.tables) && this !in tables.Repr
    {
      config, pipelineSet := info, true;
      tables := new Tables(info.tables);
    }

    lemma NewPipeline(info: PipelineInfo, before: History)
      requires Valid() && Possible(before) && puntToCPU == before.view.punt && decode == before.view.punting.decode
      requires tables.State() == NewTables(info.tables)
      requires cpuActions == CpuActions(info.actions) && Facts().fields == CpuFields(info.tables, cpuActions)
      ensures Recorded(After(before, Configure(info), Seen()))
    {
      NewTablesEmpty(info.tables);
      hide NewTables, CpuFields, CpuActions, Readable, EntriesOf;
      assert Configures(before.view, info, Seen());
    }

    method FindPuntToCPUTables(info: PipelineInfo)
      requires tables.Valid() && this !in tables.Repr && tables.State() == NewTables(info.tables)
      modifies this`cpuActions, this`cpuTables
      ensures Valid() && tables.State() == NewTables(info.tables)
      ensures cpuActions == CpuActions(info.actions) && Facts().fields == CpuFields(info.tables, cpuActions)
    {
      NewTablesIds(info.tables);
      assert forall t | t in info.tables :: t.id in tables.State();
      hide *;
      FindCpuActions(info.actions);
      FindCpuTables(info.tables);
      TablesStand();
    }

    twostate lemma TablesStand()
      requires old(tables.Valid() && this !in tables.Repr) && unchanged(`tables) && unchanged(old(tables.Repr))
      requires forall id | id in cpuTables :: id in tables.tables && cpuTables[id].table == tables.tables[id]
      ensures Valid() && tables.State() == old(tables.State())
      ensures Facts().fields == map id | id in cpuTables :: cpuTables[id].ethTypeField
    {
    }

    method ModifyEntity(kind: Kind, entity: Entity) returns (o: Outcome)
      requires Valid() && (kind == Insert || kind == Modify)
      modifies tables.Repr
      ensures Valid() && fresh(tables.Repr - old(tables.Repr))
      ensures (tables.State(), o) == UpdateStep(old(tables.State()), Update(kind, entity))
    {
      match entity
      case TableEntity(e) => o := tables.ModifyTableEntry(e, kind == Insert);
      case DirectCounter(e, data) => o := tables.ModifyDirectCounterEntry(e, data, kind == Insert);
      case DirectMeter(e, config) => o := tables.ModifyDirectMeterEntry(e, config, kind == Insert);
      case Indirect(verdict) => o := if kind == Insert then Invalid else verdict;
      case Managed(verdict) => o := verdict;
      case Ignored => o := Done;
    }

    method DeleteEntity(entity: Entity) returns (o: Outcome)
      requires Valid()
      modifies tables.Repr
      ensures Valid() && fresh(tables.Repr - old(tables.Repr))
      ensures (tables.State(), o) == UpdateStep(old(tables.State()), Update(Delete, entity))
    {
      match entity
      case TableEntity(e) => o := tables.RemoveTableEntry(e);
      case DirectCounter(_, _) => o := Invalid;
      case DirectMeter(_, _) => o := Invalid;
      case Indirect(_) => o := Invalid;
      case Managed(verdict) => o := verdict;
      case Ignored => o := Done;
    }

    /** One update of a batch; the index is made anew after each successful table write. */
    method ProcessUpdate(u: Update, ghost before: History) returns (o: Outcome, ghost h: History)
      requires Recorded(before) && ReadableUpdate(Facts(), u)
      modifies this`puntToCPU, tables.Repr
      ensures Recorded(h) && fresh(tables.Repr - old(tables.Repr)) && Facts() == old(Facts())
      ensures h == After(before, One(u), Seen()) && (h.view.tables, o) == UpdateStep(before.view.tables, u)
    {
      ghost var p, ts := Facts(), tables.State();
      UpdateReadable(p, ts, u);
      o := WriteEntity(u);
      hide UpdateStep, AllReadable, ReadableUpdate, Reflects, AllRules;
      if Touches(u) && o == Done {
        CheckPuntToCPU();
      }
      h := After(before, One(u), Seen());
      hide *;
    }

    /** Between the updates of a batch: the history so far ends in the present view. */
    ghost predicate Recorded(h: History)
      reads this, tables, tables.Repr
    {
      Valid() && AllReadable(Facts(), tables.State()) && Possible(h) && h.view == Seen()
    }

    /** A batch of updates, up to the first that fails.  An update that reaches for a store
        before a pipeline is set crashes the simulator: there are no stores then. */
    method ProcessWrite(us: seq<Update>, ghost before: History) returns (o: Outcome, ghost h: History)
      requires Recorded(before) && forall u | u in us[..Tried(tables.State(), us)] :: ReadableUpdate(Facts(), u)
      requires pipelineSet || forall u | u in us[..Tried(tables.State(), us)] :: !Writing(u)
      modifies this`puntToCPU, tables.Repr
      ensures Recorded(h) && BatchOver(before, us, o, h) && fresh(tables.Repr - old(tables.Repr))
      ensures Facts() == old(Facts()) && (Written(h) ==> Agrees(Seen()))
    {
      o, h := ProcessUpdates(us, before);
      if Written(h) {
        IndexExact(h);
      }
      hide BatchOver, Written, Agrees, Possible, AllReadable;
    }

    method ProcessUpdates(us: seq<Update>, ghost before: History) returns (o: Outcome, ghost h: History)
      requires Recorded(before) && forall u | u in us[..Tried(tables.State(), us)] :: ReadableUpdate(Facts(), u)
      modifies this`puntToCPU, tables.Repr
      ensures Recorded(h) && BatchOver(before, us, o, h)
      ensures fresh(tables.Repr - old(tables.Repr)) && Facts() == old(Facts())
    {
      o, h := Done, before;
      assert us[0..] == us && us[..0] == [] && Underway(before, us, 0, h);
      assert tables.State() == before.view.tables;
      hide *;
      for i := 0 to |us|
        invariant Recorded(h) && fresh(tables.Repr - old(tables.Repr))
        invariant Facts() == old(Facts()) && o == Done
        invariant Underway(before, us, i, h)
      {
        ghost var g := h;
        StillTried(before, us, i, h);
        o, h := ProcessUpdate(us[i], h);
        BatchStep(before, us, i, g, h, o);
        if o != Done {
          return;
        }
      }
      BatchEnds(before, us, h);
    }

    method WriteEntity(u: Update) returns (o: Outcome)
      requires Valid()
      modifies tables.Repr
      ensures Valid() && fresh(tables.Repr - old(tables.Repr))
      ensures (tables.State(), o) == UpdateStep(old(tables.State()), u)
    {
      match u.kind
      case Insert => o := ModifyEntity(Insert, u.entity);
      case Modify => o := ModifyEntity(Modify, u.entity);
      case Delete => o := DeleteEntity(u.entity);
      case Unspecified => o := Done;
    }
  }

  lemma NewTablesIds(infos: seq<TableInfo>)
    ensures forall t | t in infos :: t.id in NewTables(infos)
  {
    if infos != [] {
      NewTablesIds(infos[..|infos| - 1]);
      assert infos == infos[..|infos| - 1] + [infos[|infos| - 1]];
    }
  }
}
