/** The index of punted Ethernet types, told from the description of the pipeline and the
    entries in its tables alone.

    `IndexByEntries` says what the index has, and with which role agent, position by position. */
module PuntRules {
  import opened Text
  import opened Entries
  import opened TableStore
  import opened Tables
  import opened Pipeline
  import Sorting

  // ---- What the pipeline describes

  /** The name has `_to_cpu` in it. */
  ghost predicate ToCpu(name: string) {
    exists i | 0 <= i <= |name| :: "_to_cpu" <= name[i..]
  }

  /** Of the actions with an ID, the last that punts. */
  ghost predicate PuntsAt(actions: seq<ActionInfo>, i: nat, id: nat) {
    && i < |actions| && actions[i].id == id && ToCpu(actions[i].name)
    && forall j | i < j < |actions| && actions[j].id == id :: !ToCpu(actions[j].name)
  }

  /** The ID of the first parameter named `set_role_agent_id`, zero if there is none. */
  ghost predicate RoleParamIs(params: seq<ParamInfo>, id: nat) {
    || (exists i :: 0 <= i < |params| && params[i].name == "set_role_agent_id" && params[i].id == id &&
                    forall j | 0 <= j < i :: params[j].name != "set_role_agent_id")
    || (id == 0 && forall p | p in params :: p.name != "set_role_agent_id")
  }

  /** What the first parameter with an ID decodes to, zero if there is none. */
  ghost predicate DecodesTo(params: seq<Param>, id: nat, decode: seq<Byte> -> nat, agent: nat) {
    || (exists i :: 0 <= i < |params| && params[i].id == id && decode(params[i].value) == agent &&
                    forall j | 0 <= j < i :: params[j].id != id)
    || (agent == 0 && forall p | p in params :: p.id != id)
  }

  /** The least ID of a field named `eth_type`. */
  ghost predicate EthFieldIs(fields: seq<FieldInfo>, id: nat) {
    && (exists f :: f in fields && f.name == "eth_type" && f.id == id)
    && forall f | f in fields && f.name == "eth_type" :: f.id >= id
  }

  /** The table refers to an action that punts and has a field for the Ethernet type. */
  ghost predicate CanPunt(actions: seq<ActionInfo>, t: TableInfo, field: nat) {
    EthFieldIs(t.fields, field) && exists a, i: nat :: a in t.actions && PuntsAt(actions, i, a)
  }

  /** Of the tables with an ID, the last that can punt. */
  ghost predicate PuntTableAt(actions: seq<ActionInfo>, tables: seq<TableInfo>, k: nat, id: nat, field: nat) {
    && k < |tables| && tables[k].id == id && CanPunt(actions, tables[k], field)
    && forall j, f: nat | k < j < |tables| && tables[j].id == id :: !CanPunt(actions, tables[j], f)
  }

  /** The entry is in a row of the table, or in its default row. */
  ghost predicate HasEntry<K>(s: Store<K>, e: TableEntry) {
    (exists k :: k in s.rows && s.rows[k].entry == e) || (s.default.Some? && s.default.value.entry == e)
  }

  /** An entry punts an Ethernet type, with a role agent: its action punts, one of its matches is
      a ternary one on the field and starts with the two bytes of the type, and the agent is read
      off the parameter for it. */
  ghost predicate EntryPunts(info: PipelineInfo, field: nat, e: TableEntry, decode: seq<Byte> -> nat, ethType: nat, agent: nat) {
    && e.action.Some?
    && (exists i: nat, r: nat ::
          PuntsAt(info.actions, i, e.action.value.id) && RoleParamIs(info.actions[i].params, r) &&
          DecodesTo(e.action.value.params, r, decode, agent))
    && exists m :: m in e.matches && Matches(m, field, ethType)
  }

  ghost predicate Matches(m: FieldMatch, field: nat, ethType: nat) {
    && m.fieldId == field && m.pattern.Ternary? && |m.pattern.value| >= 2
    && var high: nat, low: nat := m.pattern.value[0], m.pattern.value[1]; ethType == 256 * high + low
  }

  /** Some entry of some table of the pipeline does. */
  ghost predicate Punted(info: PipelineInfo, ts: map<nat, TableState>, decode: seq<Byte> -> nat, ethType: nat, agent: nat) {
    exists id, field: nat, k: nat, e ::
      && PuntTableAt(info.actions, info.tables, k, id, field) && id in ts && HasEntry(ts[id].store, e)
      && EntryPunts(info, field, e, decode, ethType, agent)
  }

  // ---- That the index is computed by it

  lemma ContainsToCpu(name: string)
    ensures Contains(name, CPU_SUFFIX) <==> ToCpu(name)
  {
  }

  lemma {:induction false} FirstRoleParam(params: seq<ParamInfo>) returns (i: nat)
    ensures i <= |params| && forall j | 0 <= j < i :: params[j].name != "set_role_agent_id"
    ensures i < |params| ==> params[i].name == "set_role_agent_id" && RoleParam(params) == params[i].id
    ensures i == |params| ==> RoleParam(params) == 0
  {
    if params == [] || params[0].name == "set_role_agent_id" {
      i := 0;
    } else {
      i := FirstRoleParam(params[1..]);
      assert forall j | 0 < j < i + 1 :: params[j] == params[1..][j - 1];
      i := i + 1;
    }
  }

  lemma RoleParamFound(params: seq<ParamInfo>, id: nat)
    ensures RoleParamIs(params, id) <==> id == RoleParam(params)
  {
    var i := FirstRoleParam(params);
    hide RoleParam;
    if i < |params| {
      assert params[i] in params;
    }
  }

  lemma {:induction false} FirstAgentParam(params: seq<Param>, id: nat, decode: seq<Byte> -> nat) returns (i: nat)
    ensures i <= |params| && forall j | 0 <= j < i :: params[j].id != id
    ensures i < |params| ==> params[i].id == id && RoleAgent(params, id, decode) == decode(params[i].value)
    ensures i == |params| ==> RoleAgent(params, id, decode) == 0
  {
    if params == [] || params[0].id == id {
      i := 0;
    } else {
      i := FirstAgentParam(params[1..], id, decode);
      assert forall j | 0 < j < i + 1 :: params[j] == params[1..][j - 1];
      i := i + 1;
    }
  }

  lemma AgentDecoded(params: seq<Param>, id: nat, decode: seq<Byte> -> nat, agent: nat)
    ensures DecodesTo(params, id, decode, agent) <==> agent == RoleAgent(params, id, decode)
  {
    var i := FirstAgentParam(params, id, decode);
    hide RoleAgent;
    if i < |params| {
      assert params[i] in params;
    }
  }

  /** The actions found to punt, with the parameter of the last of each ID. */
  lemma {:induction false} ActionsFound(actions: seq<ActionInfo>, id: nat)
    ensures id in CpuActions(actions) <==> exists i: nat :: PuntsAt(actions, i, id)
    ensures forall i: nat | PuntsAt(actions, i, id) :: id in CpuActions(actions) && CpuActions(actions)[id] == RoleParam(actions[i].params)
  {
    if actions != [] {
      var n := |actions| - 1;
      ActionsFound(actions[..n], id);
      ContainsToCpu(actions[n].name);
      forall i: nat
        ensures PuntsAt(actions, i, id) <==>
                if actions[n].id == id && ToCpu(actions[n].name) then i == n else PuntsAt(actions[..n], i, id)
      {
        PuntsSnoc(actions, i, id);
      }
      hide ToCpu, Contains, RoleParam, PuntsAt;
      if i: nat :| PuntsAt(actions[..n], i, id) {
        assert actions[n].id != id || !ToCpu(actions[n].name) ==> PuntsAt(actions, i, id);
      }
      if actions[n].id == id && ToCpu(actions[n].name) {
        assert PuntsAt(actions, n, id);
      }
    }
  }

  lemma PuntsSnoc(actions: seq<ActionInfo>, i: nat, id: nat)
    requires actions != []
    ensures var n := |actions| - 1;
            PuntsAt(actions, i, id) <==>
              if actions[n].id == id && ToCpu(actions[n].name) then i == n else PuntsAt(actions[..n], i, id)
    ensures PuntsAt(actions[..|actions| - 1], i, id) ==> i < |actions| - 1 && actions[..|actions| - 1][i] == actions[i]
  {
    hide ToCpu;
    var n := |actions| - 1;
    assert forall i | 0 <= i < n :: actions[..n][i] == actions[i];
  }

  /** The field found first in the order of IDs. */
  lemma {:induction false} FirstField(fields: seq<FieldInfo>, id: nat)
    requires forall i, j | 0 <= i < j < |fields| :: fields[i].id <= fields[j].id
    ensures EthFieldIs(fields, id) <==> EthTypeField(fields) == Some(id)
  {
    if fields != [] {
      FirstField(fields[1..], id);
      LeastFirst(fields);
      hide EthTypeField;
    }
  }

  lemma LeastFirst(fields: seq<FieldInfo>)
    requires fields != [] && forall i, j | 0 <= i < j < |fields| :: fields[i].id <= fields[j].id
    ensures (forall f | f in fields :: fields[0].id <= f.id) && fields[0] in fields
    ensures forall f :: f in fields <==> f == fields[0] || f in fields[1..]
    ensures EthTypeField(fields) == if fields[0].name == "eth_type" then Some(fields[0].id) else EthTypeField(fields[1..])
  {
    assert fields == [fields[0]] + fields[1..];
  }

  lemma FieldFound(fields: seq<FieldInfo>, id: nat)
    ensures EthFieldIs(fields, id) <==> EthTypeField(Ordered(fields)) == Some(id)
  {
    Sorting.StableSortCorrect(fields, FieldNumber);
    forall f
      ensures f in Ordered(fields) <==> f in fields
    {
      Sorting.SortElement(fields, FieldNumber, f);
    }
    FirstField(Ordered(fields), id);
  }

  lemma CanPuntFound(actions: seq<ActionInfo>, t: TableInfo, field: nat)
    ensures CanPunt(actions, t, field) <==>
            HasCpuAction(t.actions, CpuActions(actions)) && EthTypeField(Ordered(t.fields)) == Some(field)
  {
    FieldFound(t.fields, field);
    forall a
      ensures a in CpuActions(actions) <==> exists i: nat :: PuntsAt(actions, i, a)
    {
      ActionsFound(actions, a);
    }
    hide EthFieldIs, PuntsAt, CpuActions, EthTypeField, Ordered;
  }

  lemma TablesSnoc(actions: seq<ActionInfo>, tables: seq<TableInfo>, k: nat, id: nat, field: nat)
    requires tables != []
    ensures var n := |tables| - 1;
            PuntTableAt(actions, tables, k, id, field) <==>
              if tables[n].id == id && exists f: nat :: CanPunt(actions, tables[n], f)
              then k == n && CanPunt(actions, tables[n], field)
              else PuntTableAt(actions, tables[..n], k, id, field)
  {
    hide CanPunt;
    var n := |tables| - 1;
    assert forall i | 0 <= i < n :: tables[..n][i] == tables[i];
  }

  /** The tables found to punt, with the field of the last of each ID. */
  lemma {:induction false} TablesFound(actions: seq<ActionInfo>, tables: seq<TableInfo>, id: nat, field: nat)
    ensures var fields := CpuFields(tables, CpuActions(actions));
            id in fields && fields[id] == field <==> exists k: nat :: PuntTableAt(actions, tables, k, id, field)
  {
    hide CanPunt, PuntTableAt, CpuActions, HasCpuAction, EthTypeField, Ordered;
    if tables == [] {
      NoTables(actions, id, field);
    } else {
      var n := |tables| - 1;
      TablesFound(actions, tables[..n], id, field);
      forall f: nat
        ensures CanPunt(actions, tables[n], f) <==>
                HasCpuAction(tables[n].actions, CpuActions(actions)) && EthTypeField(Ordered(tables[n].fields)) == Some(f)
      {
        CanPuntFound(actions, tables[n], f);
      }
      forall k: nat
        ensures PuntTableAt(actions, tables, k, id, field) <==>
                if tables[n].id == id && exists f: nat :: CanPunt(actions, tables[n], f)
                then k == n && CanPunt(actions, tables[n], field)
                else PuntTableAt(actions, tables[..n], k, id, field)
      {
        TablesSnoc(actions, tables, k, id, field);
      }
      if k: nat :| PuntTableAt(actions, tables[..n], k, id, field) {
        assert !(tables[n].id == id && exists f: nat :: CanPunt(actions, tables[n], f)) ==> PuntTableAt(actions, tables, k, id, field);
      }
      if tables[n].id == id && CanPunt(actions, tables[n], field) {
        assert PuntTableAt(actions, tables, n, id, field);
      }
      FieldsSnoc(tables, CpuActions(actions));
      if tables[n].id == id && HasCpuAction(tables[n].actions, CpuActions(actions)) && EthTypeField(Ordered(tables[n].fields)).Some? {
        assert CanPunt(actions, tables[n], EthTypeField(Ordered(tables[n].fields)).value);
      }
    }
  }

  lemma FieldsSnoc(tables: seq<TableInfo>, cpuActions: map<nat, nat>)
    requires tables != []
    ensures var t, m := tables[|tables| - 1], CpuFields(tables[..|tables| - 1], cpuActions);
            var f := EthTypeField(Ordered(t.fields));
            CpuFields(tables, cpuActions) == if HasCpuAction(t.actions, cpuActions) && f.Some? then m[t.id := f.value] else m
  {
  }

  lemma NoTables(actions: seq<ActionInfo>, id: nat, field: nat)
    ensures CpuFields([], CpuActions(actions)) == map[] && forall k: nat :: !PuntTableAt(actions, [], k, id, field)
  {
  }

  lemma EntriesHeld<K>(s: Store<K>, e: TableEntry)
    ensures e in EntriesOf(s) <==> HasEntry(s, e)
  {
  }

  /** The facts that indexing works with are those of a pipeline. */
  ghost predicate Describes(info: PipelineInfo, p: Punting) {
    p.actions == CpuActions(info.actions) && p.fields == CpuFields(info.tables, p.actions)
  }

  lemma MatchType(m: FieldMatch, field: nat, ethType: nat)
    requires m.pattern.Ternary? ==> |m.pattern.value| >= 2 || m.fieldId != field
    ensures Matches(m, field, ethType) <==> OnField(m, field) && EthType(m.pattern.value) == ethType
  {
  }

  /** The rules of an entry are the types and agents that it punts. */
  lemma EntryRulesAre(info: PipelineInfo, p: Punting, field: nat, e: TableEntry, ethType: nat, agent: nat)
    requires Describes(info, p) && Readable(p, field, e)
    ensures Rule(ethType, agent) in EntryRules(p, field, e) <==> EntryPunts(info, field, e, p.decode, ethType, agent)
  {
    if e.action.Some? {
      var a := e.action.value;
      ActionsFound(info.actions, a.id);
      AgentsRead(info, p, a, agent);
      if Punts(p, e) {
        forall m | m in e.matches
          ensures Matches(m, field, ethType) <==> OnField(m, field) && EthType(m.pattern.value) == ethType
        {
          MatchType(m, field, ethType);
        }
      }
    }
    hide PuntsAt, RoleParamIs, DecodesTo, Matches, CpuActions, RoleAgent, EthType, CpuFields;
  }

  /** The agent of an action that punts, read off its description. */
  lemma AgentsRead(info: PipelineInfo, p: Punting, a: Action, agent: nat)
    requires Describes(info, p)
    ensures (exists i: nat, r: nat ::
               PuntsAt(info.actions, i, a.id) && RoleParamIs(info.actions[i].params, r) && DecodesTo(a.params, r, p.decode, agent)) <==>
            a.id in p.actions && agent == RoleAgent(a.params, p.actions[a.id], p.decode)
  {
    hide PuntsAt, RoleParamIs, DecodesTo, CpuActions, CpuFields, RoleAgent, RoleParam;
    ActionsFound(info.actions, a.id);
    forall i: nat, r: nat | PuntsAt(info.actions, i, a.id)
      ensures i < |info.actions| && (RoleParamIs(info.actions[i].params, r) <==> r == RoleParam(info.actions[i].params))
    {
      PuntsInRange(info.actions, i, a.id);
      RoleParamFound(info.actions[i].params, r);
    }
    forall r: nat
      ensures DecodesTo(a.params, r, p.decode, agent) <==> agent == RoleAgent(a.params, r, p.decode)
    {
      AgentDecoded(a.params, r, p.decode, agent);
    }
    if a.id in p.actions {
      var i: nat :| PuntsAt(info.actions, i, a.id);
      PuntsInRange(info.actions, i, a.id);
      assert RoleParamIs(info.actions[i].params, p.actions[a.id]);
    }
  }

  lemma PuntsInRange(actions: seq<ActionInfo>, i: nat, id: nat)
    requires PuntsAt(actions, i, id)
    ensures i < |actions|
  {
  }

  /** All rules together are what the entries punt. */
  lemma RulesAre(info: PipelineInfo, p: Punting, ts: map<nat, TableState>, ethType: nat, agent: nat)
    requires Describes(info, p) && AllReadable(p, ts)
    ensures Rule(ethType, agent) in AllRules(p, ts) <==> Punted(info, ts, p.decode, ethType, agent)
  {
    hide CpuActions, CpuFields, PuntTableAt, EntryPunts, EntryRules, EntriesOf, HasEntry, Readable;
    var r := Rule(ethType, agent);
    if r in AllRules(p, ts) {
      var id, e := RuleFrom(p, ts, r);
      TablesFound(info.actions, info.tables, id, p.fields[id]);
      EntriesHeld(ts[id].store, e);
      EntryRulesAre(info, p, p.fields[id], e, ethType, agent);
    }
    if id, field: nat, k: nat, e :|
      PuntTableAt(info.actions, info.tables, k, id, field) && id in ts && HasEntry(ts[id].store, e) &&
      EntryPunts(info, field, e, p.decode, ethType, agent)
    {
      TablesFound(info.actions, info.tables, id, field);
      EntriesHeld(ts[id].store, e);
      EntryRulesAre(info, p, field, e, ethType, agent);
      RuleIn(p, ts, id, e, r);
    }
  }

  lemma RuleFrom(p: Punting, ts: map<nat, TableState>, r: Rule) returns (id: nat, e: TableEntry)
    requires AllReadable(p, ts) && r in AllRules(p, ts)
    ensures id in p.fields && id in ts && e in EntriesOf(ts[id].store) && Readable(p, p.fields[id], e) && r in EntryRules(p, p.fields[id], e)
  {
    hide EntryRules, EntriesOf, Readable;
    id :| id in p.fields && r in TableRules(p, ts, id);
    e :| e in EntriesOf(ts[id].store) && r in EntryRules(p, p.fields[id], e);
  }

  lemma RuleIn(p: Punting, ts: map<nat, TableState>, id: nat, e: TableEntry, r: Rule)
    requires AllReadable(p, ts) && id in p.fields && id in ts && e in EntriesOf(ts[id].store)
    requires Readable(p, p.fields[id], e) && r in EntryRules(p, p.fields[id], e)
    ensures r in AllRules(p, ts)
  {
    hide EntryRules, EntriesOf, Readable;
    assert r in TableRules(p, ts, id);
  }

  // ---- Over histories

  /** The pipeline last set. */
  function LastSet(h: History): Option<PipelineInfo> {
    if h.Start? then None else if h.event.Configure? then Some(h.event.info) else LastSet(h.before)
  }

  lemma {:induction false} SetDescribes(h: History)
    requires Possible(h) && LastSet(h).Some?
    ensures Describes(LastSet(h).value, h.view.punting)
    decreases h
  {
    hide CpuActions, CpuFields, Agrees, UpdateStep;
    if h.event.One? {
      SetDescribes(h.before);
    }
  }

  /** In every possible history, once a table write has succeeded after a pipeline was set, the
      index has an Ethernet type exactly if some entry of some table of that pipeline punts it, and
      the role agent it has for it is that of such an entry. */
  lemma IndexByEntries(h: History)
    requires Possible(h) && Written(h) && LastSet(h).Some?
    ensures var info, v := LastSet(h).value, h.view;
            && (forall t | t in v.punt :: Punted(info, v.tables, v.punting.decode, t, v.punt[t]))
            && (forall t: nat, a: nat | Punted(info, v.tables, v.punting.decode, t, a) :: t in v.punt)
  {
    IndexExact(h);
    SetDescribes(h);
    hide Possible, Written, LastSet, Punted, Describes, AllReadable, AllRules;
    var info, v := LastSet(h).value, h.view;
    forall t: nat, a: nat
      ensures Rule(t, a) in AllRules(v.punting, v.tables) <==> Punted(info, v.tables, v.punting.decode, t, a)
    {
      RulesAre(info, v.punting, v.tables, t, a);
    }
    forall t: nat, a: nat | Punted(info, v.tables, v.punting.decode, t, a)
      ensures t in v.punt
    {
      assert Rule(t, a) in AllRules(v.punting, v.tables);
    }
  }
}
