/** Rounds of arbitration that overlap, step by step.

    A claim is recorded under the write lock.  The streams are then looked through for the
    winner and told one by one under the read lock, which any number of rounds may hold at
    once; streams latch what messages bring under no lock at all.

    `LastTellerDecides` says for each stream when it stands as told OK, and when it is then
    the recorded master. */
module Rounds {
  import opened Text
  import opened Mastership

  /** What a round was answered when it recorded its claim. */
  datatype Answer = Answer(role: Role?, max: Uint128?)

  /** A round that holds the read lock: how many streams it has looked at for the winner,
      whether it has found it, and how many streams it has told. */
  datatype Pass = Pass(answer: Answer, found: bool, looked: nat, told: nat)

  /** A device, with the rounds that have recorded their claim and wait for the read lock,
      and those that hold it. */
  datatype Device = Device(net: Net, pending: seq<Answer>, passes: seq<Pass>)

  datatype Step =
    | Other(event: Event)
    | Submit(role: Role?, id: Uint128)
    | Begin(k: nat)
    | Look(p: nat)
    | Tell(p: nat)
    | End(p: nat)

  /** The winner has been looked for, if there is one, and found or not. */
  predicate Searched(n: Net, p: Pass) {
    p.answer.max == null || p.found || p.looked >= |n.streams|
  }

  function LoserCode(p: Pass): Code {
    if p.answer.max == null then InvalidArgument else if p.found then AlreadyExists else NotFound
  }

  ghost predicate CanStep(d: Device, e: Step) {
    match e
    case Other(event) => !event.Arbitrate? && Allowed(d.net, event) && (event.Latch? || d.passes == [])
    case Submit(_, _) => d.passes == []
    case Begin(k) => k < |d.pending|
    case Look(p) =>
      && p < |d.passes| && !Searched(d.net, d.passes[p])
      && var s := d.net.streams[d.passes[p].looked]; SameRole(s.role, d.passes[p].answer.role) ==> s.electionID != null
    case Tell(p) => p < |d.passes| && Searched(d.net, d.passes[p]) && d.passes[p].told < |d.net.streams|
    case End(p) => p < |d.passes| && Searched(d.net, d.passes[p]) && d.passes[p].told >= |d.net.streams|
  }

  function Without<T>(s: seq<T>, k: nat): seq<T>
    requires k < |s|
  {
    s[..k] + s[k + 1..]
  }

  /** A stream as a round leaves it that tells it. */
  function ToldBy(s: Stream, p: Pass): Stream {
    Told(s, p.answer.role, p.answer.max, LoserCode(p))
  }

  ghost function StepOn(d: Device, e: Step): Device
    requires CanStep(d, e)
  {
    match e
    case Other(event) => d.(net := Next(d.net, event))
    case Submit(role, id) =>
      var (rs, answer) := Record(d.net.records, role, id);
      d.(net := d.net.(records := rs), pending := d.pending + [Answer(role, answer)])
    case Begin(k) => d.(pending := Without(d.pending, k), passes := d.passes + [Pass(d.pending[k], false, 0, 0)])
    case Look(p) =>
      var pass := d.passes[p];
      var won := IsMaster(d.net.streams[pass.looked], pass.answer.role, pass.answer.max);
      d.(passes := d.passes[p := pass.(found := won, looked := pass.looked + 1)])
    case Tell(p) =>
      var pass := d.passes[p];
      Device(d.net.(streams := d.net.streams[pass.told := ToldBy(d.net.streams[pass.told], pass)]), d.pending,
             d.passes[p := pass.(told := pass.told + 1)])
    case End(p) => d.(passes := Without(d.passes, p))
  }

  /** What becomes of a device by some steps, if all of them can be taken. */
  ghost function StepsOn(d: Device, steps: seq<Step>): Option<Device> {
    if steps == [] then Some(d)
    else
      var before, e := StepsOn(d, steps[..|steps| - 1]), steps[|steps| - 1];
      if before.Some? && CanStep(before.value, e) then Some(StepOn(before.value, e)) else None
  }

  const IDLE := Device(Net(map[], []), [], [])

  ghost function DeviceAfter(steps: seq<Step>): Option<Device> {
    StepsOn(IDLE, steps)
  }

  lemma Snoc(d: Device, steps: seq<Step>, m: Device, e: Step)
    requires StepsOn(d, steps) == Some(m) && CanStep(m, e)
    ensures StepsOn(d, steps + [e]) == Some(StepOn(m, e))
  {
    assert (steps + [e])[..|steps|] == steps;
  }

  lemma {:induction false} InTwo(d: Device, x: seq<Step>, m: Device, y: seq<Step>)
    requires StepsOn(d, x) == Some(m)
    ensures StepsOn(d, x + y) == StepsOn(m, y)
  {
    if y == [] {
      assert x + y == x;
    } else {
      InTwo(d, x, m, y[..|y| - 1]);
      assert (x + y)[..|x + y| - 1] == x + y[..|y| - 1];
    }
  }

  // ---- A round in one go

  function Repeat(e: Step, n: nat): seq<Step> {
    if n == 0 then [] else Repeat(e, n - 1) + [e]
  }

  /** The streams after a pass that nothing comes between. */
  function NotifyAll(streams: seq<Stream>, a: Answer): seq<Stream>
    requires a.max != null ==> Latched(streams, a.role)
  {
    var failCode := FailCode(streams, a.role, a.max);
    seq(|streams|, i requires 0 <= i < |streams| => Told(streams[i], a.role, a.max, failCode))
  }

  /** No winner among the first streams. */
  predicate NoneOf(streams: seq<Stream>, a: Answer, m: nat)
    requires a.max != null && m <= |streams| && Latched(streams, a.role)
  {
    forall i | 0 <= i < m :: streams[i] in streams && !IsMaster(streams[i], a.role, a.max)
  }

  lemma NoSteps(d: Device)
    ensures StepsOn(d, []) == Some(d)
  {
  }

  /** One more stream looked at that is not the winner. */
  lemma LookOn(d: Device, p: nat, a: Answer, m: nat)
    requires p < |d.passes| && a.max != null && m < |d.net.streams| && Latched(d.net.streams, a.role)
    requires NoneOf(d.net.streams, a, m + 1)
    ensures var e := d.(passes := d.passes[p := Pass(a, false, m, 0)]);
            CanStep(e, Look(p)) && StepOn(e, Look(p)) == d.(passes := d.passes[p := Pass(a, false, m + 1, 0)])
  {
    assert d.net.streams[m] in d.net.streams;
  }

  lemma {:induction false} Looks(d: Device, p: nat, a: Answer, m: nat)
    requires p < |d.passes| && d.passes[p] == Pass(a, false, 0, 0)
    requires a.max != null && m <= |d.net.streams| && Latched(d.net.streams, a.role) && NoneOf(d.net.streams, a, m)
    ensures StepsOn(d, Repeat(Look(p), m)) == Some(d.(passes := d.passes[p := Pass(a, false, m, 0)]))
  {
    hide StepsOn, StepOn, CanStep, Latched, IsMaster;
    if m == 0 {
      NoSteps(d);
      assert d.passes[p := Pass(a, false, 0, 0)] == d.passes;
    } else {
      Looks(d, p, a, m - 1);
      LookOn(d, p, a, m - 1);
      Snoc(d, Repeat(Look(p), m - 1), d.(passes := d.passes[p := Pass(a, false, m - 1, 0)]), Look(p));
    }
  }

  /** The first streams told, the others as they were. */
  function ToldUpTo(streams: seq<Stream>, p: Pass, m: nat): seq<Stream> {
    seq(|streams|, i requires 0 <= i < |streams| => if i < m then ToldBy(streams[i], p) else streams[i])
  }

  /** What a device is when a pass, its streams as given, has told the first of them. */
  function HavingTold(d: Device, p: nat, pass: Pass, m: nat): Device
    requires p < |d.passes|
  {
    Device(d.net.(streams := ToldUpTo(d.net.streams, pass, m)), d.pending, d.passes[p := pass.(told := m)])
  }

  lemma TellOn(d: Device, p: nat, pass: Pass, m: nat)
    requires p < |d.passes| && m < |d.net.streams| && Searched(d.net, pass)
    ensures var e := HavingTold(d, p, pass, m);
            CanStep(e, Tell(p)) && StepOn(e, Tell(p)) == HavingTold(d, p, pass, m + 1)
  {
    hide Told;
    var streams := d.net.streams;
    assert ToldUpTo(streams, pass, m)[m := ToldBy(streams[m], pass.(told := m))] == ToldUpTo(streams, pass, m + 1);
  }

  lemma {:induction false} Tells(d: Device, p: nat, pass: Pass, m: nat)
    requires p < |d.passes| && d.passes[p] == pass && pass.told == 0 && Searched(d.net, pass) && m <= |d.net.streams|
    ensures StepsOn(d, Repeat(Tell(p), m)) == Some(HavingTold(d, p, pass, m))
  {
    hide StepsOn, StepOn, CanStep, ToldBy, Searched;
    if m == 0 {
      NoSteps(d);
      assert d.passes[p := pass] == d.passes && ToldUpTo(d.net.streams, pass, 0) == d.net.streams;
    } else {
      Tells(d, p, pass, m - 1);
      TellOn(d, p, pass, m - 1);
      Snoc(d, Repeat(Tell(p), m - 1), HavingTold(d, p, pass, m - 1), Tell(p));
    }
  }

  /** How many streams are looked at until the winner is found, or all. */
  function LookCount(streams: seq<Stream>, a: Answer, m: nat): (n: nat)
    requires a.max != null && Latched(streams, a.role) && m <= |streams| && NoneOf(streams, a, m)
    ensures m <= n <= |streams| && NoneOf(streams, a, n)
    ensures n < |streams| ==> streams[n] in streams && IsMaster(streams[n], a.role, a.max)
    decreases |streams| - m
  {
    if m == |streams| then m
    else
      assert streams[m] in streams;
      if IsMaster(streams[m], a.role, a.max) then m else LookCount(streams, a, m + 1)
  }

  /** The steps of the k-th waiting round, with nothing in between. */
  function WholePass(d: Device, k: nat): seq<Step>
    requires k < |d.pending| && (d.pending[k].max != null ==> Latched(d.net.streams, d.pending[k].role))
  {
    var p, n := |d.passes|, |d.net.streams|;
    [Begin(k)] + Search(d.net.streams, d.pending[k], p) + Repeat(Tell(p), n) + [End(p)]
  }

  function Search(streams: seq<Stream>, a: Answer, p: nat): seq<Step>
    requires a.max != null ==> Latched(streams, a.role)
  {
    if a.max == null then [] else
    var m := LookCount(streams, a, 0);
    Repeat(Look(p), m) + if m < |streams| then [Look(p)] else []
  }

  /** The pass once the winner has been looked for. */
  function Found(streams: seq<Stream>, a: Answer): Pass
    requires a.max != null ==> Latched(streams, a.role)
  {
    if a.max == null then Pass(a, false, 0, 0) else
    var m := LookCount(streams, a, 0);
    if m < |streams| then Pass(a, true, m + 1, 0) else Pass(a, false, m, 0)
  }

  lemma FindOn(d: Device, p: nat, a: Answer, m: nat)
    requires p < |d.passes| && a.max != null && m < |d.net.streams| && Latched(d.net.streams, a.role)
    requires d.net.streams[m] in d.net.streams && IsMaster(d.net.streams[m], a.role, a.max)
    ensures var e := d.(passes := d.passes[p := Pass(a, false, m, 0)]);
            CanStep(e, Look(p)) && StepOn(e, Look(p)) == d.(passes := d.passes[p := Pass(a, true, m + 1, 0)])
  {
  }

  lemma Searches(d: Device, p: nat, a: Answer)
    requires p < |d.passes| && d.passes[p] == Pass(a, false, 0, 0)
    requires a.max != null ==> Latched(d.net.streams, a.role)
    ensures StepsOn(d, Search(d.net.streams, a, p)) == Some(d.(passes := d.passes[p := Found(d.net.streams, a)]))
  {
    hide StepsOn, StepOn, CanStep, Latched, IsMaster, Repeat;
    var streams := d.net.streams;
    if a.max == null {
      NoSteps(d);
      assert d.passes[p := Pass(a, false, 0, 0)] == d.passes;
    } else {
      var m := LookCount(streams, a, 0);
      Looks(d, p, a, m);
      if m < |streams| {
        FindOn(d, p, a, m);
        Snoc(d, Repeat(Look(p), m), d.(passes := d.passes[p := Pass(a, false, m, 0)]), Look(p));
      } else {
        assert Repeat(Look(p), m) + [] == Repeat(Look(p), m);
      }
    }
  }

  lemma FoundCode(n: Net, a: Answer)
    requires a.max != null ==> Latched(n.streams, a.role)
    ensures Searched(n, Found(n.streams, a)) && LoserCode(Found(n.streams, a)) == FailCode(n.streams, a.role, a.max)
  {
    if a.max != null {
      var m := LookCount(n.streams, a, 0);
      if s :| s in n.streams && IsMaster(s, a.role, a.max) {
        var i :| 0 <= i < |n.streams| && n.streams[i] == s;
      }
    }
  }

  /** A pass that nothing comes between tells every stream as one arbitration round does. */
  lemma PassInOneGo(d: Device, k: nat)
    requires k < |d.pending| && (d.pending[k].max != null ==> Latched(d.net.streams, d.pending[k].role))
    ensures StepsOn(d, WholePass(d, k)) ==
            Some(Device(d.net.(streams := NotifyAll(d.net.streams, d.pending[k])), Without(d.pending, k), d.passes))
  {
    hide StepsOn, StepOn, CanStep, Latched, IsMaster, Repeat, Search, Found, FailCode, Told;
    var p, n, a := |d.passes|, |d.net.streams|, d.pending[k];
    var pass := Found(d.net.streams, a);
    BeginOn(d, k);
    var d1 := d.(pending := Without(d.pending, k), passes := d.passes + [Pass(a, false, 0, 0)]);
    Searches(d1, p, a);
    InTwo(d, [Begin(k)], d1, Search(d.net.streams, a, p));
    var d2 := d1.(passes := d1.passes[p := pass]);
    FoundCode(d.net, a);
    FoundUntold(d.net.streams, a);
    Tells(d2, p, pass, n);
    InTwo(d, [Begin(k)] + Search(d.net.streams, a, p), d2, Repeat(Tell(p), n));
    var d3 := HavingTold(d2, p, pass, n);
    assert ToldUpTo(d.net.streams, pass, n) == NotifyAll(d.net.streams, a);
    EndOn(d3, p);
    Snoc(d, [Begin(k)] + Search(d.net.streams, a, p) + Repeat(Tell(p), n), d3, End(p));
    assert Without(d3.passes, p) == d.passes;
  }

  lemma BeginOn(d: Device, k: nat)
    requires k < |d.pending|
    ensures StepsOn(d, [Begin(k)]) ==
            Some(d.(pending := Without(d.pending, k), passes := d.passes + [Pass(d.pending[k], false, 0, 0)]))
  {
    NoSteps(d);
    Snoc(d, [], d, Begin(k));
    assert [] + [Begin(k)] == [Begin(k)];
  }

  lemma EndOn(d: Device, p: nat)
    requires p < |d.passes| && Searched(d.net, d.passes[p]) && d.passes[p].told >= |d.net.streams|
    ensures CanStep(d, End(p)) && StepOn(d, End(p)) == d.(passes := Without(d.passes, p))
  {
  }

  lemma FoundUntold(streams: seq<Stream>, a: Answer)
    requires a.max != null ==> Latched(streams, a.role)
    ensures Found(streams, a).told == 0 && Found(streams, a).answer == a
  {
  }

  /** A round run in one go is its steps one after the other. */
  lemma RoundInSteps(d: Device, role: Role?, id: Uint128)
    requires Allowed(d.net, Arbitrate(role, id)) && d.passes == []
    ensures CanStep(d, Submit(role, id))
    ensures var e := StepOn(d, Submit(role, id));
            && StepsOn(e, WholePass(e, |d.pending|)) == Some(Device(Next(d.net, Arbitrate(role, id)), d.pending, []))
  {
    hide StepsOn, Record, FailCode, Told, WholePass;
    var e := StepOn(d, Submit(role, id));
    PassInOneGo(e, |d.pending|);
    assert Without(e.pending, |d.pending|) == d.pending;
  }

  // ---- What is kept by every run

  ghost predicate Ordered(n: Net) {
    DistinctIDs(n.streams) && forall s | s in n.streams :: Orderly(s)
  }

  lemma StepOrdered(d: Device, e: Step)
    requires CanStep(d, e) && Ordered(d.net)
    ensures Ordered(StepOn(d, e).net)
  {
    match e
    case Other(event) => NextKeeps(d.net, event);
    case Tell(p) => TellOrdered(d.net.streams, d.passes[p], d.passes[p].told);
    case _ =>
  }

  lemma TellOrdered(streams: seq<Stream>, p: Pass, i: nat)
    requires i < |streams| && DistinctIDs(streams) && forall s | s in streams :: Orderly(s)
    ensures var told := streams[i := ToldBy(streams[i], p)]; DistinctIDs(told) && forall s | s in told :: Orderly(s)
  {
    var t := ToldBy(streams[i], p);
    ToldOrderly(streams[i], p.answer.role, p.answer.max, LoserCode(p));
    assert t.electionID == streams[i].electionID;
    hide Told, Orderly;
    assert forall s | s in streams[i := t] :: s in streams || s == t;
  }

  /** However rounds overlap, no stream is ever sent the same code twice in a row, and no two
      streams hold the same election ID object. */
  lemma {:induction false} NeverRepeatsInSteps(steps: seq<Step>, d: Device)
    requires DeviceAfter(steps) == Some(d)
    ensures DistinctIDs(d.net.streams) && forall s | s in d.net.streams :: Orderly(s)
  {
    if steps != [] {
      var front, e := steps[..|steps| - 1], steps[|steps| - 1];
      assert DeviceAfter(front) == StepsOn(IDLE, front);
      NeverRepeatsInSteps(front, DeviceAfter(front).value);
      StepOrdered(DeviceAfter(front).value, e);
      hide StepOn, CanStep;
    }
  }

  // ---- What each stream was told last

  function Submissions(steps: seq<Step>): seq<Submission> {
    if steps == [] then []
    else
      Submissions(steps[..|steps| - 1]) +
      match steps[|steps| - 1] case Submit(role, id) => [Submission(role, id)] case _ => []
  }

  /** The answer of the round that told a stream last since it last latched, if any did. */
  type Heard = seq<Option<Uint128?>>

  /** Who heard what, after a step.  A round reaches the streams that latched its role object. */
  ghost function HeardOn(d: Device, h: Heard, e: Step): (g: Heard)
    requires |h| == |d.net.streams| && CanStep(d, e)
    ensures |g| == |StepOn(d, e).net.streams|
  {
    match e
    case Other(Connect) => h + [None]
    case Other(Disconnect(i)) => Without(h, i)
    case Other(Latch(i, _, _)) => h[i := None]
    case Tell(p) =>
      var pass := d.passes[p];
      if pass.answer.role == d.net.streams[pass.told].role then h[pass.told := Some(pass.answer.max)] else h
    case _ => h
  }

  ghost function LastHeard(steps: seq<Step>): (h: Heard)
    requires DeviceAfter(steps).Some?
    ensures |h| == |DeviceAfter(steps).value.net.streams|
  {
    if steps == [] then []
    else
      var front, e := steps[..|steps| - 1], steps[|steps| - 1];
      assert DeviceAfter(front) == StepsOn(IDLE, front);
      HeardOn(DeviceAfter(front).value, LastHeard(front), e)
  }

  /** An answer for a role is the recorded ID, or one exceeded since. */
  ghost predicate Stands(rs: Records, role: Role?, max: Uint128?) {
    max != null ==> NameOf(role) in rs && (rs[NameOf(role)] == max || Number(rs[NameOf(role)]) > Number(max))
  }

  /** A stream that heard an answer was last told OK exactly if it holds the ID of the answer. */
  ghost predicate Decided(rs: Records, s: Stream, h: Option<Uint128?>) {
    h.Some? ==> (s.sentCode == Some(OK) <==> s.electionID == h.value) && Stands(rs, s.role, h.value)
  }

  ghost predicate Sound(d: Device, h: Heard) {
    && |h| == |d.net.streams|
    && (forall i | 0 <= i < |h| :: Decided(d.net.records, d.net.streams[i], h[i]))
    && (forall a | a in d.pending :: Stands(d.net.records, a.role, a.max))
    && (forall p | p in d.passes :: Stands(d.net.records, p.answer.role, p.answer.max))
  }

  lemma RecordKeepsStands(rs: Records, role: Role?, id: Uint128, r: Role?, max: Uint128?)
    requires Stands(rs, r, max)
    ensures Stands(Record(rs, role, id).0, r, max)
  {
    RecordAnswers(rs, role, id);
    if NameOf(role) in rs {
      Comparisons(rs[NameOf(role)], id);
    }
    hide Number;
  }

  lemma AnswerStands(rs: Records, role: Role?, id: Uint128)
    ensures Stands(Record(rs, role, id).0, role, Record(rs, role, id).1)
  {
    RecordAnswers(rs, role, id);
    hide Record, Number;
  }

  lemma SubmitSound(d: Device, h: Heard, role: Role?, id: Uint128)
    requires Sound(d, h)
    ensures var (rs, answer) := Record(d.net.records, role, id);
            Sound(d.(net := d.net.(records := rs), pending := d.pending + [Answer(role, answer)]), h)
  {
    hide Record, Stands;
    var (rs, answer) := Record(d.net.records, role, id);
    AnswerStands(d.net.records, role, id);
    forall r, max | Stands(d.net.records, r, max)
      ensures Stands(rs, r, max)
    {
      RecordKeepsStands(d.net.records, role, id, r, max);
    }
  }

  lemma BeginSound(d: Device, h: Heard, k: nat)
    requires Sound(d, h) && k < |d.pending|
    ensures Sound(StepOn(d, Begin(k)), h)
  {
    hide Decided, Stands;
    var e := StepOn(d, Begin(k));
    assert d.pending[k] in d.pending;
    assert forall a | a in e.pending :: a in d.pending;
    assert forall p | p in e.passes :: p in d.passes || p == Pass(d.pending[k], false, 0, 0);
  }

  lemma PassSound(d: Device, h: Heard, p: nat, q: Pass)
    requires Sound(d, h) && p < |d.passes| && q.answer == d.passes[p].answer
    ensures Sound(d.(passes := d.passes[p := q]), h) && Sound(d.(passes := Without(d.passes, p)), h)
  {
    hide Decided, Stands;
    assert d.passes[p] in d.passes;
    assert forall r | r in d.passes[p := q] :: r in d.passes || r == q;
    assert forall r | r in Without(d.passes, p) :: r in d.passes;
  }

  lemma TellSound(d: Device, h: Heard, p: nat)
    requires Sound(d, h) && CanStep(d, Tell(p))
    ensures Sound(StepOn(d, Tell(p)), HeardOn(d, h, Tell(p)))
  {
    var pass := d.passes[p];
    var i := pass.told;
    ToldDecided(d.net.records, d.net.streams[i], h[i], pass);
    hide Decided, Stands, Told, Searched;
    PassSound(d, h, p, pass.(told := i + 1));
  }

  lemma ToldDecided(rs: Records, s: Stream, h: Option<Uint128?>, p: Pass)
    requires Decided(rs, s, h) && Stands(rs, p.answer.role, p.answer.max)
    ensures Decided(rs, ToldBy(s, p), if p.answer.role == s.role then Some(p.answer.max) else h)
  {
    hide Stands;
  }

  lemma EventSound(d: Device, h: Heard, event: Event)
    requires Sound(d, h) && CanStep(d, Other(event))
    ensures Sound(StepOn(d, Other(event)), HeardOn(d, h, Other(event)))
  {
    hide Stands;
  }

  lemma StepSound(d: Device, h: Heard, e: Step)
    requires Sound(d, h) && CanStep(d, e)
    ensures Sound(StepOn(d, e), HeardOn(d, h, e))
  {
    hide Sound, Record;
    match e
    case Other(event) => EventSound(d, h, event);
    case Submit(role, id) => SubmitSound(d, h, role, id);
    case Begin(k) => BeginSound(d, h, k);
    case Look(p) => PassSound(d, h, p, StepOn(d, e).passes[p]);
    case Tell(p) => TellSound(d, h, p);
    case End(p) => PassSound(d, h, p, d.passes[p]);
  }

  lemma {:induction false} RunSound(steps: seq<Step>, d: Device)
    requires DeviceAfter(steps) == Some(d)
    ensures Sound(d, LastHeard(steps))
  {
    if steps != [] {
      var front, e := steps[..|steps| - 1], steps[|steps| - 1];
      assert DeviceAfter(front) == StepsOn(IDLE, front);
      RunSound(front, DeviceAfter(front).value);
      StepSound(DeviceAfter(front).value, LastHeard(front), e);
      hide Sound, StepOn, CanStep, HeardOn;
    }
  }

  lemma {:induction false} RunRecorded(steps: seq<Step>, d: Device)
    requires DeviceAfter(steps) == Some(d)
    ensures d.net.records == Recorded(Submissions(steps))
  {
    if steps != [] {
      var front, e := steps[..|steps| - 1], steps[|steps| - 1];
      assert DeviceAfter(front) == StepsOn(IDLE, front);
      RunRecorded(front, DeviceAfter(front).value);
      hide Record, Latched, Told;
      match e
      case Submit(role, id) => RecordedSnoc(Submissions(front), Submission(role, id));
      case _ => assert Submissions(front) + [] == Submissions(front);
    }
  }

  /** However rounds overlap, the one that told a stream last since it latched decides for that
      stream: it stands as told OK exactly if it holds the ID that round was answered; and
      that is the recorded ID exactly if no greater one has been submitted for its role so far. */
  lemma LastTellerDecides(steps: seq<Step>, d: Device, i: nat)
    requires DeviceAfter(steps) == Some(d) && i < |d.net.streams| && LastHeard(steps)[i].Some?
    ensures var s, max := d.net.streams[i], LastHeard(steps)[i].value;
            && (s.sentCode == Some(OK) <==> s.electionID == max)
            && (s.sentCode == Some(OK) && s.electionID != null ==>
                  && NameOf(s.role) in d.net.records
                  && (s.electionID == d.net.records[NameOf(s.role)] <==>
                        forall x | x in Submissions(steps) && For(x, NameOf(s.role)) :: Number(x.id) <= Number(s.electionID)))
  {
    RunSound(steps, d);
    RunRecorded(steps, d);
    var s := d.net.streams[i];
    assert Decided(d.net.records, s, LastHeard(steps)[i]);
    RecordedIsMaximum(Submissions(steps), NameOf(s.role));
    hide Recorded, Submissions, DeviceAfter, LastHeard, Number, Sound;
  }

  /** Two streams that both stand as told OK were told so by rounds that were answered different IDs. */
  lemma TwoTellers(steps: seq<Step>, d: Device, i: nat, j: nat)
    requires DeviceAfter(steps) == Some(d) && i < j < |d.net.streams|
    requires d.net.streams[i].electionID != null && LastHeard(steps)[i].Some? && LastHeard(steps)[j].Some?
    requires d.net.streams[i].sentCode == d.net.streams[j].sentCode == Some(OK)
    ensures LastHeard(steps)[i] != LastHeard(steps)[j]
  {
    LastTellerDecides(steps, d, i);
    LastTellerDecides(steps, d, j);
    NeverRepeatsInSteps(steps, d);
    hide DeviceAfter, LastHeard, Submissions, Number;
  }

  // ---- Two rounds that overlap

  function TwoLatched(x: Uint128, y: Uint128): seq<Step> {
    [] + [Other(Connect)] + [Other(Latch(0, null, x))] + [Other(Connect)] + [Other(Latch(1, null, y))]
  }

  const QUIET: seq<Code> := []

  /** Two streams without a role that hold the IDs, with what they were told so far. */
  function Two(x: Uint128, y: Uint128, a: seq<Code>, b: seq<Code>): seq<Stream> {
    [Stream(null, x, Last(a), a), Stream(null, y, Last(b), b)]
  }

  function Last(sent: seq<Code>): Option<Code> {
    if sent == [] then None else Some(sent[|sent| - 1])
  }

  lemma LatchedRun(x: Uint128, y: Uint128)
    requires x != y
    ensures DeviceAfter(TwoLatched(x, y)) == Some(Device(Net(map[], Two(x, y, QUIET, QUIET)), [], []))
  {
    var none: seq<Step> := [];
    var first := Stream(null, x, None, QUIET);
    NoSteps(IDLE);
    hide StepsOn;
    Snoc(IDLE, none, IDLE, Other(Connect));
    assert IDLE.net.streams + [NEW_STREAM] == [NEW_STREAM];
    var d := Device(Net(map[], [NEW_STREAM]), [], []);
    Snoc(IDLE, none + [Other(Connect)], d, Other(Latch(0, null, x)));
    assert [NEW_STREAM][0 := first] == [first];
    d := Device(Net(map[], [first]), [], []);
    var two := none + [Other(Connect)] + [Other(Latch(0, null, x))];
    Snoc(IDLE, two, d, Other(Connect));
    assert [first] + [NEW_STREAM] == [first, NEW_STREAM];
    d := Device(Net(map[], [first, NEW_STREAM]), [], []);
    Snoc(IDLE, two + [Other(Connect)], d, Other(Latch(1, null, y)));
    assert [first, NEW_STREAM][1 := Stream(null, y, None, QUIET)] == [first, Stream(null, y, None, QUIET)];
  }

  /** A smaller claim is recorded, and then a greater. */
  function BothClaimed(x: Uint128, y: Uint128): seq<Step> {
    TwoLatched(x, y) + [Submit(null, x)] + [Submit(null, y)]
  }

  lemma ClaimedRun(x: Uint128, y: Uint128)
    requires Number(x) < Number(y)
    ensures DeviceAfter(BothClaimed(x, y)) ==
            Some(Device(Net(map["" := y], Two(x, y, QUIET, QUIET)), [Answer(null, x), Answer(null, y)], []))
  {
    LatchedRun(x, y);
    Comparisons(x, y);
    hide StepsOn, TwoLatched, Two;
    var none: seq<Answer> := [];
    var d := Device(Net(map[], Two(x, y, QUIET, QUIET)), none, []);
    Snoc(IDLE, TwoLatched(x, y), d, Submit(null, x));
    assert none + [Answer(null, x)] == [Answer(null, x)];
    var e := Device(Net(map["" := x], Two(x, y, QUIET, QUIET)), [Answer(null, x)], []);
    Snoc(IDLE, TwoLatched(x, y) + [Submit(null, x)], e, Submit(null, y));
    assert [Answer(null, x)] + [Answer(null, y)] == [Answer(null, x), Answer(null, y)];
    assert map["" := x]["" := y] == map["" := y];
  }

  /** What the two streams are told when the first or the second of them wins. */
  lemma OneOfTwo(x: Uint128, y: Uint128, a: seq<Code>, b: seq<Code>, won: Uint128)
    requires x != y && (won == x || won == y)
    requires a == [] || a[|a| - 1] != if won == x then OK else AlreadyExists
    requires b == [] || b[|b| - 1] != if won == y then OK else AlreadyExists
    ensures Latched(Two(x, y, a, b), null)
    ensures NotifyAll(Two(x, y, a, b), Answer(null, won)) ==
            Two(x, y, a + [if won == x then OK else AlreadyExists], b + [if won == y then OK else AlreadyExists])
  {
    var streams := Two(x, y, a, b);
    HolderFound(streams, null, won);
    assert streams[if won == x then 0 else 1] in streams && Held(streams, null, won);
    hide FailCode, Held;
  }

  function ClaimedDevice(x: Uint128, y: Uint128, a: seq<Code>, b: seq<Code>, pending: seq<Answer>): Device {
    Device(Net(map["" := y], Two(x, y, a, b)), pending, [])
  }

  lemma PassOfTwo(x: Uint128, y: Uint128, a: seq<Code>, b: seq<Code>, pending: seq<Answer>, k: nat, won: Uint128)
    requires x != y && (won == x || won == y) && k < |pending| && pending[k] == Answer(null, won)
    requires a == [] || a[|a| - 1] != if won == x then OK else AlreadyExists
    requires b == [] || b[|b| - 1] != if won == y then OK else AlreadyExists
    ensures Latched(Two(x, y, a, b), null)
    ensures var d := ClaimedDevice(x, y, a, b, pending);
            StepsOn(d, WholePass(d, k)) ==
            Some(ClaimedDevice(x, y, a + [if won == x then OK else AlreadyExists],
                               b + [if won == y then OK else AlreadyExists], Without(pending, k)))
  {
    hide StepsOn, Two, NotifyAll, Latched, WholePass;
    OneOfTwo(x, y, a, b, won);
    PassInOneGo(ClaimedDevice(x, y, a, b, pending), k);
  }

  /** One round is notified after the other, in the opposite order: the greater claim is
      recorded, but the smaller stands as told OK, and the master was last told ALREADY_EXISTS. */
  lemma OvertakenRound(x: Uint128, y: Uint128) returns (notified: seq<Step>)
    requires Number(x) < Number(y)
    ensures DeviceAfter(BothClaimed(x, y) + notified) ==
            Some(Device(Net(map["" := y], Two(x, y, [AlreadyExists, OK], [OK, AlreadyExists])), [], []))
  {
    hide StepsOn, BothClaimed, Two, Latched, WholePass;
    ClaimedRun(x, y);
    var both := [Answer(null, x), Answer(null, y)];
    var d, e := ClaimedDevice(x, y, QUIET, QUIET, both), ClaimedDevice(x, y, [AlreadyExists], [OK], [Answer(null, x)]);
    PassOfTwo(x, y, QUIET, QUIET, both, 1, y);
    assert Without(both, 1) == [Answer(null, x)];
    assert QUIET + [AlreadyExists] == [AlreadyExists] && QUIET + [OK] == [OK];
    PassOfTwo(x, y, [AlreadyExists], [OK], [Answer(null, x)], 0, x);
    assert Without([Answer(null, x)], 0) == [];
    assert [AlreadyExists] + [OK] == [AlreadyExists, OK] && [OK] + [AlreadyExists] == [OK, AlreadyExists];
    InTwo(d, WholePass(d, 1), e, WholePass(e, 0));
    notified := WholePass(d, 1) + WholePass(e, 0);
    InTwo(IDLE, BothClaimed(x, y), d, notified);
  }

  /** Both rounds have looked for their winner; the second has told nobody yet, the first
      nobody either. */
  function BothSearching(): seq<Step> {
    [] + [Begin(0)] + [Begin(0)] + [Look(0)] + [Look(1)] + [Look(1)]
  }

  function Interleaved(): seq<Step> {
    [] + [Tell(1)] + [Tell(0)] + [Tell(0)] + [Tell(1)] + [End(1)] + [End(0)]
  }

  /** The two rounds as they stand: who has told how many streams. */
  function Telling(x: Uint128, y: Uint128, m: nat, n: nat): seq<Pass> {
    [Pass(Answer(null, x), true, 1, m), Pass(Answer(null, y), true, 2, n)]
  }

  function TwoRounds(x: Uint128, y: Uint128, a: seq<Code>, b: seq<Code>, m: nat, n: nat): Device {
    Device(Net(map["" := y], Two(x, y, a, b)), [], Telling(x, y, m, n))
  }

  lemma SearchingRun(x: Uint128, y: Uint128)
    requires Number(x) < Number(y)
    ensures var d := Device(Net(map["" := y], Two(x, y, QUIET, QUIET)), [Answer(null, x), Answer(null, y)], []);
            StepsOn(d, BothSearching()) == Some(TwoRounds(x, y, QUIET, QUIET, 0, 0))
  {
    hide StepsOn, StepOn, CanStep, Two, Number;
    var n := Net(map["" := y], Two(x, y, QUIET, QUIET));
    var d := Device(n, [Answer(null, x), Answer(null, y)], []);
    var none: seq<Step> := [];
    var p, q := Pass(Answer(null, x), false, 0, 0), Pass(Answer(null, y), false, 0, 0);
    NoSteps(d);
    BothBegin(x, y, n);
    Snoc(d, none, d, Begin(0));
    var steps := none + [Begin(0)];
    Snoc(d, steps, Device(n, [Answer(null, y)], [p]), Begin(0));
    BothFind(x, y);
    steps := steps + [Begin(0)];
    Snoc(d, steps, Device(n, [], [p, q]), Look(0));
    p, steps := p.(found := true, looked := 1), steps + [Look(0)];
    Snoc(d, steps, Device(n, [], [p, q]), Look(1));
    q, steps := q.(looked := 1), steps + [Look(1)];
    Snoc(d, steps, Device(n, [], [p, q]), Look(1));
  }

  lemma BothBegin(x: Uint128, y: Uint128, n: Net)
    ensures var p, q := Pass(Answer(null, x), false, 0, 0), Pass(Answer(null, y), false, 0, 0);
            var d, e := Device(n, [Answer(null, x), Answer(null, y)], []), Device(n, [Answer(null, y)], [p]);
            && CanStep(d, Begin(0)) && StepOn(d, Begin(0)) == e
            && CanStep(e, Begin(0)) && StepOn(e, Begin(0)) == Device(n, [], [p, q])
  {
    var both, none: seq<Pass> := [Answer(null, x), Answer(null, y)], [];
    var p, q := Pass(Answer(null, x), false, 0, 0), Pass(Answer(null, y), false, 0, 0);
    assert Without(both, 0) == [Answer(null, y)] && none + [p] == [p];
    assert Without([Answer(null, y)], 0) == [] && [p] + [q] == [p, q];
  }

  lemma BothFind(x: Uint128, y: Uint128)
    requires Number(x) < Number(y)
    ensures var n := Net(map["" := y], Two(x, y, QUIET, QUIET));
            var p, q := Pass(Answer(null, x), false, 0, 0), Pass(Answer(null, y), false, 0, 0);
            var d := Device(n, [], [p, q]);
            var e := Device(n, [], [p.(found := true, looked := 1), q]);
            var f := Device(n, [], [p.(found := true, looked := 1), q.(looked := 1)]);
            && CanStep(d, Look(0)) && StepOn(d, Look(0)) == e
            && CanStep(e, Look(1)) && StepOn(e, Look(1)) == f
            && CanStep(f, Look(1)) && StepOn(f, Look(1)) == TwoRounds(x, y, QUIET, QUIET, 0, 0)
  {
    Comparisons(x, y);
    hide Number;
    var p, q := Pass(Answer(null, x), false, 0, 0), Pass(Answer(null, y), false, 0, 0);
    assert [p, q][0 := p.(found := true, looked := 1)] == [p.(found := true, looked := 1), q];
  }

  /** One of two rounds tells the stream that is next. */
  lemma TellNext(x: Uint128, y: Uint128, a: seq<Code>, b: seq<Code>, m: nat, n: nat, p: nat)
    requires p < 2 && x != y && (if p == 0 then m else n) < 2
    ensures var d, i, won := TwoRounds(x, y, a, b, m, n), if p == 0 then m else n, if p == 0 then x else y;
            var code := if won == (if i == 0 then x else y) then OK else AlreadyExists;
            && CanStep(d, Tell(p))
            && (Last(if i == 0 then a else b) != Some(code) ==>
                  StepOn(d, Tell(p)) == TwoRounds(x, y, if i == 0 then a + [code] else a, if i == 1 then b + [code] else b,
                                                  if p == 0 then m + 1 else m, if p == 1 then n + 1 else n))
  {
  }

  /** Notifications interleave stream by stream: the streams are told by both rounds, each by
      the one that brings it OK last.  Both then stand as told OK, without any role. */
  lemma TwoToldOK(x: Uint128, y: Uint128)
    requires Number(x) < Number(y)
    ensures DeviceAfter(BothClaimed(x, y) + (BothSearching() + Interleaved())) ==
            Some(Device(Net(map["" := y], Two(x, y, [AlreadyExists, OK], [AlreadyExists, OK])), [], []))
  {
    ClaimedRun(x, y);
    SearchingRun(x, y);
    var d := Device(Net(map["" := y], Two(x, y, QUIET, QUIET)), [Answer(null, x), Answer(null, y)], []);
    InterleavedRun(x, y);
    hide StepsOn, BothClaimed, BothSearching, Interleaved, Two;
    InTwo(d, BothSearching(), TwoRounds(x, y, QUIET, QUIET, 0, 0), Interleaved());
    InTwo(IDLE, BothClaimed(x, y), d, BothSearching() + Interleaved());
  }

  lemma InterleavedRun(x: Uint128, y: Uint128)
    requires x != y
    ensures StepsOn(TwoRounds(x, y, QUIET, QUIET, 0, 0), Interleaved()) ==
            Some(Device(Net(map["" := y], Two(x, y, [AlreadyExists, OK], [AlreadyExists, OK])), [], []))
  {
    var d, none: seq<Step> := TwoRounds(x, y, QUIET, QUIET, 0, 0), [];
    var no, yes := [AlreadyExists], [AlreadyExists, OK];
    assert QUIET + no == no && no + [OK] == yes;
    NoSteps(d);
    hide StepsOn, StepOn, CanStep, TwoRounds;
    TellNext(x, y, QUIET, QUIET, 0, 0, 1);
    Snoc(d, none, d, Tell(1));
    TellNext(x, y, no, QUIET, 0, 1, 0);
    var steps := none + [Tell(1)];
    Snoc(d, steps, TwoRounds(x, y, no, QUIET, 0, 1), Tell(0));
    TellNext(x, y, yes, QUIET, 1, 1, 0);
    steps := steps + [Tell(0)];
    Snoc(d, steps, TwoRounds(x, y, yes, QUIET, 1, 1), Tell(0));
    TellNext(x, y, yes, no, 2, 1, 1);
    steps := steps + [Tell(0)];
    Snoc(d, steps, TwoRounds(x, y, yes, no, 2, 1), Tell(1));
    steps := steps + [Tell(1)];
    BothEnd(x, y, yes, yes);
    Snoc(d, steps, TwoRounds(x, y, yes, yes, 2, 2), End(1));
    Snoc(d, steps + [End(1)], StepOn(TwoRounds(x, y, yes, yes, 2, 2), End(1)), End(0));
  }

  lemma BothEnd(x: Uint128, y: Uint128, a: seq<Code>, b: seq<Code>)
    ensures var d := TwoRounds(x, y, a, b, 2, 2);
            && CanStep(d, End(1)) && CanStep(StepOn(d, End(1)), End(0))
            && StepOn(StepOn(d, End(1)), End(0)) == Device(Net(map["" := y], Two(x, y, a, b)), [], [])
  {
    var d := TwoRounds(x, y, a, b, 2, 2);
    assert Without(d.passes, 1) == d.passes[..1] && Without(d.passes[..1], 0) == [];
  }
}
