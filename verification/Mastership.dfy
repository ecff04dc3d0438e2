/** Mastership arbitration (section 5 of the P4Runtime specification): which election ID is
    recorded for a role, and what the streams of a device are told about it.

    Roles and election IDs are objects, and the streams compare them by reference in one
    place and by value in another, as the simulator does.  What a round makes of a stream
    is a function on stream values; the methods are proved to do just that.

    Without a role mastership is exclusive (`ExclusiveMaster`), with one it is not (`TwoMasters`);
    `RoundCodes` says exactly when each code is sent. */
module Mastership {
  import opened Text

  const UINT64_LIMIT := 0x1_0000_0000_0000_0000

  type Uint64 = n: nat | n < UINT64_LIMIT

  class Uint128 {
    const high: Uint64
    const low: Uint64

    constructor (high: Uint64, low: Uint64)
      ensures this.high == high && this.low == low
    {
      this.high, this.low := high, low;
    }
  }

  class Role {
    const name: string

    constructor (name: string)
      ensures this.name == name
    {
      this.name := name;
    }
  }

  function Number(id: Uint128): nat {
    id.high * UINT64_LIMIT + id.low
  }

  predicate Below(a: Uint128, b: Uint128) {
    a.high < b.high || (a.high == b.high && a.low < b.low)
  }

  predicate Same(a: Uint128, b: Uint128) {
    a.high == b.high && a.low == b.low
  }

  /** The word-wise comparisons are those of the 128-bit numbers. */
  lemma Comparisons(a: Uint128, b: Uint128)
    ensures Below(a, b) <==> Number(a) < Number(b)
    ensures Same(a, b) <==> Number(a) == Number(b)
  {
    if a.high < b.high {
      assert (b.high - a.high) * UINT64_LIMIT >= UINT64_LIMIT;
    } else if b.high < a.high {
      assert (a.high - b.high) * UINT64_LIMIT >= UINT64_LIMIT;
    }
  }

  function NameOf(role: Role?): string {
    if role == null then "" else role.name
  }

  // ---- Recording elections

  type Records = map<string, Uint128>

  /** The record after an election ID is submitted for a role, and the answer: the ID itself
      if it is recorded, nothing if it was claimed before, the standing winner otherwise. */
  function Record(rs: Records, role: Role?, id: Uint128): (Records, Uint128?) {
    var name := NameOf(role);
    if name !in rs || Below(rs[name], id) then (rs[name := id], id)
    else if Same(rs[name], id) then (rs, null)
    else (rs, rs[name])
  }

  /** A record never decreases, and the answer tells how the submission compares to it. */
  lemma RecordAnswers(rs: Records, role: Role?, id: Uint128)
    ensures var (ss, answer) := Record(rs, role, id);
            var name := NameOf(role);
            && name in ss && (forall n | n in rs :: n in ss && Number(rs[n]) <= Number(ss[n]))
            && (forall n | n in ss && n != name :: n in rs && ss[n] == rs[n])
            && (name in rs && Number(id) == Number(rs[name]) <==> answer == null)
            && (name in rs && Number(id) < Number(rs[name]) ==> answer == rs[name])
            && (name !in rs || Number(id) > Number(rs[name]) <==> answer == id && ss[name] == id && ss != rs)
            && (answer != null ==> answer == ss[name])
  {
    if NameOf(role) in rs {
      Comparisons(rs[NameOf(role)], id);
      Comparisons(id, rs[NameOf(role)]);
    }
    hide Number;
  }

  datatype Submission = Submission(role: Role?, id: Uint128)

  function Recorded(subs: seq<Submission>): Records {
    if subs == [] then map[]
    else Record(Recorded(subs[..|subs| - 1]), subs[|subs| - 1].role, subs[|subs| - 1].id).0
  }

  lemma RecordedSnoc(subs: seq<Submission>, s: Submission)
    ensures Recorded(subs + [s]) == Record(Recorded(subs), s.role, s.id).0
  {
    assert (subs + [s])[..|subs|] == subs;
  }

  predicate For(s: Submission, name: string) {
    NameOf(s.role) == name
  }

  /** After any run of submissions, the ID recorded for a role is one submitted for it, and
      the numerically greatest. */
  lemma {:induction false} RecordedIsMaximum(subs: seq<Submission>, name: string)
    ensures name in Recorded(subs) <==> exists s :: s in subs && For(s, name)
    ensures name in Recorded(subs) ==>
              && (exists s :: s in subs && For(s, name) && s.id == Recorded(subs)[name])
              && forall s | s in subs && For(s, name) :: Number(s.id) <= Number(Recorded(subs)[name])
  {
    if subs != [] {
      var front, last := subs[..|subs| - 1], subs[|subs| - 1];
      RecordedIsMaximum(front, name);
      assert subs == front + [last] && last in subs;
      assert forall s | s in front :: s in subs;
      RecordAnswers(Recorded(front), last.role, last.id);
      assert Recorded(subs) == Record(Recorded(front), last.role, last.id).0;
      hide Record, Recorded, Number;
    }
  }

  // ---- What a stream is told

  datatype Code = OK | InvalidArgument | NotFound | AlreadyExists

  datatype Stream = Stream(role: Role?, electionID: Uint128?, sentCode: Option<Code>, sent: seq<Code>)

  const NEW_STREAM := Stream(null, null, None, [])

  predicate SameRole(a: Role?, b: Role?) {
    a == b || (a != null && b != null && a.name == b.name)
  }

  /** The stream claims the role and holds the given ID, both by value. */
  predicate IsMaster(s: Stream, role: Role?, id: Uint128)
    requires SameRole(s.role, role) ==> s.electionID != null
  {
    SameRole(s.role, role) && Same(s.electionID, id)
  }

  /** The code for a stream: OK if it latched the very ID object that won. */
  function CodeFor(s: Stream, max: Uint128?, failCode: Code): Code {
    if s.electionID == max then OK else failCode
  }

  /** A stream is told its code unless that was the last one it was told. */
  function Told(s: Stream, role: Role?, max: Uint128?, failCode: Code): Stream {
    var c := CodeFor(s, max, failCode);
    if role != s.role || s.sentCode == Some(c) then s else s.(sentCode := Some(c), sent := s.sent + [c])
  }

  /** Every stream that a round for the role looks at has latched an election ID. */
  predicate Latched(streams: seq<Stream>, role: Role?) {
    forall s | s in streams && SameRole(s.role, role) :: s.electionID != null
  }

  function FailCode(streams: seq<Stream>, role: Role?, max: Uint128?): Code
    requires max != null ==> Latched(streams, role)
  {
    if max == null then InvalidArgument
    else if exists s :: s in streams && IsMaster(s, role, max) then AlreadyExists
    else NotFound
  }

  /** One arbitration round. */
  function Round(rs: Records, streams: seq<Stream>, role: Role?, id: Uint128): (Records, seq<Stream>)
    requires Record(rs, role, id).1 != null ==> Latched(streams, role)
  {
    var (ss, max) := Record(rs, role, id);
    var failCode := FailCode(streams, role, max);
    (ss, seq(|streams|, i requires 0 <= i < |streams| => Told(streams[i], role, max, failCode)))
  }

  // ---- Runs

  datatype Net = Net(records: Records, streams: seq<Stream>)

  datatype Event =
    | Connect
    | Disconnect(i: nat)
    | Latch(i: nat, role: Role?, id: Uint128)
    | Arbitrate(role: Role?, id: Uint128)

  /** Each latched ID is an object of its own, and rounds find the streams they look at latched. */
  ghost predicate Allowed(n: Net, e: Event) {
    match e
    case Connect => true
    case Disconnect(i) => i < |n.streams|
    case Latch(i, _, id) => i < |n.streams| && forall s | s in n.streams :: s.electionID != id
    case Arbitrate(role, id) => Record(n.records, role, id).1 != null ==> Latched(n.streams, role)
  }

  ghost function Next(n: Net, e: Event): Net
    requires Allowed(n, e)
  {
    match e
    case Connect => n.(streams := n.streams + [NEW_STREAM])
    case Disconnect(i) => n.(streams := n.streams[..i] + n.streams[i + 1..])
    case Latch(i, role, id) => n.(streams := n.streams[i := n.streams[i].(role := role, electionID := id)])
    case Arbitrate(role, id) => var (rs, streams) := Round(n.records, n.streams, role, id); Net(rs, streams)
  }

  /** The net that arises from nothing by some events, if all of them are allowed. */
  ghost function NetAfter(events: seq<Event>): Option<Net> {
    if events == [] then Some(Net(map[], []))
    else
      var before, e := NetAfter(events[..|events| - 1]), events[|events| - 1];
      if before.Some? && Allowed(before.value, e) then Some(Next(before.value, e)) else None
  }

  /** No code is sent twice in a row, and the last one is remembered. */
  ghost predicate Orderly(s: Stream) {
    && (forall i | 0 < i < |s.sent| :: s.sent[i] != s.sent[i - 1])
    && s.sentCode == (if s.sent == [] then None else Some(s.sent[|s.sent| - 1]))
  }

  ghost predicate DistinctIDs(streams: seq<Stream>) {
    forall i, j | 0 <= i < j < |streams| && streams[i].electionID != null :: streams[i].electionID != streams[j].electionID
  }

  lemma ToldOrderly(s: Stream, role: Role?, max: Uint128?, failCode: Code)
    requires Orderly(s)
    ensures Orderly(Told(s, role, max, failCode))
  {
  }

  lemma NextKeeps(n: Net, e: Event)
    requires Allowed(n, e) && DistinctIDs(n.streams) && forall s | s in n.streams :: Orderly(s)
    ensures DistinctIDs(Next(n, e).streams) && forall s | s in Next(n, e).streams :: Orderly(s)
  {
    match e
    case Connect =>
    case Disconnect(_) =>
    case Latch(i, role, id) =>
      var latched := n.streams[i].(role := role, electionID := id);
      assert n.streams[i] in n.streams && Orderly(latched);
      assert forall s | s in Next(n, e).streams :: s in n.streams || s == latched;
    case Arbitrate(role, id) =>
      var max := Record(n.records, role, id).1;
      var failCode := FailCode(n.streams, role, max);
      forall i | 0 <= i < |n.streams|
        ensures Orderly(Next(n, e).streams[i])
      {
        ToldOrderly(n.streams[i], role, max, failCode);
      }
      hide Orderly, Record, FailCode;
  }

  /** Whatever happens, no stream is ever sent the same code twice in a row, and no two
      streams hold the same election ID object. */
  lemma {:induction false} NeverRepeats(events: seq<Event>, n: Net)
    requires NetAfter(events) == Some(n)
    ensures DistinctIDs(n.streams) && forall s | s in n.streams :: Orderly(s)
  {
    if events != [] {
      var front, e := events[..|events| - 1], events[|events| - 1];
      NeverRepeats(front, NetAfter(front).value);
      NextKeeps(NetAfter(front).value, e);
    }
  }

  /** After a round without a role every stream without a role has last been told OK if it
      latched the object that won, and the same other code if not; nothing reaches streams
      that have a role. */
  lemma RoundTells(n: Net, id: Uint128, i: nat)
    requires Allowed(n, Arbitrate(null, id)) && i < |n.streams|
    ensures var m, max := Next(n, Arbitrate(null, id)), Record(n.records, null, id).1;
            && |m.streams| == |n.streams|
            && m.streams[i].role == n.streams[i].role && m.streams[i].electionID == n.streams[i].electionID
            && (n.streams[i].role != null ==> m.streams[i] == n.streams[i])
            && (n.streams[i].role == null ==>
                  m.streams[i].sentCode == Some(CodeFor(n.streams[i], max, FailCode(n.streams, null, max))))
  {
  }

  /** The election IDs that rounds have submitted. */
  function Submitted(events: seq<Event>): seq<Submission> {
    if events == [] then []
    else
      Submitted(events[..|events| - 1]) +
      match events[|events| - 1] case Arbitrate(role, id) => [Submission(role, id)] case _ => []
  }

  lemma {:induction false} RecordsSubmitted(events: seq<Event>, n: Net)
    requires NetAfter(events) == Some(n)
    ensures n.records == Recorded(Submitted(events))
  {
    if events != [] {
      var front := events[..|events| - 1];
      RecordsSubmitted(front, NetAfter(front).value);
      hide Record, FailCode, Told, Latched;
      match events[|events| - 1]
      case Arbitrate(role, id) => RecordedSnoc(Submitted(front), Submission(role, id));
      case _ => assert Submitted(front) + [] == Submitted(front);
    }
  }

  /** At any time, a round without a role leaves at most one stream without a role that was
      last told OK; that one has latched the recorded ID, which no ID ever submitted without
      a role exceeds. */
  lemma ExclusiveMaster(events: seq<Event>, n: Net, id: Uint128, i: nat, j: nat)
    requires NetAfter(events) == Some(n) && Allowed(n, Arbitrate(null, id)) && Latched(n.streams, null)
    requires i < |n.streams| && j < |n.streams| && n.streams[i].role == n.streams[j].role == null
    ensures var m := Next(n, Arbitrate(null, id));
            && (m.streams[i].sentCode == m.streams[j].sentCode == Some(OK) ==> i == j)
            && (m.streams[i].sentCode == Some(OK) ==>
                  && "" in m.records && m.streams[i].electionID == m.records[""]
                  && forall s | s in Submitted(events + [Arbitrate(null, id)]) && For(s, "") ::
                       Number(s.id) <= Number(m.streams[i].electionID))
  {
    var more := events + [Arbitrate(null, id)];
    NeverRepeats(events, n);
    RoundTells(n, id, i);
    RoundTells(n, id, j);
    RecordAnswers(n.records, null, id);
    assert n.streams[i] in n.streams && n.streams[j] in n.streams;
    assert more[..|more| - 1] == events;
    RecordsSubmitted(more, Next(n, Arbitrate(null, id)));
    RecordedIsMaximum(Submitted(more), "");
    hide Next, Record, NetAfter, Recorded, Submitted, Number, FailCode;
  }

  /** The ID is, by number, the one recorded for the role already. */
  predicate Repeated(n: Net, role: Role?, id: Uint128) {
    NameOf(role) in n.records && Number(n.records[NameOf(role)]) == Number(id)
  }

  /** The ID that stands for the role once another is submitted. */
  function Winner(n: Net, role: Role?, id: Uint128): Uint128 {
    var name := NameOf(role);
    if name in n.records && Number(n.records[name]) >= Number(id) then n.records[name] else id
  }

  /** Some stream claims the role with that number. */
  predicate Held(streams: seq<Stream>, role: Role?, id: Uint128) {
    exists s :: s in streams && SameRole(s.role, role) && s.electionID != null && Number(s.electionID) == Number(id)
  }

  lemma RecordedWinner(n: Net, role: Role?, id: Uint128)
    ensures Record(n.records, role, id).1 == if Repeated(n, role, id) then null else Winner(n, role, id)
  {
    RecordAnswers(n.records, role, id);
    hide Record, Number;
  }

  lemma HolderFound(streams: seq<Stream>, role: Role?, id: Uint128)
    requires Latched(streams, role)
    ensures FailCode(streams, role, id) == if Held(streams, role, id) then AlreadyExists else NotFound
  {
    forall s | s in streams && SameRole(s.role, role)
      ensures Same(s.electionID, id) <==> Number(s.electionID) == Number(id)
    {
      Comparisons(s.electionID, id);
    }
    hide Same, Number;
  }

  /** What a round tells a stream that latched the role object of the round: exactly when
      each of the four codes is sent. */
  lemma RoundCodes(n: Net, role: Role?, id: Uint128, i: nat)
    requires Latched(n.streams, role) && i < |n.streams| && n.streams[i].role == role
    ensures var s, w := n.streams[i], Winner(n, role, id);
            var code := Next(n, Arbitrate(role, id)).streams[i].sentCode;
            && (code == Some(InvalidArgument) <==> Repeated(n, role, id))
            && (code == Some(OK) <==> !Repeated(n, role, id) && s.electionID == w)
            && (code == Some(AlreadyExists) <==> !Repeated(n, role, id) && s.electionID != w && Held(n.streams, role, w))
            && (code == Some(NotFound) <==> !Repeated(n, role, id) && !Held(n.streams, role, w))
  {
    var s, w := n.streams[i], Winner(n, role, id);
    assert s in n.streams && SameRole(s.role, role);
    RecordedWinner(n, role, id);
    HolderFound(n.streams, role, w);
    assert s.electionID == w ==> Held(n.streams, role, w);
    hide Repeated, Winner, Held, Record;
  }

  /** A stream that closes submits its own ID once more.  If that is the recorded one, the
      others are told INVALID_ARGUMENT, not NOT_FOUND, which is what they are told if it is
      not and none of them holds the number that then stands. */
  lemma ClosingRound(n: Net, i: nat, k: nat)
    requires i < |n.streams| && k < |n.streams| && k != i && Latched(n.streams, n.streams[i].role)
    requires n.streams[k].role == n.streams[i].role
    ensures var role, id, left := n.streams[i].role, n.streams[i].electionID, Next(n, Disconnect(i));
            var j := if k < i then k else k - 1;
            && Allowed(left, Arbitrate(role, id)) && left.streams[j] == n.streams[k]
            && var code := Next(left, Arbitrate(role, id)).streams[j].sentCode;
            && (code == Some(InvalidArgument) <==> Repeated(n, role, id))
            && (code == Some(NotFound) <==> !Repeated(n, role, id) && !Held(left.streams, role, Winner(n, role, id)))
  {
    var left, j := Next(n, Disconnect(i)), if k < i then k else k - 1;
    assert n.streams[i] in n.streams;
    assert forall s | s in left.streams :: s in n.streams;
    RoundCodes(left, n.streams[i].role, n.streams[i].electionID, j);
    hide Held, Number, Record, FailCode;
  }

  /** When the master closes, everyone left is told INVALID_ARGUMENT. */
  lemma MasterCloses(n: Net, i: nat)
    requires i < |n.streams| && Latched(n.streams, null) && n.streams[i].role == null
    requires "" in n.records && n.records[""] == n.streams[i].electionID
    ensures var m := Next(Next(n, Disconnect(i)), Arbitrate(null, n.streams[i].electionID));
            && |m.streams| == |n.streams| - 1
            && forall j | 0 <= j < |m.streams| && m.streams[j].role == null :: m.streams[j].sentCode == Some(InvalidArgument)
  {
    var left, id := Next(n, Disconnect(i)), n.streams[i].electionID;
    assert n.streams[i] in n.streams;
    var m := Next(left, Arbitrate(null, id));
    forall j | 0 <= j < |m.streams| && m.streams[j].role == null
      ensures m.streams[j].sentCode == Some(InvalidArgument)
    {
      RoundTells(left, id, j);
      ClosingRound(n, i, if j < i then j else j + 1);
    }
    hide Record, FailCode;
  }

  /** When the recorded ID is submitted again, a stream that has latched nothing yet is told OK. */
  lemma UnlatchedClaim(n: Net, id: Uint128, i: nat)
    requires "" in n.records && Number(n.records[""]) == Number(id)
    requires i < |n.streams| && n.streams[i].role == null && n.streams[i].electionID == null
    ensures Next(n, Arbitrate(null, id)).streams[i].sentCode == Some(OK)
  {
    RecordAnswers(n.records, null, id);
    RoundTells(n, id, i);
  }

  /** Holding the winning number is not enough to be told OK: the object must be the one recorded. */
  lemma WinnerByNumberOnly(n: Net, id: Uint128, i: nat)
    requires Allowed(n, Arbitrate(null, id)) && i < |n.streams|
    requires var s, max := n.streams[i], Record(n.records, null, id).1;
             s.role == null && s.electionID != null && max != null && Number(s.electionID) == Number(max) && s.electionID != max
    ensures Next(n, Arbitrate(null, id)).streams[i].sentCode == Some(AlreadyExists)
  {
    var s, max := n.streams[i], Record(n.records, null, id).1;
    RoundTells(n, id, i);
    Comparisons(s.electionID, max);
    assert s in n.streams && IsMaster(s, null, max);
  }

  // ---- Named roles: every message brings a role object of its own

  /** No two streams have latched the same role object. */
  ghost predicate DistinctRoles(streams: seq<Stream>) {
    forall i, j | 0 <= i < j < |streams| && streams[i].role != null :: streams[i].role != streams[j].role
  }

  /** A round for a role changes the one stream that latched its object, and no other, even
      of the same name. */
  lemma RoleRoundReaches(n: Net, role: Role, id: Uint128, i: nat, j: nat)
    requires Allowed(n, Arbitrate(role, id)) && DistinctRoles(n.streams) && i < |n.streams| && j < |n.streams|
    ensures var m := Next(n, Arbitrate(role, id));
            && (m.streams[i] != n.streams[i] ==> n.streams[i].role == role)
            && (m.streams[i] != n.streams[i] && m.streams[j] != n.streams[j] ==> i == j)
  {
  }

  predicate ByRole(s: Submission, role: Role) {
    s.role == role
  }

  predicate Claimed(subs: seq<Submission>, role: Role) {
    exists s :: s in subs && ByRole(s, role)
  }

  /** Role objects are latched by one message, and a round is run for one only once, with
      the ID that came along, unless its stream is gone. */
  ghost predicate Proper(n: Net, subs: seq<Submission>, e: Event) {
    match e
    case Latch(_, role, _) => role != null ==> !Claimed(subs, role) && forall s | s in n.streams :: s.role != role
    case Arbitrate(role, id) =>
      role != null ==> forall s | s in n.streams && s.role == role :: s.electionID == id && !Claimed(subs, role)
    case _ => true
  }

  ghost predicate ProperRun(events: seq<Event>) {
    events == [] ||
    var front := events[..|events| - 1];
    ProperRun(front) && NetAfter(front).Some? && Proper(NetAfter(front).value, Submitted(front), events[|events| - 1])
  }

  /** The stream's claim was, when it was made, greater than all before it for a role of that name. */
  ghost predicate ClaimedTop(subs: seq<Submission>, role: Role, id: Uint128) {
    exists k :: 0 <= k < |subs| && TopAt(subs, k, role, id)
  }

  predicate TopAt(subs: seq<Submission>, k: nat, role: Role, id: Uint128)
    requires k < |subs|
  {
    subs[k] == Submission(role, id) && forall j | 0 <= j < k && For(subs[j], role.name) :: Number(subs[j].id) < Number(id)
  }

  /** A stream with a role whose round has been run was last told OK exactly if it made a
      greater claim than any before. */
  ghost predicate Standing(subs: seq<Submission>, s: Stream) {
    s.role != null && Claimed(subs, s.role) ==>
      s.electionID != null && (s.sentCode == Some(OK) <==> ClaimedTop(subs, s.role, s.electionID))
  }

  ghost predicate AllStanding(n: Net, subs: seq<Submission>) {
    DistinctRoles(n.streams) && n.records == Recorded(subs) && forall s | s in n.streams :: Standing(subs, s)
  }

  lemma ClaimedSnoc(subs: seq<Submission>, x: Submission, role: Role, id: Uint128)
    ensures Claimed(subs + [x], role) <==> Claimed(subs, role) || ByRole(x, role)
    ensures ClaimedTop(subs + [x], role, id) <==>
            ClaimedTop(subs, role, id) ||
            (x == Submission(role, id) && forall s | s in subs && For(s, role.name) :: Number(s.id) < Number(id))
  {
    var all := subs + [x];
    assert forall s :: s in all <==> s in subs || s == x;
    assert all[|subs|] == x && forall k | 0 <= k < |subs| :: all[k] == subs[k];
    hide Number, For;
    if ClaimedTop(subs, role, id) {
      var k :| 0 <= k < |subs| && TopAt(subs, k, role, id);
      assert TopAt(all, k, role, id);
    }
    if ClaimedTop(all, role, id) {
      var k :| 0 <= k < |all| && TopAt(all, k, role, id);
      if k < |subs| {
        assert TopAt(subs, k, role, id);
      }
    }
    if x == Submission(role, id) && forall s | s in subs && For(s, role.name) :: Number(s.id) < Number(id) {
      assert TopAt(all, |subs|, role, id);
    }
  }

  lemma TopClaimed(subs: seq<Submission>, role: Role, id: Uint128)
    requires ClaimedTop(subs, role, id)
    ensures Claimed(subs, role)
  {
    var k :| 0 <= k < |subs| && TopAt(subs, k, role, id);
    assert subs[k] in subs;
  }

  /** What a round does to the standing of a stream: of its own claim, or of another's. */
  lemma RoundStanding(n: Net, subs: seq<Submission>, role: Role?, id: Uint128, i: nat)
    requires AllStanding(n, subs) && Allowed(n, Arbitrate(role, id)) && Proper(n, subs, Arbitrate(role, id)) && i < |n.streams|
    ensures Standing(subs + [Submission(role, id)], Next(n, Arbitrate(role, id)).streams[i])
  {
    var s, x := n.streams[i], Submission(role, id);
    assert s in n.streams && Standing(subs, s);
    if s.role != null {
      if s.electionID != null {
        ClaimedSnoc(subs, x, s.role, s.electionID);
      }
      if s.role == role {
        RecordAnswers(n.records, role, id);
        RecordedIsMaximum(subs, role.name);
        if ClaimedTop(subs, role, id) {
          TopClaimed(subs, role, id);
        }
      }
    }
    hide Recorded, Record, Number, ClaimedTop, Claimed, FailCode;
  }

  lemma NextStanding(n: Net, subs: seq<Submission>, e: Event)
    requires AllStanding(n, subs) && Allowed(n, e) && Proper(n, subs, e)
    ensures AllStanding(Next(n, e), subs + match e case Arbitrate(role, id) => [Submission(role, id)] case _ => [])
  {
    hide Recorded, Claimed;
    assert subs + [] == subs;
    match e
    case Connect =>
      assert Standing(subs, NEW_STREAM);
      hide Standing;
    case Disconnect(i) =>
      hide Standing;
      assert forall s | s in Next(n, e).streams :: s in n.streams;
    case Latch(i, role, id) =>
      var latched := n.streams[i].(role := role, electionID := id);
      assert Standing(subs, latched);
      hide Standing;
      assert forall s | s in Next(n, e).streams :: s in n.streams || s == latched;
    case Arbitrate(role, id) =>
      RecordedSnoc(subs, Submission(role, id));
      forall i | 0 <= i < |n.streams|
        ensures Standing(subs + [Submission(role, id)], Next(n, e).streams[i])
      {
        RoundStanding(n, subs, role, id, i);
      }
      hide Record, FailCode, Standing;
  }

  /** In every proper run: once the round of its claim has been run, a stream with a role
      stands as told OK exactly if it claimed a greater number than all before it did for a
      role of that name.  What is claimed later does not matter: it is never told. */
  lemma {:induction false} NamedStanding(events: seq<Event>, n: Net)
    requires NetAfter(events) == Some(n) && ProperRun(events)
    ensures AllStanding(n, Submitted(events))
  {
    if events == [] {
      assert n == Net(map[], []);
    } else {
      var front, e := events[..|events| - 1], events[|events| - 1];
      NamedStanding(front, NetAfter(front).value);
      NextStanding(NetAfter(front).value, Submitted(front), e);
      hide AllStanding, Next, Proper;
    }
  }

  /** So two streams that claimed a role of one name both stand as told OK exactly if each
      claim was the greatest when it was made. */
  lemma BothStand(events: seq<Event>, n: Net, i: nat, j: nat)
    requires NetAfter(events) == Some(n) && ProperRun(events) && i < |n.streams| && j < |n.streams| && i != j
    requires var r, q := n.streams[i].role, n.streams[j].role;
             r != null && q != null && r.name == q.name && Claimed(Submitted(events), r) && Claimed(Submitted(events), q)
    ensures var s, t, subs := n.streams[i], n.streams[j], Submitted(events);
            && s.electionID != null && t.electionID != null
            && (s.sentCode == t.sentCode == Some(OK) <==>
                  ClaimedTop(subs, s.role, s.electionID) && ClaimedTop(subs, t.role, t.electionID))
  {
    NamedStanding(events, n);
    assert n.streams[i] in n.streams && n.streams[j] in n.streams;
    assert Standing(Submitted(events), n.streams[i]) && Standing(Submitted(events), n.streams[j]);
    hide Claimed, ClaimedTop;
  }

  /** Two streams, each claiming a role of one name, the second with a greater number. */
  function TwoClaims(p: Role, x: Uint128, q: Role, y: Uint128): seq<Event> {
    [Connect, Connect] + [Latch(0, p, x)] + [Arbitrate(p, x)] + [Latch(1, q, y)] + [Arbitrate(q, y)]
  }

  lemma NetSnoc(events: seq<Event>, e: Event)
    requires NetAfter(events).Some? && Allowed(NetAfter(events).value, e)
    ensures NetAfter(events + [e]) == Some(Next(NetAfter(events).value, e))
  {
    assert (events + [e])[..|events|] == events;
  }

  lemma FirstCode(c: Code)
    ensures [] + [c] == [c]
  {
  }

  lemma FirstStream()
    ensures [] + [NEW_STREAM] == [NEW_STREAM]
  {
  }

  lemma TwoConnected()
    ensures NetAfter([Connect, Connect]) == Some(Net(map[], [NEW_STREAM, NEW_STREAM]))
  {
    var none: seq<Event> := [];
    assert NetAfter(none) == Some(Net(map[], []));
    NetSnoc(none, Connect);
    FirstStream();
    assert none + [Connect] == [Connect] && [Connect] + [Connect] == [Connect, Connect];
    NetSnoc([Connect], Connect);
    assert [NEW_STREAM] + [NEW_STREAM] == [NEW_STREAM, NEW_STREAM];
  }

  lemma FirstRound(p: Role, x: Uint128)
    ensures var n := Net(map[], [Stream(p, x, None, []), NEW_STREAM]);
            Allowed(n, Arbitrate(p, x)) && Next(n, Arbitrate(p, x)) == Net(map[p.name := x], [Stream(p, x, Some(OK), [OK]), NEW_STREAM])
  {
    var n := Net(map[], [Stream(p, x, None, []), NEW_STREAM]);
    assert Record(n.records, p, x) == (map[p.name := x], x);
    FirstCode(OK);
    assert Next(n, Arbitrate(p, x)).streams == [Stream(p, x, Some(OK), [OK]), NEW_STREAM];
  }

  lemma SecondRound(p: Role, x: Uint128, q: Role, y: Uint128)
    requires p != q && p.name == q.name && Number(x) < Number(y)
    ensures var n := Net(map[p.name := x], [Stream(p, x, Some(OK), [OK]), Stream(q, y, None, [])]);
            && Allowed(n, Arbitrate(q, y))
            && Next(n, Arbitrate(q, y)) == Net(map[p.name := y], [Stream(p, x, Some(OK), [OK]), Stream(q, y, Some(OK), [OK])])
  {
    Comparisons(x, y);
    var n := Net(map[p.name := x], [Stream(p, x, Some(OK), [OK]), Stream(q, y, None, [])]);
    assert n.records[q.name := y] == map[p.name := y];
    assert Record(n.records, q, y) == (map[p.name := y], y);
    FirstCode(OK);
    assert Next(n, Arbitrate(q, y)).streams == [Stream(p, x, Some(OK), [OK]), Stream(q, y, Some(OK), [OK])];
  }

  /** Mastership of a named role is not exclusive: after such claims both streams have last
      been told OK. */
  lemma TwoMasters(p: Role, x: Uint128, q: Role, y: Uint128)
    requires p != q && p.name == q.name && Number(x) < Number(y)
    ensures NetAfter(TwoClaims(p, x, q, y)) ==
            Some(Net(map[p.name := y], [Stream(p, x, Some(OK), [OK]), Stream(q, y, Some(OK), [OK])]))
  {
    TwoConnected();
    FirstRound(p, x);
    SecondRound(p, x, q, y);
    hide NetAfter, Round;
    var es := [Connect, Connect];
    NetSnoc(es, Latch(0, p, x));
    assert NetAfter(es + [Latch(0, p, x)]).value == Net(map[], [Stream(p, x, None, []), NEW_STREAM]);
    es := es + [Latch(0, p, x)];
    NetSnoc(es, Arbitrate(p, x));
    es := es + [Arbitrate(p, x)];
    NetSnoc(es, Latch(1, q, y));
    assert NetAfter(es + [Latch(1, q, y)]).value ==
           Net(map[p.name := x], [Stream(p, x, Some(OK), [OK]), Stream(q, y, None, [])]);
    NetSnoc(es + [Latch(1, q, y)], Arbitrate(q, y));
  }

  /** A smaller claim, a greater one, and then the master closes. */
  function MasterLeaves(x: Uint128, y: Uint128): seq<Event> {
    [Connect] + [Latch(0, null, x)] + [Arbitrate(null, x)] + [Connect] + [Latch(1, null, y)] + [Arbitrate(null, y)] +
    [Disconnect(1)] + [Arbitrate(null, y)]
  }

  lemma SoleRound(x: Uint128)
    ensures var n := Net(map[], [Stream(null, x, None, [])]);
            Allowed(n, Arbitrate(null, x)) && Next(n, Arbitrate(null, x)) == Net(map["" := x], [Stream(null, x, Some(OK), [OK])])
  {
    var n := Net(map[], [Stream(null, x, None, [])]);
    assert Record(n.records, null, x) == (map["" := x], x);
    FirstCode(OK);
    assert Next(n, Arbitrate(null, x)).streams == [Stream(null, x, Some(OK), [OK])];
  }

  lemma GreaterRound(x: Uint128, y: Uint128)
    requires Number(x) < Number(y)
    ensures var n := Net(map["" := x], [Stream(null, x, Some(OK), [OK]), Stream(null, y, None, [])]);
            && Allowed(n, Arbitrate(null, y))
            && Next(n, Arbitrate(null, y)) ==
               Net(map["" := y], [Stream(null, x, Some(AlreadyExists), [OK, AlreadyExists]), Stream(null, y, Some(OK), [OK])])
  {
    Comparisons(x, y);
    var n := Net(map["" := x], [Stream(null, x, Some(OK), [OK]), Stream(null, y, None, [])]);
    assert n.records["" := y] == map["" := y];
    assert Record(n.records, null, y) == (map["" := y], y);
    HolderFound(n.streams, null, y);
    assert n.streams[1] in n.streams && Held(n.streams, null, y);
    FirstCode(OK);
    assert [OK] + [AlreadyExists] == [OK, AlreadyExists];
    hide FailCode, Held;
    assert Next(n, Arbitrate(null, y)).streams ==
           [Stream(null, x, Some(AlreadyExists), [OK, AlreadyExists]), Stream(null, y, Some(OK), [OK])];
  }

  lemma LeavingRound(x: Uint128, y: Uint128)
    ensures var n := Net(map["" := y], [Stream(null, x, Some(AlreadyExists), [OK, AlreadyExists])]);
            && Allowed(n, Arbitrate(null, y))
            && Next(n, Arbitrate(null, y)) ==
               Net(map["" := y], [Stream(null, x, Some(InvalidArgument), [OK, AlreadyExists, InvalidArgument])])
  {
    Comparisons(y, y);
    var n := Net(map["" := y], [Stream(null, x, Some(AlreadyExists), [OK, AlreadyExists])]);
    assert Record(n.records, null, y) == (map["" := y], null);
    assert [OK, AlreadyExists] + [InvalidArgument] == [OK, AlreadyExists, InvalidArgument];
    assert Next(n, Arbitrate(null, y)).streams == [Stream(null, x, Some(InvalidArgument), [OK, AlreadyExists, InvalidArgument])];
  }

  /** A run in which the master closes: the other stream is told INVALID_ARGUMENT. */
  lemma MasterClosesRun(x: Uint128, y: Uint128)
    requires Number(x) < Number(y)
    ensures NetAfter(MasterLeaves(x, y)) ==
            Some(Net(map["" := y], [Stream(null, x, Some(InvalidArgument), [OK, AlreadyExists, InvalidArgument])]))
  {
    var none: seq<Event> := [];
    assert NetAfter(none) == Some(Net(map[], []));
    SoleRound(x);
    GreaterRound(x, y);
    LeavingRound(x, y);
    FirstStream();
    hide NetAfter, Round;
    var es := none + [Connect];
    NetSnoc(none, Connect);
    assert es == [Connect] && NetAfter(es).value == Net(map[], [NEW_STREAM]);
    NetSnoc(es, Latch(0, null, x));
    es := es + [Latch(0, null, x)];
    assert NetAfter(es).value == Net(map[], [Stream(null, x, None, [])]);
    NetSnoc(es, Arbitrate(null, x));
    es := es + [Arbitrate(null, x)];
    NetSnoc(es, Connect);
    es := es + [Connect];
    assert NetAfter(es).value == Net(map["" := x], [Stream(null, x, Some(OK), [OK]), NEW_STREAM]);
    NetSnoc(es, Latch(1, null, y));
    es := es + [Latch(1, null, y)];
    assert NetAfter(es).value == Net(map["" := x], [Stream(null, x, Some(OK), [OK]), Stream(null, y, None, [])]);
    NetSnoc(es, Arbitrate(null, y));
    es := es + [Arbitrate(null, y)];
    NetSnoc(es, Disconnect(1));
    es := es + [Disconnect(1)];
    assert NetAfter(es).value == Net(map["" := y], [Stream(null, x, Some(AlreadyExists), [OK, AlreadyExists])]);
    NetSnoc(es, Arbitrate(null, y));
  }

  // ---- Streams and device

  class StreamState {
    var role: Role?
    var electionID: Uint128?
    var sentCode: Option<Code>
    var sent: seq<Code>                     // the codes queued for the stream, in order

    constructor ()
      ensures Value() == NEW_STREAM
    {
      role, electionID, sentCode, sent := null, null, None, [];
    }

    function Value(): Stream
      reads this
    {
      Stream(role, electionID, sentCode, sent)
    }

    method LatchMastershipArbitration(role: Role?, id: Uint128)
      modifies this
      ensures Value() == old(Value()).(role := role, electionID := id)
    {
      this.role := role;
      electionID := id;
    }

    method SendMastershipArbitration(role: Role?, masterElectionID: Uint128?, failCode: Code)
      modifies this
      ensures Value() == Told(old(Value()), role, masterElectionID, failCode)
    {
      if role != this.role {
        return;
      }
      var code := failCode;
      if electionID == masterElectionID && this.role == role {
        code := OK;
      }
      if sentCode != Some(code) {
        sent := sent + [code];
        sentCode := Some(code);
      }
    }
  }

  function Values(rs: seq<StreamState>): seq<Stream>
    reads rs
  {
    seq(|rs|, i requires 0 <= i < |rs| reads rs => rs[i].Value())
  }

  /** The ID is, by value, the one recorded for the role. */
  predicate Holds(rs: Records, role: string, id: Uint128) {
    role in rs && Same(rs[role], id)
  }

  datatype Verdict = Granted | Conflict | Unauthorized

  function Judged(own: nat, rs: Records, chassis: nat, role: string, id: Uint128): Verdict {
    if chassis != own then Conflict
    else if Holds(rs, role, id) then Granted
    else Unauthorized
  }

  /** The ID has the greatest number submitted for the role, and some ID was. */
  ghost predicate GreatestOf(subs: seq<Submission>, role: string, id: Uint128) {
    && (exists s :: s in subs && For(s, role) && Number(s.id) == Number(id))
    && forall s | s in subs && For(s, role) :: Number(s.id) <= Number(id)
  }

  class Arbiter {
    const chassisID: nat
    var roleConfigs: Records
    var streamResponders: seq<StreamState>

    constructor (chassisID: nat)
      ensures roleConfigs == map[] && streamResponders == [] && Valid()
    {
      this.chassisID := chassisID;
      roleConfigs, streamResponders := map[], [];
    }

    /** No stream is registered twice. */
    predicate Valid()
      reads this
    {
      forall i, j | 0 <= i < j < |streamResponders| :: streamResponders[i] != streamResponders[j]
    }

    ghost function State(): Net
      reads this, streamResponders
    {
      Net(roleConfigs, Values(streamResponders))
    }

    /** The write check: the device is meant, and the ID is, by value, the one recorded for the role. */
    method CheckMaster(chassis: nat, role: string, id: Uint128) returns (v: Verdict)
      ensures v == Judged(chassisID, roleConfigs, chassis, role, id)
    {
      if chassis != chassisID {
        return Conflict;
      }
      if role !in roleConfigs {
        return Unauthorized;
      }
      var winner := roleConfigs[role];
      v := if winner.high != id.high || winner.low != id.low then Unauthorized else Granted;
    }

    /** In every run it is passed exactly by those who mean the device and bring the greatest
        number submitted for the role so far. */
    lemma CheckedIff(events: seq<Event>, chassis: nat, role: string, id: Uint128)
      requires NetAfter(events) == Some(State())
      ensures var v := Judged(chassisID, roleConfigs, chassis, role, id);
              && (v == Granted <==> chassis == chassisID && GreatestOf(Submitted(events), role, id))
              && (v == Conflict <==> chassis != chassisID)
    {
      RecordsSubmitted(events, State());
      RecordedIsMaximum(Submitted(events), role);
      if role in roleConfigs {
        Comparisons(roleConfigs[role], id);
      }
      hide Number, Recorded, Submitted, NetAfter;
    }

    method RecordRoleElection(role: Role?, id: Uint128) returns (answer: Uint128?)
      modifies this`roleConfigs
      ensures (roleConfigs, answer) == Record(old(roleConfigs), role, id)
    {
      var roleName := if role != null then role.name else "";
      if roleName !in roleConfigs {
        roleConfigs := roleConfigs[roleName := id];
        return id;
      }
      var winner := roleConfigs[roleName];
      if winner.high < id.high || (winner.high == id.high && winner.low < id.low) {
        roleConfigs := roleConfigs[roleName := id];
        return id;
      } else if winner.high == id.high && winner.low == id.low {
        return null;
      }
      answer := winner;
    }

    method RunMastershipArbitration(role: Role?, id: Uint128)
      requires Valid() && Allowed(State(), Arbitrate(role, id))
      modifies this`roleConfigs, streamResponders
      ensures Valid() && State() == Next(old(State()), Arbitrate(role, id))
    {
      ghost var before := Values(streamResponders);
      var max := RecordRoleElection(role, id);
      var failCode := NotFound;
      if max == null {
        failCode := InvalidArgument;
      } else {
        failCode := FindMaster(role, max);
      }
      assert failCode == FailCode(before, role, max);
      hide FailCode, Record, Told, Latched;
      for i := 0 to |streamResponders|
        invariant (roleConfigs, max) == Record(old(roleConfigs), role, id)
        invariant forall k | 0 <= k < i :: streamResponders[k].Value() == Told(before[k], role, max, failCode)
        invariant forall k | i <= k < |streamResponders| :: streamResponders[k].Value() == before[k]
      {
        streamResponders[i].SendMastershipArbitration(role, max, failCode);
      }
      assert Values(streamResponders) == Round(old(roleConfigs), before, role, id).1;
    }

    /** Looks for a stream that holds the winning ID. */
    method FindMaster(role: Role?, max: Uint128) returns (failCode: Code)
      requires Latched(Values(streamResponders), role)
      ensures failCode == FailCode(Values(streamResponders), role, max)
    {
      ghost var streams := Values(streamResponders);
      for i := 0 to |streamResponders|
        invariant forall k | 0 <= k < i :: SameRole(streams[k].role, role) ==> !Same(streams[k].electionID, max)
      {
        var r := streamResponders[i];
        assert streams[i] in streams;
        if SameRole(r.role, role) && Same(r.electionID, max) {
          return AlreadyExists;
        }
      }
      failCode := NotFound;
    }

    method AddStreamResponder(r: StreamState)
      requires Valid() && r !in streamResponders && r.Value() == NEW_STREAM
      modifies this`streamResponders
      ensures Valid() && streamResponders == old(streamResponders) + [r]
      ensures State() == Next(old(State()), Connect)
    {
      streamResponders := streamResponders + [r];
    }

    method RemoveStreamResponder(r: StreamState) returns (ghost i: nat)
      requires Valid() && r in streamResponders
      modifies this`streamResponders
      ensures Valid() && r !in streamResponders
      ensures i < |old(streamResponders)| && old(streamResponders)[i] == r
      ensures streamResponders == old(streamResponders)[..i] + old(streamResponders)[i + 1..]
      ensures State() == Next(old(State()), Disconnect(i))
    {
      var k := 0;
      while streamResponders[k] != r
        invariant k < |streamResponders| && r in streamResponders[k..]
        decreases |streamResponders| - k
      {
        k := k + 1;
      }
      i := k;
      streamResponders := streamResponders[..k] + streamResponders[k + 1..];
    }

    /** A registered stream latches what a message brings. */
    method LatchRegistered(r: StreamState, role: Role?, id: Uint128, ghost i: nat)
      requires Valid() && i < |streamResponders| && streamResponders[i] == r && Allowed(State(), Latch(i, role, id))
      modifies r
      ensures r.Value() == old(r.Value()).(role := role, electionID := id)
      ensures State() == Next(old(State()), Latch(i, role, id))
    {
      ghost var before := Values(streamResponders);
      r.LatchMastershipArbitration(role, id);
      assert forall k | 0 <= k < |streamResponders| && k != i :: streamResponders[k].Value() == before[k];
      assert Values(streamResponders) == before[i := before[i].(role := role, electionID := id)];
    }

    /** An arbitration message on a stream: it is latched, and a round is run. */
    method ProcessArbitration(r: StreamState, role: Role?, id: Uint128, ghost i: nat)
      requires Valid() && i < |streamResponders| && streamResponders[i] == r && Allowed(State(), Latch(i, role, id))
      requires Allowed(Next(State(), Latch(i, role, id)), Arbitrate(role, id))
      modifies this`roleConfigs, streamResponders
      ensures Valid() && State() == Next(Next(old(State()), Latch(i, role, id)), Arbitrate(role, id))
    {
      hide Next, Allowed;
      LatchRegistered(r, role, id, i);
      RunMastershipArbitration(role, id);
    }

    /** A stream closes: it is removed, and its ID is submitted once more. */
    method CloseStream(r: StreamState) returns (ghost i: nat)
      requires Valid() && r in streamResponders && r.electionID != null
      requires forall k | 0 <= k < |streamResponders| && streamResponders[k] == r ::
                 Allowed(Next(State(), Disconnect(k)), Arbitrate(r.role, r.electionID))
      modifies this`roleConfigs, this`streamResponders, streamResponders
      ensures Valid() && i < |old(streamResponders)| && old(streamResponders)[i] == r
      ensures streamResponders == old(streamResponders)[..i] + old(streamResponders)[i + 1..]
      ensures State() == Next(Next(old(State()), Disconnect(i)), Arbitrate(old(r.role), old(r.electionID)))
    {
      i := RemoveStreamResponder(r);
      hide Next, Allowed;
      RunMastershipArbitration(r.role, r.electionID);
    }
  }
}
