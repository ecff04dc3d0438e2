/** I/O statistics: 32-bit counters on every device, swept up into samples from time to
    time, of which the latest are kept.

    `NothingLost` accounts for all traffic over any run; `WindowIsRecent` says what is kept,
    and `WindowOutgrown` when that is more than a thousand samples. */
module Stats {
  import opened Text

  const LIMIT := 0x1_0000_0000

  type Word = n: nat | n < LIMIT

  datatype Counts = Counts(inBytes: Word, inMessages: Word, outBytes: Word, outMessages: Word)

  const ZERO := Counts(0, 0, 0, 0)

  function Wrap(n: int): Word {
    n % LIMIT
  }

  function Plus(a: Counts, b: Counts): Counts {
    Counts(Wrap(a.inBytes + b.inBytes), Wrap(a.inMessages + b.inMessages),
           Wrap(a.outBytes + b.outBytes), Wrap(a.outMessages + b.outMessages))
  }

  lemma WrapSums(a: Word, b: Word, c: Word)
    ensures Wrap(Wrap(a + b) + c) == Wrap(a + Wrap(b + c))
  {
  }

  lemma Assoc(a: Counts, b: Counts, c: Counts)
    ensures Plus(Plus(a, b), c) == Plus(a, Plus(b, c))
  {
    WrapSums(a.inBytes, b.inBytes, c.inBytes);
    WrapSums(a.inMessages, b.inMessages, c.inMessages);
    WrapSums(a.outBytes, b.outBytes, c.outBytes);
    WrapSums(a.outMessages, b.outMessages, c.outMessages);
    hide Wrap;
  }

  lemma Commutes(a: Counts, b: Counts)
    ensures Plus(a, b) == Plus(b, a)
  {
    hide Wrap;
  }

  lemma Neutral(a: Counts)
    ensures Plus(a, ZERO) == a
  {
  }

  /** The last of three terms moved before the second. */
  lemma Swap(a: Counts, b: Counts, c: Counts)
    ensures Plus(Plus(a, b), c) == Plus(Plus(a, c), b)
  {
    Assoc(a, b, c);
    Commutes(b, c);
    Assoc(a, c, b);
  }

  /** What one update adds; byte counts are converted to 32 bits. */
  function Traffic(bytes: int, input: bool): Counts {
    if input then Counts(Wrap(bytes), 1, 0, 0) else Counts(0, 0, Wrap(bytes), 1)
  }

  /** Everything on some devices, added up in whatever order. */
  ghost function Sum(m: map<string, Counts>): Counts
    decreases |m|
  {
    if m == map[] then ZERO
    else
      var d :| d in m;
      Plus(Sum(m - {d}), m[d])
  }

  lemma {:induction false} SumSplit(m: map<string, Counts>, d: string)
    requires d in m
    ensures Sum(m) == Plus(Sum(m - {d}), m[d])
    decreases |m|
  {
    var e :| e in m && Sum(m) == Plus(Sum(m - {e}), m[e]);
    if e != d {
      SumSplit(m - {e}, d);
      SumSplit(m - {d}, e);
      assert m - {e} - {d} == m - {d} - {e};
      Swap(Sum(m - {e} - {d}), m[d], m[e]);
      hide Plus;
    }
  }

  datatype Sample = Sample(first: nat, last: nat, counts: Counts)

  function SumSamples(ss: seq<Sample>): Counts {
    if ss == [] then ZERO else Plus(SumSamples(ss[..|ss| - 1]), ss[|ss| - 1].counts)
  }

  // ---- Runs

  const WINDOW := 1000

  /** Counters of the registered devices; all samples ever made, and those kept, with the
      capacity of their slice; what was lost with removed devices; what was ever fed in. */
  datatype Book = Book(
    residual: map<string, Counts>,
    history: seq<Sample>, kept: seq<Sample>, capacity: nat, lastTime: nat,
    lost: Counts, fed: Counts)

  datatype Event =
    | AddDevice(id: string)
    | RemoveDevice(id: string)
    | Feed(id: string, bytes: int, input: bool)
    | Collect(now: nat, grown: nat)                  // the capacity a full slice grows to

  /** A slice that is full when a sample is appended grows to hold it, by how much is not said. */
  predicate Enabled(b: Book, e: Event) {
    match e
    case Feed(id, _, _) => id in b.residual
    case Collect(_, grown) => |b.kept| < b.capacity || grown >= |b.kept|
    case _ => true
  }

  /** A sample is appended; one is dropped at the front if the slice is full. */
  function Kept(b: Book, s: Sample, grown: nat): Book {
    var room := |b.kept| < b.capacity;
    b.(history := b.history + [s],
       kept := (if room || b.kept == [] then b.kept else b.kept[1..]) + [s],
       capacity := if room then b.capacity else grown,
       lastTime := s.last)
  }

  ghost function Next(b: Book, e: Event): Book
    requires Enabled(b, e)
  {
    match e
    case AddDevice(id) => if id in b.residual then b else b.(residual := b.residual[id := ZERO])
    case RemoveDevice(id) =>
      if id in b.residual then b.(residual := b.residual - {id}, lost := Plus(b.lost, b.residual[id])) else b
    case Feed(id, bytes, input) =>
      var t := Traffic(bytes, input);
      b.(residual := b.residual[id := Plus(b.residual[id], t)], fed := Plus(b.fed, t))
    case Collect(now, grown) =>
      var s := Sample(b.lastTime, now, Sum(b.residual));
      Kept(b, s, grown).(residual := map d | d in b.residual :: ZERO)
  }

  ghost predicate Balanced(b: Book) {
    Plus(Plus(SumSamples(b.history), Sum(b.residual)), b.lost) == b.fed
  }

  /** The kept samples are the last ones made, at least as many as asked for. */
  predicate Recent(b: Book) {
    && b.capacity >= WINDOW && |b.kept| <= b.capacity
    && |b.kept| <= |b.history| && b.history[|b.history| - |b.kept|..] == b.kept
    && (|b.kept| >= WINDOW || |b.kept| == |b.history|)
  }

  /** Each sample starts when the one before ended. */
  predicate Gapless(b: Book) {
    && (forall i | 0 < i < |b.history| :: b.history[i].first == b.history[i - 1].last)
    && (b.history == [] || b.history[|b.history| - 1].last == b.lastTime)
  }

  ghost function After(start: nat, events: seq<Event>): Option<Book> {
    if events == [] then Some(Book(map[], [], [], WINDOW, start, ZERO, ZERO))
    else
      var before, e := After(start, events[..|events| - 1]), events[|events| - 1];
      if before.Some? && Enabled(before.value, e) then Some(Next(before.value, e)) else None
  }

  lemma AllZero(m: map<string, Counts>)
    requires forall d | d in m :: m[d] == ZERO
    ensures Sum(m) == ZERO
    decreases |m|
  {
    if m != map[] {
      var d :| d in m;
      AllZero(m - {d});
      SumSplit(m, d);
      Neutral(ZERO);
    }
  }

  lemma NextBalanced(b: Book, e: Event)
    requires Balanced(b) && Enabled(b, e)
    ensures Balanced(Next(b, e))
  {
    var s, c := SumSamples(b.history), Next(b, e);
    hide Plus, Traffic;
    match e
    case AddDevice(id) =>
      if id !in b.residual {
        SumSplit(c.residual, id);
        assert c.residual - {id} == b.residual;
        Neutral(Sum(b.residual));
      }
    case RemoveDevice(id) =>
      if id in b.residual {
        var r, x := Sum(c.residual), b.residual[id];
        SumSplit(b.residual, id);
        Assoc(s, r, x);
        Assoc(Plus(s, r), x, b.lost);
        Commutes(x, b.lost);
      }
    case Feed(id, bytes, input) =>
      var x, t, r := b.residual[id], Traffic(bytes, input), Sum(b.residual - {id});
      SumSplit(b.residual, id);
      SumSplit(c.residual, id);
      assert c.residual - {id} == b.residual - {id};
      Assoc(r, x, t);
      Assoc(s, Plus(r, x), t);
      Swap(Plus(s, Plus(r, x)), t, b.lost);
    case Collect(now, grown) =>
      AllZero(c.residual);
      assert c.history[..|c.history| - 1] == b.history;
      Neutral(Plus(s, Sum(b.residual)));
  }

  lemma SampleGapless(b: Book, s: Sample)
    requires Gapless(b) && s.first == b.lastTime
    ensures forall i | 0 < i < |b.history + [s]| :: (b.history + [s])[i].first == (b.history + [s])[i - 1].last
  {
  }

  lemma NextRecent(b: Book, e: Event)
    requires Recent(b) && Gapless(b) && Enabled(b, e)
    ensures Recent(Next(b, e)) && Gapless(Next(b, e))
  {
    hide Sum, Plus, Traffic, Recent, Gapless, Kept;
    if e.Collect? {
      KeptRecent(b, Sample(b.lastTime, e.now, Sum(b.residual)), e.grown);
      SameBooks(Kept(b, Sample(b.lastTime, e.now, Sum(b.residual)), e.grown), Next(b, e));
    } else {
      SameBooks(b, Next(b, e));
    }
  }

  lemma KeptRecent(b: Book, s: Sample, grown: nat)
    requires Recent(b) && Gapless(b) && s.first == b.lastTime && (|b.kept| < b.capacity || grown >= |b.kept|)
    ensures Recent(Kept(b, s, grown)) && Gapless(Kept(b, s, grown))
  {
    SampleGapless(b, s);
    assert (b.history + [s])[|b.history| - |b.kept|..] == b.kept + [s];
    assert b.kept != [] ==> (b.history + [s])[|b.history| - |b.kept| + 1..] == b.kept[1..] + [s];
  }

  lemma SameBooks(b: Book, c: Book)
    requires c.history == b.history && c.kept == b.kept && c.capacity == b.capacity && c.lastTime == b.lastTime
    ensures Recent(b) <==> Recent(c)
    ensures Gapless(b) <==> Gapless(c)
  {
  }

  /** Over any run of updates, samples, and devices coming and going: all samples ever made,
      what is still on the devices, and what went with removed devices add up, modulo 2^32,
      to what was fed in. */
  lemma {:induction false} NothingLost(start: nat, events: seq<Event>)
    requires After(start, events).Some?
    ensures Balanced(After(start, events).value)
  {
    if events == [] {
      Neutral(ZERO);
    } else {
      NothingLost(start, events[..|events| - 1]);
      NextBalanced(After(start, events[..|events| - 1]).value, events[|events| - 1]);
    }
  }

  // ---- Field by field

  /** The four counters, as numbers that are not wrapped when added up. */
  datatype Totals = Totals(inBytes: int, inMessages: int, outBytes: int, outMessages: int)

  function Added(t: Totals, c: Counts): Totals {
    Totals(t.inBytes + c.inBytes, t.inMessages + c.inMessages, t.outBytes + c.outBytes, t.outMessages + c.outMessages)
  }

  /** The totals are, modulo 2^32, what the counters show. */
  predicate Shows(t: Totals, c: Counts) {
    && t.inBytes % LIMIT == c.inBytes && t.inMessages % LIMIT == c.inMessages
    && t.outBytes % LIMIT == c.outBytes && t.outMessages % LIMIT == c.outMessages
  }

  function SampleTotals(ss: seq<Sample>): Totals {
    if ss == [] then Totals(0, 0, 0, 0) else Added(SampleTotals(ss[..|ss| - 1]), ss[|ss| - 1].counts)
  }

  ghost function DeviceTotals(m: map<string, Counts>): Totals
    decreases |m|
  {
    if m == map[] then Totals(0, 0, 0, 0)
    else
      var d :| d in m;
      Added(DeviceTotals(m - {d}), m[d])
  }

  lemma WrapAdds(x: int, a: Word, b: Word)
    requires x % LIMIT == a
    ensures (x + b) % LIMIT == Wrap(a + b)
  {
  }

  lemma AddedShows(t: Totals, c: Counts, d: Counts)
    requires Shows(t, c)
    ensures Shows(Added(t, d), Plus(c, d))
  {
    WrapAdds(t.inBytes, c.inBytes, d.inBytes);
    WrapAdds(t.inMessages, c.inMessages, d.inMessages);
    WrapAdds(t.outBytes, c.outBytes, d.outBytes);
    WrapAdds(t.outMessages, c.outMessages, d.outMessages);
    hide Wrap;
  }

  lemma SamplesShow(ss: seq<Sample>)
    ensures Shows(SampleTotals(ss), SumSamples(ss))
  {
    if ss != [] {
      SamplesShow(ss[..|ss| - 1]);
      AddedShows(SampleTotals(ss[..|ss| - 1]), SumSamples(ss[..|ss| - 1]), ss[|ss| - 1].counts);
      hide Shows, Added, Plus;
    }
  }

  lemma {:induction false} DevicesShow(m: map<string, Counts>)
    ensures Shows(DeviceTotals(m), Sum(m))
    decreases |m|
  {
    if m != map[] {
      var d :| d in m && DeviceTotals(m) == Added(DeviceTotals(m - {d}), m[d]);
      SumSplit(m, d);
      DevicesShow(m - {d});
      AddedShows(DeviceTotals(m - {d}), Sum(m - {d}), m[d]);
      hide Shows, Added, Plus;
    }
  }

  /** The bytes that updates in one direction brought, and how many updates there were. */
  function Bytes(events: seq<Event>, input: bool): int {
    if events == [] then 0
    else
      Bytes(events[..|events| - 1], input) +
      match events[|events| - 1] case Feed(_, bytes, dir) => (if dir == input then bytes else 0) case _ => 0
  }

  function Updates(events: seq<Event>, input: bool): nat {
    if events == [] then 0
    else
      Updates(events[..|events| - 1], input) +
      match events[|events| - 1] case Feed(_, _, dir) => (if dir == input then 1 else 0) case _ => 0
  }

  function FedTotals(events: seq<Event>): Totals {
    Totals(Bytes(events, true), Updates(events, true), Bytes(events, false), Updates(events, false))
  }

  lemma WrapBytes(x: int, a: Word, bytes: int)
    requires x % LIMIT == a
    ensures (x + bytes) % LIMIT == Wrap(a + Wrap(bytes))
  {
  }

  lemma FeedShows(t: Totals, c: Counts, bytes: int, input: bool)
    requires Shows(t, c)
    ensures Shows(if input then t.(inBytes := t.inBytes + bytes, inMessages := t.inMessages + 1)
                  else t.(outBytes := t.outBytes + bytes, outMessages := t.outMessages + 1),
                  Plus(c, Traffic(bytes, input)))
  {
    WrapBytes(t.inBytes, c.inBytes, bytes);
    WrapBytes(t.outBytes, c.outBytes, bytes);
    WrapAdds(t.inMessages, c.inMessages, 1);
    WrapAdds(t.outMessages, c.outMessages, 1);
    FeedAdds(c, bytes, input);
    hide Wrap, Plus, Traffic;
  }

  lemma FeedAdds(c: Counts, bytes: int, input: bool)
    ensures Plus(c, Traffic(bytes, input)) ==
            if input then c.(inBytes := Wrap(c.inBytes + Wrap(bytes)), inMessages := Wrap(c.inMessages + 1))
            else c.(outBytes := Wrap(c.outBytes + Wrap(bytes)), outMessages := Wrap(c.outMessages + 1))
  {
  }

  lemma {:induction false} FedShows(start: nat, events: seq<Event>)
    requires After(start, events).Some?
    ensures Shows(FedTotals(events), After(start, events).value.fed)
  {
    if events != [] {
      var front, e := events[..|events| - 1], events[|events| - 1];
      FedShows(start, front);
      hide Shows, Plus, Traffic, Sum;
      if e.Feed? {
        FeedShows(FedTotals(front), After(start, front).value.fed, e.bytes, e.input);
      }
    }
  }

  /** Counter by counter: the bytes, and the updates, of each direction in all samples ever
      made, on the devices and on those removed are, modulo 2^32, what came in updates of
      that direction. */
  lemma FieldsConserved(start: nat, events: seq<Event>)
    requires After(start, events).Some?
    ensures var b := After(start, events).value;
            var s, r := SampleTotals(b.history), DeviceTotals(b.residual);
            && (s.inBytes + r.inBytes + b.lost.inBytes) % 0x1_0000_0000 == Bytes(events, true) % 0x1_0000_0000
            && (s.inMessages + r.inMessages + b.lost.inMessages) % 0x1_0000_0000 == Updates(events, true) % 0x1_0000_0000
            && (s.outBytes + r.outBytes + b.lost.outBytes) % 0x1_0000_0000 == Bytes(events, false) % 0x1_0000_0000
            && (s.outMessages + r.outMessages + b.lost.outMessages) % 0x1_0000_0000 == Updates(events, false) % 0x1_0000_0000
  {
    hide Sum, After, Bytes, Updates, SampleTotals, DeviceTotals, SumSamples;
    var b := After(start, events).value;
    NothingLost(start, events);
    FedShows(start, events);
    SamplesShow(b.history);
    DevicesShow(b.residual);
    ThreeShow(SampleTotals(b.history), SumSamples(b.history), DeviceTotals(b.residual), Sum(b.residual), b.lost);
  }

  lemma WrapThree(x: int, a: Word, y: int, b: Word, c: Word)
    requires x % LIMIT == a && y % LIMIT == b
    ensures (x + y + c) % LIMIT == Wrap(Wrap(a + b) + c)
  {
  }

  lemma PlusThree(a: Counts, b: Counts, c: Counts)
    ensures Plus(Plus(a, b), c) ==
            Counts(Wrap(Wrap(a.inBytes + b.inBytes) + c.inBytes), Wrap(Wrap(a.inMessages + b.inMessages) + c.inMessages),
                   Wrap(Wrap(a.outBytes + b.outBytes) + c.outBytes), Wrap(Wrap(a.outMessages + b.outMessages) + c.outMessages))
  {
    hide Wrap;
  }

  lemma ThreeShow(s: Totals, a: Counts, r: Totals, b: Counts, c: Counts)
    requires Shows(s, a) && Shows(r, b)
    ensures Shows(Totals(s.inBytes + r.inBytes + c.inBytes, s.inMessages + r.inMessages + c.inMessages,
                         s.outBytes + r.outBytes + c.outBytes, s.outMessages + r.outMessages + c.outMessages),
                  Plus(Plus(a, b), c))
  {
    hide Wrap, Plus;
    PlusThree(a, b, c);
    WrapThree(s.inBytes, a.inBytes, r.inBytes, b.inBytes, c.inBytes);
    WrapThree(s.inMessages, a.inMessages, r.inMessages, b.inMessages, c.inMessages);
    WrapThree(s.outBytes, a.outBytes, r.outBytes, b.outBytes, c.outBytes);
    WrapThree(s.outMessages, a.outMessages, r.outMessages, b.outMessages, c.outMessages);
  }

  // ---- Device by device

  /** The bytes, and the updates, that a device took in one direction since it was registered
      or all devices were last swept up. */
  function BytesSince(events: seq<Event>, d: string, input: bool): int {
    if events == [] then 0
    else
      var front := events[..|events| - 1];
      match events[|events| - 1]
      case Collect(_, _) => 0
      case RemoveDevice(id) => if id == d then 0 else BytesSince(front, d, input)
      case Feed(id, bytes, dir) => BytesSince(front, d, input) + if id == d && dir == input then bytes else 0
      case AddDevice(_) => BytesSince(front, d, input)
  }

  function UpdatesSince(events: seq<Event>, d: string, input: bool): nat {
    if events == [] then 0
    else
      var front := events[..|events| - 1];
      match events[|events| - 1]
      case Collect(_, _) => 0
      case RemoveDevice(id) => if id == d then 0 else UpdatesSince(front, d, input)
      case Feed(id, _, dir) => UpdatesSince(front, d, input) + if id == d && dir == input then 1 else 0
      case AddDevice(_) => UpdatesSince(front, d, input)
  }

  function TotalsSince(events: seq<Event>, d: string): Totals {
    Totals(BytesSince(events, d, true), UpdatesSince(events, d, true), BytesSince(events, d, false), UpdatesSince(events, d, false))
  }

  ghost predicate ShowsSince(b: Book, d: string, t: Totals) {
    if d in b.residual then Shows(t, b.residual[d]) else t == Totals(0, 0, 0, 0)
  }

  lemma NextShows(b: Book, e: Event, d: string, t: Totals, u: Totals)
    requires Enabled(b, e) && ShowsSince(b, d, t)
    requires e.Feed? && e.id == d ==>
               u == if e.input then t.(inBytes := t.inBytes + e.bytes, inMessages := t.inMessages + 1)
                    else t.(outBytes := t.outBytes + e.bytes, outMessages := t.outMessages + 1)
    requires e.Collect? || (e.RemoveDevice? && e.id == d) ==> u == Totals(0, 0, 0, 0)
    requires !e.Collect? && (e.AddDevice? || e.id != d) ==> u == t
    ensures ShowsSince(Next(b, e), d, u)
  {
    hide Sum, Plus, Traffic, Shows;
    NoneSince();
    if e.Feed? && e.id == d {
      FeedShows(t, b.residual[d], e.bytes, e.input);
    }
  }

  lemma {:induction false} SinceShows(start: nat, events: seq<Event>, d: string)
    requires After(start, events).Some?
    ensures ShowsSince(After(start, events).value, d, TotalsSince(events, d))
  {
    if events != [] {
      var front, e := events[..|events| - 1], events[|events| - 1];
      SinceShows(start, front, d);
      NextShows(After(start, front).value, e, d, TotalsSince(front, d), TotalsSince(events, d));
      hide ShowsSince, Next, Enabled;
    }
  }

  lemma NoneSince()
    ensures Shows(Totals(0, 0, 0, 0), ZERO)
  {
  }

  /** The counters of every registered device show just what it was fed since it was registered
      or last swept up. */
  lemma CountersExact(start: nat, events: seq<Event>, d: string)
    requires After(start, events).Some? && d in After(start, events).value.residual
    ensures var c := After(start, events).value.residual[d];
            && c.inBytes == BytesSince(events, d, true) % LIMIT && c.inMessages == UpdatesSince(events, d, true) % LIMIT
            && c.outBytes == BytesSince(events, d, false) % LIMIT && c.outMessages == UpdatesSince(events, d, false) % LIMIT
  {
    SinceShows(start, events, d);
    hide After, BytesSince, UpdatesSince;
  }

  // ---- Sample by sample

  /** The start, and when samples were asked for. */
  function Times(start: nat, events: seq<Event>): (ts: seq<nat>)
    ensures |ts| > 0
  {
    if events == [] then [start]
    else Times(start, events[..|events| - 1]) + match events[|events| - 1] case Collect(now, _) => [now] case _ => []
  }

  /** Each sample made so far goes from one of these times to the next. */
  ghost predicate Spans(b: Book, ts: seq<nat>) {
    && |ts| == |b.history| + 1 && b.lastTime == ts[|b.history|]
    && (forall i | 0 <= i < |b.history| :: b.history[i].first == ts[i])
    && (forall i | 0 <= i < |b.history| :: b.history[i].last == ts[i + 1])
  }

  lemma NextTime(b: Book, ts: seq<nat>, now: nat, grown: nat)
    requires Spans(b, ts) && Enabled(b, Collect(now, grown))
    ensures Spans(Next(b, Collect(now, grown)), ts + [now])
  {
    hide Sum, Spans;
    var s := Sample(b.lastTime, now, Sum(b.residual));
    var c := Kept(b, s, grown);
    assert c.history == b.history + [s] && c.lastTime == now;
    assert Next(b, Collect(now, grown)).history == c.history && Next(b, Collect(now, grown)).lastTime == now;
    SpansMore(b, ts, s, Next(b, Collect(now, grown)));
  }

  lemma SpansMore(b: Book, ts: seq<nat>, s: Sample, c: Book)
    requires Spans(b, ts) && s.first == b.lastTime && c.history == b.history + [s] && c.lastTime == s.last
    ensures Spans(c, ts + [s.last])
  {
  }

  lemma SpansAlike(b: Book, ts: seq<nat>, c: Book)
    requires Spans(b, ts) && c.history == b.history && c.lastTime == b.lastTime
    ensures Spans(c, ts)
  {
  }

  /** Every request makes one sample, and the samples follow each other in time. */
  lemma {:induction false} SampleTimes(start: nat, events: seq<Event>)
    requires After(start, events).Some?
    ensures Spans(After(start, events).value, Times(start, events))
  {
    hide Spans, Sum, Plus, Traffic, Kept;
    if events == [] {
      NoneSpan(start);
    } else {
      var front, e := events[..|events| - 1], events[|events| - 1];
      SampleTimes(start, front);
      if e.Collect? {
        NextTime(After(start, front).value, Times(start, front), e.now, e.grown);
      } else {
        SpansAlike(After(start, front).value, Times(start, front), After(start, events).value);
        assert Times(start, events) == Times(start, front);
      }
    }
  }

  lemma NoneSpan(start: nat)
    ensures Spans(After(start, []).value, [start])
  {
  }

  /** A new sample has the counters of all devices added up, and leaves them at zero. */
  lemma SampleExact(start: nat, events: seq<Event>, now: nat, grown: nat)
    requires After(start, events).Some? && Enabled(After(start, events).value, Collect(now, grown))
    ensures var b, c := After(start, events).value, Next(After(start, events).value, Collect(now, grown));
            var t := DeviceTotals(b.residual);
            && c.history == b.history + [Sample(b.lastTime, now, Counts(
                 t.inBytes % LIMIT, t.inMessages % LIMIT, t.outBytes % LIMIT, t.outMessages % LIMIT))]
            && c.kept != [] && c.kept[|c.kept| - 1] == c.history[|b.history|]
            && c.residual.Keys == b.residual.Keys && forall d | d in c.residual :: c.residual[d] == Counts(0, 0, 0, 0)
  {
    DevicesShow(After(start, events).value.residual);
    hide Sum, DeviceTotals, After;
  }

  /** The samples kept are always the latest, all of them or at least a thousand, and they
      cover time without a gap. */
  lemma {:induction false} WindowIsRecent(start: nat, events: seq<Event>)
    requires After(start, events).Some?
    ensures Recent(After(start, events).value) && Gapless(After(start, events).value)
    ensures var b := After(start, events).value; |b.kept| >= 1000 || b.kept == b.history
  {
    if events != [] {
      WindowIsRecent(start, events[..|events| - 1]);
      NextRecent(After(start, events[..|events| - 1]).value, events[|events| - 1]);
    }
  }

  /** The capacities that samples bring along for a slice that is full, sample by sample. */
  function Growths(events: seq<Event>): seq<nat> {
    if events == [] then []
    else
      Growths(events[..|events| - 1]) +
      match events[|events| - 1] case Collect(_, grown) => [grown] case _ => []
  }

  /** Some sample after the first thousand, and not the last, made room for more than a thousand. */
  predicate Outgrown(growths: seq<nat>) {
    exists k :: WINDOW <= k < |growths| - 1 && growths[k] > WINDOW
  }

  predicate Roomy(growths: seq<nat>) {
    exists k :: WINDOW <= k < |growths| && growths[k] > WINDOW
  }

  lemma GrowthsSnoc(gs: seq<nat>, g: nat)
    ensures Outgrown(gs + [g]) <==> Roomy(gs)
    ensures Roomy(gs + [g]) <==> Roomy(gs) || (|gs| >= WINDOW && g > WINDOW)
  {
    var hs := gs + [g];
    assert hs[|gs|] == g && forall k | 0 <= k < |gs| :: hs[k] == gs[k];
    if Roomy(gs) {
      var k :| WINDOW <= k < |gs| && gs[k] > WINDOW;
      assert hs[k] > WINDOW;
    }
  }

  /** The samples kept, counted: as long as they are at most a thousand, there is room for
      more exactly if some growth made it. */
  ghost predicate Counted(b: Book, growths: seq<nat>) {
    && |growths| == |b.history| && (|b.kept| > WINDOW <==> Outgrown(growths))
    && (|b.kept| <= WINDOW ==> (b.capacity > WINDOW <==> Roomy(growths)))
  }

  lemma NextCounted(b: Book, now: nat, grown: nat, gs: seq<nat>)
    requires Recent(b) && Counted(b, gs) && Enabled(b, Collect(now, grown))
    ensures Counted(Next(b, Collect(now, grown)), gs + [grown])
  {
    GrowthsSnoc(gs, grown);
    assert Outgrown(gs) ==> Roomy(gs);
    hide Sum;
  }

  lemma OtherCounted(b: Book, e: Event, gs: seq<nat>)
    requires Counted(b, gs) && Enabled(b, e) && !e.Collect?
    ensures Counted(Next(b, e), gs + [])
  {
    assert gs + [] == gs;
    hide Outgrown, Roomy, Sum, Plus, Traffic;
  }

  lemma {:induction false} RunCounted(start: nat, events: seq<Event>)
    requires After(start, events).Some?
    ensures Counted(After(start, events).value, Growths(events))
  {
    hide Counted, Recent, Gapless, Next, Enabled;
    if events == [] {
      NoneCounted(start);
    } else {
      var front, e := events[..|events| - 1], events[|events| - 1];
      RunCounted(start, front);
      WindowIsRecent(start, front);
      if e.Collect? {
        NextCounted(After(start, front).value, e.now, e.grown, Growths(front));
      } else {
        OtherCounted(After(start, front).value, e, Growths(front));
      }
    }
  }

  lemma NoneCounted(start: nat)
    ensures Counted(After(start, []).value, [])
  {
  }

  /** More than a thousand samples are kept exactly if one after the first thousand, and not
      the last, found the slice grow beyond a thousand; once so, always so. */
  lemma WindowOutgrown(start: nat, events: seq<Event>)
    requires After(start, events).Some?
    ensures |After(start, events).value.kept| > WINDOW <==> Outgrown(Growths(events))
  {
    RunCounted(start, events);
  }

  /** Nothing but samples, the slice growing to 1001 whenever it is full. */
  function OnlySamples(n: nat): seq<Event> {
    seq(n, i requires 0 <= i < n => Collect(i, WINDOW + 1))
  }

  /** Such a run keeps 1001 samples after 1002 were made. */
  lemma {:induction false} SamplesOverflow(start: nat, n: nat)
    requires n <= WINDOW + 2
    ensures var a := After(start, OnlySamples(n));
            && a.Some? && |a.value.history| == n
            && |a.value.kept| == (if n <= WINDOW then n else n - 1)
            && a.value.capacity == (if n <= WINDOW then WINDOW else WINDOW + 1)
  {
    if n > 0 {
      SamplesOverflow(start, n - 1);
      assert OnlySamples(n)[..n - 1] == OnlySamples(n - 1);
      hide Sum;
    }
  }

  // ---- Counters and collector

  class IOStats {
    var inBytes: Word
    var inMessages: Word
    var outBytes: Word
    var outMessages: Word

    constructor ()
      ensures Value() == ZERO
    {
      inBytes, inMessages, outBytes, outMessages := 0, 0, 0, 0;
    }

    function Value(): Counts
      reads this
    {
      Counts(inBytes, inMessages, outBytes, outMessages)
    }

    method UpdateIOStats(byteCount: int, input: bool)
      modifies this
      ensures Value() == Plus(old(Value()), Traffic(byteCount, input))
      ensures input ==>
                && inBytes == (old(inBytes) + byteCount) % LIMIT && inMessages == (old(inMessages) + 1) % LIMIT
                && outBytes == old(outBytes) && outMessages == old(outMessages)
      ensures !input ==>
                && outBytes == (old(outBytes) + byteCount) % LIMIT && outMessages == (old(outMessages) + 1) % LIMIT
                && inBytes == old(inBytes) && inMessages == old(inMessages)
    {
      WrapBytes(inBytes, inBytes, byteCount);
      WrapBytes(outBytes, outBytes, byteCount);
      FeedAdds(Value(), byteCount, input);
      hide Plus, Traffic;
      if input {
        inMessages := Wrap(inMessages + 1);
        inBytes := Wrap(inBytes + Wrap(byteCount));
      } else {
        outMessages := Wrap(outMessages + 1);
        outBytes := Wrap(outBytes + Wrap(byteCount));
      }
    }

    method AddAndResetStats(total: IOStats)
      requires total != this
      modifies this, total
      ensures total.Value() == Plus(old(total.Value()), old(Value())) && Value() == ZERO
    {
      total.inBytes := Wrap(total.inBytes + inBytes);
      total.inMessages := Wrap(total.inMessages + inMessages);
      total.outBytes := Wrap(total.outBytes + outBytes);
      total.outMessages := Wrap(total.outMessages + outMessages);
      inBytes, inMessages, outBytes, outMessages := 0, 0, 0, 0;
    }
  }

  /** What has been swept up while some devices are left, and how the devices then stand. */
  ghost function Swept(m: map<string, Counts>, rest: set<string>): map<string, Counts> {
    map d | d in m && d !in rest :: m[d]
  }

  ghost function PartlySwept(m: map<string, Counts>, rest: set<string>): map<string, Counts> {
    map d | d in m :: if d in rest then m[d] else ZERO
  }

  lemma SweepStart(m: map<string, Counts>)
    ensures Sum(Swept(m, m.Keys)) == ZERO && PartlySwept(m, m.Keys) == m
    ensures Swept(m, {}) == m && PartlySwept(m, {}) == map d | d in m :: ZERO
  {
    assert Swept(m, m.Keys) == map[];
  }

  lemma SweptMore(m: map<string, Counts>, rest: set<string>, d: string)
    requires d in rest && rest <= m.Keys
    ensures Sum(Swept(m, rest - {d})) == Plus(Sum(Swept(m, rest)), m[d])
    ensures d in PartlySwept(m, rest) && PartlySwept(m, rest)[d] == m[d]
    ensures PartlySwept(m, rest - {d}) == PartlySwept(m, rest)[d := ZERO]
  {
    assert Swept(m, rest - {d}) - {d} == Swept(m, rest);
    SumSplit(Swept(m, rest - {d}), d);
    hide Sum, Plus;
  }

  class StatsCollector {
    var devices: map<string, IOStats>
    var stats: seq<Sample>
    var capacity: nat
    var lastTime: nat
    ghost var history: seq<Sample>
    ghost var lost: Counts
    ghost var fed: Counts
    ghost var Repr: set<IOStats>            // the counters of all devices there have been

    constructor (now: nat)
      ensures Valid() && fresh(Repr) && Some(State()) == After(now, [])
    {
      devices, stats, capacity, lastTime := map[], [], WINDOW, now;
      history, lost, fed, Repr := [], ZERO, ZERO, {};
    }

    /** No two devices share their counters. */
    ghost predicate Valid()
      reads this
    {
      && (forall d | d in devices :: devices[d] in Repr)
      && forall c, d | c in devices && d in devices && c != d :: devices[c] != devices[d]
    }

    ghost function Residual(): map<string, Counts>
      requires Valid()
      reads this, Repr
    {
      map d | d in devices :: devices[d].Value()
    }

    ghost function State(): Book
      requires Valid()
      reads this, Repr
    {
      Book(Residual(), history, stats, capacity, lastTime, lost, fed)
    }

    method AddDevice(id: string)
      requires Valid()
      modifies this`devices, this`Repr
      ensures Valid() && fresh(Repr - old(Repr)) && State() == Next(old(State()), Event.AddDevice(id))
    {
      if id !in devices {
        var io := new IOStats();
        devices, Repr := devices[id := io], Repr + {io};
        assert Residual() == old(Residual())[id := ZERO];
      }
    }

    method RemoveDevice(id: string)
      requires Valid()
      modifies this`devices, this`lost
      ensures Valid() && State() == Next(old(State()), Event.RemoveDevice(id))
    {
      if id in devices {
        lost := Plus(lost, devices[id].Value());
        devices := devices - {id};
        assert Residual() == old(Residual()) - {id};
      }
    }

    method UpdateIOStats(id: string, byteCount: int, input: bool)
      requires Valid() && id in devices
      modifies devices[id], this`fed
      ensures Valid() && State() == Next(old(State()), Feed(id, byteCount, input))
    {
      devices[id].UpdateIOStats(byteCount, input);
      fed := Plus(fed, Traffic(byteCount, input));
      assert Residual() == old(Residual())[id := Plus(old(Residual())[id], Traffic(byteCount, input))];
    }

    /** Some devices are left to be swept up; the others are, into the total. */
    ghost predicate Sweeping(before: map<string, Counts>, rest: set<string>, total: IOStats)
      reads this, Repr, total
    {
      && Valid() && total !in Repr && rest <= devices.Keys == before.Keys
      && Residual() == PartlySwept(before, rest) && total.Value() == Sum(Swept(before, rest))
    }

    twostate lemma OneReset(id: string)
      requires old(Valid()) && Valid() && id in devices && unchanged(this) && devices[id].Value() == ZERO
      requires forall d | d in devices && d != id :: unchanged(devices[d])
      ensures Residual() == old(Residual())[id := ZERO]
    {
      assert forall d | d in devices && d != id :: devices[d].Value() == old(devices[d].Value());
    }

    method ResetInto(id: string, total: IOStats)
      requires Valid() && id in devices && total !in Repr
      modifies devices[id], total
      ensures total.Value() == Plus(old(total.Value()), old(Residual())[id])
      ensures unchanged(this) && Valid() && Residual() == old(Residual())[id := ZERO]
    {
      assert devices[id].Value() == Residual()[id];
      hide Plus;
      devices[id].AddAndResetStats(total);
      OneReset(id);
    }

    method SweepOne(id: string, total: IOStats, ghost before: map<string, Counts>, ghost rest: set<string>)
      requires Sweeping(before, rest, total) && id in rest
      modifies devices[id], total
      ensures unchanged(this) && Sweeping(before, rest - {id}, total)
    {
      SweptMore(before, rest, id);
      hide Sum, Plus, Swept, PartlySwept, Valid, Residual;
      ResetInto(id, total);
    }

    /** Sweeps all devices up, in no particular order. */
    method SweepUp(total: IOStats)
      requires Valid() && total !in Repr && total.Value() == ZERO
      modifies Repr, total
      ensures unchanged(this) && Valid() && Sweeping(old(Residual()), {}, total)
    {
      var rest := devices.Keys;
      ghost var before := Residual();
      SweepStart(before);
      assert before.Keys == rest && Sweeping(before, rest, total);
      hide *;
      while rest != {}
        invariant unchanged(this) && rest <= devices.Keys && Sweeping(before, rest, total)
      {
        var d :| d in rest;
        SweepOne(d, total, before, rest);
        rest := rest - {d};
      }
    }

    /** Appends a sample; one is dropped at the front if the slice is full. */
    method Keep(sample: Sample, grown: nat)
      requires Valid() && (|stats| < capacity || grown >= |stats|)
      modifies this`stats, this`capacity, this`lastTime, this`history
      ensures Valid() && Residual() == old(Residual())
      ensures State() == Kept(old(State()), sample, grown)
    {
      if |stats| < capacity {
        stats := stats + [sample];
      } else {
        stats := (if stats == [] then stats else stats[1..]) + [sample];
        capacity := grown;
      }
      lastTime := sample.last;
      history := history + [sample];
    }

    method CreateSample(now: nat, grown: nat)
      requires Valid() && (|stats| < capacity || grown >= |stats|)
      modifies this, Repr
      ensures Valid() && Repr == old(Repr) && State() == Next(old(State()), Collect(now, grown))
    {
      ghost var before := Residual();
      var total := new IOStats();
      SweepUp(total);
      SweepStart(before);
      assert total.Value() == Sum(before) && Residual() == map d | d in before :: ZERO;
      hide Sum, Swept, PartlySwept, Plus, Sweeping;
      Keep(Sample(lastTime, now, total.Value()), grown);
    }
  }
}
