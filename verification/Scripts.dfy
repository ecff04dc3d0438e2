/** What running a script of builder steps produces, for every script: which ports each
    device gives out, and exactly when the resulting topology loads.

    The allocator is analysed once and for all here; recipes then only have to count. */
module Scripts {
  import opened Text
  import opened Schema
  import opened TopologyBuilder

  // ---- Reading a script

  /** The devices a script creates. */
  function Switches(s: Script): set<string> {
    match s
    case Skip => {}
    case Do(Switch(id, _, _)) => {id}
    case Do(_) => {}
    case Then(x, y) => Switches(x) + Switches(y)
  }

  /** The hosts a script creates. */
  function HostNames(s: Script): set<string> {
    match s
    case Skip => {}
    case Do(Vm(h, _, _)) => {h}
    case Do(Server(h)) => {h}
    case Do(_) => {}
    case Then(x, y) => HostNames(x) + HostNames(y)
  }

  /** The devices that the unfinished host has an interface on. */
  function Pending(p: set<string>, s: Script): set<string>
    decreases s
  {
    match s
    case Skip => p
    case Do(Nic(_, dev)) => p + {dev}
    case Do(Server(_)) => {}
    case Do(_) => p
    case Then(x, y) => Pending(Pending(p, x), y)
  }

  /** How many ports of a device a script takes. */
  function Demand(s: Script, d: string): nat {
    match s
    case Skip => 0
    case Do(Cable(src, tgt)) => (if src == d then 1 else 0) + (if tgt == d then 1 else 0)
    case Do(Nic(_, dev)) => if dev == d then 1 else 0
    case Do(Vm(_, _, dev)) => if dev == d then 1 else 0
    case Do(_) => 0
    case Then(x, y) => Demand(x, d) + Demand(y, d)
  }

  /** The number of ports a device is created with, and how many of them are reserved. */
  function PortCount(s: Script, d: string): nat {
    match s
    case Do(Switch(id, n, _)) => if id == d then n else 0
    case Then(x, y) => if d in Switches(x) then PortCount(x, d) else PortCount(y, d)
    case _ => 0
  }

  function Reserved(s: Script, d: string): nat {
    match s
    case Do(Switch(id, _, reserved)) => if id == d && reserved.Some? then reserved.value else 0
    case Then(x, y) => if d in Switches(x) then Reserved(x, d) else Reserved(y, d)
    case _ => 0
  }

  predicate Latches(s: Script, d: string) {
    match s
    case Do(Latch(id)) => id == d
    case Then(x, y) => Latches(x, d) || Latches(y, d)
    case _ => false
  }

  /** The numbers of the ports of a device given out while a script runs, in order. */
  function Drawn(b: Build, s: Script, d: string): seq<nat>
    decreases s
  {
    match s
    case Skip => []
    case Do(Cable(src, tgt)) =>
      (if src == d then [Upcoming(b.nextPort, d)] else []) +
      (if tgt == d then [Upcoming(Advance(b, src).nextPort, d)] else [])
    case Do(Nic(_, dev)) => if dev == d then [Upcoming(b.nextPort, d)] else []
    case Do(Vm(_, _, dev)) => if dev == d then [Upcoming(b.nextPort, d)] else []
    case Do(_) => []
    case Then(x, y) => Drawn(b, x, d) + Drawn(Run(b, x), y, d)
  }

  lemma DrawnLength(b: Build, s: Script, d: string)
    ensures |Drawn(b, s, d)| == Demand(s, d)
    decreases s
  {
    if s.Then? {
      DrawnLength(b, s.first, d);
      DrawnLength(Run(b, s.first), s.second, d);
    }
  }

  // ---- The allocator in closed form

  /** The `n` ports from position `a` on, going round a device of `m` ports. */
  function Cycle(m: nat, a: nat, n: nat): seq<nat>
    requires m > 0
  {
    seq(n, j requires 0 <= j => 1 + (a + j) % m)
  }

  /** One allocation moves one position on: between a minimum and a maximum the
      allocator counts modulo the width of the window. */
  lemma WindowStep(min: nat, max: nat, q: nat)
    requires min <= max
    ensures var w := max - min + 1; Successor(min + q % w, min, max) == min + (q + 1) % w
  {
    var w := max - min + 1;
    ModStep(q, w);
  }

  lemma ModStep(q: nat, w: nat)
    requires w > 0
    ensures (q + 1) % w == if q % w == w - 1 then 0 else q % w + 1
  {
    var k, r := q / w, q % w;
    assert q + 1 == k * w + (r + 1);
    if r == w - 1 {
      assert q + 1 == (k + 1) * w;
      ModUnique(q + 1, w, k + 1, 0);
    } else {
      ModUnique(q + 1, w, k, r + 1);
    }
  }

  lemma ModUnique(x: nat, w: nat, k: nat, r: nat)
    requires w > 0 && r < w && x == k * w + r
    ensures x % w == r
  {
    var d: int := x / w - k;
    assert d * w == r - x % w;
    NoMultipleBetween(d, w);
    NoMultipleBetween(-d, w);
  }

  lemma NoMultipleBetween(k: int, w: nat)
    ensures !(0 < k * w < w)
  {
    if k >= 1 {
      assert (k - 1) * w >= 0;
    }
  }

  lemma ModDistinct(x: nat, y: nat, w: nat)
    requires w > 0 && x < y < x + w
    ensures x % w != y % w
  {
    var k: int := y / w - x / w;
    assert k * w == (y - y % w) - (x - x % w);
    NoMultipleBetween(k, w);
  }

  /** The state of the allocator of one device after `k` allocations. */
  function Draws(next: nat, min: nat, max: nat, k: nat): nat {
    if k == 0 then next else Successor(Draws(next, min, max, k - 1), min, max)
  }

  /** The k-th port given out: the window from the minimum to the maximum is gone round
      again and again, from wherever allocation starts. */
  lemma {:induction false} AllocatorClosedForm(next: nat, min: nat, max: nat, k: nat)
    requires min <= next <= max
    ensures Draws(next, min, max, k) == min + (next - min + k) % (max - min + 1)
  {
    var w := max - min + 1;
    if k == 0 {
      ModUnique(next - min, w, 0, next - min);
    } else {
      AllocatorClosedForm(next, min, max, k - 1);
      WindowStep(min, max, next - min + k - 1);
    }
  }

  lemma CycleConcat(m: nat, a: nat, n: nat, k: nat)
    requires m > 0
    ensures Cycle(m, a, n) + Cycle(m, a + n, k) == Cycle(m, a, n + k)
  {
    var v, w := Cycle(m, a + n, k), Cycle(m, a, n + k);
    forall j | 0 <= j < k
      ensures v[j] == w[n + j]
    {
      assert (a + n) + j == a + (n + j);
    }
  }

  /** Positions less than one round apart get different ports. */
  lemma CycleDistinct(m: nat, a: nat, n: nat)
    requires m > 0 && n <= m
    ensures forall i, j | 0 <= i < j < n :: Cycle(m, a, n)[i] != Cycle(m, a, n)[j]
  {
    forall i, j | 0 <= i < j < n
      ensures Cycle(m, a, n)[i] != Cycle(m, a, n)[j]
    {
      ModDistinct(a + i, a + j, m);
    }
  }

  /** Where the allocator of a device stands: about to give out position `a`. */
  predicate Standing(b: Build, d: string, m: nat, a: nat)
    requires m > 0
  {
    At(b.maxPort, d) == m && Upcoming(b.nextPort, d) == 1 + a % m
  }

  lemma AdvanceStanding(b: Build, d: string, e: string, m: nat, a: nat)
    requires m > 0 && Standing(b, d, m, a)
    requires e == d ==> At(b.minPort, d) == 1 || a + 1 < m
    ensures Standing(Advance(b, e), d, m, if e == d then a + 1 else a)
  {
    if e == d {
      WindowStep(1, m, a);
      if a + 1 < m {
        ModUnique(a, m, 0, a);
        ModUnique(a + 1, m, 0, a + 1);
      }
    }
  }

  /** The allocator may go on past the end: its minimum is 1 and stays so. */
  predicate Wraps(b: Build, s: Script, d: string) {
    At(b.minPort, d) == 1 && !Latches(s, d)
  }

  lemma DrawnBySkip(b: Build, d: string, m: nat, a: nat)
    requires m > 0
    ensures Drawn(b, Skip, d) == Cycle(m, a, 0) && Demand(Skip, d) == 0 && Run(b, Skip) == b
  {
  }

  lemma DrawnByStep(b: Build, t: Step, d: string, m: nat, a: nat)
    requires m > 0 && d !in Switches(Do(t)) && Standing(b, d, m, a)
    requires Wraps(b, Do(t), d) || a + Demand(Do(t), d) <= m
    ensures Drawn(b, Do(t), d) == Cycle(m, a, Demand(Do(t), d))
    ensures Wraps(b, Do(t), d) || a + Demand(Do(t), d) < m ==> Standing(Run(b, Do(t)), d, m, a + Demand(Do(t), d))
  {
    hide *;
    match t
    case Cable(src, tgt) => DrawnByCable(b, d, src, tgt, m, a);
    case Nic(_, dev) => DrawnAtOnce(b, t, dev, d, m, a);
    case Vm(_, _, dev) => DrawnAtOnce(b, t, dev, d, m, a);
    case _ => DrawnNowhere(b, t, d, m, a);
  }

  lemma DrawnNowhere(b: Build, t: Step, d: string, m: nat, a: nat)
    requires m > 0 && d !in Switches(Do(t)) && Standing(b, d, m, a) && !t.Cable? && !t.Nic? && !t.Vm?
    ensures Drawn(b, Do(t), d) == Cycle(m, a, Demand(Do(t), d))
    ensures Standing(Run(b, Do(t)), d, m, a + Demand(Do(t), d))
  {
    hide Successor;
  }

  lemma DrawnAtOnce(b: Build, t: Step, dev: string, d: string, m: nat, a: nat)
    requires m > 0 && Standing(b, d, m, a) && (t.Nic? || t.Vm?) && t.dev == dev
    requires Wraps(b, Do(t), d) || a + Demand(Do(t), d) <= m
    ensures Drawn(b, Do(t), d) == Cycle(m, a, Demand(Do(t), d))
    ensures Wraps(b, Do(t), d) || a + Demand(Do(t), d) < m ==> Standing(Run(b, Do(t)), d, m, a + Demand(Do(t), d))
  {
    OncePort(b, t, dev, d);
    FirstOfCycle(m, a);
    hide Successor, Drawn, Run, Demand, Cycle, At;
    if dev == d ==> At(b.minPort, d) == 1 || a + 1 < m {
      AdvanceStanding(b, d, dev, m, a);
    }
  }

  lemma OncePort(b: Build, t: Step, dev: string, d: string)
    requires (t.Nic? || t.Vm?) && t.dev == dev
    ensures Drawn(b, Do(t), d) == (if dev == d then [Upcoming(b.nextPort, d)] else [])
    ensures Demand(Do(t), d) == (if dev == d then 1 else 0) && (Wraps(b, Do(t), d) <==> At(b.minPort, d) == 1)
    ensures Run(b, Do(t)).nextPort == Advance(b, dev).nextPort && Run(b, Do(t)).maxPort == Advance(b, dev).maxPort
  {
  }

  lemma FirstOfCycle(m: nat, a: nat)
    requires m > 0
    ensures Cycle(m, a, 0) == [] && Cycle(m, a, 1) == [1 + a % m]
  {
  }

  lemma CablePorts(b: Build, src: string, tgt: string, d: string)
    ensures var t, b1 := Cable(src, tgt), Advance(b, src);
            && Drawn(b, Do(t), d) == (if src == d then [Upcoming(b.nextPort, d)] else []) + (if tgt == d then [Upcoming(b1.nextPort, d)] else [])
            && Demand(Do(t), d) == (if src == d then 1 else 0) + (if tgt == d then 1 else 0)
            && (Wraps(b, Do(t), d) <==> At(b.minPort, d) == 1) && At(b1.minPort, d) == At(b.minPort, d)
            && Run(b, Do(t)).nextPort == Advance(b1, tgt).nextPort && Run(b, Do(t)).maxPort == Advance(b1, tgt).maxPort
  {
    hide Successor;
  }

  lemma DrawnByCable(b: Build, d: string, src: string, tgt: string, m: nat, a: nat)
    requires m > 0 && Standing(b, d, m, a)
    requires Wraps(b, Do(Cable(src, tgt)), d) || a + Demand(Do(Cable(src, tgt)), d) <= m
    ensures var t := Cable(src, tgt);
            && Drawn(b, Do(t), d) == Cycle(m, a, Demand(Do(t), d))
            && (Wraps(b, Do(t), d) || a + Demand(Do(t), d) < m ==> Standing(Run(b, Do(t)), d, m, a + Demand(Do(t), d)))
  {
    CablePorts(b, src, tgt, d);
    FirstOfCycle(m, a);
    FirstOfCycle(m, a + 1);
    CycleConcat(m, a, 1, 1);
    hide Successor, Drawn, Run, Demand, Cycle, At, Wraps, Advance;
    var a1 := if src == d then a + 1 else a;
    if src == d ==> At(b.minPort, d) == 1 || a + 1 < m {
      AdvanceStanding(b, d, src, m, a);
      if tgt == d ==> At(b.minPort, d) == 1 || a1 + 1 < m {
        AdvanceStanding(Advance(b, src), d, tgt, m, a1);
      }
    }
  }

  /** A script leaves the bounds of existing devices alone, except for latching a minimum. */
  lemma BoundsKept(b: Build, s: Script, d: string)
    requires d !in Switches(s)
    ensures At(Run(b, s).maxPort, d) == At(b.maxPort, d)
    ensures !Latches(s, d) ==> At(Run(b, s).minPort, d) == At(b.minPort, d)
    decreases s
  {
    if s.Then? {
      BoundsKept(b, s.first, d);
      BoundsKept(Run(b, s.first), s.second, d);
    }
  }

  /** A script that takes no port of a device leaves its allocator where it stands. */
  lemma {:induction false} NothingDrawn(b: Build, s: Script, d: string)
    requires d !in Switches(s) && Demand(s, d) == 0
    ensures Upcoming(Run(b, s).nextPort, d) == Upcoming(b.nextPort, d)
    ensures d in Run(b, s).nextPort <==> d in b.nextPort
    decreases s
  {
    match s
    case Skip =>
    case Do(t) => NothingTaken(b, t, d);
    case Then(x, y) =>
      NothingDrawn(b, x, d);
      NothingDrawn(Run(b, x), y, d);
  }

  lemma NothingTaken(b: Build, t: Step, d: string)
    requires d !in Switches(Do(t)) && Demand(Do(t), d) == 0
    ensures Upcoming(Apply(b, t).nextPort, d) == Upcoming(b.nextPort, d)
    ensures d in Apply(b, t).nextPort <==> d in b.nextPort
  {
    hide Successor, MakeNic;
  }

  /** A script draws consecutive positions of every device that exists: for good while
      the minimum stays 1, and within the first round whatever the minimum is. */
  lemma {:induction false} DrawnFrom(b: Build, s: Script, d: string, m: nat, a: nat)
    requires m > 0 && d !in Switches(s) && Standing(b, d, m, a)
    requires Wraps(b, s, d) || a + Demand(s, d) <= m
    ensures Drawn(b, s, d) == Cycle(m, a, Demand(s, d))
    ensures Wraps(b, s, d) || a + Demand(s, d) < m ==> Standing(Run(b, s), d, m, a + Demand(s, d))
    decreases s
  {
    hide Switches, Demand, Latches, Drawn, Run, Standing, Cycle, At, Apply;
    match s
    case Skip => DrawnBySkip(b, d, m, a);
    case Do(t) => DrawnByStep(b, t, d, m, a);
    case Then(x, y) =>
      InTurn(NOTHING, b, x, y, d);
      BoundsKept(b, x, d);
      DrawnFrom(b, x, d, m, a);
      DrawnLength(Run(b, x), y, d);
      CycleConcat(m, a, Demand(x, d), Demand(y, d));
      if Wraps(b, x, d) || a + Demand(x, d) < m {
        DrawnFrom(Run(b, x), y, d, m, a + Demand(x, d));
      } else {
        assert Demand(y, d) == 0;
        assert Drawn(Run(b, x), y, d) == [];
      }
  }

  // ---- Scripts that make sense

  /** What exists when a script starts: devices, hosts, and the devices which the
      unfinished host has interfaces on. */
  datatype Context = Context(devices: set<string>, hosts: set<string>, pending: set<string>)

  function After(c: Context, s: Script): Context {
    Context(c.devices + Switches(s), c.hosts + HostNames(s), Pending(c.pending, s))
  }

  /** Device names are new when used for a device and then stay; hosts have new names and
      interfaces on different devices; names hold no slash or colon. */
  predicate Legal(c: Context, s: Script)
    decreases s
  {
    match s
    case Skip => true
    case Do(Switch(id, _, _)) => id !in c.devices && '/' !in id && ':' !in id
    case Do(Cable(src, tgt)) => src in c.devices && tgt in c.devices
    case Do(Latch(id)) => id in c.devices
    case Do(Nic(_, dev)) => dev in c.devices && dev !in c.pending
    case Do(Vm(h, _, dev)) => dev in c.devices && h !in c.hosts
    case Do(Server(h)) => h !in c.hosts
    case Then(x, y) => Legal(c, x) && Legal(After(c, x), y)
  }

  const NOTHING := Context({}, {}, {})

  /** A script that makes a complete topology from nothing. */
  predicate Complete(s: Script) {
    Legal(NOTHING, s) && Pending({}, s) == {}
  }

  lemma LegalDemand(c: Context, s: Script, d: string)
    requires Legal(c, s) && d !in c.devices && d !in Switches(s)
    ensures Demand(s, d) == 0
    decreases s
  {
    if s.Then? {
      LegalDemand(c, s.first, d);
      LegalDemand(After(c, s.first), s.second, d);
    }
  }

  lemma SwitchesNew(c: Context, s: Script)
    requires Legal(c, s)
    ensures c.devices !! Switches(s)
    decreases s
  {
    if s.Then? {
      SwitchesNew(c, s.first);
      SwitchesNew(After(c, s.first), s.second);
    }
  }

  lemma AbsentDevice(c: Context, b: Build, s: Script, d: string)
    requires Legal(c, s) && d !in c.devices && d !in Switches(s)
    ensures Demand(s, d) == 0 && !Latches(s, d) && Drawn(b, s, d) == []
    ensures d !in b.nextPort ==> d !in Run(b, s).nextPort
  {
    LegalDemand(c, s, d);
    DrawnLength(b, s, d);
    NothingDrawn(b, s, d);
    LegalLatches(c, s, d);
  }

  lemma FreshDevice(c: Context, b: Build, s: Script, d: string)
    requires s.Do? && Legal(c, s) && d in Switches(s) && d !in b.nextPort && Reserved(s, d) < PortCount(s, d)
    ensures Demand(s, d) == 0 && !Latches(s, d) && Drawn(b, s, d) == Cycle(PortCount(s, d), Reserved(s, d), 0)
    ensures Standing(Run(b, s), d, PortCount(s, d), Reserved(s, d)) && At(Run(b, s).minPort, d) == 1
  {
    ModUnique(Reserved(s, d), PortCount(s, d), 0, Reserved(s, d));
  }

  /** The ports a device gives out over a whole script: from the first one that is not
      reserved, round and round while the minimum stays 1. */
  lemma {:induction false} DrawnOverall(c: Context, b: Build, s: Script, d: string)
    requires Legal(c, s) && d in Switches(s) && d !in b.nextPort
    requires Reserved(s, d) < PortCount(s, d)
    requires !Latches(s, d) || Reserved(s, d) + Demand(s, d) <= PortCount(s, d)
    ensures Drawn(b, s, d) == Cycle(PortCount(s, d), Reserved(s, d), Demand(s, d))
    ensures var m, a := PortCount(s, d), Reserved(s, d) + Demand(s, d);
            !Latches(s, d) || a < m ==> Standing(Run(b, s), d, m, a) && (!Latches(s, d) ==> At(Run(b, s).minPort, d) == 1)
    decreases s
  {
    hide *;
    match s
    case Skip =>
      NoDevice(d);
    case Do(_) =>
      FreshDevice(c, b, s, d);
    case Then(x, y) =>
      InTurn(c, b, x, y, d);
      SwitchesNew(c, s);
      SwitchesNew(After(c, x), y);
      if d in Switches(x) {
        DrawnOverall(c, b, x, d);
        DrawnOn(b, x, y, d, PortCount(s, d), Reserved(s, d));
      } else {
        AbsentDevice(c, b, x, d);
        DrawnOverall(After(c, x), Run(b, x), y, d);
      }
  }

  lemma NoDevice(d: string)
    ensures d !in Switches(Skip)
  {
  }

  lemma InTurn(c: Context, b: Build, x: Script, y: Script, d: string)
    ensures Legal(c, Then(x, y)) <==> Legal(c, x) && Legal(After(c, x), y)
    ensures Switches(Then(x, y)) == Switches(x) + Switches(y) && After(c, x).devices == c.devices + Switches(x)
    ensures PortCount(Then(x, y), d) == if d in Switches(x) then PortCount(x, d) else PortCount(y, d)
    ensures Reserved(Then(x, y), d) == if d in Switches(x) then Reserved(x, d) else Reserved(y, d)
    ensures Demand(Then(x, y), d) == Demand(x, d) + Demand(y, d)
    ensures Latches(Then(x, y), d) <==> Latches(x, d) || Latches(y, d)
    ensures Drawn(b, Then(x, y), d) == Drawn(b, x, d) + Drawn(Run(b, x), y, d) && Run(b, Then(x, y)) == Run(Run(b, x), y)
  {
  }

  // ---- Past a latch

  lemma DrawsAdd(next: nat, min: nat, max: nat, j: nat, k: nat)
    ensures Draws(Draws(next, min, max, j), min, max, k) == Draws(next, min, max, j + k)
  {
    if k > 0 {
      DrawsAdd(next, min, max, j, k - 1);
    }
  }

  /** What the allocator of a device gives out in `n` allocations. */
  function Yield(next: nat, min: nat, max: nat, n: nat): seq<nat> {
    seq(n, k requires 0 <= k => Draws(next, min, max, k))
  }

  lemma YieldConcat(next: nat, min: nat, max: nat, n: nat, k: nat)
    ensures Yield(next, min, max, n) + Yield(Draws(next, min, max, n), min, max, k) == Yield(next, min, max, n + k)
  {
    forall j | 0 <= j < k
      ensures Yield(Draws(next, min, max, n), min, max, k)[j] == Yield(next, min, max, n + k)[n + j]
    {
      DrawsAdd(next, min, max, n, j);
    }
  }

  /** The state of a device's allocator. */
  predicate AllocatorAt(b: Build, d: string, next: nat, min: nat, max: nat) {
    Upcoming(b.nextPort, d) == next && At(b.minPort, d) == min && At(b.maxPort, d) == max
  }

  lemma StepDraws(b: Build, t: Step, d: string, next: nat, min: nat, max: nat)
    requires d !in Switches(Do(t)) && !Latches(Do(t), d) && AllocatorAt(b, d, next, min, max)
    ensures Drawn(b, Do(t), d) == Yield(next, min, max, Demand(Do(t), d))
    ensures AllocatorAt(Run(b, Do(t)), d, Draws(next, min, max, Demand(Do(t), d)), min, max)
  {
    hide *;
    match t
    case Cable(src, tgt) => CableDraws(b, src, tgt, d, next, min, max);
    case Nic(_, dev) => OnceDraws(b, t, dev, d, next, min, max);
    case Vm(_, _, dev) => OnceDraws(b, t, dev, d, next, min, max);
    case _ => NothingDraws(b, t, d, next, min, max);
  }

  lemma NothingDraws(b: Build, t: Step, d: string, next: nat, min: nat, max: nat)
    requires d !in Switches(Do(t)) && !Latches(Do(t), d) && AllocatorAt(b, d, next, min, max)
    requires !t.Cable? && !t.Nic? && !t.Vm?
    ensures Drawn(b, Do(t), d) == Yield(next, min, max, Demand(Do(t), d))
    ensures AllocatorAt(Run(b, Do(t)), d, Draws(next, min, max, Demand(Do(t), d)), min, max)
  {
  }

  lemma FewYields(next: nat, min: nat, max: nat)
    ensures Draws(next, min, max, 0) == next && Draws(next, min, max, 1) == Successor(next, min, max)
    ensures Draws(next, min, max, 2) == Successor(Successor(next, min, max), min, max)
    ensures Yield(next, min, max, 0) == [] && Yield(next, min, max, 1) == [next]
    ensures Yield(next, min, max, 2) == [next] + [Successor(next, min, max)]
  {
    assert Draws(next, min, max, 1) == Successor(Draws(next, min, max, 0), min, max);
    assert Draws(next, min, max, 2) == Successor(Draws(next, min, max, 1), min, max);
    hide Successor;
  }

  lemma OnceDraws(b: Build, t: Step, dev: string, d: string, next: nat, min: nat, max: nat)
    requires (t.Nic? || t.Vm?) && t.dev == dev && AllocatorAt(b, d, next, min, max)
    ensures Drawn(b, Do(t), d) == Yield(next, min, max, Demand(Do(t), d))
    ensures AllocatorAt(Run(b, Do(t)), d, Draws(next, min, max, Demand(Do(t), d)), min, max)
  {
    FewYields(next, min, max);
    OncePort(b, t, dev, d);
    hide Successor, Yield, Draws, Drawn, Demand;
  }

  lemma CableDraws(b: Build, src: string, tgt: string, d: string, next: nat, min: nat, max: nat)
    requires AllocatorAt(b, d, next, min, max)
    ensures var t := Cable(src, tgt);
            && Drawn(b, Do(t), d) == Yield(next, min, max, Demand(Do(t), d))
            && AllocatorAt(Run(b, Do(t)), d, Draws(next, min, max, Demand(Do(t), d)), min, max)
  {
    FewYields(next, min, max);
    CablePorts(b, src, tgt, d);
    hide Successor, Yield, Draws, Drawn, Demand;
  }

  /** While a device's minimum stays, whatever it is, a script gives out just what the
      allocator yields one after the other. */
  lemma {:induction false} DrawnByAllocator(b: Build, s: Script, d: string, next: nat, min: nat, max: nat)
    requires d !in Switches(s) && !Latches(s, d) && AllocatorAt(b, d, next, min, max)
    ensures Drawn(b, s, d) == Yield(next, min, max, Demand(s, d))
    ensures AllocatorAt(Run(b, s), d, Draws(next, min, max, Demand(s, d)), min, max)
    decreases s
  {
    hide *;
    match s
    case Skip => SkipDraws(b, d, next, min, max);
    case Do(t) => StepDraws(b, t, d, next, min, max);
    case Then(x, y) =>
      InTurn(NOTHING, b, x, y, d);
      DrawnByAllocator(b, x, d, next, min, max);
      DrawnByAllocator(Run(b, x), y, d, Draws(next, min, max, Demand(x, d)), min, max);
      YieldConcat(next, min, max, Demand(x, d), Demand(y, d));
      DrawsAdd(next, min, max, Demand(x, d), Demand(y, d));
  }

  lemma SkipDraws(b: Build, d: string, next: nat, min: nat, max: nat)
    ensures Drawn(b, Skip, d) == Yield(next, min, max, 0) && Demand(Skip, d) == 0
    ensures Run(b, Skip) == b && Draws(next, min, max, 0) == next
  {
  }

  /** The ports `n` allocations take from a window. */
  function Window(next: nat, min: nat, max: nat, n: nat): seq<nat>
    requires min <= next <= max
  {
    seq(n, k requires 0 <= k => min + (next - min + k) % (max - min + 1))
  }

  lemma YieldWindow(next: nat, min: nat, max: nat, n: nat)
    requires min <= next <= max
    ensures Yield(next, min, max, n) == Window(next, min, max, n)
  {
    forall k | 0 <= k < n
      ensures Draws(next, min, max, k) == min + (next - min + k) % (max - min + 1)
    {
      AllocatorClosedForm(next, min, max, k);
    }
    hide Draws;
  }

  /** Over a whole run, a device that is never latched gives out what its allocator yields
      from the first port past the reserved ones, even if that is past the last. */
  lemma {:induction false} DrawnYield(c: Context, b: Build, s: Script, d: string)
    requires Legal(c, s) && d in Switches(s) && d !in b.nextPort && !Latches(s, d)
    ensures Drawn(b, s, d) == Yield(Reserved(s, d) + 1, 1, PortCount(s, d), Demand(s, d))
    ensures AllocatorAt(Run(b, s), d, Draws(Reserved(s, d) + 1, 1, PortCount(s, d), Demand(s, d)), 1, PortCount(s, d))
    decreases s
  {
    hide *;
    match s
    case Skip => NoDevice(d);
    case Do(_) => FreshAllocator(c, b, s, d);
    case Then(x, y) =>
      var m, next := PortCount(s, d), Reserved(s, d) + 1;
      InTurn(c, b, x, y, d);
      SwitchesNew(c, s);
      SwitchesNew(After(c, x), y);
      if d in Switches(x) {
        DrawnYield(c, b, x, d);
        DrawnByAllocator(Run(b, x), y, d, Draws(next, 1, m, Demand(x, d)), 1, m);
        YieldConcat(next, 1, m, Demand(x, d), Demand(y, d));
        DrawsAdd(next, 1, m, Demand(x, d), Demand(y, d));
      } else {
        AbsentDevice(c, b, x, d);
        DrawnYield(After(c, x), Run(b, x), y, d);
      }
  }

  lemma FreshAllocator(c: Context, b: Build, s: Script, d: string)
    requires s.Do? && Legal(c, s) && d in Switches(s) && d !in b.nextPort
    ensures Demand(s, d) == 0 && Drawn(b, s, d) == Yield(Reserved(s, d) + 1, 1, PortCount(s, d), 0)
    ensures AllocatorAt(Run(b, s), d, Draws(Reserved(s, d) + 1, 1, PortCount(s, d), 0), 1, PortCount(s, d))
  {
  }

  /** A device whose minimum is latched after a first script goes on at the port where it
      stands, and then round the window from there to its last port, however often.  If it
      has given out nothing and reserved nothing, the latch takes the minimum to be 0. */
  lemma DrawnLatched(c: Context, b: Build, x: Script, y: Script, d: string)
    requires Legal(c, x) && d in Switches(x) && d !in b.nextPort && Reserved(x, d) < PortCount(x, d)
    requires !Latches(x, d) && d !in Switches(y) && !Latches(y, d)
    ensures var s, m, low := Then(x, Then(Do(Latch(d)), y)), PortCount(x, d), At(Run(b, x).nextPort, d);
            var a := 1 + (Reserved(x, d) + Demand(x, d)) % m;
            && (low == a || (low == 0 && a == 1 && Demand(x, d) == 0))
            && Drawn(b, s, d) == Cycle(m, Reserved(x, d), Demand(x, d)) + Window(a, low, m, Demand(y, d))
  {
    hide *;
    DrawnOverall(c, b, x, d);
    StandingPort(Run(b, x), d, PortCount(x, d), Reserved(x, d) + Demand(x, d));
    Untouched(b, x, d);
    InTurn(c, b, x, Then(Do(Latch(d)), y), d);
    LatchedTail(Run(b, x), y, d);
  }

  lemma LatchedTail(b: Build, y: Script, d: string)
    requires d !in Switches(y) && !Latches(y, d) && At(b.nextPort, d) <= Upcoming(b.nextPort, d) <= At(b.maxPort, d)
    ensures Drawn(b, Then(Do(Latch(d)), y), d) ==
            Window(Upcoming(b.nextPort, d), At(b.nextPort, d), At(b.maxPort, d), Demand(y, d))
  {
    hide *;
    var next, low, m := Upcoming(b.nextPort, d), At(b.nextPort, d), At(b.maxPort, d);
    LatchedAt(b, y, d);
    DrawnByAllocator(Run(b, Do(Latch(d))), y, d, next, low, m);
    YieldWindow(next, low, m, Demand(y, d));
  }

  /** Some switch step reserves ports of the device, if only none. */
  predicate Reserving(s: Script, d: string) {
    match s
    case Do(Switch(id, _, reserved)) => id == d && reserved.Some?
    case Then(x, y) => Reserving(x, d) || Reserving(y, d)
    case _ => false
  }

  /** A device has a next port exactly once a port was given out or reserved. */
  lemma NextPortKnown(b: Build, s: Script, d: string)
    ensures d in Run(b, s).nextPort <==> d in b.nextPort || Demand(s, d) > 0 || Reserving(s, d)
    decreases s
  {
    match s
    case Skip =>
    case Do(t) => StepKnown(b, t, d);
    case Then(x, y) =>
      NextPortKnown(b, x, d);
      NextPortKnown(Run(b, x), y, d);
  }

  lemma StepKnown(b: Build, t: Step, d: string)
    ensures d in Apply(b, t).nextPort <==> d in b.nextPort || Demand(Do(t), d) > 0 || Reserving(Do(t), d)
  {
    hide Successor;
  }

  lemma DrawsPositive(next: nat, min: nat, max: nat, k: nat)
    requires next > 0 && min > 0
    ensures Draws(next, min, max, k) > 0
  {
    if k > 0 {
      DrawsPositive(next, min, max, k - 1);
    }
  }

  /** How many allocations there are in the first round from port 1. */
  function FirstRound(m: nat): nat {
    if m == 0 then 1 else m
  }

  lemma DrawsFirstRound(m: nat, k: nat)
    requires k <= FirstRound(m)
    ensures Draws(1, 0, m, k) == if k < FirstRound(m) then k + 1 else 0
  {
    if k > 0 {
      DrawsFirstRound(m, k - 1);
    }
  }

  /** From port 1, with the minimum at 0, port 0 comes up exactly after the first round. */
  lemma YieldZero(next: nat, min: nat, m: nat, n: nat)
    requires next > 0 && (min > 0 || next == 1)
    ensures 0 in Yield(next, min, m, n) <==> min == 0 && n > FirstRound(m)
  {
    var v := Yield(next, min, m, n);
    forall k | 0 <= k < n
      ensures v[k] == 0 ==> min == 0 && n > FirstRound(m)
    {
      if min > 0 {
        DrawsPositive(next, min, m, k);
      } else if k < FirstRound(m) {
        DrawsFirstRound(m, k);
      }
    }
    if min == 0 && n > FirstRound(m) {
      DrawsFirstRound(m, FirstRound(m));
      assert v[FirstRound(m)] == 0;
    }
    hide Draws;
  }

  /** A device whose minimum is latched after a first script gives out port 0, which does not
      exist, exactly if that script neither takes nor reserves any of its ports, and what
      follows takes more than a round of them. */
  lemma PortZero(c: Context, b: Build, x: Script, y: Script, d: string)
    requires Legal(c, x) && d in Switches(x) && d !in b.nextPort
    requires !Latches(x, d) && d !in Switches(y) && !Latches(y, d)
    ensures 0 in Drawn(b, Then(x, Then(Do(Latch(d)), y)), d) <==>
            Demand(x, d) == 0 && !Reserving(x, d) && Demand(y, d) > FirstRound(PortCount(x, d))
  {
    hide *;
    var r, m := Reserved(x, d), PortCount(x, d);
    var next := Draws(r + 1, 1, m, Demand(x, d));
    DrawnYield(c, b, x, d);
    DrawsPositive(r + 1, 1, m, Demand(x, d));
    NextPortKnown(b, x, d);
    LatchedMinimum(Run(b, x), d, next, m);
    InTurn(c, b, x, Then(Do(Latch(d)), y), d);
    LatchedAt(Run(b, x), y, d);
    var low := At(Run(b, x).nextPort, d);
    DrawnByAllocator(Run(Run(b, x), Do(Latch(d))), y, d, next, low, m);
    YieldZero(r + 1, 1, m, Demand(x, d));
    YieldZero(next, low, m, Demand(y, d));
    InEither(Yield(r + 1, 1, m, Demand(x, d)), Yield(next, low, m, Demand(y, d)));
  }

  lemma NoPortsYet(d: string)
    ensures d !in START.nextPort
  {
  }

  lemma ReservingThen(x: Script, y: Script, d: string)
    ensures Reserving(Then(x, y), d) <==> Reserving(x, d) || Reserving(y, d)
  {
  }

  lemma ReservingCreates(s: Script, d: string)
    ensures Reserving(s, d) ==> d in Switches(s)
  {
  }

  lemma Regroup(b: Build, x: Script, y: Script, z: Script, d: string)
    ensures Drawn(b, Then(Then(x, y), z), d) == Drawn(b, Then(x, Then(y, z)), d)
  {
    var u, v, w := Drawn(b, x, d), Drawn(Run(b, x), y, d), Drawn(Run(Run(b, x), y), z, d);
    assert (u + v) + w == u + (v + w);
  }

  lemma InEither(u: seq<nat>, v: seq<nat>)
    ensures 0 in u + v <==> 0 in u || 0 in v
  {
  }

  lemma LatchedMinimum(b: Build, d: string, next: nat, m: nat)
    requires AllocatorAt(b, d, next, 1, m) && next > 0
    ensures Upcoming(b.nextPort, d) == next && At(b.maxPort, d) == m
    ensures At(b.nextPort, d) == (if d in b.nextPort then next else 0) && (d !in b.nextPort ==> next == 1)
  {
  }

  /** A device without a next port stands at its first. */
  lemma StandingPort(b: Build, d: string, m: nat, a: nat)
    requires m > 0 && Standing(b, d, m, a)
    ensures var low := At(b.nextPort, d); low == 1 + a % m || (low == 0 && a % m == 0 && d !in b.nextPort)
    ensures 1 + a % m <= m == At(b.maxPort, d) && Upcoming(b.nextPort, d) == 1 + a % m
  {
  }

  lemma LatchedAt(b: Build, y: Script, d: string)
    ensures var latched := Run(b, Do(Latch(d)));
            && Drawn(b, Then(Do(Latch(d)), y), d) == Drawn(latched, y, d)
            && AllocatorAt(latched, d, Upcoming(b.nextPort, d), At(b.nextPort, d), At(b.maxPort, d))
  {
    assert [] + Drawn(Run(b, Do(Latch(d))), y, d) == Drawn(Run(b, Do(Latch(d))), y, d);
  }

  /** A device has no next port only if nothing was ever taken from it. */
  lemma Untouched(b: Build, s: Script, d: string)
    ensures d in b.nextPort || Demand(s, d) > 0 ==> d in Run(b, s).nextPort
    decreases s
  {
    if s.Then? {
      Untouched(b, s.first, d);
      Untouched(Run(b, s.first), s.second, d);
    }
  }

  /** What a script gives out of a device's ports goes on where the script before it stopped. */
  lemma DrawnOn(b: Build, x: Script, y: Script, d: string, m: nat, r: nat)
    requires r < m && d !in Switches(y)
    requires !(Latches(x, d) || Latches(y, d)) || r + Demand(x, d) + Demand(y, d) <= m
    requires Drawn(b, x, d) == Cycle(m, r, Demand(x, d))
    requires !Latches(x, d) || r + Demand(x, d) < m ==>
               Standing(Run(b, x), d, m, r + Demand(x, d)) && (!Latches(x, d) ==> At(Run(b, x).minPort, d) == 1)
    ensures Drawn(b, x, d) + Drawn(Run(b, x), y, d) == Cycle(m, r, Demand(x, d) + Demand(y, d))
    ensures !(Latches(x, d) || Latches(y, d)) || r + Demand(x, d) + Demand(y, d) < m ==>
              && Standing(Run(Run(b, x), y), d, m, r + Demand(x, d) + Demand(y, d))
              && (!(Latches(x, d) || Latches(y, d)) ==> At(Run(Run(b, x), y).minPort, d) == 1)
  {
    hide Switches, Demand, Latches, Drawn, Run, Standing, Cycle, At;
    DrawnLength(Run(b, x), y, d);
    BoundsKept(Run(b, x), y, d);
    CycleConcat(m, r, Demand(x, d), Demand(y, d));
    if !Latches(x, d) || r + Demand(x, d) < m {
      DrawnFrom(Run(b, x), y, d, m, r + Demand(x, d));
    } else {
      assert Drawn(Run(b, x), y, d) == [];
    }
  }

  lemma LegalLatches(c: Context, s: Script, d: string)
    requires Legal(c, s) && d !in c.devices && d !in Switches(s)
    ensures !Latches(s, d)
    decreases s
  {
    if s.Then? {
      LegalLatches(c, s.first, d);
      LegalLatches(After(c, s.first), s.second, d);
    }
  }

  // ---- The ports a topology uses

  function One(c: bool): nat {
    if c then 1 else 0
  }

  /** How often a port is the end of a link, or the place of an interface. */
  function LinkUses(ls: seq<LinkDesc>, x: string): nat {
    if ls == [] then 0
    else LinkUses(ls[..|ls| - 1], x) + One(ls[|ls| - 1].src == x) + One(ls[|ls| - 1].tgt == x)
  }

  function NicUses(ns: seq<NicDesc>, x: string): nat {
    if ns == [] then 0 else NicUses(ns[..|ns| - 1], x) + One(ns[|ns| - 1].port == x)
  }

  function HostUses(hs: seq<HostDesc>, x: string): nat {
    if hs == [] then 0 else HostUses(hs[..|hs| - 1], x) + NicUses(hs[|hs| - 1].nics, x)
  }

  function Uses(t: Topology, x: string): nat {
    LinkUses(t.links, x) + HostUses(t.hosts, x)
  }

  function BuildUses(b: Build, x: string): nat {
    Uses(b.topology, x) + NicUses(b.nics, x)
  }

  lemma UsesSnoc(ls: seq<LinkDesc>, l: LinkDesc, x: string)
    ensures LinkUses(ls + [l], x) == LinkUses(ls, x) + One(l.src == x) + One(l.tgt == x)
  {
    assert (ls + [l])[..|ls|] == ls;
  }

  lemma NicUsesSnoc(ns: seq<NicDesc>, n: NicDesc, x: string)
    ensures NicUses(ns + [n], x) == NicUses(ns, x) + One(n.port == x)
  {
    assert (ns + [n])[..|ns|] == ns;
  }

  lemma HostUsesSnoc(hs: seq<HostDesc>, h: HostDesc, x: string)
    ensures HostUses(hs + [h], x) == HostUses(hs, x) + NicUses(h.nics, x)
  {
    assert (hs + [h])[..|hs|] == hs;
  }

  /** How often a step uses a port. */
  function Taken(b: Build, t: Step, x: string): nat {
    match t
    case Cable(src, tgt) =>
      One(PortID(src, Upcoming(b.nextPort, src)) == x) +
      One(PortID(tgt, Upcoming(Advance(b, src).nextPort, tgt)) == x)
    case Nic(_, dev) => One(PortID(dev, Upcoming(b.nextPort, dev)) == x)
    case Vm(_, _, dev) => One(PortID(dev, Upcoming(b.nextPort, dev)) == x)
    case _ => 0
  }

  lemma UsesByStep(b: Build, t: Step, x: string)
    ensures BuildUses(Apply(b, t), x) == BuildUses(b, x) + Taken(b, t, x)
  {
    var c := Apply(b, t);
    match t
    case Cable(_, _) => UsesSnoc(b.topology.links, c.topology.links[|b.topology.links|], x);
    case Nic(_, _) => NicUsesSnoc(b.nics, c.nics[|b.nics|], x);
    case Vm(_, _, _) =>
      var h := c.topology.hosts[|b.topology.hosts|];
      HostUsesSnoc(b.topology.hosts, h, x);
      NicUsesSnoc([], h.nics[0], x);
      assert [] + [h.nics[0]] == h.nics;
    case Server(_) => HostUsesSnoc(b.topology.hosts, c.topology.hosts[|b.topology.hosts|], x);
    case _ =>
  }

  /** How often a number occurs in a sequence. */
  function Times(s: seq<nat>, k: nat): nat {
    if s == [] then 0 else Times(s[..|s| - 1], k) + One(s[|s| - 1] == k)
  }

  lemma TimesConcat(u: seq<nat>, v: seq<nat>, k: nat)
    ensures Times(u + v, k) == Times(u, k) + Times(v, k)
  {
    if v == [] {
      assert u + v == u;
    } else {
      assert (u + v)[..|u + v| - 1] == u + v[..|v| - 1];
      TimesConcat(u, v[..|v| - 1], k);
    }
  }

  lemma TimesOnce(n: nat, k: nat)
    ensures Times([n], k) == One(n == k)
  {
    assert [n][..0] == [];
  }

  lemma SamePort(d: string, k: nat, e: string, n: nat)
    requires '/' !in d && '/' !in e
    ensures PortID(d, k) == PortID(e, n) <==> d == e && k == n
  {
    if PortID(d, k) == PortID(e, n) {
      PortIDInjective(d, k, e, n);
    }
  }

  lemma PortOn(d: string, k: nat)
    requires '/' !in d
    ensures DeviceOf(PortID(d, k)) == Some(d)
  {
    SplitJoined(d, Dec(k));
  }

  predicate Plain(names: set<string>) {
    forall d | d in names :: '/' !in d && ':' !in d
  }

  lemma TakenByStep(b: Build, t: Step, d: string, k: nat)
    requires '/' !in d
    requires t.Cable? ==> '/' !in t.src && '/' !in t.tgt
    requires t.Nic? || t.Vm? ==> '/' !in t.dev
    ensures Taken(b, t, PortID(d, k)) == Times(Drawn(b, Do(t), d), k)
  {
    hide *;
    match t
    case Cable(src, tgt) => TakenByCable(b, src, tgt, d, k);
    case Nic(_, dev) => TakenAtOnce(b, t, dev, d, k);
    case Vm(_, _, dev) => TakenAtOnce(b, t, dev, d, k);
    case _ => TakenNowhere(b, t, d, k);
  }

  lemma TakenNowhere(b: Build, t: Step, d: string, k: nat)
    requires !t.Cable? && !t.Nic? && !t.Vm?
    ensures Taken(b, t, PortID(d, k)) == Times(Drawn(b, Do(t), d), k)
  {
    hide PortID;
  }

  lemma TakenAtOnce(b: Build, t: Step, dev: string, d: string, k: nat)
    requires '/' !in d && '/' !in dev && (t.Nic? || t.Vm?) && t.dev == dev
    ensures Taken(b, t, PortID(d, k)) == Times(Drawn(b, Do(t), d), k)
  {
    var p := Upcoming(b.nextPort, dev);
    assert Taken(b, t, PortID(d, k)) == One(PortID(dev, p) == PortID(d, k));
    OncePort(b, t, dev, d);
    TimesIf(dev == d, p, k);
    hide *;
    SamePort(d, k, dev, p);
  }

  lemma TimesIf(c: bool, p: nat, k: nat)
    ensures Times(if c then [p] else [], k) == One(c && p == k)
  {
    TimesOnce(p, k);
  }

  lemma TakenByCable(b: Build, src: string, tgt: string, d: string, k: nat)
    requires '/' !in d && '/' !in src && '/' !in tgt
    ensures Taken(b, Cable(src, tgt), PortID(d, k)) == Times(Drawn(b, Do(Cable(src, tgt)), d), k)
  {
    var p, q := Upcoming(b.nextPort, src), Upcoming(Advance(b, src).nextPort, tgt);
    assert Taken(b, Cable(src, tgt), PortID(d, k)) == One(PortID(src, p) == PortID(d, k)) + One(PortID(tgt, q) == PortID(d, k));
    CablePorts(b, src, tgt, d);
    TimesIf(src == d, p, k);
    TimesIf(tgt == d, q, k);
    hide *;
    TimesConcat(if src == d then [p] else [], if tgt == d then [q] else [], k);
    SamePort(d, k, src, p);
    SamePort(d, k, tgt, q);
  }

  lemma LegalPlain(c: Context, s: Script)
    requires Legal(c, s)
    ensures Plain(Switches(s))
    decreases s
  {
    if s.Then? {
      LegalPlain(c, s.first);
      LegalPlain(After(c, s.first), s.second);
    }
  }

  /** No device that is created, or that ports are taken from, has a slash in its name. */
  predicate Slashless(s: Script) {
    match s
    case Do(Switch(id, _, _)) => '/' !in id
    case Do(Cable(src, tgt)) => '/' !in src && '/' !in tgt
    case Do(Nic(_, dev)) => '/' !in dev
    case Do(Vm(_, _, dev)) => '/' !in dev
    case Then(x, y) => Slashless(x) && Slashless(y)
    case _ => true
  }

  lemma LegalSlashless(c: Context, s: Script)
    requires Legal(c, s) && Plain(c.devices)
    ensures Slashless(s)
    decreases s
  {
    if s.Then? {
      LegalPlain(c, s.first);
      LegalSlashless(c, s.first);
      LegalSlashless(After(c, s.first), s.second);
    }
  }

  /** A port is used in the topology as often as the allocator gave it out. */
  lemma {:induction false} UsesAreDraws(b: Build, s: Script, d: string, k: nat)
    requires Slashless(s) && '/' !in d
    ensures BuildUses(Run(b, s), PortID(d, k)) == BuildUses(b, PortID(d, k)) + Times(Drawn(b, s, d), k)
    decreases s
  {
    match s
    case Skip =>
    case Do(t) =>
      UsesByStep(b, t, PortID(d, k));
      TakenByStep(b, t, d, k);
    case Then(x, y) =>
      UsesAreDraws(b, x, d, k);
      UsesAreDraws(Run(b, x), y, d, k);
      TimesConcat(Drawn(b, x, d), Drawn(Run(b, x), y, d), k);
  }

  /** The unfinished host has interfaces exactly if it has some pending. */
  lemma {:induction false} NicsLeft(b: Build, p: set<string>, s: Script)
    requires b.nics == [] <==> p == {}
    ensures Run(b, s).nics == [] <==> Pending(p, s) == {}
    decreases s
  {
    match s
    case Skip =>
    case Do(_) =>
    case Then(x, y) =>
      NicsLeft(b, p, x);
      NicsLeft(Run(b, x), Pending(p, x), y);
  }

  ghost predicate Numbered(x: string, devices: set<string>) {
    exists d, k: nat :: d in devices && x == PortID(d, k)
  }

  lemma TakenNumbered(c: Context, b: Build, t: Step, x: string)
    requires Legal(c, Do(t)) && Taken(b, t, x) > 0
    ensures Numbered(x, c.devices)
  {
  }

  /** Every port in use is a numbered port of a device that was created. */
  lemma UsesNumbered(c: Context, b: Build, s: Script, x: string)
    requires Legal(c, s)
    ensures BuildUses(Run(b, s), x) > 0 ==> BuildUses(b, x) > 0 || Numbered(x, c.devices + Switches(s))
    decreases s
  {
    match s
    case Skip =>
    case Do(t) =>
      UsesByStep(b, t, x);
      if Taken(b, t, x) > 0 {
        TakenNumbered(c, b, t, x);
      }
    case Then(x', y) =>
      UsesNumbered(c, b, x', x);
      UsesNumbered(After(c, x'), Run(b, x'), y, x);
      assert After(c, x').devices + Switches(y) == c.devices + Switches(s);
  }
}
