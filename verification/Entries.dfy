/** P4 table entries and the abstract table store (section 9.1 of the P4Runtime
    specification): canonical field matches, the bytes a row's key is made from, and the
    operations on a store of rows, for whatever type of key.

    The simulator's tables keep rows by key bytes; the specification identifies entries by
    field matches and priority.  `RefinementIff` says when the first is as good as the second. */
module Entries {
  import opened Text
  import opened Sorting

  type Byte = n: nat | n < 256
  type Int32 = n: int | -0x8000_0000 <= n < 0x8000_0000

  datatype Pattern =
    | Exact(value: seq<Byte>)
    | Lpm(prefixLen: Int32, value: seq<Byte>)
    | Range(low: seq<Byte>, high: seq<Byte>)
    | Ternary(value: seq<Byte>, mask: seq<Byte>)
    | Optional(value: seq<Byte>)
    | Unset

  datatype FieldMatch = FieldMatch(fieldId: nat, pattern: Pattern)

  datatype Param = Param(id: nat, value: seq<Byte>)
  datatype Action = Action(id: nat, params: seq<Param>)

  datatype CounterData = CounterData(bytes: int, packets: int)
  datatype MeterConfig = MeterConfig(cir: int, cburst: int, pir: int, pburst: int)
  datatype MeterData = MeterData(green: CounterData, yellow: CounterData, red: CounterData)

  /** The action is the entry's own one; entries that refer to action profiles have none. */
  datatype TableEntry = TableEntry(
    tableId: nat,
    matches: seq<FieldMatch>,
    action: Option<Action>,
    priority: Int32,
    isDefault: bool,
    counterData: Option<CounterData>,
    meterConfig: Option<MeterConfig>,
    meterData: Option<MeterData>)

  // ---- Canonical matches

  function FieldId(m: FieldMatch): int {
    m.fieldId
  }

  function Canonical(ms: seq<FieldMatch>): seq<FieldMatch> {
    StableSort(ms, FieldId)
  }

  function Normal(e: TableEntry): TableEntry {
    e.(matches := Canonical(e.matches))
  }

  /** What the specification identifies an entry by. */
  datatype Identity = Identity(matches: seq<FieldMatch>, priority: Int32)

  function IdentityOf(e: TableEntry): Identity {
    Identity(Canonical(e.matches), e.priority)
  }

  // ---- Key bytes

  function Low24(n: Int32): seq<Byte> {
    var m := n % 0x100_0000;
    [0, m / 0x1_0000, m / 0x100 % 0x100, m % 0x100]
  }

  function PatternBytes(p: Pattern): seq<Byte> {
    match p
    case Exact(value) => [1] + value
    case Lpm(prefixLen, value) => [2] + Low24(prefixLen) + value
    case Range(low, high) => [3] + low + high
    case Ternary(value, mask) => [4] + mask + value
    case Optional(value) => [5] + value
    case Unset => []
  }

  function MatchBytes(ms: seq<FieldMatch>): seq<Byte> {
    if ms == [] then [] else MatchBytes(ms[..|ms| - 1]) + PatternBytes(ms[|ms| - 1].pattern)
  }

  function PriorityBytes(priority: Int32): seq<Byte> {
    var n := priority % 0x1_0000_0000;
    [n / 0x100_0000, n / 0x1_0000 % 0x100, n / 0x100 % 0x100, n % 0x100]
  }

  /** The bytes that a row's key is the hash of; the hash is taken to be injective. */
  function KeyOf(id: Identity): seq<Byte> {
    MatchBytes(id.matches) + PriorityBytes(id.priority)
  }

  /** The order in which distinct fields are listed makes no difference to an entry's key. */
  lemma PermutedKey(a: TableEntry, b: TableEntry)
    requires a.priority == b.priority && multiset(a.matches) == multiset(b.matches)
    requires DistinctKeys(a.matches, FieldId) && DistinctKeys(b.matches, FieldId)
    ensures IdentityOf(a) == IdentityOf(b) && KeyOf(IdentityOf(a)) == KeyOf(IdentityOf(b))
  {
    PermutationSorts(a.matches, b.matches, FieldId);
  }

  /** Two patterns of one kind and of the same widths; prefix lengths that fit three bytes. */
  predicate SameShape(p: Pattern, q: Pattern) {
    match (p, q)
    case (Exact(v), Exact(w)) => |v| == |w|
    case (Lpm(m, v), Lpm(n, w)) => |v| == |w| && 0 <= m < 0x100_0000 && 0 <= n < 0x100_0000
    case (Range(l, h), Range(l', h')) => |l| == |l'| && |h| == |h'|
    case (Ternary(v, m), Ternary(w, n)) => |v| == |w| && |m| == |n|
    case (Optional(v), Optional(w)) => |v| == |w|
    case (Unset, Unset) => true
    case _ => false
  }

  predicate SameSchema(a: seq<FieldMatch>, b: seq<FieldMatch>) {
    |a| == |b| && forall i | 0 <= i < |a| :: a[i].fieldId == b[i].fieldId && SameShape(a[i].pattern, b[i].pattern)
  }

  lemma SplitAt<T>(a: seq<T>, b: seq<T>, x: seq<T>, y: seq<T>)
    requires |x| == |y| && a + x == b + y
    ensures a == b && x == y
  {
    assert |a| == |b|;
    assert (a + x)[..|a|] == a && (b + y)[..|b|] == b;
    assert (a + x)[|a|..] == x && (b + y)[|b|..] == y;
  }

  /** A number is determined by its last bytes and what comes before. */
  lemma BytesOf(n: nat)
    ensures n == n / 0x1_0000 * 0x1_0000 + n / 0x100 % 0x100 * 0x100 + n % 0x100
    ensures n / 0x1_0000 == n / 0x100_0000 * 0x100 + n / 0x1_0000 % 0x100
  {
    assert n / 0x1_0000 == n / 0x100 / 0x100 && n / 0x100_0000 == n / 0x1_0000 / 0x100;
  }

  lemma PriorityInjective(p: Int32, q: Int32)
    requires PriorityBytes(p) == PriorityBytes(q)
    ensures p == q
  {
    var m: nat, n: nat := p % 0x1_0000_0000, q % 0x1_0000_0000;
    var x, y := PriorityBytes(p), PriorityBytes(q);
    assert x[0] == y[0] && x[1] == y[1] && x[2] == y[2] && x[3] == y[3];
    BytesOf(m);
    BytesOf(n);
    assert m == n;
  }

  lemma Low24Bytes(n: Int32)
    requires 0 <= n < 0x100_0000
    ensures Low24(n) == [0, n / 0x1_0000, n / 0x100 % 0x100, n % 0x100]
  {
    assert n % 0x100_0000 == n;
  }

  lemma Low24Injective(m: Int32, n: Int32)
    requires 0 <= m < 0x100_0000 && 0 <= n < 0x100_0000 && Low24(m) == Low24(n)
    ensures m == n
  {
    Low24Bytes(m);
    Low24Bytes(n);
    var x, y := Low24(m), Low24(n);
    assert x[1] == y[1] && x[2] == y[2] && x[3] == y[3];
    hide Low24;
    BytesOf(m);
    BytesOf(n);
  }

  lemma PatternInjective(p: Pattern, q: Pattern)
    requires SameShape(p, q)
    ensures |PatternBytes(p)| == |PatternBytes(q)|
    ensures PatternBytes(p) == PatternBytes(q) ==> p == q
  {
    if PatternBytes(p) == PatternBytes(q) {
      match p
      case Exact(v) => SplitAt([1], [1], v, q.value);
      case Lpm(m, v) =>
        SplitAt([2] + Low24(m), [2] + Low24(q.prefixLen), v, q.value);
        SplitAt([2], [2], Low24(m), Low24(q.prefixLen));
        Low24Injective(m, q.prefixLen);
      case Range(l, h) =>
        SplitAt([3] + l, [3] + q.low, h, q.high);
        SplitAt([3], [3], l, q.low);
      case Ternary(v, m) =>
        SplitAt([4] + m, [4] + q.mask, v, q.value);
        SplitAt([4], [4], m, q.mask);
      case Optional(v) => SplitAt([5], [5], v, q.value);
      case Unset =>
    }
  }

  lemma {:induction false} MatchesInjective(a: seq<FieldMatch>, b: seq<FieldMatch>)
    requires SameSchema(a, b) && MatchBytes(a) == MatchBytes(b)
    ensures a == b
  {
    if a != [] {
      var n := |a| - 1;
      PatternInjective(a[n].pattern, b[n].pattern);
      SplitAt(MatchBytes(a[..n]), MatchBytes(b[..n]), PatternBytes(a[n].pattern), PatternBytes(b[n].pattern));
      hide PatternBytes, SameShape;
      MatchesInjective(a[..n], b[..n]);
      assert a == a[..n] + [a[n]] && b == b[..n] + [b[n]];
    }
  }

  /** Entries that follow one schema are told apart by their key bytes. */
  lemma KeyInjective(a: Identity, b: Identity)
    requires SameSchema(a.matches, b.matches) && KeyOf(a) == KeyOf(b)
    ensures a == b
  {
    SplitAt(MatchBytes(a.matches), MatchBytes(b.matches), PriorityBytes(a.priority), PriorityBytes(b.priority));
    PriorityInjective(a.priority, b.priority);
    MatchesInjective(a.matches, b.matches);
  }

  lemma OneMatch(id: nat, p: Pattern)
    ensures MatchBytes([FieldMatch(id, p)]) == PatternBytes(p)
  {
    assert [FieldMatch(id, p)][..0] == [] && MatchBytes([]) == [];
  }

  /** Which entries with a single match share a row, if their priorities are the same: those
      with patterns of one kind whose bytes agree, for ranges and ternary matches the bytes of both
      parts in a row, for prefixes the length modulo 2^24; the field makes no difference. */
  lemma OneMatchKeys(i: nat, p: Pattern, j: nat, q: Pattern, priority: Int32)
    ensures KeyOf(Identity([FieldMatch(i, p)], priority)) == KeyOf(Identity([FieldMatch(j, q)], priority)) <==>
            match (p, q)
            case (Exact(v), Exact(w)) => v == w
            case (Lpm(m, v), Lpm(n, w)) => m % 0x100_0000 == n % 0x100_0000 && v == w
            case (Range(l, h), Range(l', h')) => l + h == l' + h'
            case (Ternary(v, m), Ternary(w, n)) => m + v == n + w
            case (Optional(v), Optional(w)) => v == w
            case (Unset, Unset) => true
            case _ => false
  {
    OneMatch(i, p);
    OneMatch(j, q);
    var x := PriorityBytes(priority);
    if PatternBytes(p) + x == PatternBytes(q) + x {
      SplitAt(PatternBytes(p), PatternBytes(q), x, x);
    }
    PatternsShare(p, q);
    hide PatternBytes, PriorityBytes, MatchBytes;
  }

  lemma SameRest(x: seq<Byte>, v: seq<Byte>, w: seq<Byte>)
    ensures x + v == x + w <==> v == w
  {
    assert (x + v)[|x|..] == v && (x + w)[|x|..] == w;
  }

  lemma SameParts(x: seq<Byte>, a: seq<Byte>, b: seq<Byte>, c: seq<Byte>, d: seq<Byte>)
    ensures x + a + b == x + c + d <==> a + b == c + d
  {
    assert x + a + b == x + (a + b) && x + c + d == x + (c + d);
    SameRest(x, a + b, c + d);
  }

  lemma Low24Share(m: Int32, n: Int32)
    ensures Low24(m) == Low24(n) <==> m % 0x100_0000 == n % 0x100_0000
  {
    BytesOf(m % 0x100_0000);
    BytesOf(n % 0x100_0000);
  }

  lemma PatternsShare(p: Pattern, q: Pattern)
    ensures PatternBytes(p) == PatternBytes(q) <==>
            match (p, q)
            case (Exact(v), Exact(w)) => v == w
            case (Lpm(m, v), Lpm(n, w)) => m % 0x100_0000 == n % 0x100_0000 && v == w
            case (Range(l, h), Range(l', h')) => l + h == l' + h'
            case (Ternary(v, m), Ternary(w, n)) => m + v == n + w
            case (Optional(v), Optional(w)) => v == w
            case (Unset, Unset) => true
            case _ => false
  {
    hide Low24;
    match (p, q)
    case (Exact(v), Exact(w)) => SameRest([1], v, w);
    case (Lpm(m, v), Lpm(n, w)) =>
      Low24Share(m, n);
      LpmShare(m, v, n, w);
    case (Range(l, h), Range(l', h')) =>
      SameParts([3], l, h, l', h');
    case (Ternary(v, m), Ternary(w, n)) =>
      SameParts([4], m, v, n, w);
    case (Optional(v), Optional(w)) => SameRest([5], v, w);
    case _ =>
      FirstByte(p);
      FirstByte(q);
      hide PatternBytes;
  }

  /** Patterns start with a byte for their kind. */
  lemma FirstByte(p: Pattern)
    ensures p.Unset? <==> PatternBytes(p) == []
    ensures PatternBytes(p) != [] ==>
              && (p.Exact? <==> PatternBytes(p)[0] == 1) && (p.Lpm? <==> PatternBytes(p)[0] == 2)
              && (p.Range? <==> PatternBytes(p)[0] == 3) && (p.Ternary? <==> PatternBytes(p)[0] == 4)
              && (p.Optional? <==> PatternBytes(p)[0] == 5)
  {
    hide Low24;
  }

  lemma LpmShare(m: Int32, v: seq<Byte>, n: Int32, w: seq<Byte>)
    ensures [2] + Low24(m) + v == [2] + Low24(n) + w <==> Low24(m) == Low24(n) && v == w
  {
    var a, b := [2] + Low24(m), [2] + Low24(n);
    assert |a| == |b| == 5 && a[1..] == Low24(m) && b[1..] == Low24(n);
    if a + v == b + w {
      assert (a + v)[..5] == a && (b + w)[..5] == b && (a + v)[5..] == v && (b + w)[5..] == w;
    }
  }

  /** In general they are not: neither the field nor the length of a value is part of them. */
  lemma KeysCollide()
    ensures var a, b := Identity([FieldMatch(1, Exact([7]))], 0), Identity([FieldMatch(2, Exact([7]))], 0);
            a != b && KeyOf(a) == KeyOf(b)
    ensures var a, b := Identity([FieldMatch(1, Exact([7])), FieldMatch(2, Exact([8]))], 0), Identity([FieldMatch(1, Exact([7, 1, 8]))], 0);
            a != b && KeyOf(a) == KeyOf(b)
    ensures var a, b := Identity([FieldMatch(1, Lpm(0, []))], 0), Identity([FieldMatch(1, Lpm(0x100_0000, []))], 0);
            a != b && KeyOf(a) == KeyOf(b)
  {
    var m := FieldMatch(1, Exact([7]));
    var k := FieldMatch(2, Exact([8]));
    assert [m][..0] == [] && [m, k][..1] == [m];
    assert [FieldMatch(2, Exact([7]))][..0] == [] && [FieldMatch(1, Exact([7, 1, 8]))][..0] == [];
    assert [FieldMatch(1, Lpm(0, []))][..0] == [] && [FieldMatch(1, Lpm(0x100_0000, []))][..0] == [];
    assert MatchBytes([]) == [];
    assert MatchBytes([m, k]) == [1, 7, 1, 8];
  }
}
