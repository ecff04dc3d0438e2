/** Names of IPUs, hosts and VMs: two-digit fields for rack, host and VM, which grow when the
    numbers do, so that names of different hosts may coincide.

    `ApartIff` says exactly for how many racks, hosts and VMs they do. */
module Names {
  import opened Text
  import opened TopologyBuilder

  // ---- Numerals

  function Tens(k: nat): (n: nat)
    ensures n >= 1
  {
    if k == 0 then 1 else 10 * Tens(k - 1)
  }

  lemma TensGrow(j: nat, k: nat)
    requires j <= k
    ensures Tens(j) <= Tens(k)
  {
    if j < k {
      TensGrow(j, k - 1);
    }
  }

  /** Small powers, written out. */
  lemma SmallTens()
    ensures Tens(0) == 1 && Tens(1) == 10 && Tens(2) == 100 && Tens(3) == 1000 && Tens(4) == 10000
  {
    assert Tens(1) == 10 * Tens(0);
    assert Tens(2) == 10 * Tens(1);
    assert Tens(3) == 10 * Tens(2);
    assert Tens(4) == 10 * Tens(3);
  }

  lemma ValueBelow(s: string)
    requires IsNumeral(s)
    ensures Value(s) < Tens(|s|)
  {
    if s != "" {
      ValueBelow(s[..|s| - 1]);
    }
  }

  lemma {:induction false} ValueConcat(s: string, t: string)
    requires IsNumeral(s) && IsNumeral(t)
    ensures IsNumeral(s + t) && Value(s + t) == Value(s) * Tens(|t|) + Value(t)
  {
    if t == "" {
      assert s + t == s;
    } else {
      var n := |t| - 1;
      assert (s + t)[..|s + t| - 1] == s + t[..n] && (s + t)[|s + t| - 1] == t[n];
      assert IsNumeral(s + t[..n]);
      ValueConcat(s, t[..n]);
      assert Value(s + t) == 10 * Value(s + t[..n]) + DigitValue(t[n]) && Value(t) == 10 * Value(t[..n]) + DigitValue(t[n]);
      assert Tens(|t|) == 10 * Tens(n);
      hide *;
      TenTimes(Value(s), Tens(n));
    }
  }

  lemma TenTimes(a: nat, b: nat)
    ensures 10 * (a * b) == a * (10 * b)
  {
  }

  /** A numeral with a leading digit other than zero is as large as its length says. */
  lemma {:induction false} LeadingDigit(s: string)
    requires IsNumeral(s) && s != "" && s[0] != '0'
    ensures Value(s) >= Tens(|s| - 1)
  {
    if |s| > 1 {
      assert s[..|s| - 1][0] == s[0];
      LeadingDigit(s[..|s| - 1]);
    } else {
      assert s[..0] == "" && Value(s) == DigitValue(s[0]);
      assert DIGITS[DigitValue(s[0])] == s[0];
    }
  }

  lemma DecLeads(n: nat)
    requires n > 0
    ensures Dec(n)[0] != '0'
  {
    if n >= 10 {
      DecLeads(n / 10);
      assert Dec(n)[0] == Dec(n / 10)[0];
    }
  }

  /** A field has no leading zero unless it is below ten. */
  lemma FieldLeads(n: nat)
    ensures Pad2(n)[0] != '0' <==> n >= 10
  {
    if n >= 10 {
      DecLeads(n);
    }
  }

  /** A field of three digits or more belongs to a three-digit number. */
  lemma FieldLength(n: nat)
    ensures |Pad2(n)| >= 3 ==> n >= Tens(|Pad2(n)| - 1) && n >= 100
  {
    if |Pad2(n)| >= 3 {
      FieldLeads(n);
      LeadingDigit(Pad2(n));
      ValueOfPad2(n);
      TensGrow(2, |Pad2(n)| - 1);
      SmallTens();
    }
  }

  /** The longer of two fields that numerals start with goes on where the shorter ends. */
  lemma Overhang(x: string, y: string, u: string, w: string) returns (t: string)
    requires x + y == u + w && |x| <= |u|
    ensures u == x + t && y == t + w
  {
    t := u[|x|..];
    assert (u + w)[..|x|] == u[..|x|] && (x + y)[..|x|] == x;
    assert (x + y)[|x|..] == y && (u + w)[|x|..] == t + w;
  }

  lemma NumeralParts(s: string, t: string)
    requires IsNumeral(s + t)
    ensures IsNumeral(s) && IsNumeral(t)
  {
    assert forall c | c in s :: c in s + t;
    assert forall c | c in t :: c in s + t;
  }

  /** The number whose field is made of another's and more digits. */
  lemma FieldExtended(q: nat, r: nat, t: string)
    requires Pad2(q) == Pad2(r) + t
    ensures IsNumeral(t) && q == r * Tens(|t|) + Value(t)
  {
    NumeralParts(Pad2(r), t);
    ValueConcat(Pad2(r), t);
    ValueOfPad2(q);
    ValueOfPad2(r);
  }

  lemma FieldPrepended(h: nat, t: string, g: nat)
    requires Pad2(h) == t + Pad2(g)
    ensures IsNumeral(t) && h == Value(t) * Tens(|Pad2(g)|) + g
  {
    NumeralParts(t, Pad2(g));
    ValueConcat(t, Pad2(g));
    ValueOfPad2(h);
    ValueOfPad2(g);
  }

  lemma ProductAtLeast(a: nat, b: nat, x: nat, y: nat)
    requires a >= x && b >= y
    ensures a * b >= x * y
  {
  }

  // ---- When fields run into each other

  lemma SameFields(r: nat, x: string, q: nat, y: string)
    requires |Pad2(r)| == |Pad2(q)| && Pad2(r) + x == Pad2(q) + y
    ensures r == q && x == y
  {
    var t := Overhang(Pad2(r), x, Pad2(q), y);
    assert t == "";
    Pad2Injective(r, q);
  }

  /** A field that goes on past another's end: its number, and that of the other, are large. */
  lemma LongerField(q: nat, r: nat, t: string)
    requires r > 0 && t != "" && Pad2(q) == Pad2(r) + t
    ensures IsNumeral(t) && r >= 10 && q >= 100 && q == r * Tens(|t|) + Value(t)
    ensures q >= 10 * Tens(|t|) + Value(t)
  {
    FieldLength(q);
    FieldLeads(q);
    FieldLeads(r);
    assert Pad2(q)[0] == Pad2(r)[0];
    FieldExtended(q, r, t);
    ProductAtLeast(r, Tens(|t|), 10, Tens(|t|));
  }

  /** Digits that another field begins with count for something unless that one is below ten. */
  lemma Digits(t: string)
    requires IsNumeral(t) && t != "" && t[0] != '0'
    ensures Value(t) >= Tens(|t| - 1) >= 1
  {
    LeadingDigit(t);
  }

  lemma PrependedAtLeast(h: nat, t: string, g: nat)
    requires g > 0 && t != "" && t[0] != '0' && Pad2(h) == t + Pad2(g)
    ensures h >= 101
  {
    FieldPrepended(h, t, g);
    Digits(t);
    TensGrow(2, |Pad2(g)|);
    SmallTens();
    ProductAtLeast(Value(t), Tens(|Pad2(g)|), 1, 100);
  }

  /** Two fields each: rack and host, say. */
  lemma PairClash(r: nat, h: nat, q: nat, g: nat)
    requires r > 0 && g > 0 && Pad2(r) + Pad2(h) == Pad2(q) + Pad2(g) && |Pad2(r)| < |Pad2(q)|
    ensures q >= 101 && h >= 101
  {
    var t := Overhang(Pad2(r), Pad2(h), Pad2(q), Pad2(g));
    LongerField(q, r, t);
    FieldLength(h);
    FieldLeads(h);
    assert t[0] == Pad2(h)[0];
    PrependedAtLeast(h, t, g);
    Digits(t);
    TensGrow(1, |t|);
    SmallTens();
  }

  /** Three fields each: the first longer than the other's, with nothing told by its tail. */
  lemma ZeroTail(q: nat, r: nat, h: nat, x: string, v: nat, g: nat, w: nat)
    requires r > 0 && 0 < h < 10 && g > 0 && w > 0
    requires Pad2(q) == Pad2(r) + x && x != "" && Pad2(h) + Pad2(v) == x + (Pad2(g) + Pad2(w))
    ensures (q >= 100 && g >= 11 && v >= 101) || (q >= 101 && g >= 10 && v >= 101) || (q >= 10011 && v >= 10101)
  {
    LongerField(q, r, x);
    if |x| == 1 {
      assert |Pad2(h)| == 2;
      ZeroOne(h, x, v, g, w);
    } else {
      var t := Overhang(Pad2(h), Pad2(v), x, Pad2(g) + Pad2(w));
      ZeroMore(q, r, h, x, t, v, g, w);
    }
  }

  lemma ZeroOne(h: nat, x: string, v: nat, g: nat, w: nat)
    requires 0 < h < 10 && g > 0 && w > 0
    requires |x| == 1 && Pad2(h) + Pad2(v) == x + (Pad2(g) + Pad2(w))
    ensures g >= 11 && v >= 101
  {
    var s := Overhang(x, Pad2(g) + Pad2(w), Pad2(h), Pad2(v));
    assert |s| == 1 && s[0] == Pad2(h)[1] && s[0] != '0';
    var t := Overhang(s, Pad2(v), Pad2(g), Pad2(w));
    assert Pad2(g)[0] == s[0] && |t| == |Pad2(g)| - 1 && t != "";
    FieldLeads(g);
    FieldLength(v);
    FieldLeads(v);
    assert Pad2(v)[0] == t[0];
    PrependedAtLeast(v, t, w);
    NumeralParts(s, t);
    ValueConcat(s, t);
    ValueOfPad2(g);
    Digits(s);
    Digits(t);
    TensGrow(1, |t|);
    SmallTens();
    ProductAtLeast(Value(s), Tens(|t|), 1, 10);
  }

  lemma ZeroMore(q: nat, r: nat, h: nat, x: string, t: string, v: nat, g: nat, w: nat)
    requires r > 0 && 0 < h < 10 && g > 0 && w > 0
    requires Pad2(q) == Pad2(r) + x && x == Pad2(h) + t && Pad2(v) == t + (Pad2(g) + Pad2(w))
    ensures (q >= 101 && g >= 10 && v >= 101) || (q >= 10011 && v >= 10101)
  {
    hide *;
    LongerField(q, r, x);
    NumeralParts(Pad2(h), t);
    ValueConcat(Pad2(h), t);
    ValueOfPad2(h);
    FieldLength(v);
    FieldLeads(v);
    SmallTens();
    TensGrow(2, |x|);
    TensGrow(3, |Pad2(v)| - 1);
    if t == "" {
      assert Pad2(v)[0] == Pad2(g)[0];
      FieldLeads(g);
    } else {
      assert Pad2(v)[0] == t[0];
      Digits(t);
      TensGrow(3, |x|);
      TensGrow(1, |t|);
      ProductAtLeast(h, Tens(|t|), 1, 10);
      assert q >= 10 * 1000 + 10 + 1;
      TailValue(v, t, g, w);
    }
  }

  lemma TailValue(v: nat, t: string, g: nat, w: nat)
    requires g > 0 && w > 0 && t != "" && t[0] != '0' && Pad2(v) == t + (Pad2(g) + Pad2(w))
    ensures v >= 10101
  {
    var y := Pad2(g) + Pad2(w);
    NumeralParts(t, y);
    ValueConcat(t, y);
    ValueConcat(Pad2(g), Pad2(w));
    ValueOfPad2(v);
    ValueOfPad2(g);
    ValueOfPad2(w);
    Digits(t);
    TensGrow(2, |Pad2(w)|);
    TensGrow(4, |y|);
    SmallTens();
    ProductAtLeast(g, Tens(|Pad2(w)|), 1, 100);
    ProductAtLeast(Value(t), Tens(|y|), 1, 10000);
  }

  /** The same, but the tail does tell something. */
  lemma DigitTail(q: nat, r: nat, h: nat, x: string, v: nat, g: nat, w: nat)
    requires r > 0 && h >= 10 && g > 0 && w > 0
    requires Pad2(q) == Pad2(r) + x && x != "" && Pad2(h) + Pad2(v) == x + (Pad2(g) + Pad2(w))
    ensures (q >= 101 && h >= 101) || (q >= 101 && h >= 10 && v >= 101)
  {
    hide *;
    LongerField(q, r, x);
    FieldLeads(h);
    assert (Pad2(h) + Pad2(v))[0] == Pad2(h)[0];
    assert (x + (Pad2(g) + Pad2(w)))[0] == x[0];
    Digits(x);
    TensGrow(1, |x|);
    SmallTens();
    assert q >= 101;
    if |Pad2(h)| <= |x| {
      var t := Overhang(Pad2(h), Pad2(v), x, Pad2(g) + Pad2(w));
      assert |Pad2(v)| == |t| + (|Pad2(g)| + |Pad2(w)|);
      FieldLength(v);
      TensGrow(3, |Pad2(v)| - 1);
    } else {
      var s := Overhang(x, Pad2(g) + Pad2(w), Pad2(h), Pad2(v));
      assert s != "";
      SplitTail(h, x, s, v, g, w);
    }
  }

  lemma SplitTail(h: nat, x: string, s: string, v: nat, g: nat, w: nat)
    requires g > 0 && w > 0 && x != "" && x[0] != '0' && s != ""
    requires Pad2(h) == x + s && Pad2(g) + Pad2(w) == s + Pad2(v)
    ensures h >= 101 || v >= 101
  {
    if |s| < |Pad2(g)| {
      var t := Overhang(s, Pad2(v), Pad2(g), Pad2(w));
      assert t != "";
      FieldLength(v);
      FieldLeads(v);
      assert Pad2(v)[0] == t[0];
      PrependedAtLeast(v, t, w);
    } else {
      var t := Overhang(Pad2(g), Pad2(w), s, Pad2(v));
      if t == "" {
        PrependedAtLeast(h, x, g);
      } else {
        assert |Pad2(h)| >= 4;
        FieldLength(h);
        TensGrow(3, |Pad2(h)| - 1);
        SmallTens();
      }
    }
  }

  lemma TripleClash(r: nat, h: nat, v: nat, q: nat, g: nat, w: nat)
    requires r > 0 && h > 0 && g > 0 && w > 0 && |Pad2(r)| < |Pad2(q)|
    requires Pad2(r) + (Pad2(h) + Pad2(v)) == Pad2(q) + (Pad2(g) + Pad2(w))
    ensures || (q >= 101 && h >= 101)
            || (q >= 100 && g >= 11 && v >= 101)
            || (q >= 101 && (h >= 10 || g >= 10) && v >= 101)
            || (q >= 10011 && v >= 10101)
  {
    var x := Overhang(Pad2(r), Pad2(h) + Pad2(v), Pad2(q), Pad2(g) + Pad2(w));
    if h < 10 {
      ZeroTail(q, r, h, x, v, g, w);
    } else {
      DigitTail(q, r, h, x, v, g, w);
    }
  }

  // ---- Names of hosts

  /** The initial tells hosts, VMs and IPUs apart. */
  lemma Initials(rack: nat, h: nat, v: nat)
    ensures IpuName(rack, h)[0] == 'i' && HostName(rack, h)[0] == 'h' && VmName(rack, h, v)[0] == 'v'
    ensures '/' !in IpuName(rack, h) && ':' !in IpuName(rack, h)
  {
    assert IsNumeral(Pad2(rack)) && IsNumeral(Pad2(h));
    assert '/' !in DIGITS && ':' !in DIGITS;
  }

  lemma SamePrefix(p: string, x: string, y: string)
    requires p + x == p + y
    ensures x == y
  {
    assert (p + x)[|p|..] == x && (p + y)[|p|..] == y;
  }

  lemma NameParts(r: nat, h: nat, v: nat)
    ensures IpuName(r, h) == "ipu" + (Pad2(r) + Pad2(h)) && HostName(r, h) == "host" + (Pad2(r) + Pad2(h))
    ensures VmName(r, h, v) == "vm" + (Pad2(r) + (Pad2(h) + Pad2(v)))
  {
    hide Pad2;
  }

  lemma SameHostName(r: nat, h: nat, q: nat, g: nat)
    ensures HostName(r, h) == HostName(q, g) <==> Pad2(r) + Pad2(h) == Pad2(q) + Pad2(g)
    ensures IpuName(r, h) == IpuName(q, g) <==> Pad2(r) + Pad2(h) == Pad2(q) + Pad2(g)
  {
    NameParts(r, h, 0);
    NameParts(q, g, 0);
    hide *;
    if HostName(r, h) == HostName(q, g) {
      SamePrefix("host", Pad2(r) + Pad2(h), Pad2(q) + Pad2(g));
    }
    if IpuName(r, h) == IpuName(q, g) {
      SamePrefix("ipu", Pad2(r) + Pad2(h), Pad2(q) + Pad2(g));
    }
  }

  lemma SameVmName(r: nat, h: nat, v: nat, q: nat, g: nat, w: nat)
    ensures VmName(r, h, v) == VmName(q, g, w) <==>
            Pad2(r) + (Pad2(h) + Pad2(v)) == Pad2(q) + (Pad2(g) + Pad2(w))
  {
    NameParts(r, h, v);
    NameParts(q, g, w);
    hide *;
    if VmName(r, h, v) == VmName(q, g, w) {
      SamePrefix("vm", Pad2(r) + (Pad2(h) + Pad2(v)), Pad2(q) + (Pad2(g) + Pad2(w)));
    }
  }

  /** The names that one host of a rack brings with it: its own and those of its VMs. */
  ghost predicate NameOf(n: string, rack: nat, h: nat, ipus: bool, vms: nat) {
    n == HostName(rack, h) || (ipus && exists v | 1 <= v <= vms :: n == VmName(rack, h, v))
  }

  /** A name that a host has is no other's. */
  ghost predicate Own(n: string, r: nat, h: nat, racks: nat, count: nat, ipus: bool, vms: nat) {
    forall q, g | 1 <= q <= racks && 1 <= g <= count && NameOf(n, q, g, ipus, vms) :: q == r && g == h
  }

  /** No two hosts of the racks share a name. */
  ghost predicate NamesApart(racks: nat, count: nat, ipus: bool, vms: nat) {
    forall n, r, h | 1 <= r <= racks && 1 <= h <= count && NameOf(n, r, h, ipus, vms) ::
      Own(n, r, h, racks, count, ipus, vms)
  }

  predicate VmClash(racks: nat, count: nat, vms: nat) {
    || (count >= 101 && vms >= 101)
    || (racks >= 100 && count >= 11 && vms >= 101)
    || (racks >= 101 && count >= 10 && vms >= 101)
    || (racks >= 10011 && vms >= 10101)
  }

  /** The numbers of racks, hosts a rack and VMs a host from which on names run into each other. */
  predicate Clash(racks: nat, count: nat, ipus: bool, vms: nat) {
    || (racks >= 101 && count >= 101)
    || (ipus && racks > 0 && count > 0 && VmClash(racks, count, vms))
  }

  lemma HostNamesApart(r: nat, h: nat, q: nat, g: nat)
    requires r > 0 && h > 0 && q > 0 && g > 0 && HostName(r, h) == HostName(q, g)
    ensures (r == q && h == g) || (q >= 101 && h >= 101) || (r >= 101 && g >= 101)
  {
    SameHostName(r, h, q, g);
    hide HostName, Pad2;
    if |Pad2(r)| == |Pad2(q)| {
      SameFields(r, Pad2(h), q, Pad2(g));
      Pad2Injective(h, g);
    } else if |Pad2(r)| < |Pad2(q)| {
      PairClash(r, h, q, g);
    } else {
      PairClash(q, g, r, h);
    }
  }

  lemma VmNamesApart(r: nat, h: nat, v: nat, q: nat, g: nat, w: nat)
    requires r > 0 && h > 0 && v > 0 && q > 0 && g > 0 && w > 0 && VmName(r, h, v) == VmName(q, g, w)
    ensures (r == q && h == g) || Clash(if r > q then r else q, if h > g then h else g, true, if v > w then v else w)
    ensures r == q && h == g ==> v == w
  {
    SameVmName(r, h, v, q, g, w);
    hide VmName, Pad2;
    var x, y := Pad2(h) + Pad2(v), Pad2(g) + Pad2(w);
    if |Pad2(r)| < |Pad2(q)| {
      TripleClash(r, h, v, q, g, w);
    } else if |Pad2(r)| > |Pad2(q)| {
      TripleClash(q, g, w, r, h, v);
    } else {
      SameFields(r, x, q, y);
      if |Pad2(h)| < |Pad2(g)| {
        PairClash(h, v, g, w);
      } else if |Pad2(h)| > |Pad2(g)| {
        PairClash(g, w, h, v);
      } else {
        SameFields(h, Pad2(v), g, Pad2(w));
        Pad2Injective(v, w);
      }
    }
  }

  lemma NotClashing(racks: nat, count: nat, ipus: bool, vms: nat, n: string, r: nat, h: nat, q: nat, g: nat)
    requires !Clash(racks, count, ipus, vms)
    requires 1 <= r <= racks && 1 <= h <= count && 1 <= q <= racks && 1 <= g <= count
    requires NameOf(n, r, h, ipus, vms) && NameOf(n, q, g, ipus, vms)
    ensures r == q && h == g
  {
    hide HostName, VmName, IpuName;
    Initials(r, h, 0);
    Initials(q, g, 0);
    if n == HostName(r, h) && n == HostName(q, g) {
      HostNamesApart(r, h, q, g);
    } else if n == HostName(r, h) {
      var w :| 1 <= w <= vms && n == VmName(q, g, w);
      Initials(q, g, w);
    } else if n == HostName(q, g) {
      var v :| 1 <= v <= vms && n == VmName(r, h, v);
      Initials(r, h, v);
    } else {
      var v :| 1 <= v <= vms && n == VmName(r, h, v);
      var w :| 1 <= w <= vms && n == VmName(q, g, w);
      VmNamesApart(r, h, v, q, g, w);
    }
  }

  /** Some fields, written out. */
  lemma Fields()
    ensures Pad2(1) == "01" && Pad2(10) == "10" && Pad2(11) == "11" && Pad2(100) == "100" && Pad2(101) == "101"
    ensures Pad2(10011) == "10011" && Pad2(10101) == "10101"
  {
    assert Dec(1) == "1" && Dec(10) == "10" && Dec(11) == "11" && Dec(100) == "100" && Dec(101) == "101";
    assert Dec(1001) == "1001" && Dec(1010) == "1010";
  }

  lemma ShareName(racks: nat, count: nat, ipus: bool, vms: nat, n: string, r: nat, h: nat, q: nat, g: nat)
    requires r != q || h != g
    requires 1 <= r <= racks && 1 <= h <= count && 1 <= q <= racks && 1 <= g <= count
    requires NameOf(n, r, h, ipus, vms) && NameOf(n, q, g, ipus, vms)
    ensures !NamesApart(racks, count, ipus, vms)
  {
    hide NameOf;
  }

  /** Names of VMs that coincide, for the least numbers with which they do. */
  lemma LeastClashes()
    ensures HostName(10, 101) == HostName(101, 1)
    ensures VmName(1, 10, 101) == VmName(1, 101, 1) && VmName(100, 11, 1) == VmName(10, 1, 101)
    ensures VmName(10, 10, 101) == VmName(101, 1, 1) && VmName(10, 1, 10101) == VmName(10011, 1, 1)
  {
    Fields();
    hide Pad2;
  }

  lemma Clashing(racks: nat, count: nat, ipus: bool, vms: nat)
    requires Clash(racks, count, ipus, vms)
    ensures !NamesApart(racks, count, ipus, vms)
  {
    LeastClashes();
    hide HostName, VmName, NamesApart;
    if racks >= 101 && count >= 101 {
      ShareName(racks, count, ipus, vms, HostName(10, 101), 10, 101, 101, 1);
    } else if count >= 101 && vms >= 101 {
      ShareName(racks, count, ipus, vms, VmName(1, 10, 101), 1, 10, 1, 101);
    } else if racks >= 100 && count >= 11 && vms >= 101 {
      ShareName(racks, count, ipus, vms, VmName(100, 11, 1), 100, 11, 10, 1);
    } else if racks >= 101 && count >= 10 && vms >= 101 {
      ShareName(racks, count, ipus, vms, VmName(10, 10, 101), 10, 10, 101, 1);
    } else {
      ShareName(racks, count, ipus, vms, VmName(10, 1, 10101), 10, 1, 10011, 1);
    }
  }

  /** Names of hosts and VMs are apart exactly below these numbers. */
  lemma ApartIff(racks: nat, count: nat, ipus: bool, vms: nat)
    ensures NamesApart(racks, count, ipus, vms) <==> !Clash(racks, count, ipus, vms)
  {
    if Clash(racks, count, ipus, vms) {
      Clashing(racks, count, ipus, vms);
    } else {
      forall n, r, h | 1 <= r <= racks && 1 <= h <= count && NameOf(n, r, h, ipus, vms)
        ensures Own(n, r, h, racks, count, ipus, vms)
      {
        forall q, g | 1 <= q <= racks && 1 <= g <= count && NameOf(n, q, g, ipus, vms)
          ensures q == r && g == h
        {
          NotClashing(racks, count, ipus, vms, n, r, h, q, g);
        }
      }
    }
  }

  lemma Sharing(racks: nat, count: nat, ipus: bool, vms: nat) returns (n: string, r: nat, h: nat, q: nat, g: nat)
    requires !NamesApart(racks, count, ipus, vms)
    ensures 1 <= r <= racks && 1 <= h <= count && 1 <= q <= racks && 1 <= g <= count && !(r == q && h == g)
    ensures NameOf(n, r, h, ipus, vms) && NameOf(n, q, g, ipus, vms)
  {
    hide NameOf;
    n, r, h :| 1 <= r <= racks && 1 <= h <= count && NameOf(n, r, h, ipus, vms) &&
      !Own(n, r, h, racks, count, ipus, vms);
    q, g :| 1 <= q <= racks && 1 <= g <= count && NameOf(n, q, g, ipus, vms) && !(q == r && g == h);
  }

  /** Two hosts that share a name, the first of them earlier. */
  lemma SharedName(racks: nat, count: nat, ipus: bool, vms: nat) returns (n: string, r: nat, h: nat, q: nat, g: nat)
    requires !NamesApart(racks, count, ipus, vms)
    ensures 1 <= r <= q <= racks && 1 <= h <= count && 1 <= g <= count && (r == q ==> h < g)
    ensures NameOf(n, r, h, ipus, vms) && NameOf(n, q, g, ipus, vms)
  {
    hide *;
    n, r, h, q, g := Sharing(racks, count, ipus, vms);
    if r > q || (r == q && h > g) {
      r, h, q, g := q, g, r, h;
    }
  }
}
