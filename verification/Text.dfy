/** Numerals and names as the simulator formats and splits them: `%d`, `%02d`,
    `device/port` identifiers and the `::` domain delimiter. */
module Text {
  datatype Option<+T> = None | Some(value: T)

  const DIGITS := "0123456789"

  predicate IsNumeral(s: string) {
    forall c | c in s :: c in DIGITS
  }

  function DigitValue(c: char): (d: nat)
    requires c in DIGITS
    ensures d < 10 && DIGITS[d] == c
  {
    c as int - '0' as int
  }

  /** `%d` of a natural number. */
  function Dec(n: nat): (s: string)
    ensures IsNumeral(s) && |s| > 0
  {
    if n < 10 then [DIGITS[n]] else Dec(n / 10) + [DIGITS[n % 10]]
  }

  /** The number a numeral denotes. */
  function Value(s: string): nat
    requires IsNumeral(s)
  {
    if s == "" then 0 else 10 * Value(s[..|s| - 1]) + DigitValue(s[|s| - 1])
  }

  lemma {:induction false} ValueOfDec(n: nat)
    ensures Value(Dec(n)) == n
  {
    if n >= 10 {
      ValueOfDec(n / 10);
      assert Dec(n)[..|Dec(n)| - 1] == Dec(n / 10);
      assert DIGITS[DigitValue(DIGITS[n % 10])] == DIGITS[n % 10];
    } else {
      assert Dec(n)[..|Dec(n)| - 1] == "";
    }
  }

  lemma DecInjective(m: nat, n: nat)
    requires Dec(m) == Dec(n)
    ensures m == n
  {
    ValueOfDec(m);
    ValueOfDec(n);
  }

  /** `%02d` of a natural number. */
  function Pad2(n: nat): (s: string)
    ensures IsNumeral(s) && |s| >= 2
    ensures n < 100 ==> |s| == 2
  {
    assert n < 100 ==> |Dec(n / 10)| == 1;
    if n < 10 then "0" + Dec(n) else Dec(n)
  }

  lemma Pad2Injective(m: nat, n: nat)
    requires Pad2(m) == Pad2(n)
    ensures m == n
  {
    ValueOfDec(m);
    ValueOfDec(n);
    ValueOfPad2(m);
    ValueOfPad2(n);
  }

  lemma ValueOfPad2(n: nat)
    ensures Value(Pad2(n)) == n
  {
    ValueOfDec(n);
    if n < 10 {
      var s := Pad2(n);
      assert s[..|s| - 1] == "0";
      assert Dec(n)[..|Dec(n)| - 1] == "";
      assert "0"[..0] == "";
    }
  }

  /** The text before the first slash (all of it when there is none). */
  function BeforeSlash(s: string): (r: string)
    ensures |r| <= |s| && s[..|r|] == r && '/' !in r
    ensures '/' in s ==> |r| < |s| && s[|r|] == '/'
    ensures '/' !in s ==> r == s
  {
    if s == "" || s[0] == '/' then "" else [s[0]] + BeforeSlash(s[1..])
  }

  /** `ExtractDeviceID`: the device part of a port ID, if the ID has a slash. */
  function DeviceOf(id: string): Option<string> {
    if '/' in id then Some(BeforeSlash(id)) else None
  }

  /** The part of a port ID after the first slash. */
  function PortNameOf(id: string): string
    requires '/' in id
  {
    id[|BeforeSlash(id)| + 1..]
  }

  lemma SplitJoined(dev: string, name: string)
    requires '/' !in dev
    ensures '/' in dev + "/" + name
    ensures DeviceOf(dev + "/" + name) == Some(dev)
    ensures PortNameOf(dev + "/" + name) == name
  {
    var s := dev + "/" + name;
    assert s[|dev|] == '/';
    assert forall i | 0 <= i < |dev| :: s[i] == dev[i] != '/';
    assert '/' in s && |BeforeSlash(s)| == |dev|;
    assert s[..|dev|] == dev;
  }

  /** The ID of a numbered port. */
  function PortID(dev: string, number: nat): string {
    dev + "/" + Dec(number)
  }

  lemma PortIDInjective(d: string, m: nat, e: string, n: nat)
    requires '/' !in d && '/' !in e
    requires PortID(d, m) == PortID(e, n)
    ensures d == e && m == n
  {
    SplitJoined(d, Dec(m));
    SplitJoined(e, Dec(n));
    DecInjective(m, n);
  }

  /** `strings.Contains(s, "::")`. */
  predicate HasDelimiter(s: string) {
    exists i | 0 <= i < |s| - 1 :: s[i] == ':' && s[i + 1] == ':'
  }

  lemma PortIDHasNoDelimiter(dev: string, n: nat)
    requires ':' !in dev
    ensures !HasDelimiter(PortID(dev, n))
  {
    assert ':' !in Dec(n);
    assert ':' !in PortID(dev, n);
  }

  lemma DomainHasDelimiter(domain: string, port: string)
    ensures HasDelimiter(domain + "::" + port)
  {
    var s := domain + "::" + port;
    assert s[|domain|] == ':' && s[|domain| + 1] == ':';
  }
}
