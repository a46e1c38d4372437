/**
 IPv4 addresses as text (service/l5_service.go:569-619): the printer, the parser that splits,
 and the parser that scans once. The first byte printed is the low one. Strings stand for
 their bytes.
 */
module IpCodec {
  import opened Keys
  import opened Wrappers

  const UINT32 := 0x1_0000_0000
  const UINT64 := 0x1_0000_0000_0000_0000
  const INT63 := 0x8000_0000_0000_0000

  // ---------------------------------------------------------------- machine words

  /** `uint32(n)`: the low 32 bits. */
  function Low32(n: int): nat { n % UINT32 }

  /** A 64-bit `int` wraps. */
  function Wrap64(n: int): int { (n + INT63) % UINT64 - INT63 }

  /** Bitwise or. */
  function Or(a: nat, b: nat): nat {
    if a == 0 && b == 0 then 0
    else 2 * Or(a / 2, b / 2) + if a % 2 == 1 || b % 2 == 1 then 1 else 0
  }

  function Power256(i: nat): nat {
    if i == 0 then 1 else if i == 1 then 0x100 else if i == 2 then 0x1_0000 else if i == 3 then 0x100_0000 else 0
  }

  /** `x << (i * 8)` in 32 bits; shifting by the width or more gives zero. */
  function ShiftBytes(x: nat, i: nat): nat { (x * Power256(i)) % UINT32 }

  /** `sum | uint32(item) << (index * 8)`. */
  function Place(sum: nat, item: int, index: nat): nat {
    Or(sum, ShiftBytes(Low32(item), index))
  }

  function Pow2(k: nat): nat { if k == 0 then 1 else 2 * Pow2(k - 1) }

  lemma {:induction false} OrZero(b: nat)
    ensures Or(0, b) == b
  {
    if b != 0 { OrZero(b / 2); }
  }

  /** Or is addition when the one number lies below the bits of the other. */
  lemma {:induction false} OrDisjoint(a: nat, b: nat, k: nat)
    requires a < Pow2(k)
    ensures Or(a, b * Pow2(k)) == a + b * Pow2(k)
  {
    if k == 0 {
      OrZero(b);
    } else {
      var high := b * Pow2(k - 1);
      assert b * Pow2(k) == 2 * high;
      OrDisjoint(a / 2, b, k - 1);
      assert (2 * high) / 2 == high && (2 * high) % 2 == 0;
    }
  }

  // ---------------------------------------------------------------- splitting

  /** `strings.Split(s, ".")`. */
  function Split(s: string): (parts: seq<string>)
    ensures parts != []
  {
    if s == "" then [""]
    else
      var before, c := Split(s[..|s| - 1]), s[|s| - 1];
      if c == '.' then before + [""]
      else before[..|before| - 1] + [before[|before| - 1] + [c]]
  }

  function Join(parts: seq<string>): string
    requires parts != []
  {
    if |parts| == 1 then parts[0] else Join(parts[..|parts| - 1]) + "." + parts[|parts| - 1]
  }

  predicate Dotless(parts: seq<string>) {
    forall i :: 0 <= i < |parts| ==> '.' !in parts[i]
  }

  /** `Split` is the inverse of joining parts that contain no dot. */
  lemma {:induction false} JoinSplit(s: string)
    ensures Join(Split(s)) == s && Dotless(Split(s))
  {
    if s != "" {
      var before, c := Split(s[..|s| - 1]), s[|s| - 1];
      JoinSplit(s[..|s| - 1]);
      assert s == s[..|s| - 1] + [c];
      var n := |before| - 1;
      if c == '.' {
        assert (before + [""])[..|before|] == before;
      } else {
        var parts := before[..n] + [before[n] + [c]];
        assert parts[..n] == before[..n];
        assert before == before[..n] + [before[n]];
      }
    }
  }

  lemma SplitSnoc(s: string, c: char)
    ensures var parts := Split(s);
            Split(s + [c]) == if c == '.' then parts + [""]
                              else parts[..|parts| - 1] + [parts[|parts| - 1] + [c]]
  {
  }

  lemma {:induction false} SplitAppend(s: string, t: string)
    requires '.' !in t
    ensures Split(s + t) == Split(s)[..|Split(s)| - 1] + [Split(s)[|Split(s)| - 1] + t]
  {
    hide Split;
    var parts := Split(s);
    var n := |parts| - 1;
    if t == "" {
      assert s + t == s && parts[n] + t == parts[n];
      assert parts == parts[..n] + [parts[n]];
    } else {
      var m := |t| - 1;
      var init, c := t[..m], t[m];
      assert c in t && t == init + [c];
      SplitAppend(s, init);
      SplitSnoc(s + init, c);
      assert s + t == (s + init) + [c];
      var mid := parts[..n] + [parts[n] + init];
      assert mid[..n] == parts[..n] && mid[n] + [c] == parts[n] + t;
    }
  }

  lemma SplitPlain(t: string)
    requires '.' !in t
    ensures Split(t) == [t]
  {
    assert Split("") == [""];
    hide Split;
    SplitAppend("", t);
    assert "" + t == t && [""][..0] == [];
  }

  lemma {:induction false} SplitJoin(parts: seq<string>)
    requires parts != [] && Dotless(parts)
    ensures Split(Join(parts)) == parts
  {
    hide Split;
    var n := |parts| - 1;
    if n == 0 {
      SplitPlain(parts[0]);
      assert parts == [parts[0]];
    } else {
      SplitJoin(parts[..n]);
      SplitSnoc(Join(parts[..n]), '.');
      var s, before := Join(parts[..n]) + ".", parts[..n] + [""];
      assert Split(s) == before;
      SplitAppend(s, parts[n]);
      assert before[..n] == parts[..n] && before[n] + parts[n] == parts[n];
      assert parts == parts[..n] + [parts[n]];
    }
  }

  // ---------------------------------------------------------------- the two parsers

  /** The value of a list of components, low byte first. */
  function Assemble(parts: seq<string>): nat {
    if parts == [] then 0
    else Place(Assemble(parts[..|parts| - 1]), Value(parts[|parts| - 1]), |parts| - 1)
  }

  /** `strconv.ParseUint(s, 10, 64)`. */
  function ParseUint(s: string): Option<int> {
    if s == "" || (exists i :: 0 <= i < |s| && !('0' <= s[i] <= '9')) || Value(s) >= UINT64 then None
    else Some(Value(s))
  }

  /** `ParseIPStr2Int`: four components, each a number, or an error. */
  method ParseIPStr2Int(ip: string) returns (r: Option<nat>)
    ensures r.Some? <==> |Split(ip)| == 4 && forall i :: 0 <= i < 4 ==> ParseUint(Split(ip)[i]).Some?
    ensures r.Some? ==> r.value == Assemble(Split(ip))
  {
    hide Place, Split;
    var ips := Split(ip);
    if |ips| != 4 {
      return None;
    }
    var out: nat := 0;
    for i := 0 to 4
      invariant forall j :: 0 <= j < i ==> ParseUint(ips[j]).Some?
      invariant out == Assemble(ips[..i])
    {
      var tmp := ParseUint(ips[i]);
      if tmp.None? {
        return None;
      }
      assert ips[..i + 1][..i] == ips[..i];
      out := Place(out, tmp.value, i);
    }
    assert ips[..4] == ips;
    return Some(out);
  }

  lemma MultipleVanishes(x: int, k: int)
    ensures (x + k * UINT32) % UINT32 == x % UINT32
  {
  }

  lemma Low32Congruent(a: int, b: int, d: int)
    requires a % UINT32 == b % UINT32
    ensures (a * 10 + d) % UINT32 == (b * 10 + d) % UINT32
  {
    var k := a / UINT32 - b / UINT32;
    assert a == b + k * UINT32;
    assert a * 10 + d == (b * 10 + d) + (10 * k) * UINT32;
    MultipleVanishes(b * 10 + d, 10 * k);
  }

  /** Wrapping at 64 bits does not show in the low 32. */
  lemma WrapKeepsLow(n: int)
    ensures Wrap64(n) % UINT32 == n % UINT32
  {
  }

  /** Where one pass stands after the text `s`: the parts before the last are assembled, and
      `item` is the last one, up to the bits that will be kept. */
  ghost predicate Scanned(s: string, sum: nat, item: int, index: nat) {
    && index == |Split(s)| - 1
    && sum == Assemble(Split(s)[..index])
    && Low32(item) == Low32(Value(Split(s)[index]))
  }

  lemma ScanDot(s: string, sum: nat, item: int, index: nat)
    requires Scanned(s, sum, item, index)
    ensures Scanned(s + ".", Place(sum, item, index), 0, index + 1)
  {
  }

  lemma ScanDigit(s: string, sum: nat, item: int, index: nat, c: char)
    requires Scanned(s, sum, item, index) && c != '.'
    ensures Scanned(s + [c], sum, Wrap64(item * 10 + (c as int - '0' as int)), index)
  {
    hide Split, Assemble, Value, Wrap64, Low32;
    var parts := Split(s);
    var longer, d := parts[index] + [c], c as int - '0' as int;
    SplitSnoc(s, c);
    ValueSnoc(parts[index], c);
    DigitKeepsLow(item, Value(parts[index]), d);
    var more := parts[..index] + [longer];
    assert Split(s + [c]) == more;
    assert more[..index] == parts[..index] && more[index] == longer;
  }

  lemma DigitKeepsLow(item: int, value: int, d: int)
    requires Low32(item) == Low32(value)
    ensures Low32(Wrap64(item * 10 + d)) == Low32(value * 10 + d)
  {
    hide Wrap64;
    Low32Congruent(item, value, d);
    WrapKeepsLow(item * 10 + d);
  }

  lemma ScanEnd(s: string, sum: nat, item: int, index: nat)
    requires Scanned(s, sum, item, index)
    ensures Place(sum, item, index) == Assemble(Split(s))
  {
  }

  lemma ValueSnoc(s: string, c: char)
    ensures Value(s + [c]) == Value(s) * 10 + (c as int - '0' as int)
  {
  }

  /** `ParseIPStr2IntV2`: one pass, no errors. It always assembles the components, however
      many there are and whatever characters they hold, also when an accumulator wraps. */
  method ParseIPStr2IntV2(ip: string) returns (sum: nat)
    ensures sum == Assemble(Split(ip))
  {
    var item := 0;
    sum := 0;
    var index := 0;
    assert ip[..0] == "" && Scanned("", 0, 0, 0);
    hide Place, Scanned, Wrap64;
    for i := 0 to |ip|
      invariant index >= 0 && Scanned(ip[..i], sum, item, index)
    {
      assert ip[..i + 1] == ip[..i] + [ip[i]];
      if ip[i] == '.' {
        ScanDot(ip[..i], sum, item, index);
        sum := Place(sum, item, index);
        item := 0;
        index := index + 1;
      } else {
        ScanDigit(ip[..i], sum, item, index, ip[i]);
        item := Wrap64(item * 10 + (ip[i] as int - '0' as int));
      }
    }
    assert ip[..|ip|] == ip;
    ScanEnd(ip, sum, item, index);
    sum := Place(sum, item, index);
  }

  // ---------------------------------------------------------------- the printer

  /** `(ip >> (i * 8)) & 255`. */
  function Octet(ip: nat, i: nat): nat
    requires i < 4
  {
    (ip / Power256(i)) % 256
  }

  function Octets(ip: nat): seq<string> {
    Texts(Octet(ip, 0), Octet(ip, 1), Octet(ip, 2), Octet(ip, 3))
  }

  /** `ParseIPInt2Str`. */
  method ParseIPInt2Str(ip: nat) returns (s: string)
    requires ip < UINT32
    ensures s == Join(Octets(ip))
  {
    var ipStr: seq<nat> := [];
    for i := 0 to 4
      invariant |ipStr| == i && forall j :: 0 <= j < i ==> ipStr[j] == Octet(ip, j)
    {
      ipStr := ipStr + [Octet(ip, i)];
    }
    s := Decimal(ipStr[0]) + "." + Decimal(ipStr[1]) + "." + Decimal(ipStr[2]) + "." + Decimal(ipStr[3]);
    JoinFour(Decimal(ipStr[0]), Decimal(ipStr[1]), Decimal(ipStr[2]), Decimal(ipStr[3]));
  }

  lemma JoinFour(a: string, b: string, c: string, d: string)
    ensures Join([a, b, c, d]) == a + "." + b + "." + c + "." + d
  {
    assert [a, b][..1] == [a];
    assert Join([a, b]) == a + "." + b;
    assert [a, b, c][..2] == [a, b];
    assert Join([a, b, c]) == a + "." + b + "." + c;
    assert [a, b, c, d][..3] == [a, b, c];
  }

  lemma AssembleFour(a: string, b: string, c: string, d: string)
    ensures Assemble([a, b, c, d]) == Place(Place(Place(Place(0, Value(a), 0), Value(b), 1), Value(c), 2), Value(d), 3)
  {
    hide Place, Value;
    assert [a][..0] == [];
    assert Assemble([a]) == Place(0, Value(a), 0);
    assert [a, b][..1] == [a];
    assert Assemble([a, b]) == Place(Place(0, Value(a), 0), Value(b), 1);
    assert [a, b, c][..2] == [a, b];
    assert Assemble([a, b, c]) == Place(Place(Place(0, Value(a), 0), Value(b), 1), Value(c), 2);
    assert [a, b, c, d][..3] == [a, b, c];
  }

  lemma PowersAgree(i: nat)
    requires i < 4
    ensures Power256(i) == Pow2(8 * i)
  {
    assert Pow2(4) == 16;
    assert Pow2(8) == 0x100;
    assert Pow2(12) == 0x1000;
    assert Pow2(16) == 0x1_0000;
    assert Pow2(20) == 0x10_0000;
    assert Pow2(24) == 0x100_0000;
  }

  lemma ByteShift(b: nat, i: nat)
    requires i < 4 && b < 256
    ensures ShiftBytes(Low32(b), i) == b * Power256(i)
  {
  }

  /** A byte placed above everything already there is added. */
  lemma PlaceByte(sum: nat, b: nat, i: nat)
    requires i < 4 && b < 256 && sum < Power256(i)
    ensures Place(sum, b, i) == sum + b * Power256(i)
  {
    hide Or, Pow2, Power256, ShiftBytes, Low32;
    PowersAgree(i);
    ByteShift(b, i);
    OrDisjoint(sum, b, 8 * i);
  }

  /** The word of four bytes, low byte first. */
  function Word(a: nat, b: nat, c: nat, d: nat): nat {
    a + b * 0x100 + c * 0x1_0000 + d * 0x100_0000
  }

  function Texts(a: nat, b: nat, c: nat, d: nat): seq<string> {
    [Decimal(a), Decimal(b), Decimal(c), Decimal(d)]
  }

  lemma WordOfOctets(ip: nat)
    requires ip < UINT32
    ensures ip == Word(Octet(ip, 0), Octet(ip, 1), Octet(ip, 2), Octet(ip, 3))
  {
    var q := ip / 0x100;
    var p := q / 0x100;
    var a, b, c, d := ip % 0x100, q % 0x100, p % 0x100, p / 0x100;
    assert ip == Word(a, b, c, d);
    OctetsOfWord(a, b, c, d);
  }

  lemma LowByte(a: nat, rest: nat)
    requires a < 256
    ensures (a + rest * 0x100) / 0x100 == rest && (a + rest * 0x100) % 0x100 == a
  {
  }

  lemma ShiftTwice(x: nat)
    ensures x / 0x1_0000 == x / 0x100 / 0x100 && x / 0x100_0000 == x / 0x100 / 0x100 / 0x100
  {
  }

  lemma OctetsOfWord(a: nat, b: nat, c: nat, d: nat)
    requires a < 256 && b < 256 && c < 256 && d < 256
    ensures var ip := Word(a, b, c, d);
            ip < UINT32 && Octet(ip, 0) == a && Octet(ip, 1) == b && Octet(ip, 2) == c && Octet(ip, 3) == d
  {
    LowByte(a, b + c * 0x100 + d * 0x1_0000);
    LowByte(b, c + d * 0x100);
    LowByte(c, d);
    ShiftTwice(Word(a, b, c, d));
  }

  lemma PlaceBytes(a: nat, b: nat, c: nat, d: nat)
    requires a < 256 && b < 256 && c < 256 && d < 256
    ensures Place(Place(Place(Place(0, a, 0), b, 1), c, 2), d, 3) == Word(a, b, c, d)
  {
    hide Place;
    PlaceByte(0, a, 0);
    PlaceByte(a, b, 1);
    PlaceByte(a + b * 0x100, c, 2);
    PlaceByte(a + b * 0x100 + c * 0x1_0000, d, 3);
  }

  lemma ByteParses(b: nat)
    requires b < 256
    ensures Value(Decimal(b)) == b && ParseUint(Decimal(b)).Some? && '.' !in Decimal(b)
  {
  }

  /** The text of four bytes splits into four parts, each parses, and together they assemble
      to the word of the bytes. */
  lemma ParseBytes(a: nat, b: nat, c: nat, d: nat)
    requires a < 256 && b < 256 && c < 256 && d < 256
    ensures var parts := Split(Join(Texts(a, b, c, d)));
            && Assemble(parts) == Word(a, b, c, d)
            && |parts| == 4 && forall i :: 0 <= i < 4 ==> ParseUint(parts[i]).Some?
  {
    hide Split, Join, Place, Value, Decimal, Assemble, ParseUint, Word;
    var o := Texts(a, b, c, d);
    ByteParses(a);
    ByteParses(b);
    ByteParses(c);
    ByteParses(d);
    SplitJoin(o);
    AssembleFour(o[0], o[1], o[2], o[3]);
    PlaceBytes(a, b, c, d);
  }

  /** Printing an address and parsing it, with either parser, gives the address back. */
  lemma RoundTrip(ip: nat)
    requires ip < UINT32
    ensures var parts := Split(Join(Octets(ip)));
            && Assemble(parts) == ip
            && |parts| == 4 && forall i :: 0 <= i < 4 ==> ParseUint(parts[i]).Some?
  {
    hide Split, Join, Decimal, Assemble, ParseUint, Octet, Word;
    OctetRange(ip);
    ParseBytes(Octet(ip, 0), Octet(ip, 1), Octet(ip, 2), Octet(ip, 3));
    WordOfOctets(ip);
  }

  /** Parsing the canonical text of four bytes and printing the result gives the text back. */
  lemma TextRoundTrip(a: nat, b: nat, c: nat, d: nat)
    requires a < 256 && b < 256 && c < 256 && d < 256
    ensures var text := Join(Texts(a, b, c, d));
            var ip := Assemble(Split(text));
            ip < UINT32 && Join(Octets(ip)) == text
  {
    hide Split, Join, Decimal, Assemble, ParseUint, Octet, Word;
    ParseBytes(a, b, c, d);
    OctetsOfWord(a, b, c, d);
  }

  lemma OctetRange(ip: nat)
    ensures Octet(ip, 0) < 256 && Octet(ip, 1) < 256 && Octet(ip, 2) < 256 && Octet(ip, 3) < 256
  {
  }
}
