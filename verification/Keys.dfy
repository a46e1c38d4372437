/**
 String keys built with `fmt.Sprintf`, and when they can be told apart.
 */
module Keys {

  function Digit(d: int): char
    requires 0 <= d < 10
  {
    '0' + (d as char)
  }

  /** `%d` of a non-negative number. */
  function Decimal(n: nat): (s: string)
    ensures s != "" && forall c :: c in s ==> '0' <= c <= '9'
  {
    if n < 10 then [Digit(n)] else Decimal(n / 10) + [Digit(n % 10)]
  }

  function FormatInt(n: int): string {
    if n < 0 then "-" + Decimal(-n) else Decimal(n)
  }

  /** Digit by digit, as the parsers accumulate. */
  function Value(s: string): int {
    if s == "" then 0 else Value(s[..|s| - 1]) * 10 + (s[|s| - 1] as int - '0' as int)
  }

  lemma {:induction false} ValueOfDecimal(n: nat)
    ensures Value(Decimal(n)) == n
  {
    if n >= 10 {
      ValueOfDecimal(n / 10);
      var s := Decimal(n);
      assert s[..|s| - 1] == Decimal(n / 10) && s[|s| - 1] == Digit(n % 10);
    } else {
      assert Decimal(n)[..0] == "";
    }
  }

  lemma SignShows(n: int)
    ensures FormatInt(n) != "" && (FormatInt(n)[0] == '-' <==> n < 0)
  {
    if n >= 0 { assert Decimal(n)[0] in Decimal(n); }
  }

  lemma FormatIntInjective(a: int, b: int)
    requires FormatInt(a) == FormatInt(b)
    ensures a == b
  {
    SignShows(a);
    SignShows(b);
    if a < 0 {
      assert Decimal(-a) == FormatInt(a)[1..] == Decimal(-b);
      ValueOfDecimal(-a);
      ValueOfDecimal(-b);
    } else {
      ValueOfDecimal(a);
      ValueOfDecimal(b);
    }
  }

  /** The text before the first separator, and the text after it, are determined. */
  lemma SplitUnique(p: string, q: string, c: char, s: string, t: string)
    requires c !in p && c !in q
    requires p + [c] + s == q + [c] + t
    ensures p == q && s == t
  {
    var whole := p + [c] + s;
    assert whole[|p|] == c && whole[|q|] == c;
    assert forall i :: 0 <= i < |p| ==> whole[i] == p[i] && p[i] in p;
    assert forall i :: 0 <= i < |q| ==> whole[i] == q[i] && q[i] in q;
    assert |p| == |q|;
    assert p == whole[..|p|] && q == whole[..|q|];
    assert s == whole[|p| + 1..] && t == whole[|q| + 1..];
  }

  /** "%d_%s", the key under which links are compared. */
  function TaggedKey(tag: int, id: string): string {
    FormatInt(tag) + "_" + id
  }

  lemma TaggedKeyInjective(a: int, s: string, b: int, t: string)
    ensures TaggedKey(a, s) == TaggedKey(b, t) <==> a == b && s == t
  {
    if TaggedKey(a, s) == TaggedKey(b, t) {
      assert '_' !in FormatInt(a) && '_' !in FormatInt(b);
      SplitUnique(FormatInt(a), FormatInt(b), '_', s, t);
      FormatIntInjective(a, b);
    }
  }

  /** "%s@@%s", the key of a service. */
  function ServiceKey(namespace: string, service: string): string {
    namespace + "@@" + service
  }

  /** The namespace does not end in "@" and has no "@@" in it. */
  predicate Separable(namespace: string) {
    && (namespace != "" ==> namespace[|namespace| - 1] != '@')
    && forall i :: 0 <= i < |namespace| - 1 ==> !(namespace[i] == '@' && namespace[i + 1] == '@')
  }

  /** Of two namespaces with a service key in common, the longer one is not separable. */
  lemma LongerNotSeparable(n: string, s: string, m: string, t: string)
    requires ServiceKey(n, s) == ServiceKey(m, t) && |m| < |n|
    ensures !Separable(n)
  {
    var key := ServiceKey(n, s);
    assert key == n + "@@" + s && key == m + "@@" + t;
    assert n[|m|] == key[|m|] == '@';
    if |m| + 1 < |n| {
      assert n[|m| + 1] == key[|m| + 1] == '@';
    }
  }

  /** Service keys are unambiguous among separable namespaces. */
  lemma ServiceKeyInjective(n: string, s: string, m: string, t: string)
    requires Separable(n) && Separable(m)
    ensures ServiceKey(n, s) == ServiceKey(m, t) <==> n == m && s == t
  {
    var key := ServiceKey(n, s);
    if key == ServiceKey(m, t) {
      if |m| < |n| { LongerNotSeparable(n, s, m, t); }
      if |n| < |m| { LongerNotSeparable(m, t, n, s); }
      assert n == key[..|n|] && m == key[..|m|];
      assert s == key[|n| + 2..] && t == key[|m| + 2..];
    }
  }

  /** A namespace has a service key in common with a shorter one if and only if it is not
      separable: then each of its services does. */
  lemma ServiceKeyAmbiguousIff(n: string)
    ensures (exists m, s, t :: |m| < |n| && ServiceKey(n, s) == ServiceKey(m, t)) <==> !Separable(n)
    ensures !Separable(n) ==> forall s :: exists m, t :: |m| < |n| && ServiceKey(n, s) == ServiceKey(m, t)
  {
    if Separable(n) {
      forall m, s, t | |m| < |n| ensures ServiceKey(n, s) != ServiceKey(m, t) {
        if ServiceKey(n, s) == ServiceKey(m, t) { LongerNotSeparable(n, s, m, t); }
      }
    } else {
      forall s ensures exists m, t :: |m| < |n| && ServiceKey(n, s) == ServiceKey(m, t) {
        SharesKey(n, s);
      }
      SharesKey(n, "");
    }
  }

  lemma SharesKey(n: string, s: string)
    requires !Separable(n)
    ensures exists m, t :: |m| < |n| && ServiceKey(n, s) == ServiceKey(m, t)
  {
    if n != "" && n[|n| - 1] == '@' {
      var m := n[..|n| - 1];
      assert n == m + "@";
      assert ServiceKey(n, s) == ServiceKey(m, "@" + s);
    } else {
      var i :| 0 <= i < |n| - 1 && n[i] == '@' && n[i + 1] == '@';
      var m, rest := n[..i], n[i + 2..];
      assert n == m + "@@" + rest;
      assert ServiceKey(n, s) == ServiceKey(m, rest + "@@" + s);
    }
  }
}
