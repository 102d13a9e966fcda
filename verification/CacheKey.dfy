/** The cache key of internal/backend/state_engine_graph_cache.go:110: state id, a bar, and
    the serial in decimal. */
module CacheKey {

  function Digit(d: nat): char
    requires d < 10
  {
    '0' + d as char
  }

  function Decimal(n: nat): (s: string)
    ensures s != ""
    ensures forall c :: c in s ==> '0' <= c <= '9'
  {
    if n < 10 then [Digit(n)] else Decimal(n / 10) + [Digit(n % 10)]
  }

  /** `strconv.FormatInt(i, 10)`. */
  function FormatInt(i: int): string {
    if i < 0 then "-" + Decimal(-i) else Decimal(i)
  }

  lemma {:induction false} DecimalInjective(m: nat, n: nat)
    requires Decimal(m) == Decimal(n)
    ensures m == n
  {
    var s := Decimal(m);
    assert s[|s| - 1] == Digit(m % 10) == Digit(n % 10);
    if m >= 10 && n >= 10 {
      assert s[..|s| - 1] == Decimal(m / 10) == Decimal(n / 10);
      DecimalInjective(m / 10, n / 10);
    }
  }

  lemma SignIsFirst(i: int)
    ensures FormatInt(i)[0] == '-' <==> i < 0
  {
    if i >= 0 {
      assert Decimal(i)[0] in Decimal(i);
    }
  }

  lemma FormatIntInjective(i: int, j: int)
    requires FormatInt(i) == FormatInt(j)
    ensures i == j
  {
    SignIsFirst(i);
    SignIsFirst(j);
    if i < 0 {
      assert FormatInt(i)[1..] == Decimal(-i) && FormatInt(j)[1..] == Decimal(-j);
      DecimalInjective(-i, -j);
    } else {
      DecimalInjective(i, j);
    }
  }

  /** `stateEngineGraphCacheKey`. */
  function Key(stateId: string, serial: int): string {
    stateId + "|" + FormatInt(serial)
  }

  lemma NoBarInSerial(i: int)
    ensures '|' !in FormatInt(i)
  {
  }

  lemma SplitAtLastBar(a: string, d: string, b: string, e: string)
    requires a + "|" + d == b + "|" + e
    requires '|' !in d && '|' !in e
    ensures a == b && d == e
  {
    var s := a + "|" + d;
    LastBar(a, d);
    LastBar(b, e);
    assert |a| == |b|;
    assert a == s[..|a|] && b == s[..|b|];
    assert d == s[|a| + 1..] && e == s[|b| + 1..];
  }

  lemma LastBar(a: string, d: string)
    requires '|' !in d
    ensures var s := a + "|" + d;
            s[|a|] == '|' && forall k :: |a| < k < |s| ==> s[k] != '|'
  {
    var s := a + "|" + d;
    forall k | |a| < k < |s| ensures s[k] != '|' {
      assert s[k] == d[k - |a| - 1];
    }
  }

  /** Keys are injective in state id and serial, even when a state id contains bars. */
  lemma KeyInjective(id: string, serial: int, id': string, serial': int)
    requires Key(id, serial) == Key(id', serial')
    ensures id == id' && serial == serial'
  {
    NoBarInSerial(serial);
    NoBarInSerial(serial');
    SplitAtLastBar(id, FormatInt(serial), id', FormatInt(serial'));
    FormatIntInjective(serial, serial');
  }
}
