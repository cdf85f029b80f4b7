/** The Redis key of predict_delay: "predict:bucket:v1:{route}:{stop}:{hour}:{dow}". */
module PredictionKey {

  const PREFIX := "predict:bucket:v1:"

  function Digit(d: int): char
    requires 0 <= d < 10
  {
    "0123456789"[d]
  }

  /** A non-negative int as str.format prints it. */
  function Decimal(n: nat): (s: string)
    ensures s != [] && ':' !in s
  {
    if n < 10 then [Digit(n)] else Decimal(n / 10) + [Digit(n % 10)]
  }

  function BucketKey(route: string, stop: string, hour: nat, dow: nat): string {
    PREFIX + (route + ":" + stop) + ":" + Decimal(hour) + ":" + Decimal(dow)
  }

  lemma {:induction false} DecimalInjective(m: nat, n: nat)
    requires Decimal(m) == Decimal(n)
    ensures m == n
  {
    var s, t := Decimal(m), Decimal(n);
    assert s[|s| - 1] == Digit(m % 10) && t[|t| - 1] == Digit(n % 10);
    if m >= 10 && n >= 10 {
      assert s[..|s| - 1] == Decimal(m / 10) && t[..|t| - 1] == Decimal(n / 10);
      DecimalInjective(m / 10, n / 10);
    } else {
      assert |Decimal(m / 10)| > 0 && |Decimal(n / 10)| > 0;
    }
  }

  /** Splitting at the last colon is unambiguous when the last field has none. */
  lemma LastFieldUnique(a: string, b: string, c: string, d: string)
    requires a + ":" + b == c + ":" + d
    requires ':' !in b && ':' !in d
    ensures a == c && b == d
  {
    var s := a + ":" + b;
    assert s[|a|] == ':' && s[|c|] == ':';
    assert |a| == |c|;
    assert a == s[..|a|] && c == s[..|a|];
    assert b == s[|a| + 1..] && d == s[|a| + 1..];
  }

  /** Splitting at the first colon is unambiguous when the first field has none. */
  lemma FirstFieldUnique(a: string, b: string, c: string, d: string)
    requires a + ":" + b == c + ":" + d
    requires ':' !in a && ':' !in c
    ensures a == c && b == d
  {
    var s := a + ":" + b;
    assert s[|a|] == ':' && s[|c|] == ':';
    assert |a| == |c|;
    assert a == s[..|a|] && c == s[..|a|];
    assert b == s[|a| + 1..] && d == s[|a| + 1..];
  }

  /** Equal keys always agree on hour, weekday and the joined "route:stop" text. */
  lemma EqualKeys(r: string, s: string, h: nat, d: nat, r': string, s': string, h': nat, d': nat)
    ensures BucketKey(r, s, h, d) == BucketKey(r', s', h', d')
            <==> h == h' && d == d' && r + ":" + s == r' + ":" + s'
  {
    if BucketKey(r, s, h, d) == BucketKey(r', s', h', d') {
      var a, b := PREFIX + (r + ":" + s) + ":" + Decimal(h), PREFIX + (r' + ":" + s') + ":" + Decimal(h');
      LastFieldUnique(a, Decimal(d), b, Decimal(d'));
      LastFieldUnique(PREFIX + (r + ":" + s), Decimal(h), PREFIX + (r' + ":" + s'), Decimal(h'));
      DecimalInjective(h, h');
      DecimalInjective(d, d');
      var x, y := PREFIX + (r + ":" + s), PREFIX + (r' + ":" + s');
      assert r + ":" + s == x[|PREFIX|..] && r' + ":" + s' == y[|PREFIX|..];
    }
  }

  /** No other request shares the key. */
  ghost predicate KeyIsExclusive(r: string, s: string, h: nat, d: nat) {
    forall r', s', h': nat, d': nat :: BucketKey(r', s', h', d') == BucketKey(r, s, h, d) ==>
      r' == r && s' == s && h' == h && d' == d
  }

  /** A request owns its key exactly when neither of its ids contains a colon. */
  lemma KeyIsExclusiveIff(r: string, s: string, h: nat, d: nat)
    ensures KeyIsExclusive(r, s, h, d) <==> ':' !in r && ':' !in s
  {
    if ':' in r {
      var i :| 0 <= i < |r| && r[i] == ':';
      Collision(r[..i], r[i + 1..], s, h, d);
      assert r == r[..i] + ":" + r[i + 1..];
    } else if ':' in s {
      var i :| 0 <= i < |s| && s[i] == ':';
      Collision(r, s[..i], s[i + 1..], h, d);
      assert s == s[..i] + ":" + s[i + 1..];
    } else {
      forall r', s', h': nat, d': nat | BucketKey(r', s', h', d') == BucketKey(r, s, h, d)
        ensures r' == r && s' == s && h' == h && d' == d
      {
        EqualKeys(r', s', h', d', r, s, h, d);
        OneColon(r, s, r', s');
      }
    }
  }

  /** The colon between the ids may be read in two places: ("a:b", "c") and ("a", "b:c"). */
  lemma Collision(a: string, b: string, c: string, h: nat, d: nat)
    ensures BucketKey(a + ":" + b, c, h, d) == BucketKey(a, b + ":" + c, h, d)
    ensures a + ":" + b != a && b + ":" + c != c
  {
    assert (a + ":" + b) + ":" + c == a + ":" + (b + ":" + c);
    assert |a + ":" + b| > |a|;
    assert |b + ":" + c| > |c|;
  }

  lemma OneColon(r: string, s: string, r': string, s': string)
    requires r + ":" + s == r' + ":" + s' && ':' !in r && ':' !in s
    ensures r == r' && s == s'
  {
    var t := r + ":" + s;
    assert t[|r'|] == ':';
    assert |r| == |r'|;
    assert r == t[..|r|] && r' == t[..|r'|];
    assert s == t[|r| + 1..] && s' == t[|r'| + 1..];
  }

  /** Requests whose route ids are free of colons never share a key, whatever the stop ids. */
  lemma ColonFreeRoutesDoNotCollide(r: string, s: string, h: nat, d: nat, r': string, s': string, h': nat, d': nat)
    requires ':' !in r && ':' !in r'
    requires BucketKey(r, s, h, d) == BucketKey(r', s', h', d')
    ensures r == r' && s == s' && h == h' && d == d'
  {
    EqualKeys(r, s, h, d, r', s', h', d');
    FirstFieldUnique(r, s, r', s');
  }

  /** The same holds when the stop ids are. */
  lemma ColonFreeStopsDoNotCollide(r: string, s: string, h: nat, d: nat, r': string, s': string, h': nat, d': nat)
    requires ':' !in s && ':' !in s'
    requires BucketKey(r, s, h, d) == BucketKey(r', s', h', d')
    ensures r == r' && s == s' && h == h' && d == d'
  {
    EqualKeys(r, s, h, d, r', s', h', d');
    LastFieldUnique(r, s, r', s');
  }

  /** The key of route 66, stop 19, ten o'clock on a Thursday. */
  lemma KeyText()
    ensures BucketKey("66", "19", 10, 3) == "predict:bucket:v1:66:19:10:3"
  {
    assert Decimal(10) == Decimal(1) + Decimal(0);
    assert Decimal(1) == "1" && Decimal(0) == "0" && Decimal(3) == "3";
    assert Decimal(10) == "10";
  }
}
