// The GUI's filter rules and the text of a packet that they are matched against
// (passes_filters in vbus-gui/src/model.cpp).
module Filters {
  import opened Bytes
  import opened Glob

  datatype Packet = Packet(timestampNs: U64, vlan: U32, size: U16, proto: U8, preview: seq<U8>)

  datatype Kind = Include | Exclude
  datatype Rule = Rule(kind: Kind, expr: string)

  // "%u"
  function Decimal(n: nat): (s: string)
    ensures s != ""
    ensures forall c :: c in s ==> '0' <= c <= '9'
  {
    var digit := ['0' + (n % 10) as char];
    if n < 10 then digit else Decimal(n / 10) + digit
  }

  function FullText(p: Packet): string {
    "vlan:" + Decimal(p.vlan) + " size:" + Decimal(p.size)
  }

  // snprintf into a 48-byte buffer keeps 47 characters.
  function Text(p: Packet): string {
    if |FullText(p)| < 48 then FullText(p) else FullText(p)[..47]
  }

  // What one rule asks of a packet, by the meaning of wildcards.
  ghost predicate Admits(rule: Rule, p: Packet) {
    match rule.kind
    case Include => Matches(rule.expr, Text(p))
    case Exclude => !Matches(rule.expr, Text(p))
  }

  /** A packet is accepted when every Include rule matches it and no Exclude rule does. */
  ghost predicate Accepts(rules: seq<Rule>, p: Packet) {
    forall i :: 0 <= i < |rules| ==> Admits(rules[i], p)
  }

  method PassesFilters(filters: seq<Rule>, p: Packet) returns (passes: bool)
    ensures passes <==> Accepts(filters, p)
  {
    if |filters| == 0 {
      return true;
    }
    var repr := Text(p);
    for i := 0 to |filters|
      invariant Accepts(filters[..i], p)
    {
      var rule := filters[i];
      var matched, _ := GlobMatch(rule.expr, repr);
      TextHasNoStar(p);
      ScanDecidesMatches(rule.expr, repr);
      if rule.kind == Exclude && matched {
        assert !Admits(filters[i], p);
        return false;
      }
      if rule.kind == Include && !matched {
        assert !Admits(filters[i], p);
        return false;
      }
    }
    assert filters[..|filters|] == filters;
    return true;
  }

  /** The text put to the matcher is one for which the matcher is right for every pattern. */
  lemma TextHasNoStar(p: Packet)
    ensures '*' !in Text(p)
  {
    assert '*' !in Decimal(p.vlan) && '*' !in Decimal(p.size);
    assert '*' !in FullText(p);
  }

  lemma {:induction false} DecimalLength(n: nat, digits: nat, bound: nat)
    requires digits > 0 && n < bound && bound == Power10(digits)
    ensures |Decimal(n)| <= digits
    decreases digits
  {
    if n >= 10 {
      DecimalLength(n / 10, digits - 1, Power10(digits - 1));
    }
  }

  function Power10(n: nat): nat {
    if n == 0 then 1 else 10 * Power10(n - 1)
  }

  /** The buffer is large enough: no packet's text is cut. */
  lemma TextIsWhole(p: Packet)
    ensures Text(p) == FullText(p)
  {
    assert Power10(5) == 100_000;
    assert Power10(10) == 100_000 * 100_000 by {
      assert Power10(8) == 1000 * Power10(5);
      assert Power10(10) == 100 * Power10(8);
    }
    DecimalLength(p.vlan, 10, Power10(10));
    DecimalLength(p.size, 5, Power10(5));
  }

  lemma {:induction false} DecimalInjective(m: nat, n: nat)
    requires Decimal(m) == Decimal(n)
    ensures m == n
  {
    var s, t := Decimal(m), Decimal(n);
    assert s[|s| - 1] == t[|t| - 1];
    assert m % 10 == n % 10;
    if m >= 10 && n >= 10 {
      assert s[..|s| - 1] == Decimal(m / 10) && t[..|t| - 1] == Decimal(n / 10);
      DecimalInjective(m / 10, n / 10);
    }
  }

  // The first space ends the first number.
  lemma SplitAtSpace(a: string, b: string, a': string, b': string)
    requires ' ' !in a && ' ' !in a'
    requires a + " " + b == a' + " " + b'
    ensures a == a' && b == b'
  {
    var s, s' := a + " " + b, a' + " " + b';
    assert s[|a|] == ' ' && s'[|a'|] == ' ';
    assert forall k :: 0 <= k < |a'| ==> s'[k] == a'[k];
    assert forall k :: 0 <= k < |a| ==> s[k] == a[k];
    assert |a| == |a'|;
    assert s[..|a|] == a && s'[..|a'|] == a';
    assert s[|a| + 1..] == b && s'[|a'| + 1..] == b';
  }

  /** The text tells packets apart by VLAN and size, and by nothing else. */
  lemma TextDeterminesVlanAndSize(p: Packet, q: Packet)
    ensures Text(p) == Text(q) <==> p.vlan == q.vlan && p.size == q.size
  {
    TextIsWhole(p);
    TextIsWhole(q);
    if Text(p) == Text(q) {
      var a, b := "vlan:" + Decimal(p.vlan), "size:" + Decimal(p.size);
      var a', b' := "vlan:" + Decimal(q.vlan), "size:" + Decimal(q.size);
      assert a + " " + b == FullText(p) && a' + " " + b' == FullText(q);
      SplitAtSpace(a, b, a', b');
      assert a[5..] == Decimal(p.vlan) && a'[5..] == Decimal(q.vlan);
      assert b[5..] == Decimal(p.size) && b'[5..] == Decimal(q.size);
      DecimalInjective(p.vlan, q.vlan);
      DecimalInjective(p.size, q.size);
    }
  }

  /** A pattern without wildcards matches only itself. */
  lemma LiteralPattern(s: string, t: string)
    requires '*' !in s && '?' !in s
    ensures Matches(s, t) <==> s == t
  {
    Stretch(s, t, 0, 0, |s|);
  }

  /** A rule spelled as a packet's own text selects exactly the packets of that VLAN and size. */
  lemma LiteralRuleSelects(p: Packet, q: Packet)
    ensures Matches(Text(p), Text(q)) <==> p.vlan == q.vlan && p.size == q.size
  {
    TextHasNoStar(p);
    assert '?' !in Decimal(p.vlan) && '?' !in Decimal(p.size);
    assert '?' !in FullText(p);
    LiteralPattern(Text(p), Text(q));
    TextDeterminesVlanAndSize(p, q);
  }

  /** Acceptance does not depend on the order of the rules. */
  lemma OrderIrrelevant(rules: seq<Rule>, rules': seq<Rule>, p: Packet)
    requires multiset(rules) == multiset(rules')
    ensures Accepts(rules, p) <==> Accepts(rules', p)
  {
    forall r | r in rules || r in rules' ensures r in rules && r in rules' {
      assert r in multiset(rules) && r in multiset(rules');
    }
    if Accepts(rules, p) {
      forall i | 0 <= i < |rules'| ensures Admits(rules'[i], p) {
        assert rules'[i] in rules;
      }
    }
    if Accepts(rules', p) {
      forall i | 0 <= i < |rules| ensures Admits(rules[i], p) {
        assert rules[i] in rules';
      }
    }
  }

  // ---------- rules about a number ----------

  predicate Digits(d: string) {
    forall i :: 0 <= i < |d| ==> '0' <= d[i] <= '9'
  }

  // The number that a string of digits stands for.
  function Value(d: string): nat
    requires Digits(d)
  {
    if d == "" then 0 else 10 * Value(d[..|d| - 1]) + (d[|d| - 1] as int - '0' as int)
  }

  // Digits as a number is usually written: some, and no zero in front of others.
  predicate Numeral(d: string) {
    d != "" && Digits(d) && (|d| > 1 ==> d[0] != '0')
  }

  lemma {:induction false} DecimalReads(n: nat)
    ensures Numeral(Decimal(n)) && Value(Decimal(n)) == n
    ensures n > 0 ==> Decimal(n)[0] != '0'
  {
    if n >= 10 {
      DecimalReads(n / 10);
      assert Decimal(n)[..|Decimal(n)| - 1] == Decimal(n / 10);
    }
  }

  lemma {:induction false} ValuePositive(d: string)
    requires Numeral(d) && d[0] != '0'
    ensures Value(d) > 0
  {
    if |d| > 1 {
      ValuePositive(d[..|d| - 1]);
    }
  }

  lemma {:induction false} NumeralIsDecimal(d: string)
    requires Numeral(d)
    ensures Decimal(Value(d)) == d
  {
    var init, last := d[..|d| - 1], d[|d| - 1];
    var digit := last as int - '0' as int;
    assert ('0' + digit as char) == last;
    if |d| == 1 {
      assert init == "" && Value(d) == digit;
    } else {
      ValuePositive(init);
      NumeralIsDecimal(init);
      assert Value(d) / 10 == Value(init) && Value(d) % 10 == digit;
      assert d == init + [last];
    }
  }

  // A string of digits prints a number exactly when it is that number's numeral.
  lemma PrintsExactly(d: string, n: nat)
    requires Digits(d)
    ensures d == Decimal(n) <==> Numeral(d) && Value(d) == n
  {
    DecimalReads(n);
    if Numeral(d) {
      NumeralIsDecimal(d);
    }
  }

  // A pattern that ends in its only star matches what begins like it.
  lemma StarAtEnd(s: string, t: string)
    requires '*' !in s && '?' !in s
    ensures Matches(s + "*", t) <==> s <= t
  {
    var p := s + "*";
    Stretch(p, t, 0, 0, |s|);
    assert forall x :: 0 <= x < |s| ==> p[x] == s[x];
    if |s| <= |t| {
      assert MatchesFrom(p, t, |p|, |t|);
      assert MatchesFrom(p, t, |s|, |s|);
    }
  }

  // A pattern that begins with its only star matches what ends like it.
  lemma StarAtStart(s: string, t: string)
    requires '*' !in s && '?' !in s
    ensures Matches("*" + s, t) <==> |s| <= |t| && t[|t| - |s|..] == s
  {
    var p, rest := "*" + s, 1;
    assert p[0] == '*';
    assert forall x :: 1 <= x < |p| ==> p[x] == s[x - 1];
    if Matches(p, t) {
      assert MatchesFrom(p, t, 0, 0);
      var k :| 0 <= k <= |t| && MatchesFrom(p, t, rest, k);
      Stretch(p, t, rest, k, |p|);
      assert forall x :: 0 <= x < |s| ==> Same(p[1 + x], t[k + x]) && p[1 + x] == s[x];
      assert t[k..] == s;
    }
    if |s| <= |t| && t[|t| - |s|..] == s {
      var k := |t| - |s|;
      assert forall x :: 1 <= x < |p| ==> p[x] == t[k..][x - 1];
      Stretch(p, t, rest, k, |p|);
      assert MatchesFrom(p, t, rest, k);
    }
  }

  // The last space begins the last number.
  lemma SplitAtLastSpace(a: string, b: string, b': string)
    requires ' ' !in a && ' ' !in b && ' ' !in b'
    ensures var s := a + " " + b;
            |b'| < |s| && s[|s| - |b'| - 1..] == " " + b' <==> b == b'
  {
    var s := a + " " + b;
    assert s[|a|..] == " " + b;
    if |b'| < |s| && s[|s| - |b'| - 1..] == " " + b' {
      var k := |s| - |b'| - 1;
      assert s[k..][0] == ' ' && s[k] == ' ';
      assert forall x :: 0 <= x < |a| ==> s[x] == a[x];
      assert forall x :: |a| < x < |s| ==> s[x] == b[x - |a| - 1];
      assert k == |a| && s[k..][1..] == b;
    }
  }

  lemma EndsIn(a: string, b: string, v: string)
    requires ' ' !in a && ' ' !in b && ' ' !in v && '*' !in v && '?' !in v
    ensures Matches("*" + (" " + v), a + " " + b) <==> b == v
  {
    StarAtStart(" " + v, a + " " + b);
    SplitAtLastSpace(a, b, v);
  }

  lemma Starts(a: string, b: string, d: string)
    requires ' ' !in a && ' ' !in d
    ensures d + " " <= a + " " + b <==> d == a
  {
    var s := a + " " + b;
    if d + " " <= s {
      var rest := s[|d| + 1..];
      assert s == d + " " + rest;
      SplitAtSpace(d, rest, a, b);
    }
  }

  /** A rule `vlan:` with a number, for any string of digits and whatever the size: it selects the packets
      of that VLAN, and none if the number is not spelled as its numeral. */
  lemma VlanRule(d: string, p: Packet)
    requires Digits(d)
    ensures Accepts([Rule(Include, "vlan:" + d + " *")], p) <==> Numeral(d) && Value(d) == p.vlan
    ensures Accepts([Rule(Exclude, "vlan:" + d + " *")], p) <==> !(Numeral(d) && Value(d) == p.vlan)
  {
    var a, b, v := "vlan:" + Decimal(p.vlan), "size:" + Decimal(p.size), "vlan:" + d;
    TextIsWhole(p);
    assert FullText(p) == a + " " + b;
    StarAtEnd(v + " ", Text(p));
    assert "vlan:" + d + " *" == v + " " + "*";
    Starts(a, b, v);
    assert v[5..] == d && a[5..] == Decimal(p.vlan);
    PrintsExactly(d, p.vlan);
    OneRule(Include, "vlan:" + d + " *", p);
    OneRule(Exclude, "vlan:" + d + " *", p);
  }

  lemma OneRule(kind: Kind, expr: string, p: Packet)
    ensures Accepts([Rule(kind, expr)], p) <==> (Matches(expr, Text(p)) <==> kind == Include)
  {
    assert Accepts([Rule(kind, expr)], p) <==> Admits([Rule(kind, expr)][0], p);
  }

  /** A rule `size:` with a number likewise selects the packets of that size, whatever their VLAN. */
  lemma SizeRule(d: string, p: Packet)
    requires Digits(d)
    ensures Accepts([Rule(Include, "* size:" + d)], p) <==> Numeral(d) && Value(d) == p.size
    ensures Accepts([Rule(Exclude, "* size:" + d)], p) <==> !(Numeral(d) && Value(d) == p.size)
  {
    var a, b, v := "vlan:" + Decimal(p.vlan), "size:" + Decimal(p.size), "size:" + d;
    TextIsWhole(p);
    assert FullText(p) == a + " " + b;
    assert "* size:" + d == "*" + (" " + v);
    EndsIn(a, b, v);
    assert v[5..] == d && b[5..] == Decimal(p.size);
    PrintsExactly(d, p.size);
    OneRule(Include, "* size:" + d, p);
    OneRule(Exclude, "* size:" + d, p);
  }
}
