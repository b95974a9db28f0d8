// The wildcard matcher of the GUI's filter rules (vbus-gui/src/model.cpp).
module Glob {
  import opened Arith

  /** What a wildcard pattern means: `p[i..]` matches `t[j..]`.
      `*` stands for any substring and `?` for any one character. */
  ghost predicate MatchesFrom(p: string, t: string, i: nat, j: nat)
    requires i <= |p| && j <= |t|
    decreases |p| - i
  {
    if i == |p| then
      j == |t|
    else if p[i] == '*' then
      var rest := i + 1;
      exists k :: j <= k <= |t| && MatchesFrom(p, t, rest, k)
    else
      j < |t| && Same(p[i], t[j]) && MatchesFrom(p, t, i + 1, j + 1)
  }

  ghost predicate Matches(p: string, t: string) {
    MatchesFrom(p, t, 0, 0)
  }

  // A pattern character and a text character agree as literals.
  predicate Same(a: char, b: char) {
    a == b || a == '?'
  }

  // The last star met, and the text position at which its substring now ends.
  datatype Anchor = NoStar | Star(pi: nat, ti: nat)

  datatype Cursor = Cursor(pi: nat, ti: nat, star: Anchor) {
    ghost predicate In(p: string, t: string) {
      && pi <= |p| && ti <= |t|
      && (star.Star? ==> star.pi < pi && star.ti <= ti)
      && (star.Star? ==> p[star.pi] == '*')
    }

    // First pattern position after the last star.
    function Base(): nat {
      if star.Star? then star.pi + 1 else 0
    }

    // Text position from which that part of the pattern is being tried.
    function Origin(): nat {
      if star.Star? then star.ti else 0
    }
  }

  datatype Outcome = Done(accepted: bool) | Next(cursor: Cursor)

  // One iteration of the main loop, in the order of the source's branches:
  // the literal comparison comes before the test for `*`.
  function Step(p: string, t: string, c: Cursor): (r: Outcome)
    requires c.In(p, t)
    ensures r.Next? ==> r.cursor.In(p, t)
  {
    if c.ti == |t| then
      Done(forall k :: c.pi <= k < |p| ==> p[k] == '*')
    else if c.pi < |p| && Same(p[c.pi], t[c.ti]) then
      Next(Cursor(c.pi + 1, c.ti + 1, c.star))
    else if c.pi < |p| && p[c.pi] == '*' then
      Next(Cursor(c.pi + 1, c.ti, Star(c.pi, c.ti)))
    else if c.star.Star? then
      Next(Cursor(c.star.pi + 1, c.star.ti + 1, Star(c.star.pi, c.star.ti + 1)))
    else
      Done(false)
  }

  function Scan(p: string, t: string, c: Cursor): bool
    requires c.In(p, t)
    decreases |p| - c.Base(), |t| - c.Origin(), |t| - c.ti
  {
    var r := Step(p, t, c);
    if r.Done? then r.accepted else Scan(p, t, r.cursor)
  }

  // How many times the main loop runs from `c`.
  function Iterations(p: string, t: string, c: Cursor): nat
    requires c.In(p, t)
    decreases |p| - c.Base(), |t| - c.Origin(), |t| - c.ti
  {
    var r := Step(p, t, c);
    if r.Next? then 1 + Iterations(p, t, r.cursor)
    else if c.ti < |t| then 1
    else 0
  }

  const START := Cursor(0, 0, NoStar)

  method GlobMatch(pattern: string, text: string) returns (matched: bool, ghost loops: nat)
    ensures matched == Scan(pattern, text, START)
    ensures loops == Iterations(pattern, text, START)
  {
    var pi, ti := 0, 0;
    var starPi: int, starTi := -1, 0;
    ghost var c := START;
    loops := 0;
    while ti < |text|
      invariant c.In(pattern, text) && c.pi == pi && c.ti == ti
      invariant -1 <= starPi && 0 <= starTi
      invariant c.star == if starPi == -1 then NoStar else Star(starPi, starTi)
      invariant Scan(pattern, text, START) == Scan(pattern, text, c)
      invariant Iterations(pattern, text, START) == loops + Iterations(pattern, text, c)
      decreases |pattern| - c.Base(), |text| - c.Origin(), |text| - c.ti
    {
      ghost var r := Step(pattern, text, c);
      loops := loops + 1;
      if pi < |pattern| && (pattern[pi] == text[ti] || pattern[pi] == '?') {
        pi, ti := pi + 1, ti + 1;
      } else if pi < |pattern| && pattern[pi] == '*' {
        starPi, pi, starTi := pi, pi + 1, ti;
      } else if starPi != -1 {
        starTi := starTi + 1;
        pi, ti := starPi + 1, starTi;
      } else {
        return false, loops;
      }
      c := r.cursor;
    }
    ghost var end := pi;
    while pi < |pattern| && pattern[pi] == '*'
      invariant end <= pi <= |pattern|
      invariant forall k :: end <= k < pi ==> pattern[k] == '*'
    {
      pi := pi + 1;
    }
    matched := pi == |pattern|;
  }

  // ---------- the matcher decides the wildcard relation ----------

  // What is known while scanning star-free text: the pattern after the last star holds no
  // star and agrees with the text from the anchor on.
  ghost predicate Aligned(p: string, t: string, c: Cursor)
    requires c.In(p, t)
  {
    && c.pi - c.Base() == c.ti - c.Origin()
    && (forall x :: c.Base() <= x < c.pi ==> p[x] != '*' && Same(p[x], t[x - c.Base() + c.Origin()]))
  }

  // What the last star still has to find: a suffix, from the anchor on, for the pattern after it.
  ghost predicate Wanted(p: string, t: string, c: Cursor)
    requires c.In(p, t)
  {
    var base := c.Base();
    if c.star.NoStar? then MatchesFrom(p, t, 0, 0)
    else exists k :: c.star.ti <= k <= |t| && MatchesFrom(p, t, base, k)
  }

  // A star-free stretch of the pattern is matched character by character.
  lemma {:induction false} Stretch(p: string, t: string, i: nat, j: nat, m: nat)
    requires i <= m <= |p| && j <= |t|
    requires forall x :: i <= x < m ==> p[x] != '*'
    ensures MatchesFrom(p, t, i, j) <==>
            && j + (m - i) <= |t|
            && (forall x :: i <= x < m ==> Same(p[x], t[x - i + j]))
            && MatchesFrom(p, t, m, j + (m - i))
    decreases m - i
  {
    if i < m {
      assert p[i] != '*';
      if j < |t| {
        Stretch(p, t, i + 1, j + 1, m);
      }
    }
  }

  // The rest of the pattern matches the empty text exactly when it is nothing but stars.
  lemma {:induction false} OnlyStars(p: string, t: string, i: nat)
    requires i <= |p|
    ensures MatchesFrom(p, t, i, |t|) <==> forall k :: i <= k < |p| ==> p[k] == '*'
    decreases |p| - i
  {
    if i < |p| {
      OnlyStars(p, t, i + 1);
    }
  }

  // At the end of the text, or at a mismatch, the anchor decides: the wanted match is either
  // at the anchor itself or strictly beyond it.
  lemma AtAnchor(p: string, t: string, c: Cursor)
    requires c.In(p, t) && Aligned(p, t, c)
    ensures MatchesFrom(p, t, c.Base(), c.Origin()) <==> MatchesFrom(p, t, c.pi, c.ti)
  {
    Stretch(p, t, c.Base(), c.Origin(), c.pi);
  }

  // A new star takes over: whatever the old one wanted, the new one wants from here on.
  lemma NewStar(p: string, t: string, c: Cursor)
    requires c.In(p, t) && Aligned(p, t, c)
    requires c.pi < |p| && p[c.pi] == '*'
    ensures Wanted(p, t, c) <==> Wanted(p, t, Cursor(c.pi + 1, c.ti, Star(c.pi, c.ti)))
  {
    var base, rest := c.Base(), c.pi + 1;
    var next := Cursor(c.pi + 1, c.ti, Star(c.pi, c.ti));
    assert next.Base() == rest;
    AtAnchor(p, t, c);
    if Wanted(p, t, next) {
      var l :| c.ti <= l <= |t| && MatchesFrom(p, t, rest, l);
      assert MatchesFrom(p, t, c.pi, c.ti);
      assert MatchesFrom(p, t, base, c.Origin());
    }
    if Wanted(p, t, c) {
      var k: nat :| c.Origin() <= k <= |t| && MatchesFrom(p, t, base, k);
      Stretch(p, t, base, k, c.pi);
      var l :| k + (c.pi - base) <= l <= |t| && MatchesFrom(p, t, rest, l);
      assert c.ti <= l && MatchesFrom(p, t, next.Base(), l);
    }
  }

  // A literal step changes nothing of what is wanted.
  lemma Advance(p: string, t: string, c: Cursor)
    requires '*' !in t
    requires c.In(p, t) && c.ti < |t| && c.pi < |p| && Same(p[c.pi], t[c.ti])
    ensures var next := Cursor(c.pi + 1, c.ti + 1, c.star);
            Step(p, t, c) == Next(next) && (Wanted(p, t, next) <==> Wanted(p, t, c))
  {
    var next, base := Cursor(c.pi + 1, c.ti + 1, c.star), c.Base();
    assert next.Base() == base;
    if c.star.Star? && Wanted(p, t, c) {
      var k :| c.star.ti <= k <= |t| && MatchesFrom(p, t, base, k);
      assert MatchesFrom(p, t, next.Base(), k);
    }
    if c.star.Star? && Wanted(p, t, next) {
      var k :| c.star.ti <= k <= |t| && MatchesFrom(p, t, next.Base(), k);
      assert MatchesFrom(p, t, base, k);
    }
  }

  // The text is used up: a later anchor would leave too little text for the stretch.
  lemma TextUsed(p: string, t: string, c: Cursor)
    requires c.In(p, t) && Aligned(p, t, c) && c.ti == |t|
    ensures Wanted(p, t, c) <==> MatchesFrom(p, t, c.pi, c.ti)
  {
    var base := c.Base();
    AtAnchor(p, t, c);
    if c.star.Star? && Wanted(p, t, c) {
      var k :| c.star.ti <= k <= |t| && MatchesFrom(p, t, base, k);
      Stretch(p, t, base, k, c.pi);
      assert k == c.star.ti;
    }
  }

  // A mismatch rules out the anchor, so the search moves to the next one.
  lemma Mismatch(p: string, t: string, c: Cursor)
    requires c.In(p, t) && Aligned(p, t, c) && c.ti < |t|
    requires c.pi < |p| ==> p[c.pi] != '*' && !Same(p[c.pi], t[c.ti])
    ensures c.star.NoStar? ==> !Wanted(p, t, c)
    ensures c.star.Star? ==> (Wanted(p, t, c) <==> Wanted(p, t, c.(pi := c.star.pi + 1, ti := c.star.ti + 1,
                                                                    star := Star(c.star.pi, c.star.ti + 1))))
  {
    var base := c.Base();
    AtAnchor(p, t, c);
    if c.star.Star? && Wanted(p, t, c) {
      var k :| c.star.ti <= k <= |t| && MatchesFrom(p, t, base, k);
      var next := c.(pi := c.star.pi + 1, ti := c.star.ti + 1, star := Star(c.star.pi, c.star.ti + 1));
      assert k != c.star.ti && next.Base() == base;
      assert MatchesFrom(p, t, next.Base(), k);
    }
  }

  lemma AlignedStep(p: string, t: string, c: Cursor)
    requires '*' !in t
    requires c.In(p, t) && Aligned(p, t, c)
    ensures var r := Step(p, t, c); r.Next? ==> Aligned(p, t, r.cursor)
  {}

  lemma {:induction false} ScanIsWanted(p: string, t: string, c: Cursor)
    requires '*' !in t
    requires c.In(p, t) && Aligned(p, t, c)
    ensures Scan(p, t, c) <==> Wanted(p, t, c)
    decreases |p| - c.Base(), |t| - c.Origin(), |t| - c.ti
  {
    var r := Step(p, t, c);
    if c.ti == |t| {
      TextUsed(p, t, c);
      OnlyStars(p, t, c.pi);
    } else if c.pi < |p| && Same(p[c.pi], t[c.ti]) {
      Advance(p, t, c);
      ScanIsWanted(p, t, r.cursor);
    } else if c.pi < |p| && p[c.pi] == '*' {
      NewStar(p, t, c);
      ScanIsWanted(p, t, r.cursor);
    } else {
      Mismatch(p, t, c);
      if r.Next? {
        ScanIsWanted(p, t, r.cursor);
      }
    }
  }

  /** On text without `*` the matcher, which remembers only the last star, loses no match. */
  lemma ScanDecidesMatches(p: string, t: string)
    requires '*' !in t
    ensures Scan(p, t, START) <==> Matches(p, t)
  {
    ScanIsWanted(p, t, START);
  }

  // ---------- and on no other text ----------

  function Times(c: char, n: nat): (s: string)
    ensures |s| == n && forall k :: 0 <= k < n ==> s[k] == c
  {
    seq(n, _ => c)
  }

  // While pattern and text agree literally and no star has been met, the scan just advances.
  lemma {:induction false} LiteralRun(p: string, t: string, i: nat)
    requires i <= |t| <= |p|
    requires forall k :: i <= k < |t| ==> Same(p[k], t[k])
    requires exists k :: |t| <= k < |p| && p[k] != '*'
    ensures !Scan(p, t, Cursor(i, i, NoStar))
    decreases |t| - i
  {
    if i < |t| {
      LiteralRun(p, t, i + 1);
    }
  }

  // The pattern that a text with a star defeats: the text up to its star, then a star,
  // then one `?` for each remaining text character.
  function Defeating(t: string, i: nat): (p: string)
    requires i < |t|
  {
    t[..i] + "*" + Times('?', |t| - i)
  }

  lemma {:induction false} QuestionMarks(p: string, t: string, i: nat, j: nat)
    requires i <= |p| && j <= |t| && |p| - i == |t| - j
    requires forall k :: i <= k < |p| ==> p[k] == '?'
    ensures MatchesFrom(p, t, i, j)
    decreases |p| - i
  {
    if i < |p| {
      QuestionMarks(p, t, i + 1, j + 1);
    }
  }

  ghost predicate Defeats(p: string, t: string, i: nat) {
    && i < |t| && t[i] == '*'
    && |p| == |t| + 1 && p[i] == '*'
    && (forall k :: 0 <= k < i ==> p[k] == t[k] && p[k] != '*')
    && (forall k :: i < k < |p| ==> p[k] == '?')
  }

  lemma DefeatingDefeats(t: string, i: nat)
    requires i < |t| && t[i] == '*' && '*' !in t[..i]
    ensures Defeats(Defeating(t, i), t, i)
  {
    var p := Defeating(t, i);
    assert forall k :: 0 <= k < i ==> p[k] == t[..i][k];
  }

  lemma DefeatedScan(p: string, t: string, i: nat)
    requires Defeats(p, t, i)
    ensures !Scan(p, t, START)
  {
    assert p[|t|] != '*';
    LiteralRun(p, t, 0);
  }

  lemma DefeatedMatch(p: string, t: string, i: nat)
    requires Defeats(p, t, i)
    ensures Matches(p, t)
  {
    QuestionMarks(p, t, i + 1, i);
    assert MatchesFrom(p, t, i, i);
    Stretch(p, t, 0, 0, i);
  }

  lemma {:induction false} FirstStar(t: string) returns (i: nat)
    requires '*' in t
    ensures i < |t| && t[i] == '*' && '*' !in t[..i]
  {
    i := 0;
    while t[i] != '*'
      invariant i < |t| && '*' !in t[..i]
      invariant exists k :: i <= k < |t| && t[k] == '*'
      decreases |t| - i
    {
      i := i + 1;
    }
  }

  /** The text a caller may pass: the matcher agrees with the wildcard relation for every
      pattern exactly when the text holds no `*`. */
  lemma SafeTexts(t: string)
    ensures (forall p: string :: Scan(p, t, START) <==> Matches(p, t)) <==> '*' !in t
  {
    if '*' in t {
      var i := FirstStar(t);
      var p := Defeating(t, i);
      DefeatingDefeats(t, i);
      DefeatedScan(p, t, i);
      DefeatedMatch(p, t, i);
    } else {
      forall p: string ensures Scan(p, t, START) <==> Matches(p, t) {
        ScanDecidesMatches(p, t);
      }
    }
  }

  // ---------- how long it takes ----------

  // Position of the first star at or after `i`, or the pattern's length.
  function NextStar(p: string, i: nat): (n: nat)
    requires i <= |p|
    ensures i <= n <= |p|
    ensures forall k :: i <= k < n ==> p[k] != '*'
    ensures n < |p| ==> p[n] == '*'
    decreases |p| - i
  {
    if i == |p| || p[i] == '*' then i else NextStar(p, i + 1)
  }

  // Each anchor costs at most one pass over the stretch up to the next star, and each star has
  // at most one anchor for each text position.
  ghost function Budget(p: string, t: string, c: Cursor): int
    requires c.In(p, t)
  {
    var next := NextStar(p, c.Base());
    (|p| - next) * |t| + (|t| - c.Origin()) * (next + 1 - c.Base()) - (c.ti - c.Origin())
  }

  // An anchor still in hand, and the passes over a stretch of `width` that it stands for.
  lemma AnchorCost(anchors: nat, width: nat)
    requires anchors > 0
    ensures anchors * width >= width
    ensures (anchors - 1) * width == anchors * width - width
  {}

  lemma StarCost(p: nat, t: nat, next: nat, next': nat, ti: nat)
    requires next <= next' <= p && ti <= t
    ensures (p - next') * t + (t - ti) * (next' - next) <= (p - next) * t
  {
    assert (p - next) * t == (p - next') * t + t * (next' - next);
    assert (t - ti) * (next' - next) == t * (next' - next) - ti * (next' - next);
  }

  lemma NotPastNextStar(p: string, t: string, c: Cursor)
    requires c.In(p, t) && Aligned(p, t, c)
    ensures c.pi <= NextStar(p, c.Base())
  {}

  lemma BudgetLeft(p: string, t: string, c: Cursor)
    requires c.In(p, t) && Aligned(p, t, c) && c.ti < |t|
    ensures c.pi <= NextStar(p, c.Base())
    ensures Budget(p, t, c) >= 1
  {
    var next := NextStar(p, c.Base());
    NotPastNextStar(p, t, c);
    AnchorCost(|t| - c.Origin(), next + 1 - c.Base());
    Product(|p| - next, |t|);
  }

  lemma StarSpends(p: string, t: string, c: Cursor)
    requires c.In(p, t) && Aligned(p, t, c) && c.ti < |t|
    requires c.pi == NextStar(p, c.Base()) < |p|
    ensures Budget(p, t, Cursor(c.pi + 1, c.ti, Star(c.pi, c.ti))) + 1 <= Budget(p, t, c)
  {
    var next := c.pi;
    var next' := NextStar(p, next + 1);
    AnchorCost(|t| - c.Origin(), next + 1 - c.Base());
    StarCost(|p|, |t|, next, next', c.ti);
    assert Budget(p, t, c) == (|p| - next) * |t| + (|t| - c.Origin()) * (next + 1 - c.Base()) - (c.ti - c.Origin());
  }

  lemma AnchorSpends(p: string, t: string, c: Cursor)
    requires c.In(p, t) && Aligned(p, t, c) && c.ti < |t| && c.star.Star?
    requires c.pi <= NextStar(p, c.Base())
    ensures Budget(p, t, Cursor(c.star.pi + 1, c.star.ti + 1, Star(c.star.pi, c.star.ti + 1))) + 1 <= Budget(p, t, c)
  {
    AnchorCost(|t| - c.Origin(), NextStar(p, c.Base()) + 1 - c.Base());
  }

  // Every iteration spends at least one unit.
  lemma StepSpends(p: string, t: string, c: Cursor)
    requires '*' !in t
    requires c.In(p, t) && Aligned(p, t, c) && c.ti < |t|
    ensures Budget(p, t, c) >= 1
    ensures var r := Step(p, t, c); r.Next? ==> Budget(p, t, r.cursor) + 1 <= Budget(p, t, c)
  {
    BudgetLeft(p, t, c);
    if c.pi < |p| && Same(p[c.pi], t[c.ti]) {
    } else if c.pi < |p| && p[c.pi] == '*' {
      StarSpends(p, t, c);
    } else if c.star.Star? {
      AnchorSpends(p, t, c);
    }
  }

  lemma {:induction false} IterationsWithin(p: string, t: string, c: Cursor)
    requires '*' !in t
    requires c.In(p, t) && Aligned(p, t, c)
    ensures c.ti < |t| ==> Iterations(p, t, c) <= Budget(p, t, c)
    decreases |p| - c.Base(), |t| - c.Origin(), |t| - c.ti
  {
    if c.ti < |t| {
      StepSpends(p, t, c);
      var r := Step(p, t, c);
      if r.Next? {
        AlignedStep(p, t, c);
        IterationsWithin(p, t, r.cursor);
      }
    }
  }

  /** For star-free text the main loop runs at most once for each pair of a pattern position
      (its end included) and a text position. */
  lemma LoopBound(p: string, t: string)
    requires '*' !in t
    ensures Iterations(p, t, START) <= (|p| + 1) * |t|
  {
    IterationsWithin(p, t, START);
    var next := NextStar(p, 0);
    assert (|p| - next) * |t| + |t| * (next + 1) == (|p| + 1) * |t|;
  }

  /** A text that is accepted takes at least one iteration for each of its characters. */
  lemma {:induction false} LoopsAtLeast(p: string, t: string, c: Cursor)
    requires c.In(p, t) && Scan(p, t, c)
    ensures Iterations(p, t, c) >= |t| - c.ti
    decreases |p| - c.Base(), |t| - c.Origin(), |t| - c.ti
  {
    var r := Step(p, t, c);
    if r.Next? {
      LoopsAtLeast(p, t, r.cursor);
    }
  }
}
