/**
 * Greedy matching of expected persona items with the items a distillation produced, and the
 * precision, recall and F1 computed from it.  Scores come from text comparison, which is foreign
 * here: `score(i, j)` is the score of expected item i against actual item j.
 */
module ItemMatching {
  import opened Wrappers

  datatype Match = Match(expected: nat, actual: nat)

  type Score = (nat, nat) -> real

  function Actuals(matches: seq<Match>): set<nat> {
    set m | m in matches :: m.actual
  }

  function Expecteds(matches: seq<Match>): set<nat> {
    set m | m in matches :: m.expected
  }

  /** The scan over the unused items below `limit` for expected item e. */
  function Best(score: Score, e: nat, used: set<nat>, limit: nat): Option<nat> {
    if limit == 0 then None
    else
      var j := limit - 1;
      var best := Best(score, e, used, j);
      if j in used || score(e, j) <= 0.0 then best
      else if best.None? || score(e, j) > score(e, best.value) then Some(j)
      else best
  }

  function Greedy(score: Score, n: nat, items: nat): seq<Match> {
    if n == 0 then []
    else
      var earlier := Greedy(score, n - 1, items);
      match Best(score, n - 1, Actuals(earlier), items)
      case None => earlier
      case Some(b) => earlier + [Match(n - 1, b)]
  }

  method MatchItems(score: Score, n: nat, items: nat) returns (matches: seq<Match>)
    ensures matches == Greedy(score, n, items)
  {
    matches := [];
    var usedActual: set<nat> := {};
    for e := 0 to n
      invariant matches == Greedy(score, e, items) && usedActual == Actuals(matches)
    {
      var best: Option<nat> := None;
      for j := 0 to items
        invariant best == Best(score, e, usedActual, j)
      {
        if j in usedActual {
          continue;
        }
        if score(e, j) <= 0.0 {
          continue;
        }
        if best.None? || score(e, j) > score(e, best.value) {
          best := Some(j);
        }
      }
      if best.Some? {
        ActualsGrow(matches, Match(e, best.value));
        usedActual := usedActual + {best.value};
        matches := matches + [Match(e, best.value)];
      }
    }
  }

  lemma ActualsGrow(matches: seq<Match>, m: Match)
    ensures Actuals(matches + [m]) == Actuals(matches) + {m.actual}
    ensures Expecteds(matches + [m]) == Expecteds(matches) + {m.expected}
  {
    assert forall x :: x in matches + [m] <==> x in matches || x == m;
    assert m in matches + [m];
  }

  // ---------------------------------------------------------------- what is chosen

  /** The first of the unused items below `limit` with the highest positive score for e, if there is one. */
  ghost predicate IsBest(score: Score, e: nat, used: set<nat>, limit: nat, best: Option<nat>) {
    match best
    case None => forall j: nat :: j < limit && j !in used ==> score(e, j) <= 0.0
    case Some(b) =>
      && b < limit && b !in used && score(e, b) > 0.0
      && (forall j: nat :: j < limit && j !in used ==> score(e, j) <= score(e, b))
      && (forall j: nat :: j < b && j !in used ==> score(e, j) < score(e, b))
  }

  lemma {:induction false} TheScanFindsTheBest(score: Score, e: nat, used: set<nat>, limit: nat)
    ensures IsBest(score, e, used, limit, Best(score, e, used, limit))
  {
    if limit > 0 {
      TheScanFindsTheBest(score, e, used, limit - 1);
    }
  }

  /** No item occurs in two matches, indices are in range, and every matched pair scores. */
  ghost predicate Proper(score: Score, n: nat, items: nat, matches: seq<Match>) {
    && (forall i :: 0 <= i < |matches| ==>
          matches[i].expected < n && matches[i].actual < items && score(matches[i].expected, matches[i].actual) > 0.0)
    && (forall i, j :: 0 <= i < j < |matches| ==>
          matches[i].expected < matches[j].expected && matches[i].actual != matches[j].actual)
  }

  lemma {:induction false} GreedyIsProper(score: Score, n: nat, items: nat)
    ensures Proper(score, n, items, Greedy(score, n, items))
  {
    if n > 0 {
      GreedyIsProper(score, n - 1, items);
      var earlier := Greedy(score, n - 1, items);
      TheScanFindsTheBest(score, n - 1, Actuals(earlier), items);
      forall i | 0 <= i < |earlier| ensures earlier[i].actual in Actuals(earlier) {
        assert earlier[i] in earlier;
      }
    }
  }

  /** A matched item got the best of what the earlier expected items left over. */
  lemma {:induction false} EveryChoiceIsBest(score: Score, n: nat, items: nat, i: nat)
    requires i < |Greedy(score, n, items)|
    ensures var matches := Greedy(score, n, items);
      IsBest(score, matches[i].expected, Actuals(matches[..i]), items, Some(matches[i].actual))
  {
    var earlier := Greedy(score, n - 1, items);
    TheScanFindsTheBest(score, n - 1, Actuals(earlier), items);
    if i < |earlier| {
      EveryChoiceIsBest(score, n - 1, items, i);
      assert Greedy(score, n, items)[..i] == earlier[..i];
    } else {
      assert Greedy(score, n, items)[..i] == earlier;
    }
  }

  /** No pair with a positive score is left with both its items unmatched. */
  lemma {:induction false} GreedyIsMaximal(score: Score, n: nat, items: nat, e: nat, a: nat)
    requires e < n && a < items && score(e, a) > 0.0
    ensures e in Expecteds(Greedy(score, n, items)) || a in Actuals(Greedy(score, n, items))
  {
    var earlier := Greedy(score, n - 1, items);
    var best := Best(score, n - 1, Actuals(earlier), items);
    TheScanFindsTheBest(score, n - 1, Actuals(earlier), items);
    if best.Some? {
      ActualsGrow(earlier, Match(n - 1, best.value));
    }
    if e < n - 1 {
      GreedyIsMaximal(score, n - 1, items, e, a);
    }
  }

  // ---------------------------------------------------------------- against any other matching

  /** Pairs of positive score that share no item. */
  ghost predicate Matching(score: Score, n: nat, items: nat, pairs: set<Match>) {
    && (forall p :: p in pairs ==> p.expected < n && p.actual < items && score(p.expected, p.actual) > 0.0)
    && (forall p, q :: p in pairs && q in pairs && (p.expected == q.expected || p.actual == q.actual) ==> p == q)
  }

  lemma {:induction false} AtMostOneEach<T(!new)>(pairs: set<T>, keys: set<nat>, key: T -> nat)
    requires forall p :: p in pairs ==> key(p) in keys
    requires forall p, q :: p in pairs && q in pairs && key(p) == key(q) ==> p == q
    ensures |pairs| <= |keys|
    decreases pairs
  {
    if pairs != {} {
      var p :| p in pairs;
      AtMostOneEach(pairs - {p}, keys - {key(p)}, key);
    }
  }

  lemma {:induction false} NoMoreThanTheMatches(matches: seq<Match>)
    ensures |Expecteds(matches)| <= |matches| && |Actuals(matches)| <= |matches|
  {
    if matches == [] {
      assert Expecteds(matches) == {} && Actuals(matches) == {};
    } else {
      var n := |matches| - 1;
      NoMoreThanTheMatches(matches[..n]);
      assert matches == matches[..n] + [matches[n]];
      ActualsGrow(matches[..n], matches[n]);
    }
  }

  /** Greedy matching finds at least half as many pairs as any matching of scoring pairs. */
  lemma GreedyFindsHalfOfAnyMatching(score: Score, n: nat, items: nat, pairs: set<Match>)
    requires Matching(score, n, items, pairs)
    ensures |pairs| <= 2 * |Greedy(score, n, items)|
  {
    var matches := Greedy(score, n, items);
    var left := set p | p in pairs && p.expected in Expecteds(matches);
    var right := set p | p in pairs && p.actual in Actuals(matches);
    forall p | p in pairs ensures p in left + right {
      GreedyIsMaximal(score, n, items, p.expected, p.actual);
    }
    AtMostOneEach(left, Expecteds(matches), (p: Match) => p.expected);
    AtMostOneEach(right, Actuals(matches), (p: Match) => p.actual);
    NoMoreThanTheMatches(matches);
    assert pairs == left + right;
    assert |left + right| == |left| + |right| - |left * right|;
  }

  /** Half is all one can promise: here greedy finds one pair where two could be had. */
  lemma HalfIsTight() returns (score: Score, pairs: set<Match>)
    ensures Matching(score, 2, 2, pairs) && |pairs| == 2 && |Greedy(score, 2, 2)| == 1
  {
    score := (e, a) => if e == 0 then (if a == 0 then 1.0 else 0.5) else if a == 0 then 0.5 else 0.0;
    pairs := {Match(0, 1), Match(1, 0)};
    assert Best(score, 0, Actuals([]), 1) == Some(0);
    assert Best(score, 0, Actuals([]), 2) == Some(0);
    assert Greedy(score, 0, 2) == [];
    assert Greedy(score, 1, 2) == [Match(0, 0)];
    ActualsGrow([], Match(0, 0));
    assert [] + [Match(0, 0)] == [Match(0, 0)];
    assert Best(score, 1, Actuals([Match(0, 0)]), 1) == None;
    assert Best(score, 1, Actuals([Match(0, 0)]), 2) == None;
  }

  // ---------------------------------------------------------------- scores of a mode

  function Precision(matched: nat, expected: nat, items: nat): real {
    if items > 0 then matched as real / items as real else if expected == 0 then 1.0 else 0.0
  }

  function Recall(matched: nat, expected: nat): real {
    if expected > 0 then matched as real / expected as real else 1.0
  }

  function F1(precision: real, recall: real): real {
    if precision + recall == 0.0 then 0.0 else 2.0 * precision * recall / (precision + recall)
  }

  lemma {:induction false} BelowCount(s: set<nat>, n: nat)
    requires forall x :: x in s ==> x < n
    ensures |s| <= n
  {
    if n > 0 {
      BelowCount(s - {n - 1}, n - 1);
    } else {
      assert s == {};
    }
  }

  lemma {:induction false} DistinctExpecteds(matches: seq<Match>)
    requires forall i, j :: 0 <= i < j < |matches| ==> matches[i].expected < matches[j].expected
    ensures |Expecteds(matches)| == |matches|
  {
    if matches != [] {
      var earlier, last := matches[..|matches| - 1], matches[|matches| - 1];
      DistinctExpecteds(earlier);
      assert matches == earlier + [last];
      ActualsGrow(earlier, last);
      assert last.expected !in Expecteds(earlier);
    }
  }

  lemma {:induction false} DistinctActuals(matches: seq<Match>)
    requires forall i, j :: 0 <= i < j < |matches| ==> matches[i].actual != matches[j].actual
    ensures |Actuals(matches)| == |matches|
  {
    if matches != [] {
      var earlier, last := matches[..|matches| - 1], matches[|matches| - 1];
      DistinctActuals(earlier);
      assert matches == earlier + [last];
      ActualsGrow(earlier, last);
      assert last.actual !in Actuals(earlier);
    }
  }

  /** The number of distinct indices on either side is the number of matches. */
  lemma MatchesCountBothSides(score: Score, n: nat, items: nat)
    ensures var matches := Greedy(score, n, items);
      |Expecteds(matches)| == |matches| == |Actuals(matches)| && |matches| <= n && |matches| <= items
  {
    GreedyIsProper(score, n, items);
    var matches := Greedy(score, n, items);
    DistinctExpecteds(matches);
    DistinctActuals(matches);
    BelowCount(Expecteds(matches), n);
    BelowCount(Actuals(matches), items);
  }

  lemma Quotient(m: nat, d: nat)
    requires 0 < d
    ensures (m as real / d as real) * d as real == m as real
    ensures m > 0 ==> m as real / d as real > 0.0
  {
  }

  lemma HarmonicMean(p: real, r: real, e: real, i: real, m: real)
    requires p * i == m && r * e == m && p + r > 0.0 && e + i > 0.0
    ensures 2.0 * p * r / (p + r) == 2.0 * m / (e + i)
  {
    assert p * r * (e + i) == m * (p + r) by {
      assert p * r * (e + i) == p * (r * e) + r * (p * i);
    }
    var x := 2.0 * p * r / (p + r);
    assert x * (p + r) == 2.0 * p * r;
    assert x * (e + i) * (p + r) == 2.0 * m * (p + r);
    assert (x * (e + i) - 2.0 * m) * (p + r) == 0.0;
    assert x * (e + i) == 2.0 * m;
  }

  lemma DiceWithoutMatches(e: nat, i: nat)
    requires e + i > 0
    ensures F1(Precision(0, e, i), Recall(0, e)) == 0.0
  {
    assert Precision(0, e, i) == 0.0;
  }

  lemma DiceWithMatches(m: nat, e: nat, i: nat)
    requires 0 < m <= e && m <= i
    ensures F1(Precision(m, e, i), Recall(m, e)) == 2.0 * m as real / (e as real + i as real)
  {
    var p, r := Precision(m, e, i), Recall(m, e);
    assert p * i as real == m as real && p > 0.0 by { Quotient(m, i); }
    assert r * e as real == m as real && r > 0.0 by { Quotient(m, e); }
    HarmonicMean(p, r, e as real, i as real, m as real);
  }

  lemma Share(part: real, whole: real)
    requires 0.0 <= part <= whole && whole > 0.0
    ensures 0.0 <= part / whole <= 1.0
    ensures part / whole == 1.0 <==> part == whole
  {
    var x := part / whole;
    assert x * whole == part;
  }

  /**
   * The F1 of a mode is twice the number of matches over the number of items on both sides, and so
   * lies between 0 and 1; two empty lists count as a perfect match.
   */
  lemma F1IsTheDiceCoefficient(score: Score, n: nat, items: nat)
    ensures var matched := |Greedy(score, n, items)|;
      var f1 := F1(Precision(matched, n, items), Recall(matched, n));
      && f1 == (if n + items == 0 then 1.0 else 2.0 * matched as real / (n + items) as real)
      && 0.0 <= f1 <= 1.0
  {
    MatchesCountBothSides(score, n, items);
    var matched := |Greedy(score, n, items)|;
    if n + items > 0 {
      if matched == 0 {
        DiceWithoutMatches(n, items);
      } else {
        DiceWithMatches(matched, n, items);
      }
      Share(2.0 * matched as real, (n + items) as real);
    }
  }

  /**
   * Of m matches, precision is the share of the items and recall the share of the expected items; of
   * nothing at all, everything is matched.
   */
  lemma ScoresAreShares(m: nat, e: nat, i: nat)
    ensures i > 0 ==> Precision(m, e, i) * i as real == m as real
    ensures i == 0 ==> Precision(m, e, i) == if e == 0 then 1.0 else 0.0
    ensures if e > 0 then Recall(m, e) * e as real == m as real else Recall(m, e) == 1.0
  {
    if i > 0 {
      Quotient(m, i);
    }
    if e > 0 {
      Quotient(m, e);
    }
  }

  function Agreements(matches: seq<Match>, expectedField: nat -> Option<string>,
                      actualField: nat -> Option<string>): nat {
    if matches == [] then 0
    else
      var m := matches[|matches| - 1];
      Agreements(matches[..|matches| - 1], expectedField, actualField)
      + if expectedField(m.expected) == actualField(m.actual) then 1 else 0
  }

  /** The share of matches whose two items agree on a field. */
  method FieldAccuracy(matches: seq<Match>, expectedField: nat -> Option<string>, actualField: nat -> Option<string>)
    returns (accuracy: real)
    ensures accuracy ==
      if matches == [] then 0.0 else Agreements(matches, expectedField, actualField) as real / |matches| as real
  {
    if matches == [] {
      return 0.0;
    }
    var correct := 0;
    for k := 0 to |matches|
      invariant correct == Agreements(matches[..k], expectedField, actualField)
    {
      assert matches[..k + 1][..k] == matches[..k];
      if expectedField(matches[k].expected) == actualField(matches[k].actual) {
        correct := correct + 1;
      }
    }
    assert matches[..|matches|] == matches;
    return correct as real / |matches| as real;
  }

  ghost function Agreeing(matches: seq<Match>, expectedField: nat -> Option<string>,
                          actualField: nat -> Option<string>): set<nat> {
    set i | 0 <= i < |matches| && expectedField(matches[i].expected) == actualField(matches[i].actual)
  }

  /** Agreements are counted once for each match whose two items agree. */
  lemma {:induction false} AgreementsCountMatches(matches: seq<Match>, expectedField: nat -> Option<string>,
                                                  actualField: nat -> Option<string>)
    ensures Agreements(matches, expectedField, actualField) == |Agreeing(matches, expectedField, actualField)|
  {
    if matches != [] {
      var n := |matches| - 1;
      var earlier := matches[..n];
      AgreementsCountMatches(earlier, expectedField, actualField);
      var agree := expectedField(matches[n].expected) == actualField(matches[n].actual);
      assert Agreeing(matches, expectedField, actualField) ==
        Agreeing(earlier, expectedField, actualField) + if agree then {n} else {};
    }
  }

  lemma {:induction false} AgreementCount(matches: seq<Match>, expectedField: nat -> Option<string>,
                                          actualField: nat -> Option<string>)
    ensures Agreements(matches, expectedField, actualField) <= |matches|
    ensures Agreements(matches, expectedField, actualField) == |matches| <==>
      forall i :: 0 <= i < |matches| ==> expectedField(matches[i].expected) == actualField(matches[i].actual)
  {
    if matches != [] {
      AgreementCount(matches[..|matches| - 1], expectedField, actualField);
    }
  }

  /** Accuracies are proportions, and full accuracy means that every match agrees. */
  lemma AccuracyIsAProportion(matches: seq<Match>, expectedField: nat -> Option<string>,
                              actualField: nat -> Option<string>)
    requires matches != []
    ensures var accuracy := Agreements(matches, expectedField, actualField) as real / |matches| as real;
      && 0.0 <= accuracy <= 1.0
      && (accuracy == 1.0 <==>
           forall i :: 0 <= i < |matches| ==> expectedField(matches[i].expected) == actualField(matches[i].actual))
  {
    AgreementCount(matches, expectedField, actualField);
    Share(Agreements(matches, expectedField, actualField) as real, |matches| as real);
  }
}
