/** Ordered occurrence of expected events among the actual ones. */
module EventOrder {
  /** `at` places the expected events, in order, on equal actual events. */
  ghost predicate Embeds(expected: seq<string>, actual: seq<string>, at: seq<nat>) {
    && |at| == |expected|
    && (forall i :: 0 <= i < |at| ==> at[i] < |actual| && actual[at[i]] == expected[i])
    && (forall i, j :: 0 <= i < j < |at| ==> at[i] < at[j])
  }

  ghost predicate Occurs(expected: seq<string>, actual: seq<string>) {
    exists at: seq<nat> :: Embeds(expected, actual, at)
  }

  lemma LongerActual(expected: seq<string>, actual: seq<string>, more: seq<string>)
    requires Occurs(expected, actual)
    ensures Occurs(expected, actual + more)
  {
    var at: seq<nat> :| Embeds(expected, actual, at);
    assert Embeds(expected, actual + more, at);
  }

  lemma OneMore(expected: seq<string>, actual: seq<string>, e: string)
    requires Occurs(expected, actual)
    ensures Occurs(expected + [e], actual + [e])
  {
    var at: seq<nat> :| Embeds(expected, actual, at);
    var longer: seq<nat> := at + [|actual|];
    assert Embeds(expected + [e], actual + [e], longer);
  }

  /** If the last expected event can be placed at all, the others fit before the last actual one. */
  lemma DropLast(expected: seq<string>, e: string, actual: seq<string>, a: string)
    requires Occurs(expected + [e], actual + [a])
    ensures Occurs(expected, actual)
    ensures e != a ==> Occurs(expected + [e], actual)
  {
    var at: seq<nat> :| Embeds(expected + [e], actual + [a], at);
    var n := |expected|;
    assert (expected + [e])[n] == e;
    assert forall i :: 0 <= i < n ==> at[i] < at[n] && (expected + [e])[i] == expected[i];
    assert Embeds(expected, actual, at[..n]);
    if e != a {
      assert at[n] < |actual|;
      assert Embeds(expected + [e], actual, at);
    }
  }

  lemma NothingOccursInNothing(expected: seq<string>)
    requires expected != []
    ensures !Occurs(expected, [])
  {
    forall at: seq<nat> ensures !Embeds(expected, [], at) {
      assert |at| == |expected| ==> at[0] >= 0;
    }
  }

  /** True exactly when the expected events occur in the actual ones in the same order. */
  method IsSubsequence(expected: seq<string>, actual: seq<string>) returns (found: bool)
    ensures found <==> Occurs(expected, actual)
  {
    if expected == [] {
      assert Embeds(expected, actual, []);
      return true;
    }
    var position := 0;
    assert Embeds(expected[..0], actual[..0], []);
    NothingOccursInNothing(expected[..1]);
    for k := 0 to |actual|
      invariant position < |expected|
      invariant Occurs(expected[..position], actual[..k])
      invariant !Occurs(expected[..position + 1], actual[..k])
    {
      var item := actual[k];
      assert actual[..k + 1] == actual[..k] + [item];
      assert expected[..position + 1] == expected[..position] + [expected[position]];
      if item == expected[position] {
        OneMore(expected[..position], actual[..k], item);
        position := position + 1;
        if position == |expected| {
          assert expected[..position] == expected;
          LongerActual(expected, actual[..k + 1], actual[k + 1..]);
          assert actual[..k + 1] + actual[k + 1..] == actual;
          return true;
        }
        assert expected[..position + 1] == expected[..position] + [expected[position]];
        if Occurs(expected[..position + 1], actual[..k + 1]) {
          DropLast(expected[..position], expected[position], actual[..k], item);
        }
      } else {
        LongerActual(expected[..position], actual[..k], [item]);
        if Occurs(expected[..position + 1], actual[..k + 1]) {
          DropLast(expected[..position], expected[position], actual[..k], item);
        }
      }
    }
    assert actual[..|actual|] == actual;
    if Occurs(expected, actual) {
      PrefixOccurs(expected, actual, position + 1);
    }
    return false;
  }

  lemma PrefixOccurs(expected: seq<string>, actual: seq<string>, n: nat)
    requires n <= |expected| && Occurs(expected, actual)
    ensures Occurs(expected[..n], actual)
  {
    var at: seq<nat> :| Embeds(expected, actual, at);
    assert Embeds(expected[..n], actual, at[..n]);
  }
}
