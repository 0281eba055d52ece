/** The slice comparisons the challenge runner decides deliveries with
    (challenges/runner/main.go:506-533). */
module Compare {

  /** A Go map read: a missing key counts zero. */
  function Count(m: map<string, int>, x: string): int { if x in m then m[x] else 0 }

  /** m counts what a has more than b. */
  ghost predicate Balanced(m: map<string, int>, a: multiset<string>, b: multiset<string>) {
    forall x :: Count(m, x) + b[x] == a[x]
  }

  lemma CountUp(m: map<string, int>, s: seq<string>, i: nat)
    requires i < |s| && Balanced(m, multiset(s[..i]), multiset{})
    ensures Balanced(m[s[i] := Count(m, s[i]) + 1], multiset(s[..i + 1]), multiset{})
  {
    assert s[..i + 1] == s[..i] + [s[i]];
  }

  lemma CountDown(m: map<string, int>, a: multiset<string>, s: seq<string>, i: nat)
    requires i < |s| && Balanced(m, a, multiset(s[..i]))
    ensures Balanced(m[s[i] := Count(m, s[i]) - 1], a, multiset(s[..i + 1]))
  {
    assert s[..i + 1] == s[..i] + [s[i]];
  }

  method EqualAsMultiset(a: seq<string>, b: seq<string>) returns (equal: bool)
    ensures equal <==> multiset(a) == multiset(b)
  {
    if |a| != |b| {
      assert |multiset(a)| == |a| && |multiset(b)| == |b|;
      return false;
    }
    var m: map<string, int> := map[];
    for i := 0 to |a|
      invariant Balanced(m, multiset(a[..i]), multiset{})
    {
      CountUp(m, a, i);
      m := m[a[i] := Count(m, a[i]) + 1];
    }
    assert a[..|a|] == a;
    for i := 0 to |b|
      invariant Balanced(m, multiset(a), multiset(b[..i]))
      invariant forall x :: Count(m, x) >= 0
    {
      CountDown(m, multiset(a), b, i);
      m := m[b[i] := Count(m, b[i]) - 1];
      if m[b[i]] < 0 {
        assert b == b[..i + 1] + b[i + 1..];
        assert multiset(b)[b[i]] >= multiset(b[..i + 1])[b[i]];
        return false;
      }
    }
    assert b[..|b|] == b;
    SubMultisetOfSameSize(multiset(a), multiset(b));
    equal := true;
  }

  lemma SubMultisetOfSameSize(a: multiset<string>, b: multiset<string>)
    requires forall x :: b[x] <= a[x]
    requires |a| == |b|
    ensures a == b
  {
    assert b <= a;
    assert a == b + (a - b);
    assert |a - b| == 0;
  }

  method EqualSlices(a: seq<string>, b: seq<string>) returns (equal: bool)
    ensures equal <==> a == b
    ensures equal ==> multiset(a) == multiset(b)
  {
    if |a| != |b| {
      return false;
    }
    for i := 0 to |a|
      invariant a[..i] == b[..i]
    {
      if a[i] != b[i] {
        return false;
      }
    }
    assert a[..|a|] == a && b[..|b|] == b;
    equal := true;
  }
}
