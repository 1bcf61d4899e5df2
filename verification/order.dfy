/** Python's ordering of strings (lexicographic by code point, a proper prefix
    first) and of integers, and the sorted sequences that `sorted(...)` builds
    from a set or from a dict's keys. */
module Order {

  /** `a < b` on Python strings. */
  predicate StrLt(a: string, b: string)
    decreases |a|
  {
    if |a| == 0 then |b| > 0
    else |b| > 0 && (a[0] < b[0] || (a[0] == b[0] && StrLt(a[1..], b[1..])))
  }

  lemma {:induction false} StrLtIrreflexive(a: string)
    ensures !StrLt(a, a)
    decreases |a|
  {
    if |a| > 0 {
      StrLtIrreflexive(a[1..]);
    }
  }

  lemma {:induction false} StrLtTransitive(a: string, b: string, c: string)
    requires StrLt(a, b) && StrLt(b, c)
    ensures StrLt(a, c)
    decreases |a|
  {
    if |a| > 0 && a[0] == b[0] && b[0] == c[0] {
      StrLtTransitive(a[1..], b[1..], c[1..]);
    }
  }

  lemma {:induction false} StrLtTotal(a: string, b: string)
    ensures a == b || StrLt(a, b) || StrLt(b, a)
    decreases |a|
  {
    if |a| > 0 && |b| > 0 && a[0] == b[0] {
      StrLtTotal(a[1..], b[1..]);
      if a[1..] == b[1..] {
        assert a == [a[0]] + a[1..] && b == [b[0]] + b[1..];
      }
    }
  }

  lemma StrLtAsymmetric(a: string, b: string)
    requires StrLt(a, b)
    ensures !StrLt(b, a)
  {
    if StrLt(b, a) {
      StrLtTransitive(a, b, a);
      StrLtIrreflexive(a);
    }
  }

  /** Ascending without repeats: the shape of `sorted(list(some_set))`. */
  predicate StrictlySorted(xs: seq<string>) {
    forall i, j :: 0 <= i < j < |xs| ==> StrLt(xs[i], xs[j])
  }

  function Elems(xs: seq<string>): set<string> {
    set y | y in xs
  }

  lemma ElemsEmpty(xs: seq<string>)
    ensures Elems(xs) == {} <==> xs == []
  {
    if xs != [] {
      assert xs[0] in Elems(xs);
    }
  }

  /** Adds `x` to the set represented by the sorted sequence `xs` (`set.add`). */
  function InsertSorted(xs: seq<string>, x: string): (r: seq<string>)
    ensures Elems(r) == Elems(xs) + {x}
    ensures StrictlySorted(xs) ==> StrictlySorted(r)
    ensures StrictlySorted(xs) && x in xs ==> r == xs
    decreases |xs|
  {
    if |xs| == 0 then [x]
    else if x == xs[0] then xs
    else if StrLt(x, xs[0]) then
      var r := [x] + xs;
      assert StrictlySorted(xs) ==> x !in xs by {
        if StrictlySorted(xs) && x in xs {
          var k :| 0 <= k < |xs| && xs[k] == x;
          StrLtAsymmetric(x, xs[0]);
        }
      }
      assert StrictlySorted(xs) ==> StrictlySorted(r) by {
        if StrictlySorted(xs) {
          forall j | 0 < j < |r| ensures StrLt(x, r[j]) {
            if j > 1 {
              StrLtTransitive(x, xs[0], r[j]);
            }
          }
        }
      }
      r
    else
      var tail := InsertSorted(xs[1..], x);
      var r := [xs[0]] + tail;
      assert Elems(r) == {xs[0]} + Elems(tail);
      assert Elems(xs) == {xs[0]} + Elems(xs[1..]) by {
        assert xs == [xs[0]] + xs[1..];
      }
      assert StrictlySorted(xs) ==> StrictlySorted(r) by {
        if StrictlySorted(xs) {
          StrLtTotal(x, xs[0]);
          forall j | 0 < j < |r| ensures StrLt(xs[0], r[j]) {
            assert r[j] in Elems(tail);
          }
        }
      }
      r
  }

  /** A strictly sorted sequence is determined by its elements: whatever order the
      elements arrived in, there is one `sorted(list(s))` for each set `s`. */
  lemma {:induction false} SortedByElements(xs: seq<string>, ys: seq<string>)
    requires StrictlySorted(xs) && StrictlySorted(ys)
    requires Elems(xs) == Elems(ys)
    ensures xs == ys
    decreases |xs|
  {
    if |xs| == 0 {
      ElemsEmpty(ys);
    } else {
      assert xs[0] in Elems(ys);
      assert |ys| > 0;
      assert ys[0] in Elems(xs);
      if xs[0] != ys[0] {
        var k :| 0 <= k < |ys| && ys[k] == xs[0];
        var m :| 0 <= m < |xs| && xs[m] == ys[0];
        assert StrLt(ys[0], xs[0]);
        assert StrLt(xs[0], ys[0]);
        StrLtAsymmetric(xs[0], ys[0]);
        assert false;
      }
      assert Elems(xs[1..]) == Elems(ys[1..]) by {
        forall y | y in Elems(xs[1..]) ensures y in Elems(ys[1..]) {
          var i :| 1 <= i < |xs| && xs[i] == y;
          StrLtIrreflexive(y);
          assert y in Elems(ys);
          var j :| 0 <= j < |ys| && ys[j] == y;
          assert j != 0;
        }
        forall y | y in Elems(ys[1..]) ensures y in Elems(xs[1..]) {
          var j :| 1 <= j < |ys| && ys[j] == y;
          StrLtIrreflexive(y);
          assert y in Elems(xs);
          var i :| 0 <= i < |xs| && xs[i] == y;
          assert i != 0;
        }
      }
      SortedByElements(xs[1..], ys[1..]);
      assert xs == [xs[0]] + xs[1..] && ys == [ys[0]] + ys[1..];
    }
  }

  predicate StrictlyIncreasing(ks: seq<int>) {
    forall i, j :: 0 <= i < j < |ks| ==> ks[i] < ks[j]
  }

  lemma {:induction false} MinimumExists(s: set<int>)
    requires s != {}
    ensures exists m :: m in s && forall x :: x in s ==> m <= x
    decreases |s|
  {
    if forall x :: x !in s {
      assert false;
    }
    var y :| y in s;
    var rest := s - {y};
    if rest == {} {
      forall x | x in s ensures y <= x {
        assert x == y || x in rest;
      }
    } else {
      MinimumExists(rest);
      var m :| m in rest && forall x :: x in rest ==> m <= x;
      var least := if y < m then y else m;
      forall x | x in s ensures least <= x {
        assert x == y || x in rest;
      }
      assert least in s;
    }
  }

  /** `sorted(d.keys())` for a dict with integer keys. */
  function SortedKeys(s: set<int>): (r: seq<int>)
    ensures StrictlyIncreasing(r)
    ensures forall x :: x in r <==> x in s
    decreases |s|
  {
    if s == {} then []
    else
      MinimumExists(s);
      var m :| m in s && forall x :: x in s ==> m <= x;
      var rest := SortedKeys(s - {m});
      ConsMinimum(m, s, rest);
      [m] + rest
  }

  lemma ConsMinimum(m: int, s: set<int>, rest: seq<int>)
    requires m in s && forall x :: x in s ==> m <= x
    requires StrictlyIncreasing(rest) && forall x :: x in rest <==> x in s - {m}
    ensures StrictlyIncreasing([m] + rest)
    ensures forall x :: x in [m] + rest <==> x in s
  {
    forall j | 0 <= j < |rest| ensures m < rest[j] {
      assert rest[j] in rest;
    }
  }
}
