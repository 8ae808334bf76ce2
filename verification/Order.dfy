/** Sorting by a number and then by text, as the sweeper and the asset listings do. */
module Order {

  type SortKey = (int, string)

  /** Text order by code point, a proper prefix first. */
  predicate TextLess(a: string, b: string) {
    if b == "" then false
    else if a == "" then true
    else a[0] < b[0] || (a[0] == b[0] && TextLess(a[1..], b[1..]))
  }

  predicate Less(a: SortKey, b: SortKey) {
    a.0 < b.0 || (a.0 == b.0 && TextLess(a.1, b.1))
  }

  lemma {:induction false} TextLessIsTransitive(a: string, b: string, c: string)
    requires TextLess(a, b) && TextLess(b, c)
    ensures TextLess(a, c)
  {
    if a != "" && a[0] == b[0] && b[0] == c[0] {
      TextLessIsTransitive(a[1..], b[1..], c[1..]);
    }
  }

  /** Exactly one of less, equal and greater. */
  lemma {:induction false} TextLessIsTrichotomous(a: string, b: string)
    ensures TextLess(a, b) || a == b || TextLess(b, a)
    ensures !(TextLess(a, b) && TextLess(b, a)) && (a == b ==> !TextLess(a, b))
  {
    if a != "" && b != "" {
      TextLessIsTrichotomous(a[1..], b[1..]);
      assert a == [a[0]] + a[1..] && b == [b[0]] + b[1..];
    }
  }

  lemma LessIsTransitive(a: SortKey, b: SortKey, c: SortKey)
    requires Less(a, b) && Less(b, c)
    ensures Less(a, c)
  {
    if a.0 == b.0 == c.0 { TextLessIsTransitive(a.1, b.1, c.1); }
  }

  lemma LessIsTrichotomous(a: SortKey, b: SortKey)
    ensures Less(a, b) || a == b || Less(b, a)
    ensures !(Less(a, b) && Less(b, a)) && (a == b ==> !Less(a, b))
  {
    TextLessIsTrichotomous(a.1, b.1);
  }

  /** `a` comes before `b`: they part at some position, where `a` ends or has the smaller character. */
  predicate Before(a: string, b: string) {
    exists n | 0 <= n <= |a| && n <= |b| :: a[..n] == b[..n] && n < |b| && (n == |a| || a[n] < b[n])
  }

  lemma {:induction false} TextInFigures(a: string, b: string)
    ensures TextLess(a, b) <==> Before(a, b)
  {
    if b == "" {
    } else if a == "" {
      assert a[..0] == b[..0];
    } else {
      TextInFigures(a[1..], b[1..]);
      if a[0] < b[0] {
        assert a[..0] == b[..0];
      } else if a[0] == b[0] && Before(a[1..], b[1..]) {
        var n :| 0 <= n <= |a| - 1 && n <= |b| - 1 && a[1..][..n] == b[1..][..n] && n < |b| - 1
                 && (n == |a| - 1 || a[1..][n] < b[1..][n]);
        assert a[..n + 1] == [a[0]] + a[1..][..n] && b[..n + 1] == [b[0]] + b[1..][..n];
      }
      if Before(a, b) {
        var n :| 0 <= n <= |a| && n <= |b| && a[..n] == b[..n] && n < |b| && (n == |a| || a[n] < b[n]);
        if n > 0 {
          assert a[0] == a[..n][0] == b[..n][0] == b[0];
          assert a[1..][..n - 1] == a[..n][1..] == b[..n][1..] == b[1..][..n - 1];
        }
      }
    }
  }

  ghost predicate Increasing(s: seq<SortKey>) {
    forall i, j | 0 <= i < j < |s| :: Less(s[i], s[j])
  }

  ghost function Elements<T>(s: seq<T>): set<T> {
    set x | x in s
  }

  /** The one increasing sequence of a set of keys. */
  ghost function Sorted(keys: set<SortKey>): (r: seq<SortKey>)
    ensures Increasing(r) && Elements(r) == keys
  {
    if keys == {} then []
    else
      LeastExists(keys);
      var least :| least in keys && forall k <- keys :: k == least || Less(least, k);
      var rest := Sorted(keys - {least});
      assert forall k <- rest :: k in Elements(rest);
      assert forall k <- [least] + rest :: k in keys;
      assert forall k <- keys :: k == least || k in Elements(rest);
      [least] + rest
  }

  lemma {:induction false} LeastExists(keys: set<SortKey>)
    requires keys != {}
    ensures exists least :: least in keys && forall k <- keys :: k == least || Less(least, k)
  {
    var some :| some in keys;
    if keys - {some} == {} {
      assert keys == {some};
    } else {
      LeastExists(keys - {some});
      var least :| least in keys - {some} && forall k <- keys - {some} :: k == least || Less(least, k);
      LessIsTrichotomous(least, some);
      if Less(some, least) {
        forall k <- keys ensures k == some || Less(some, k) {
          if k != some && k != least { LessIsTransitive(some, least, k); }
        }
      } else {
        assert forall k <- keys :: k == least || Less(least, k);
      }
    }
  }

  lemma IncreasingHasNoDuplicates(s: seq<SortKey>)
    requires Increasing(s)
    ensures forall i, j | 0 <= i < j < |s| :: s[i] != s[j]
  {
    forall i, j | 0 <= i < j < |s| ensures s[i] != s[j] { LessIsTrichotomous(s[i], s[j]); }
  }

  lemma NoElements<T>(s: seq<T>)
    ensures Elements(s) == {} <==> s == []
  {
    if s != [] { assert s[0] in Elements(s); }
  }

  /** An increasing sequence is determined by its elements. */
  lemma {:induction false} SortedIsUnique(r: seq<SortKey>, s: seq<SortKey>)
    requires Increasing(r) && Increasing(s) && Elements(r) == Elements(s)
    ensures r == s
  {
    NoElements(r);
    NoElements(s);
    if r != [] {
      assert r[0] in Elements(s) && s != [];
      assert s[0] in Elements(r);
      LessIsTrichotomous(r[0], s[0]);
      IncreasingHasNoDuplicates(r);
      IncreasingHasNoDuplicates(s);
      assert r[0] == s[0];
      assert Elements(r[1..]) == Elements(r) - {r[0]};
      assert Elements(s[1..]) == Elements(s) - {s[0]};
      SortedIsUnique(r[1..], s[1..]);
    }
  }

  /** Inserts a new key where it belongs. */
  method Insert(s: seq<SortKey>, key: SortKey) returns (r: seq<SortKey>)
    requires Increasing(s) && key !in s
    ensures r == Sorted(Elements(s) + {key})
  {
    var i := 0;
    while i < |s| && Less(s[i], key)
      invariant 0 <= i <= |s|
      invariant forall j | 0 <= j < i :: Less(s[j], key)
    {
      i := i + 1;
    }
    r := s[..i] + [key] + s[i..];
    forall j | i <= j < |s| ensures Less(key, s[j]) {
      LessIsTrichotomous(key, s[i]);
      if i < j { LessIsTransitive(key, s[i], s[j]); }
    }
    assert Elements(r) == Elements(s) + {key} by {
      assert forall k <- s :: k in s[..i] || k in s[i..];
    }
    assert Increasing(r) by {
      forall a, b | 0 <= a < b < |r| ensures Less(r[a], r[b]) {
        var x, y := if a < i then a else a - 1, if b < i then b else b - 1;
        assert r[a] == (if a == i then key else s[x]) && r[b] == (if b == i then key else s[y]);
      }
    }
    SortedIsUnique(r, Sorted(Elements(s) + {key}));
  }

  method Sort(keys: set<SortKey>) returns (r: seq<SortKey>)
    ensures r == Sorted(keys)
  {
    r := [];
    var rest := keys;
    assert Sorted({}) == [];
    while rest != {}
      invariant rest <= keys && r == Sorted(keys - rest)
      decreases |rest|
    {
      hide Less, Increasing;
      var k :| k in rest;
      assert keys - (rest - {k}) == (keys - rest) + {k};
      assert k !in Elements(r) && Increasing(r);
      r := Insert(r, k);
      rest := rest - {k};
    }
    assert keys - rest == keys;
  }
}
