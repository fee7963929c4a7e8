/**
 * The order in which a `std::map<String, …>` keeps its keys: byte-wise
 * lexicographic comparison, a proper prefix first.  The least key of a set
 * is the entry a range-for over such a map visits first.
 */
module StringOrder {
  /** `a < b` on Arduino Strings (strcmp). */
  predicate Less(a: string, b: string)
    decreases |a|
  {
    if a == [] then b != []
    else if b == [] then false
    else a[0] < b[0] || (a[0] == b[0] && Less(a[1..], b[1..]))
  }

  lemma {:induction false} LessIrreflexive(a: string)
    ensures !Less(a, a)
    decreases |a|
  {
    if a != [] {
      LessIrreflexive(a[1..]);
    }
  }

  lemma {:induction false} LessTransitive(a: string, b: string, c: string)
    requires Less(a, b) && Less(b, c)
    ensures Less(a, c)
    decreases |a|
  {
    if a != [] && a[0] == b[0] && b[0] == c[0] {
      LessTransitive(a[1..], b[1..], c[1..]);
    }
  }

  lemma {:induction false} LessTotal(a: string, b: string)
    requires a != b
    ensures Less(a, b) || Less(b, a)
    decreases |a|
  {
    if a != [] && b != [] && a[0] == b[0] {
      assert a == [a[0]] + a[1..] && b == [b[0]] + b[1..];
      LessTotal(a[1..], b[1..]);
    }
  }

  lemma LessAsymmetric(a: string, b: string)
    requires Less(a, b)
    ensures !Less(b, a)
  {
    if Less(b, a) {
      LessTransitive(a, b, a);
      LessIrreflexive(a);
    }
  }

  /** `k` is the first key of `s` in map order. */
  predicate IsLeast(k: string, s: set<string>)
  {
    k in s && forall j :: j in s && j != k ==> Less(k, j)
  }

  lemma {:induction false} LeastExists(s: set<string>)
    requires s != {}
    ensures exists k :: IsLeast(k, s)
    decreases |s|
  {
    var x :| x in s;
    if s - {x} == {} {
      assert s == {x};
      assert IsLeast(x, s);
    } else {
      LeastExists(s - {x});
      var m :| IsLeast(m, s - {x});
      if Less(x, m) {
        forall j | j in s && j != x ensures Less(x, j) {
          if j != m {
            LessTransitive(x, m, j);
          }
        }
        assert IsLeast(x, s);
      } else {
        LessTotal(x, m);
        assert IsLeast(m, s);
      }
    }
  }

  lemma LeastUnique(a: string, b: string, s: set<string>)
    requires IsLeast(a, s) && IsLeast(b, s)
    ensures a == b
  {
    if a != b {
      LessAsymmetric(a, b);
    }
  }

  /** The first key of a non-empty set. */
  ghost function Least(s: set<string>): (r: string)
    requires s != {}
    ensures IsLeast(r, s)
  {
    LeastExists(s);
    var k :| IsLeast(k, s);
    k
  }

  /** Adding one key to a set whose first key is known. */
  lemma LeastInsert(m: string, s: set<string>, x: string)
    requires IsLeast(m, s) && x !in s
    ensures Less(x, m) ==> IsLeast(x, s + {x})
    ensures !Less(x, m) ==> IsLeast(m, s + {x})
  {
    if Less(x, m) {
      forall j | j in s + {x} && j != x ensures Less(x, j) {
        if j != m {
          LessTransitive(x, m, j);
        }
      }
    } else {
      LessTotal(x, m);
    }
  }

  /** Strictly ascending in map order (so without repetitions). */
  predicate Increasing(s: seq<string>)
  {
    forall i, j :: 0 <= i < j < |s| ==> Less(s[i], s[j])
  }

  lemma IncreasingDistinct(s: seq<string>)
    requires Increasing(s)
    ensures Distinct(s)
  {
    forall i, j | 0 <= i < j < |s| ensures s[i] != s[j] {
      if s[i] == s[j] {
        LessIrreflexive(s[i]);
      }
    }
  }

  /** No key listed twice. */
  predicate Distinct(s: seq<string>)
  {
    forall i, j :: 0 <= i < j < |s| ==> s[i] != s[j]
  }

  /** `keys` lists the members of `s` in map order, each once. */
  ghost predicate InMapOrder(keys: seq<string>, s: set<string>)
  {
    (forall x :: x in keys <==> x in s) && Increasing(keys)
  }

  lemma {:induction false} InMapOrderExists(s: set<string>)
    ensures exists keys :: InMapOrder(keys, s)
    decreases |s|
  {
    if s == {} {
      assert InMapOrder([], s);
    } else {
      var k := Least(s);
      InMapOrderExists(s - {k});
      var t :| InMapOrder(t, s - {k});
      assert forall j :: 0 <= j < |t| ==> t[j] in s - {k};
      assert InMapOrder([k] + t, s);
    }
  }

  /** A listing without repetitions is as long as the set it lists. */
  lemma {:induction false} ListingSize(a: seq<string>, s: set<string>)
    requires (forall x :: x in a <==> x in s) && Distinct(a)
    ensures |a| == |s|
    decreases |a|
  {
    if a == [] {
      assert s == {};
    } else {
      var s' := s - {a[0]};
      forall x ensures x in a[1..] <==> x in s' {
        if x in a[1..] {
          var j :| 1 <= j < |a| && a[j] == x;
        }
        if x in s' {
          var j :| 0 <= j < |a| && a[j] == x;
        }
      }
      ListingSize(a[1..], s');
    }
  }

  /** Only one listing is in map order. */
  lemma {:induction false} InMapOrderUnique(a: seq<string>, b: seq<string>, s: set<string>)
    requires InMapOrder(a, s) && InMapOrder(b, s)
    ensures a == b
    decreases |a|
  {
    if a == [] {
      assert s == {};
      IncreasingDistinct(b);
      ListingSize(b, s);
    } else {
      assert a[0] in s;
      assert b != [];
      IncreasingDistinct(a);
      IncreasingDistinct(b);
      forall x | x in s && x != a[0] ensures Less(a[0], x) {
        var j :| 0 <= j < |a| && a[j] == x;
      }
      forall x | x in s && x != b[0] ensures Less(b[0], x) {
        var j :| 0 <= j < |b| && b[j] == x;
      }
      LeastUnique(a[0], b[0], s);
      var s' := s - {a[0]};
      forall x ensures x in a[1..] <==> x in s' {
        if x in a[1..] {
          var j :| 1 <= j < |a| && a[j] == x;
        }
      }
      forall x ensures x in b[1..] <==> x in s' {
        if x in b[1..] {
          var j :| 1 <= j < |b| && b[j] == x;
        }
      }
      InMapOrderUnique(a[1..], b[1..], s');
      assert a == [a[0]] + a[1..] && b == [b[0]] + b[1..];
    }
  }

  lemma SortedDistinct(s: set<string>)
    ensures Distinct(Sorted(s))
  {
    IncreasingDistinct(Sorted(s));
  }

  /** The keys of a set in the order a range-for over a `std::map` visits them. */
  ghost function Sorted(s: set<string>): (r: seq<string>)
    ensures InMapOrder(r, s)
  {
    InMapOrderExists(s);
    var r :| InMapOrder(r, s);
    r
  }

  /** Every key of a set, visited in map order. */
  method MapOrder(s: set<string>) returns (keys: seq<string>)
    ensures keys == Sorted(s)
    ensures forall i :: 0 <= i < |keys| ==> keys[i] in s
  {
    keys := [];
    var rest := s;
    while rest != {}
      invariant rest <= s
      invariant forall x :: x in keys <==> x in s && x !in rest
      invariant Increasing(keys)
      invariant forall i, y :: 0 <= i < |keys| && y in rest ==> Less(keys[i], y)
      decreases |rest|
    {
      LeastExists(rest);
      var k :| k in rest && IsLeast(k, rest);
      keys := keys + [k];
      rest := rest - {k};
    }
    InMapOrderUnique(keys, Sorted(s), s);
  }
}
