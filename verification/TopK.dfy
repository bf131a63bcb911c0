/** The `k` greatest elements of a finite set under a strict total order. */
module TopK {

  ghost predicate StrictOrder<T(!new)>(less: (T, T) -> bool, s: set<T>)
  {
    && (forall x :: x in s ==> !less(x, x))
    && (forall x, y, z :: x in s && y in s && z in s && less(x, y) && less(y, z) ==> less(x, z))
    && (forall x, y :: x in s && y in s && x != y ==> less(x, y) || less(y, x))
  }

  ghost function Above<T(!new)>(less: (T, T) -> bool, s: set<T>, x: T): set<T>
  {
    set y | y in s && less(x, y)
  }

  ghost function Top<T(!new)>(less: (T, T) -> bool, s: set<T>, k: nat): set<T>
  {
    set x | x in s && |Above(less, s, x)| < k
  }

  lemma SubsetSize<T>(a: set<T>, b: set<T>)
    requires a <= b
    ensures |a| <= |b|
    ensures |a| == |b| ==> a == b
  {
    assert b == a + (b - a);
    assert |b| == |a| + |b - a|;
  }

  ghost predicate Least<T(!new)>(less: (T, T) -> bool, s: set<T>, x: T)
  {
    x in s && forall y :: y in s && y != x ==> less(x, y)
  }

  lemma {:induction false} LeastExists<T(!new)>(less: (T, T) -> bool, s: set<T>) returns (x: T)
    requires s != {} && StrictOrder(less, s)
    ensures Least(less, s, x)
    decreases |s|
  {
    x :| x in s;
    if s != {x} {
      var y := LeastExists(less, s - {x});
      if less(y, x) { x := y; }
    }
  }

  /** A set within the cap is kept whole. */
  lemma TopWhole<T(!new)>(less: (T, T) -> bool, s: set<T>, k: nat)
    requires StrictOrder(less, s) && |s| <= k
    ensures Top(less, s, k) == s
  {
    forall x | x in s ensures |Above(less, s, x)| < k {
      SubsetSize(Above(less, s, x), s - {x});
    }
  }

  /** Above the cap, evicting the least element does not change the top. */
  lemma TopEvict<T(!new)>(less: (T, T) -> bool, s: set<T>, m: T, k: nat)
    requires StrictOrder(less, s) && Least(less, s, m) && k < |s|
    ensures Top(less, s, k) == Top(less, s - {m}, k)
  {
    assert Above(less, s, m) == s - {m};
    forall x | x in s - {m}
      ensures Above(less, s, x) == Above(less, s - {m}, x)
    {
    }
  }

  lemma {:induction false} TopSize<T(!new)>(less: (T, T) -> bool, s: set<T>, k: nat)
    requires StrictOrder(less, s)
    ensures |Top(less, s, k)| == if |s| <= k then |s| else k
    decreases |s|
  {
    if |s| <= k {
      TopWhole(less, s, k);
    } else {
      var m := LeastExists(less, s);
      TopEvict(less, s, m, k);
      TopSize(less, s - {m}, k);
    }
  }

  /** Streaming: keeping only the top before an insertion loses nothing. */
  lemma TopInsert<T(!new)>(less: (T, T) -> bool, s: set<T>, x: T, k: nat)
    requires StrictOrder(less, s + {x})
    ensures Top(less, Top(less, s, k) + {x}, k) == Top(less, s + {x}, k)
  {
    var t := Top(less, s, k);
    forall y | y in s + {x}
      ensures y in Top(less, t + {x}, k) <==> y in Top(less, s + {x}, k)
    {
      TopInsertAt(less, s, x, k, y);
    }
  }

  lemma TopInsertAt<T(!new)>(less: (T, T) -> bool, s: set<T>, x: T, k: nat, y: T)
    requires StrictOrder(less, s + {x}) && y in s + {x}
    ensures y in Top(less, Top(less, s, k) + {x}, k) <==> y in Top(less, s + {x}, k)
  {
    var t := Top(less, s, k);
    SubsetSize(Above(less, t + {x}, y), Above(less, s + {x}, y));
    if y in t {
      forall z | z in Above(less, s, y) ensures z in t {
        SubsetSize(Above(less, s, z), Above(less, s, y));
      }
      assert Above(less, t + {x}, y) == Above(less, s + {x}, y);
    } else if y in s {
      SubsetSize(Above(less, s, y), Above(less, s + {x}, y));
      if y == x { assert s + {x} == s; TopOutside(less, s, k, y); SubsetSize(Above(less, t, y), Above(less, t + {x}, y)); }
    } else if exists z :: z in Above(less, s, x) && z !in t {
      var z :| z in Above(less, s, x) && z !in t;
      TopOutside(less, s, k, z);
      assert t <= Above(less, t + {x}, x);
      SubsetSize(t, Above(less, t + {x}, x));
    } else {
      assert Above(less, t + {x}, x) == Above(less, s + {x}, x);
    }
  }

  /** An element left out of the top has exactly `k` kept elements above it. */
  lemma TopOutside<T(!new)>(less: (T, T) -> bool, s: set<T>, k: nat, z: T)
    requires StrictOrder(less, s) && z in s && z !in Top(less, s, k)
    ensures |Top(less, s, k)| == k && Top(less, s, k) == Above(less, Top(less, s, k), z)
  {
    var t := Top(less, s, k);
    TopSize(less, s, k);
    if |s| <= k { TopWhole(less, s, k); }
    forall y | y in t ensures less(z, y) {
      if less(y, z) { SubsetSize(Above(less, s, z), Above(less, s, y)); }
    }
  }

  /** An element still in the top after an insertion was in the top before it. */
  lemma TopBefore<T(!new)>(less: (T, T) -> bool, s: set<T>, x: T, k: nat, y: T)
    requires y in s && y in Top(less, s + {x}, k)
    ensures y in Top(less, s, k)
  {
    SubsetSize(Above(less, s, y), Above(less, s + {x}, y));
  }
}
