/** Cardinality facts about finite sets used by the counting arguments. */
module Collections {

  /** Some element of a non-empty set: the order in which a query yields its rows is not specified. */
  method AnyOf<T(==)>(s: set<T>) returns (x: T)
    requires s != {}
    ensures x in s
  {
    x :| x in s;
  }

  /** A subset has no more elements. */
  lemma {:induction false} SubsetSize<T>(a: set<T>, b: set<T>)
    requires a <= b
    ensures |a| <= |b|
    decreases a
  {
    if a != {} {
      var x :| x in a;
      SubsetSize(a - {x}, b - {x});
    }
  }

  /** If every target is hit by some source, there are at least as many sources as targets. */
  lemma {:induction false} CoverSize<A, B>(sources: set<A>, targets: set<B>, f: map<A, B>)
    requires sources <= f.Keys
    requires forall t :: t in targets ==> exists s :: s in sources && f[s] == t
    ensures |targets| <= |sources|
    decreases sources
  {
    if targets == {} {
    } else {
      var t :| t in targets;
      var s :| s in sources && f[s] == t;
      forall u | u in targets - {t}
        ensures exists v :: v in sources - {s} && f[v] == u
      {
        var v :| v in sources && f[v] == u;
        assert v in sources - {s};
      }
      CoverSize(sources - {s}, targets - {t}, f);
    }
  }

  /** An injective map from `a` into `b` makes `b` at least as large. */
  lemma {:induction false} InjectiveSize<A, B>(a: set<A>, b: set<B>, f: map<A, B>)
    requires a <= f.Keys
    requires forall x :: x in a ==> f[x] in b
    requires forall x, y :: x in a && y in a && f[x] == f[y] ==> x == y
    ensures |a| <= |b|
    decreases a
  {
    if a != {} {
      var x :| x in a;
      InjectiveSize(a - {x}, b - {f[x]}, f);
    }
  }

  /** A sequence has at least as many elements as it has distinct members. */
  lemma {:induction false} MembersSize<T>(s: seq<T>)
    ensures |set x | x in s| <= |s|
  {
    if s != [] {
      var rest := s[1..];
      MembersSize(rest);
      assert (set x | x in s) == (set x | x in rest) + {s[0]};
    }
  }
}
