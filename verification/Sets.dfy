/** The sizes of finite sets. */
module Sets {
  lemma {:induction false} SubsetSize<T>(a: set<T>, b: set<T>)
    requires a <= b
    ensures |a| <= |b|
  {
    if a != {} {
      var x :| x in a;
      SubsetSize(a - {x}, b - {x});
    }
  }

  lemma UnionSize<T>(a: set<T>, b: set<T>)
    ensures |a + b| <= |a| + |b|
  {
    assert |a + b| == |a| + |b| - |a * b|;
  }

  /** What is picked out by members of `s` is no larger than `s`. */
  lemma {:induction false} ImageSize<S, T>(s: set<S>, image: set<T>, pick: S --> T)
    requires forall x | x in s :: pick.requires(x)
    requires forall y | y in image :: exists x :: x in s && pick(x) == y
    ensures |image| <= |s|
  {
    if image != {} {
      var y :| y in image;
      var x :| x in s && pick(x) == y;
      ImageSize(s - {x}, image - {y}, pick);
    }
  }

  lemma FreshKey<T>(m: map<nat, T>) returns (h: nat)
    ensures h !in m
  {
    h := Above(m.Keys);
  }

  lemma {:induction false} Above(s: set<nat>) returns (h: nat)
    ensures forall n | n in s :: n < h
  {
    if s == {} {
      h := 0;
    } else {
      var n :| n in s;
      h := Above(s - {n});
      h := if n < h then h else n + 1;
      forall m | m in s ensures m < h {
        assert m == n || m in s - {n};
      }
    }
  }
}
