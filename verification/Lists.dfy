/** The option type, and the one list operation everything else is phrased with:
    keep the elements a partial function is defined on, in order. */
module Lists {

  datatype Option<+T> = None | Some(value: T)

  /** The zero or one element sequence holding an option's value. */
  function Opt<T>(o: Option<T>): seq<T> {
    match o
    case None => []
    case Some(x) => [x]
  }

  function FilterMap<A, B>(s: seq<A>, f: A -> Option<B>): seq<B> {
    if s == [] then [] else FilterMap(s[..|s| - 1], f) + Opt(f(s[|s| - 1]))
  }

  lemma {:induction false} FilterMapSnoc<A, B>(s: seq<A>, x: A, f: A -> Option<B>)
    ensures FilterMap(s + [x], f) == FilterMap(s, f) + Opt(f(x))
  {
    assert (s + [x])[..|s|] == s;
  }

  lemma AppendAssociative<T>(a: seq<T>, b: seq<T>, c: seq<T>)
    ensures a + b + c == a + (b + c)
  {
  }

  lemma FilterMapEmpty<A, B>(f: A -> Option<B>)
    ensures FilterMap([], f) == []
  {
  }

  lemma {:induction false} FilterMapConcat<A, B>(s: seq<A>, t: seq<A>, f: A -> Option<B>)
    ensures FilterMap(s + t, f) == FilterMap(s, f) + FilterMap(t, f)
  {
    hide FilterMap, Opt;
    if t == [] {
      assert s + t == s;
      FilterMapEmpty(f);
    } else {
      var init, x := t[..|t| - 1], t[|t| - 1];
      FilterMapConcat(s, init, f);
      FilterMapSnoc(s + init, x, f);
      FilterMapSnoc(init, x, f);
      assert t == init + [x] && s + t == s + init + [x];
      AppendAssociative(FilterMap(s, f), FilterMap(init, f), Opt(f(x)));
    }
  }

  /** Mapping twice is mapping once with the composed partial function. */
  lemma {:induction false} FilterMapCompose<A, B, C>(s: seq<A>, f: A -> Option<B>, g: B -> Option<C>, h: A -> Option<C>)
    requires forall x <- s :: h(x) == if f(x).Some? then g(f(x).value) else None
    ensures FilterMap(FilterMap(s, f), g) == FilterMap(s, h)
  {
    if s != [] {
      var n := |s| - 1;
      FilterMapCompose(s[..n], f, g, h);
      assert s[n] in s;
      if f(s[n]).Some? {
        FilterMapSnoc(FilterMap(s[..n], f), f(s[n]).value, g);
      } else {
        assert FilterMap(s, f) == FilterMap(s[..n], f);
      }
    }
  }

  lemma {:induction false} FilterMapSame<A, B>(s: seq<A>, f: A -> Option<B>, g: A -> Option<B>)
    requires forall x <- s :: f(x) == g(x)
    ensures FilterMap(s, f) == FilterMap(s, g)
  {
    if s != [] {
      assert s[|s| - 1] in s;
      FilterMapSame(s[..|s| - 1], f, g);
    }
  }

  lemma {:induction false} FilterMapNone<A, B>(s: seq<A>, f: A -> Option<B>)
    requires forall x <- s :: f(x).None?
    ensures FilterMap(s, f) == []
  {
    if s != [] {
      assert s[|s| - 1] in s;
      FilterMapNone(s[..|s| - 1], f);
    }
  }

  lemma {:induction false} FilterMapAll<A>(s: seq<A>, f: A -> Option<A>)
    requires forall x <- s :: f(x) == Some(x)
    ensures FilterMap(s, f) == s
  {
    if s != [] {
      assert s[|s| - 1] in s;
      FilterMapAll(s[..|s| - 1], f);
    }
  }

  lemma {:induction false} FilterMapMember<A, B>(s: seq<A>, f: A -> Option<B>, y: B)
    ensures y in FilterMap(s, f) <==> exists x <- s :: f(x) == Some(y)
  {
    if s != [] {
      var n := |s| - 1;
      FilterMapMember(s[..n], f, y);
      assert s == s[..n] + [s[n]];
    }
  }

  /** A pointwise more defined function keeps at least as many elements. */
  lemma {:induction false} FilterMapLonger<A, B, C>(s: seq<A>, f: A -> Option<B>, g: A -> Option<C>)
    requires forall x <- s :: f(x).Some? ==> g(x).Some?
    ensures |FilterMap(s, f)| <= |FilterMap(s, g)|
  {
    if s != [] {
      assert s[|s| - 1] in s;
      FilterMapLonger(s[..|s| - 1], f, g);
    }
  }

  /** Two lists side by side: the same holds, with equality only position by position. */
  lemma {:induction false} FilterMapParallel<A, B, C, D>(s: seq<A>, t: seq<B>, f: A -> Option<C>, g: B -> Option<D>)
    requires |s| == |t| && forall i :: 0 <= i < |s| ==> f(s[i]).Some? ==> g(t[i]).Some?
    ensures |FilterMap(s, f)| <= |FilterMap(t, g)|
    ensures |FilterMap(s, f)| == |FilterMap(t, g)| <==> forall i :: 0 <= i < |s| ==> f(s[i]).Some? == g(t[i]).Some?
  {
    if s != [] {
      var n := |s| - 1;
      FilterMapParallel(s[..n], t[..n], f, g);
      assert forall i :: 0 <= i < n ==> s[..n][i] == s[i] && t[..n][i] == t[i];
    }
  }

  /** A list that f keeps at most one element of has at most one such element. */
  lemma {:induction false} FilterMapAtMostOne<A, B>(s: seq<A>, f: A -> Option<B>, i: nat, j: nat)
    requires |FilterMap(s, f)| <= 1 && i < |s| && j < |s|
    requires f(s[i]).Some? && f(s[j]).Some?
    ensures i == j
  {
    if i != j {
      var lo, hi := if i < j then i else j, if i < j then j else i;
      assert s == s[..hi] + s[hi..];
      FilterMapConcat(s[..hi], s[hi..], f);
      assert s[..hi][lo] in s[..hi] && s[hi..][0] in s[hi..];
      FilterMapMember(s[..hi], f, f(s[lo]).value);
      FilterMapMember(s[hi..], f, f(s[hi]).value);
    }
  }

  /** And the converse. */
  lemma {:induction false} FilterMapFew<A, B>(s: seq<A>, f: A -> Option<B>)
    requires forall i, j :: 0 <= i < j < |s| ==> f(s[i]).None? || f(s[j]).None?
    ensures |FilterMap(s, f)| <= 1
  {
    if s != [] {
      var n := |s| - 1;
      FilterMapFew(s[..n], f);
      if f(s[n]).Some? {
        FilterMapNone(s[..n], f);
      }
    }
  }

  /** Taking element i out of the input takes its image out of the output. */
  lemma {:induction false} FilterMapRemoved<A, B>(s: seq<A>, i: nat, f: A -> Option<B>)
    requires i < |s|
    ensures multiset(s) == multiset(s[..i] + s[i + 1..]) + multiset{s[i]}
    ensures multiset(FilterMap(s, f)) == multiset(FilterMap(s[..i] + s[i + 1..], f)) + multiset(Opt(f(s[i])))
  {
    FilterMapSnoc(s[..i], s[i], f);
    hide FilterMap;
    assert s == s[..i] + [s[i]] + s[i + 1..];
    FilterMapConcat(s[..i], s[i + 1..], f);
    FilterMapConcat(s[..i] + [s[i]], s[i + 1..], f);
  }

  lemma CancelOne<T>(a: multiset<T>, b: multiset<T>, s: multiset<T>, t: multiset<T>, x: T)
    requires s == t && s == a + multiset{x} && t == b + multiset{x}
    ensures a == b
  {
    assert a == s - multiset{x} && b == t - multiset{x};
  }

  /** Permuting the input permutes the output. */
  lemma {:induction false} FilterMapPermuted<A, B>(s: seq<A>, t: seq<A>, f: A -> Option<B>)
    requires multiset(s) == multiset(t)
    ensures multiset(FilterMap(s, f)) == multiset(FilterMap(t, f))
  {
    if s == [] {
      assert |t| == |multiset(t)| == 0;
    } else {
      hide FilterMap;
      var n := |s| - 1;
      assert s[n] in multiset(t);
      var i :| 0 <= i < |t| && t[i] == s[n];
      FilterMapRemoved(s, n, f);
      FilterMapRemoved(t, i, f);
      var init, rest := s[..n] + s[n + 1..], t[..i] + t[i + 1..];
      CancelOne(multiset(init), multiset(rest), multiset(s), multiset(t), s[n]);
      FilterMapPermuted(init, rest, f);
    }
  }

  /** Every way of splitting a list by a predicate keeps its contents. */
  lemma {:induction false} FilterMapSplit<A, B>(s: seq<A>, f: A -> Option<B>, g: A -> Option<B>, h: A -> Option<B>)
    requires forall x <- s :: (f(x) == h(x) && g(x).None?) || (g(x) == h(x) && f(x).None?)
    ensures multiset(FilterMap(s, h)) == multiset(FilterMap(s, f)) + multiset(FilterMap(s, g))
  {
    if s != [] {
      assert s[|s| - 1] in s;
      FilterMapSplit(s[..|s| - 1], f, g, h);
    }
  }

  lemma AtMostOneSame<T>(s: seq<T>, t: seq<T>)
    requires multiset(s) == multiset(t) && |s| <= 1
    ensures s == t
  {
    assert |multiset(s)| == |s| && |multiset(t)| == |t|;
    if s != [] {
      assert s[0] in multiset(t);
    }
  }

  /** All batches, one after the other. */
  function Flatten<T>(batches: seq<seq<T>>): seq<T> {
    if batches == [] then [] else Flatten(batches[..|batches| - 1]) + batches[|batches| - 1]
  }

  lemma FlattenSnoc<T>(batches: seq<seq<T>>, i: nat)
    requires i < |batches|
    ensures Flatten(batches[..i + 1]) == Flatten(batches[..i]) + batches[i]
  {
    assert batches[..i + 1][..i] == batches[..i];
  }
}
