/** Routing a sequence of records by whether each record's key is one of a
    list of held-out ids. `Select` is the order-preserving filter the split's
    loops compute; `Partitions` says declaratively what a correct routing is,
    and `PartitionsIffSelect` shows the two agree exactly. */
module Partition {

  /** The routing test of the split: `key(x) in ids`, with `ids` a list as in
      the source, so membership is list membership. */
  predicate Routed<T>(x: T, key: T -> int, ids: seq<int>, held: bool)
  {
    (key(x) in ids) == held
  }

  /** The records of `xs` whose routing test gives `held`, in their original order. */
  function Select<T>(xs: seq<T>, key: T -> int, ids: seq<int>, held: bool): (r: seq<T>)
    ensures |r| <= |xs|
  {
    if xs == [] then []
    else (if Routed(xs[0], key, ids, held) then [xs[0]] else []) + Select(xs[1..], key, ids, held)
  }

  /** `s` can be obtained from `t` by deleting elements: its elements occur in
      `t` in the same order. */
  ghost predicate IsSubsequence<T>(s: seq<T>, t: seq<T>)
    decreases |t|
  {
    s == [] || (t != [] && ((s[0] == t[0] && IsSubsequence(s[1..], t[1..])) || IsSubsequence(s, t[1..])))
  }

  /** Every element of `s` passes the routing test with outcome `held`. */
  ghost predicate AllRouted<T>(s: seq<T>, key: T -> int, ids: seq<int>, held: bool)
  {
    forall x | x in s :: Routed(x, key, ids, held)
  }

  /** `held` and `rest` are a correct routing of `xs`: each keeps the order of
      `xs`, `held` takes only records whose key is in `ids`, `rest` only those
      whose key is not, and together they hold every record of `xs` exactly as
      often as `xs` does. */
  ghost predicate Partitions<T>(xs: seq<T>, key: T -> int, ids: seq<int>, held: seq<T>, rest: seq<T>)
  {
    && IsSubsequence(held, xs)
    && IsSubsequence(rest, xs)
    && AllRouted(held, key, ids, true)
    && AllRouted(rest, key, ids, false)
    && multiset(held) + multiset(rest) == multiset(xs)
  }

  /** Filtering distributes over concatenation: the loops may select the
      records one at a time. */
  lemma {:induction false} SelectAppend<T>(a: seq<T>, b: seq<T>, key: T -> int, ids: seq<int>, held: bool)
    ensures Select(a + b, key, ids, held) == Select(a, key, ids, held) + Select(b, key, ids, held)
  {
    if a == [] {
      assert a + b == b;
    } else {
      var c := a + b;
      assert c[0] == a[0] && c[1..] == a[1..] + b;
      var head := if Routed(a[0], key, ids, held) then [a[0]] else [];
      SelectAppend(a[1..], b, key, ids, held);
      calc {
        Select(c, key, ids, held);
        head + Select(a[1..] + b, key, ids, held);
        head + (Select(a[1..], key, ids, held) + Select(b, key, ids, held));
        (head + Select(a[1..], key, ids, held)) + Select(b, key, ids, held);
      }
    }
  }

  /** Extending the input by one record extends each filter by that record
      or by nothing, according to the record's routing test. */
  lemma SelectPrefixStep<T>(xs: seq<T>, i: nat, key: T -> int, ids: seq<int>)
    requires i < |xs|
    ensures Select(xs[..i + 1], key, ids, true)
         == Select(xs[..i], key, ids, true) + if key(xs[i]) in ids then [xs[i]] else []
    ensures Select(xs[..i + 1], key, ids, false)
         == Select(xs[..i], key, ids, false) + if key(xs[i]) in ids then [] else [xs[i]]
  {
    assert xs[..i + 1] == xs[..i] + [xs[i]];
    SelectAppend(xs[..i], [xs[i]], key, ids, true);
    SelectAppend(xs[..i], [xs[i]], key, ids, false);
  }

  /** A record is selected if and only if it occurs in the input and passes the test. */
  lemma {:induction false} SelectMembership<T>(xs: seq<T>, key: T -> int, ids: seq<int>, held: bool, x: T)
    ensures x in Select(xs, key, ids, held) <==> x in xs && Routed(x, key, ids, held)
  {
    if xs != [] {
      SelectMembership(xs[1..], key, ids, held, x);
      assert xs == [xs[0]] + xs[1..];
    }
  }

  /** The filter keeps the order of its input. */
  lemma {:induction false} SelectIsSubsequence<T>(xs: seq<T>, key: T -> int, ids: seq<int>, held: bool)
    ensures IsSubsequence(Select(xs, key, ids, held), xs)
  {
    if xs != [] {
      SelectIsSubsequence(xs[1..], key, ids, held);
      var r := Select(xs, key, ids, held);
      if Routed(xs[0], key, ids, held) {
        assert r[0] == xs[0] && r[1..] == Select(xs[1..], key, ids, held);
      } else {
        assert r == Select(xs[1..], key, ids, held);
      }
    }
  }

  /** The two filters together hold every record of the input exactly once. */
  lemma {:induction false} SelectMultiset<T>(xs: seq<T>, key: T -> int, ids: seq<int>)
    ensures multiset(Select(xs, key, ids, true)) + multiset(Select(xs, key, ids, false)) == multiset(xs)
  {
    if xs != [] {
      var x, tail := xs[0], xs[1..];
      SelectMultiset(tail, key, ids);
      assert xs == [x] + tail;
      assert multiset(xs) == multiset{x} + multiset(tail);
      if Routed(x, key, ids, true) {
        assert Select(xs, key, ids, true) == [x] + Select(tail, key, ids, true);
        assert Select(xs, key, ids, false) == Select(tail, key, ids, false);
      } else {
        assert Select(xs, key, ids, true) == Select(tail, key, ids, true);
        assert Select(xs, key, ids, false) == [x] + Select(tail, key, ids, false);
      }
    }
  }

  /** The filters `Select(.., true)` and `Select(.., false)` are a correct routing. */
  lemma SelectPartitions<T>(xs: seq<T>, key: T -> int, ids: seq<int>)
    ensures Partitions(xs, key, ids, Select(xs, key, ids, true), Select(xs, key, ids, false))
  {
    SelectIsSubsequence(xs, key, ids, true);
    SelectIsSubsequence(xs, key, ids, false);
    SelectMultiset(xs, key, ids);
    forall x | x in Select(xs, key, ids, true) ensures Routed(x, key, ids, true) {
      SelectMembership(xs, key, ids, true, x);
    }
    forall x | x in Select(xs, key, ids, false) ensures Routed(x, key, ids, false) {
      SelectMembership(xs, key, ids, false, x);
    }
  }

  /** A subsequence holds no record more often than the sequence it is taken from. */
  lemma {:induction false} SubsequenceMultiset<T>(s: seq<T>, t: seq<T>)
    requires IsSubsequence(s, t)
    ensures multiset(s) <= multiset(t)
    decreases |t|
  {
    if s != [] {
      assert t == [t[0]] + t[1..];
      if s[0] == t[0] && IsSubsequence(s[1..], t[1..]) {
        SubsequenceMultiset(s[1..], t[1..]);
        assert s == [s[0]] + s[1..];
      } else {
        SubsequenceMultiset(s, t[1..]);
      }
    }
  }

  /** One step of the uniqueness proof: in a correct routing, the first record
      of `xs` heads the output it is routed to (`mine`), and the routing of the
      remaining records is what is left. */
  lemma PeelFirst<T>(xs: seq<T>, key: T -> int, ids: seq<int>, held: bool, mine: seq<T>, other: seq<T>)
    requires xs != [] && Routed(xs[0], key, ids, held)
    requires IsSubsequence(mine, xs) && IsSubsequence(other, xs)
    requires AllRouted(mine, key, ids, held) && AllRouted(other, key, ids, !held)
    requires multiset(mine) + multiset(other) == multiset(xs)
    ensures mine != [] && mine[0] == xs[0]
    ensures IsSubsequence(mine[1..], xs[1..]) && IsSubsequence(other, xs[1..])
    ensures multiset(mine[1..]) + multiset(other) == multiset(xs[1..])
  {
    var x, tail := xs[0], xs[1..];
    assert xs == [x] + tail;
    assert x !in other;
    assert multiset(mine)[x] == multiset(xs)[x] == multiset(tail)[x] + 1;
    if other != [] {
      assert other[0] != x;
    }
    assert IsSubsequence(other, tail);
    assert mine != [];
    if mine[0] != x {
      assert IsSubsequence(mine, tail);
      SubsequenceMultiset(mine, tail);
      assert false;
    }
    if !IsSubsequence(mine[1..], tail) {
      assert IsSubsequence(mine, tail);
      SubsequenceMultiset(mine, tail);
      assert false;
    }
    assert mine == [x] + mine[1..];
    assert multiset(mine) == multiset{x} + multiset(mine[1..]);
    assert multiset(xs) == multiset{x} + multiset(tail);
    forall y ensures (multiset(mine[1..]) + multiset(other))[y] == multiset(tail)[y] {
      assert (multiset(mine) + multiset(other))[y] == multiset(xs)[y];
    }
  }

  /** The uniqueness step when the first record is held out: the routing of
      the remaining records is correct, and if it is the pair of filters, so is
      the whole routing. */
  lemma HeldStep<T>(xs: seq<T>, key: T -> int, ids: seq<int>, held: seq<T>, rest: seq<T>)
    requires Partitions(xs, key, ids, held, rest)
    requires xs != [] && Routed(xs[0], key, ids, true)
    ensures held != [] && Partitions(xs[1..], key, ids, held[1..], rest)
    ensures held[1..] == Select(xs[1..], key, ids, true) && rest == Select(xs[1..], key, ids, false)
        ==> held == Select(xs, key, ids, true) && rest == Select(xs, key, ids, false)
  {
    PeelFirst(xs, key, ids, true, held, rest);
    assert held == [held[0]] + held[1..];
  }

  /** The uniqueness step when the first record is not held out. */
  lemma RestStep<T>(xs: seq<T>, key: T -> int, ids: seq<int>, held: seq<T>, rest: seq<T>)
    requires Partitions(xs, key, ids, held, rest)
    requires xs != [] && Routed(xs[0], key, ids, false)
    ensures rest != [] && Partitions(xs[1..], key, ids, held, rest[1..])
    ensures held == Select(xs[1..], key, ids, true) && rest[1..] == Select(xs[1..], key, ids, false)
        ==> held == Select(xs, key, ids, true) && rest == Select(xs, key, ids, false)
  {
    PeelFirst(xs, key, ids, false, rest, held);
    assert multiset(held) + multiset(rest[1..]) == multiset(xs[1..]);
    assert rest == [rest[0]] + rest[1..];
  }

  /** A correct routing is unique: it is exactly the pair of filters. */
  lemma {:induction false} PartitionsAreSelect<T>(xs: seq<T>, key: T -> int, ids: seq<int>, held: seq<T>, rest: seq<T>)
    requires Partitions(xs, key, ids, held, rest)
    ensures held == Select(xs, key, ids, true) && rest == Select(xs, key, ids, false)
    decreases |xs|
  {
    if xs == [] {
      assert |multiset(held)| == |held| && |multiset(rest)| == |rest|;
    } else if Routed(xs[0], key, ids, true) {
      HeldStep(xs, key, ids, held, rest);
      PartitionsAreSelect(xs[1..], key, ids, held[1..], rest);
    } else {
      RestStep(xs, key, ids, held, rest);
      PartitionsAreSelect(xs[1..], key, ids, held, rest[1..]);
    }
  }

  /** Both directions: a pair of outputs is a correct routing of `xs` if and
      only if it is the pair of order-preserving filters of `xs`. */
  lemma PartitionsIffSelect<T>(xs: seq<T>, key: T -> int, ids: seq<int>, held: seq<T>, rest: seq<T>)
    ensures Partitions(xs, key, ids, held, rest)
        <==> held == Select(xs, key, ids, true) && rest == Select(xs, key, ids, false)
  {
    SelectPartitions(xs, key, ids);
    if Partitions(xs, key, ids, held, rest) {
      PartitionsAreSelect(xs, key, ids, held, rest);
    }
  }

  /** In a correct routing every record of the input lands in exactly one
      output, the held one precisely when its key is in `ids`, and no output
      holds a record the input does not have. */
  lemma PartitionsPlacement<T>(xs: seq<T>, key: T -> int, ids: seq<int>, held: seq<T>, rest: seq<T>, x: T)
    requires Partitions(xs, key, ids, held, rest)
    ensures x in held <==> x in xs && key(x) in ids
    ensures x in rest <==> x in xs && key(x) !in ids
  {
    assert multiset(held)[x] + multiset(rest)[x] == multiset(xs)[x];
    assert x in held ==> Routed(x, key, ids, true);
    assert x in rest ==> Routed(x, key, ids, false);
  }

  /** In a correct routing the two outputs together are as long as the input. */
  lemma PartitionsCount<T>(xs: seq<T>, key: T -> int, ids: seq<int>, held: seq<T>, rest: seq<T>)
    requires Partitions(xs, key, ids, held, rest)
    ensures |held| + |rest| == |xs|
  {
    assert |multiset(held) + multiset(rest)| == |multiset(xs)|;
  }
}
