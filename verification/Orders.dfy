/** Lists collected by visiting the members of a collection in some order, as loops over Go maps
    and receives from several goroutines do. */
module Orders {

  ghost predicate Distinct<T>(order: seq<T>) {
    forall i, j | 0 <= i < j < |order| :: order[i] != order[j]
  }

  /** What is found at each member, one after the other. */
  function Collect<T, U>(f: T -> seq<U>, order: seq<T>): seq<U> {
    if order == [] then [] else Collect(f, order[..|order| - 1]) + f(order[|order| - 1])
  }

  lemma CollectOneMore<T, U>(f: T -> seq<U>, order: seq<T>, x: T)
    ensures Collect(f, order + [x]) == Collect(f, order) + f(x)
  {
    assert (order + [x])[..|order|] == order;
  }

  lemma LastApart<T>(left: seq<T>, right: seq<T>)
    requires right != []
    ensures var n := |right| - 1;
            right == right[..n] + [right[n]] && left + right == (left + right[..n]) + [right[n]]
  {
  }

  lemma {:induction false} CollectSplit<T, U>(f: T -> seq<U>, left: seq<T>, right: seq<T>)
    ensures Collect(f, left + right) == Collect(f, left) + Collect(f, right)
  {
    if right == [] {
      assert left + right == left;
    } else {
      var n := |right| - 1;
      CollectSplit(f, left, right[..n]);
      LastApart(left, right);
      CollectOneMore(f, left + right[..n], right[n]);
      CollectOneMore(f, right[..n], right[n]);
    }
  }

  lemma {:induction false} CollectSame<T, U>(f: T -> seq<U>, g: T -> seq<U>, order: seq<T>)
    requires forall x | x in order :: f(x) == g(x)
    ensures Collect(f, order) == Collect(g, order)
  {
    if order != [] {
      CollectSame(f, g, order[..|order| - 1]);
      assert order[|order| - 1] in order;
    }
  }

  lemma SomeMember<T>(q: seq<T>)
    ensures q != [] ==> exists x :: x in q
  {
    if q != [] {
      assert q[0] in q;
    }
  }

  function Without<T>(q: seq<T>, m: nat): seq<T>
    requires m < |q|
  {
    q[..m] + q[m + 1..]
  }

  lemma WithoutMembers<T>(q: seq<T>, m: nat)
    requires m < |q| && Distinct(q)
    ensures Distinct(Without(q, m))
    ensures forall x :: x in Without(q, m) <==> x in q && x != q[m]
  {
    assert q == q[..m] + [q[m]] + q[m + 1..];
  }

  lemma MiddleOut<U>(left: seq<U>, mid: seq<U>, right: seq<U>)
    ensures multiset(left + mid + right) == multiset(left + right) + multiset(mid)
  {
  }

  lemma SplitAround<T>(q: seq<T>, m: nat)
    requires m < |q|
    ensures q == q[..m] + [q[m]] + q[m + 1..]
  {
  }

  lemma CollectWithout<T, U>(f: T -> seq<U>, q: seq<T>, m: nat)
    requires m < |q|
    ensures multiset(Collect(f, q)) == multiset(Collect(f, Without(q, m))) + multiset(f(q[m]))
  {
    var left, right := q[..m], q[m + 1..];
    SplitAround(q, m);
    CollectSplit(f, left + [q[m]], right);
    CollectOneMore(f, left, q[m]);
    CollectSplit(f, left, right);
    MiddleOut(Collect(f, left), f(q[m]), Collect(f, right));
  }

  /** Visiting the same members in another order collects the same things, each as often. */
  lemma {:induction false} OrderDoesNotMatter<T, U>(f: T -> seq<U>, p: seq<T>, q: seq<T>)
    requires Distinct(p) && Distinct(q) && forall x :: x in p <==> x in q
    ensures multiset(Collect(f, p)) == multiset(Collect(f, q))
    decreases |p|
  {
    if p == [] {
      SomeMember(q);
    } else {
      var n := |p| - 1;
      assert p[n] in p;
      var m :| 0 <= m < |q| && q[m] == p[n];
      WithoutMembers(p, n);
      WithoutMembers(q, m);
      OrderDoesNotMatter(f, Without(p, n), Without(q, m));
      CollectWithout(f, p, n);
      CollectWithout(f, q, m);
    }
  }
}
