/** The shape shared by the card loop and the calendar loops: visit the items in order,
 *  skip the ones that yield nothing, and push what the others yield. */
module FilterMaps {
  import opened Options

  /** What the items yield, in item order. */
  function FilterMap<T, U>(xs: seq<T>, f: T -> Option<U>): (r: seq<U>)
    ensures |r| <= |xs|
  {
    if xs == [] then []
    else FilterMap(xs[..|xs| - 1], f) + (match f(xs[|xs| - 1]) case Some(y) => [y] case None => [])
  }

  /** The positions of the items that yield something. */
  function Yielding<T, U>(xs: seq<T>, f: T -> Option<U>): seq<nat> {
    if xs == [] then []
    else Yielding(xs[..|xs| - 1], f) + (if f(xs[|xs| - 1]).Some? then [|xs| - 1] else [])
  }

  /** Visiting one more item pushes what it yields. */
  lemma FilterMapSnoc<T, U>(xs: seq<T>, x: T, f: T -> Option<U>)
    ensures FilterMap(xs + [x], f) == FilterMap(xs, f) + (match f(x) case Some(y) => [y] case None => [])
  {
    assert (xs + [x])[..|xs|] == xs;
  }

  /** The items of a concatenation yield what each part yields, one part after the other. */
  lemma {:induction false} FilterMapAppend<T, U>(xs: seq<T>, ys: seq<T>, f: T -> Option<U>)
    ensures FilterMap(xs + ys, f) == FilterMap(xs, f) + FilterMap(ys, f)
    decreases |ys|
  {
    if ys == [] {
      assert xs + ys == xs;
    } else {
      var init := ys[..|ys| - 1];
      assert xs + ys == (xs + init) + [ys[|ys| - 1]];
      FilterMapAppend(xs, init, f);
      FilterMapSnoc(xs + init, ys[|ys| - 1], f);
      FilterMapSnoc(init, ys[|ys| - 1], f);
      assert init + [ys[|ys| - 1]] == ys;
    }
  }

  /** One position per output, each a position of `xs`, strictly increasing, and each
   *  output is what the item at its position yields. */
  lemma {:induction false} YieldingInOrder<T, U>(xs: seq<T>, f: T -> Option<U>)
    ensures var r, o := FilterMap(xs, f), Yielding(xs, f);
            && |o| == |r|
            && (forall i :: 0 <= i < |o| ==> o[i] < |xs| && f(xs[o[i]]) == Some(r[i]))
            && (forall i, j :: 0 <= i < j < |o| ==> o[i] < o[j])
  {
    if xs != [] {
      var init := xs[..|xs| - 1];
      YieldingInOrder(init, f);
      var r, o := FilterMap(xs, f), Yielding(xs, f);
      var r0, o0 := FilterMap(init, f), Yielding(init, f);
      forall i | 0 <= i < |o|
        ensures o[i] < |xs| && f(xs[o[i]]) == Some(r[i])
      {
        if i < |o0| {
          assert o[i] == o0[i] && r[i] == r0[i] && xs[o0[i]] == init[o0[i]];
        }
      }
    }
  }

  /** Every item that yields something has its position among the outputs'. */
  lemma {:induction false} YieldingComplete<T, U>(xs: seq<T>, f: T -> Option<U>, c: nat)
    requires c < |xs| && f(xs[c]).Some?
    ensures c in Yielding(xs, f)
  {
    var init := xs[..|xs| - 1];
    if c < |init| {
      assert init[c] == xs[c];
      YieldingComplete(init, f, c);
    }
  }

  /** Everything output was yielded by some item. */
  lemma FilterMapMembers<T, U>(xs: seq<T>, f: T -> Option<U>, y: U)
    requires y in FilterMap(xs, f)
    ensures exists i :: 0 <= i < |xs| && f(xs[i]) == Some(y)
  {
    YieldingInOrder(xs, f);
    var r := FilterMap(xs, f);
    var k :| 0 <= k < |r| && r[k] == y;
    var o := Yielding(xs, f);
    assert f(xs[o[k]]) == Some(y);
  }

  /** What the items give, one item's output after the other's. */
  function Concat<T, U>(xs: seq<T>, f: T -> seq<U>): seq<U> {
    if xs == [] then []
    else Concat(xs[..|xs| - 1], f) + f(xs[|xs| - 1])
  }

  /** Visiting one more item appends what it gives. */
  lemma ConcatSnoc<T, U>(xs: seq<T>, x: T, f: T -> seq<U>)
    ensures Concat(xs + [x], f) == Concat(xs, f) + f(x)
  {
    assert (xs + [x])[..|xs|] == xs;
  }

  /** The items of a concatenation give what each part gives, one part after the other. */
  lemma {:induction false} ConcatAppend<T, U>(xs: seq<T>, ys: seq<T>, f: T -> seq<U>)
    ensures Concat(xs + ys, f) == Concat(xs, f) + Concat(ys, f)
    decreases |ys|
  {
    if ys == [] {
      assert xs + ys == xs;
    } else {
      var init, last := ys[..|ys| - 1], ys[|ys| - 1];
      assert xs + ys == (xs + init) + [last];
      ConcatAppend(xs, init, f);
      ConcatSnoc(xs + init, last, f);
      ConcatSnoc(init, last, f);
      assert init + [last] == ys;
    }
  }

  /** Everything output was given by some item. */
  lemma {:induction false} ConcatMembers<T, U>(xs: seq<T>, f: T -> seq<U>, y: U)
    requires y in Concat(xs, f)
    ensures exists i :: 0 <= i < |xs| && y in f(xs[i])
  {
    var init := xs[..|xs| - 1];
    if y in Concat(init, f) {
      ConcatMembers(init, f, y);
      var i :| 0 <= i < |init| && y in f(init[i]);
      assert xs[i] == init[i];
    } else {
      assert y in f(xs[|xs| - 1]);
    }
  }
}
