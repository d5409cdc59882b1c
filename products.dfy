/**
 * `itertools.product(*lists)`: every way of picking one element from each list,
 * ordered as the odometer of nested loops, the first list varying slowest.
 */
module Products {

  /** `[x] + t` for every tail `t`, in order. */
  function Prepend(x: string, tails: seq<seq<string>>): seq<seq<string>>
  {
    seq(|tails|, k requires 0 <= k < |tails| => [x] + tails[k])
  }

  /** For each head in order, that head in front of every tail. */
  function Extend(heads: seq<string>, tails: seq<seq<string>>): seq<seq<string>>
  {
    if |heads| == 0 then []
    else Prepend(heads[0], tails) + Extend(heads[1..], tails)
  }

  function Product(lists: seq<seq<string>>): seq<seq<string>>
  {
    if |lists| == 0 then [[]]
    else Extend(lists[0], Product(lists[1..]))
  }

  /** The product of the lists' lengths. */
  function Size(lists: seq<seq<string>>): nat
  {
    if |lists| == 0 then 1 else |lists[0]| * Size(lists[1..])
  }

  lemma MulStep(n: nat, t: nat)
    ensures t + n * t == (n + 1) * t
  {
  }

  lemma {:induction false} ExtendLength(heads: seq<string>, tails: seq<seq<string>>)
    ensures |Extend(heads, tails)| == |heads| * |tails|
    decreases |heads|
  {
    if |heads| > 0 {
      ExtendLength(heads[1..], tails);
      MulStep(|heads| - 1, |tails|);
    }
  }

  lemma IndexBelow(a: nat, n: nat, p: nat, b: nat)
    requires a < n && b < p
    ensures a * p + b < n * p
  {
    assert a * p + b < a * p + p == (a + 1) * p;
    assert (a + 1) * p <= n * p;
  }

  /** Head `a` with tail `b` sits at position `a * |tails| + b`. */
  lemma {:induction false} ExtendAt(heads: seq<string>, tails: seq<seq<string>>, a: nat, b: nat)
    requires a < |heads| && b < |tails|
    ensures a * |tails| + b < |Extend(heads, tails)|
    ensures Extend(heads, tails)[a * |tails| + b] == [heads[a]] + tails[b]
    decreases a
  {
    ExtendLength(heads, tails);
    IndexBelow(a, |heads|, |tails|, b);
    if a > 0 {
      ExtendAt(heads[1..], tails, a - 1, b);
      MulStep(a - 1, |tails|);
    }
  }

  /** Every element of `Extend` is some head followed by some tail. */
  lemma {:induction false} ExtendMembers(heads: seq<string>, tails: seq<seq<string>>)
    ensures forall y | y in Extend(heads, tails) :: |y| >= 1 && y[0] in heads && y[1..] in tails
    decreases |heads|
  {
    if |heads| > 0 {
      ExtendMembers(heads[1..], tails);
      forall y | y in Prepend(heads[0], tails)
        ensures |y| >= 1 && y[0] in heads && y[1..] in tails
      {
        var k :| 0 <= k < |tails| && y == [heads[0]] + tails[k];
        assert y[1..] == tails[k];
      }
    }
  }

  /** `len(product(*lists))` is the product of the lengths. */
  lemma {:induction false} ProductLength(lists: seq<seq<string>>)
    ensures |Product(lists)| == Size(lists)
    decreases |lists|
  {
    if |lists| > 0 {
      ProductLength(lists[1..]);
      ExtendLength(lists[0], Product(lists[1..]));
    }
  }

  /**
   * The order of `itertools.product`: the tuple choosing element `a` of the
   * first list and the `b`-th tuple of the remaining lists sits at
   * `a * |Product(rest)| + b`, so the first list varies slowest.
   */
  lemma ProductAt(lists: seq<seq<string>>, a: nat, b: nat)
    requires |lists| >= 1 && a < |lists[0]| && b < |Product(lists[1..])|
    ensures a * |Product(lists[1..])| + b < |Product(lists)|
    ensures Product(lists)[a * |Product(lists[1..])| + b] == [lists[0][a]] + Product(lists[1..])[b]
  {
    ExtendAt(lists[0], Product(lists[1..]), a, b);
  }

  /** Each tuple has one element per list, element `i` taken from list `i`. */
  lemma {:induction false} ProductSound(lists: seq<seq<string>>)
    ensures forall y | y in Product(lists) ::
      |y| == |lists| && forall i | 0 <= i < |lists| :: y[i] in lists[i]
    decreases |lists|
  {
    if |lists| > 0 {
      ProductSound(lists[1..]);
      ExtendMembers(lists[0], Product(lists[1..]));
      forall y | y in Product(lists)
        ensures |y| == |lists| && forall i | 0 <= i < |lists| :: y[i] in lists[i]
      {
        assert y[1..] in Product(lists[1..]);
        forall i | 1 <= i < |lists|
          ensures y[i] in lists[i]
        {
          assert y[1..][i - 1] == y[i];
        }
      }
    }
  }

  /** Conversely, every choice of one element per list is a tuple of the product. */
  lemma {:induction false} ProductComplete(lists: seq<seq<string>>, y: seq<string>)
    requires |y| == |lists|
    requires forall i | 0 <= i < |lists| :: y[i] in lists[i]
    ensures y in Product(lists)
    decreases |lists|
  {
    if |lists| > 0 {
      var rest, tail := lists[1..], y[1..];
      forall i | 0 <= i < |rest|
        ensures tail[i] in rest[i]
      {
        assert tail[i] == y[i + 1] && rest[i] == lists[i + 1];
      }
      ProductComplete(rest, tail);
      var a :| 0 <= a < |lists[0]| && lists[0][a] == y[0];
      var b :| 0 <= b < |Product(rest)| && Product(rest)[b] == tail;
      ProductAt(lists, a, b);
      assert [y[0]] + tail == y;
      assert Product(lists)[a * |Product(rest)| + b] == y;
    }
  }

  /** With no empty list the product has at least one tuple. */
  lemma {:induction false} ProductNonEmpty(lists: seq<seq<string>>)
    requires forall i | 0 <= i < |lists| :: |lists[i]| >= 1
    ensures |Product(lists)| >= 1
    decreases |lists|
  {
    ProductLength(lists);
    SizePositive(lists);
  }

  lemma {:induction false} SizePositive(lists: seq<seq<string>>)
    requires forall i | 0 <= i < |lists| :: |lists[i]| >= 1
    ensures Size(lists) >= 1
    decreases |lists|
  {
    if |lists| > 0 {
      assert forall i | 0 <= i < |lists[1..]| :: lists[1..][i] == lists[i + 1];
      SizePositive(lists[1..]);
    }
  }
}
