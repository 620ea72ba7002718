/** `batch_create` from the seeding command, reduced to the sizes of the
    batches it builds: `count // batch` full batches, then one batch of
    `count % batch` rows when that is not zero. Each size is requested from
    the factory, inserted, and added to the progress bar, so the sequence
    of sizes is also the sequence of progress updates. */
module Seed {
  import opened Wrappers

  /** Python's `//`, which rounds towards negative infinity. */
  function FloorDiv(a: int, b: int): (q: int)
    requires b != 0
    ensures b > 0 ==> b * q <= a < b * q + b
    ensures b < 0 ==> b * q + b < a <= b * q
  {
    if b > 0 then a / b else (-a) / (-b)
  }

  /** Python's `%`, whose result has the sign of the divisor. */
  function FloorMod(a: int, b: int): (r: int)
    requires b != 0
    ensures a == b * FloorDiv(a, b) + r
    ensures b > 0 ==> 0 <= r < b
    ensures b < 0 ==> b < r <= 0
  {
    a - b * FloorDiv(a, b)
  }

  /** The only failure: `count // batch` with a zero batch size. */
  datatype Fault = ZeroDivisionError

  /** The sizes `batch_create(factory, model, batch, count, desc)` asks the
      factory for, in order. `range` of a negative count is empty. */
  function BatchSizes(count: int, batch: int): (r: Result<seq<int>, Fault>)
    ensures r.Failure? <==> batch == 0
  {
    if batch == 0 then Failure(ZeroDivisionError)
    else
      var iterations := FloorDiv(count, batch);
      var full := seq(if iterations > 0 then iterations else 0, _ => batch);
      var remain := FloorMod(count, batch);
      Success(full + (if remain != 0 then [remain] else []))
  }

  /** For a positive batch size and a non-negative count: `count // batch`
      batches of `batch` rows, then the remainder when there is one. */
  lemma BatchLayout(count: nat, batch: int)
    requires batch > 0
    ensures var sizes := BatchSizes(count, batch).value;
      && |sizes| == count / batch + (if count % batch == 0 then 0 else 1)
      && (forall k :: 0 <= k < count / batch ==> sizes[k] == batch)
      && (count % batch != 0 ==> sizes[|sizes| - 1] == count % batch)
  {
    assert FloorDiv(count, batch) == count / batch;
    assert FloorMod(count, batch) == count % batch;
  }

  function Sum(xs: seq<int>): int {
    if |xs| == 0 then 0 else xs[0] + Sum(xs[1..])
  }

  lemma {:induction false} SumAppend(xs: seq<int>, ys: seq<int>)
    ensures Sum(xs + ys) == Sum(xs) + Sum(ys)
  {
    if |xs| > 0 {
      assert (xs + ys)[1..] == xs[1..] + ys;
      SumAppend(xs[1..], ys);
    } else {
      assert xs + ys == ys;
    }
  }

  lemma {:induction false} SumRepeat(n: nat, b: int)
    ensures Sum(seq(n, _ => b)) == n * b
  {
    if n > 0 {
      assert seq(n, _ => b)[1..] == seq(n - 1, _ => b);
      SumRepeat(n - 1, b);
    }
  }

  /** For a positive batch size and a non-negative count the batches add up
      to the count, so the progress bar ends at its `total`. */
  lemma SumIsCount(count: nat, batch: int)
    requires batch > 0
    ensures BatchSizes(count, batch).Success?
    ensures Sum(BatchSizes(count, batch).value) == count
  {
    var n := count / batch;
    var full := seq(n, _ => batch);
    var tail := if count % batch != 0 then [count % batch] else [];
    assert BatchSizes(count, batch).value == full + tail;
    SumAppend(full, tail);
    SumRepeat(n, batch);
    assert Sum(tail) == count % batch;
  }

  /** Full batches come first, the remainder (if any) last, and no batch is
      empty or larger than the batch size. */
  lemma BatchShape(count: nat, batch: int)
    requires batch > 0
    ensures var sizes := BatchSizes(count, batch).value;
      && (forall k :: 0 <= k < |sizes| ==> 0 < sizes[k] <= batch)
      && (forall k :: 0 <= k < |sizes| - 1 ==> sizes[k] == batch)
  {
  }

  /** A negative count still yields one batch, of `count % batch` rows,
      when the division leaves a remainder. */
  lemma NegativeCount(count: int, batch: int)
    requires count < 0 && batch > 0 && count % batch != 0
    ensures BatchSizes(count, batch) == Success([count % batch])
  {
    assert FloorDiv(count, batch) < 0;
    assert FloorMod(count, batch) == count % batch;
    var none: seq<int> := seq(0, _ => batch);
    assert none == [];
    assert none + [count % batch] == [count % batch];
  }
}
