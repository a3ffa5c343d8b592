/** The rolling history kept in the session: the rows behind the throughput
    and error-rate trend charts, oldest first, at most `Capacity` of them. */
module History {
  import opened Wrappers

  /** How many snapshots the history keeps (`tail(20)`). */
  const Capacity: nat := 20

  /** One history row. `time` is the wall-clock label taken when the row was
      built; `throughput` is `None` when the backend sent `null`. */
  datatype Record = Record(time: string, throughput: Option<real>, errorRate: real)

  function Min(a: int, b: int): int
  {
    if a <= b then a else b
  }

  /** pandas' `tail(n)`: the last `n` entries, or all of them when there are fewer. */
  function Tail<T>(xs: seq<T>, n: nat): (r: seq<T>)
    ensures |r| == Min(|xs|, n)
    ensures xs == xs[..|xs| - |r|] + r
  {
    if |xs| <= n then xs else xs[|xs| - n..]
  }

  /** Adds one row at the end and keeps the last `Capacity` rows. */
  function Append(h: seq<Record>, e: Record): (h': seq<Record>)
    ensures |h'| == Min(|h| + 1, Capacity)
    ensures h'[|h'| - 1] == e
    ensures h'[..|h'| - 1] == Tail(h, Capacity - 1)
    ensures |h| < Capacity ==> h' == h + [e]
    ensures |h| == Capacity ==> h' == h[1..] + [e]
  {
    Tail(h + [e], Capacity)
  }

  /** Appends rows one after the other, in order. */
  function AppendAll(h: seq<Record>, es: seq<Record>): seq<Record>
    decreases |es|
  {
    if |es| == 0 then h else AppendAll(Append(h, es[0]), es[1..])
  }

  /** Appending never lets the history grow past `Capacity`. */
  lemma AppendKeepsBound(h: seq<Record>, e: Record)
    requires |h| <= Capacity
    ensures |Append(h, e)| <= Capacity
    ensures |h| < Capacity ==> |Append(h, e)| == |h| + 1
  {
  }

  /** Appending to a full history drops exactly the oldest row: the other
      rows keep their places, shifted down by one, and the new row is last. */
  lemma FullAppendEvictsOldest(h: seq<Record>, e: Record)
    requires |h| == Capacity
    ensures |Append(h, e)| == Capacity
    ensures forall i :: 0 <= i < Capacity - 1 ==> Append(h, e)[i] == h[i + 1]
    ensures Append(h, e)[Capacity - 1] == e
  {
  }

  /** Putting anything in front of a sequence of at least `n` entries does not
      change its last `n`. */
  lemma TailIgnoresPrefix<T>(p: seq<T>, w: seq<T>, n: nat)
    requires |w| >= n
    ensures Tail(p + w, n) == Tail(w, n)
  {
    var a, b := Tail(p + w, n), Tail(w, n);
    assert |a| == |b| == n;
    forall i | 0 <= i < n
      ensures a[i] == b[i]
    {
      calc {
        a[i];
        (p + w)[|p| + |w| - n + i];
        w[|w| - n + i];
        b[i];
      }
    }
  }

  /** Concatenation is associative. */
  lemma SplitConcat<T>(p: seq<T>, t: seq<T>, ys: seq<T>)
    ensures (p + t) + ys == p + (t + ys)
  {
  }

  /** The last `n` of a concatenation only depend on the last `n` of its front part. */
  lemma {:induction false} TailOfTail<T>(xs: seq<T>, ys: seq<T>, n: nat)
    ensures Tail(Tail(xs, n) + ys, n) == Tail(xs + ys, n)
  {
    if |xs| > n {
      var t := Tail(xs, n);
      var p := xs[..|xs| - n];
      assert xs == p + t;
      SplitConcat(p, t, ys);
      TailIgnoresPrefix(p, t + ys, n);
    }
  }

  /** A sequence of appends onto a bounded history keeps exactly the last
      `Capacity` rows of the old history followed by the new rows. */
  lemma {:induction false} AppendAllKeepsLast(h: seq<Record>, es: seq<Record>)
    requires |h| <= Capacity
    ensures AppendAll(h, es) == Tail(h + es, Capacity)
    decreases |es|
  {
    if |es| == 0 {
      assert h + es == h;
    } else {
      var h1 := Append(h, es[0]);
      AppendAllKeepsLast(h1, es[1..]);
      calc {
        AppendAll(h, es);
        AppendAll(h1, es[1..]);
        Tail(h1 + es[1..], Capacity);
        { TailOfTail(h + [es[0]], es[1..], Capacity); }
        Tail((h + [es[0]]) + es[1..], Capacity);
        { ConsTail(h, es); }
        Tail(h + es, Capacity);
      }
    }
  }

  /** Splitting off the first element of `es` does not change `h + es`. */
  lemma ConsTail<T>(h: seq<T>, es: seq<T>)
    requires |es| > 0
    ensures (h + [es[0]]) + es[1..] == h + es
  {
    assert es == [es[0]] + es[1..];
  }

  /** Starting from the empty history, `n` appends leave `min(n, Capacity)`
      rows: the last ones appended, in the order they were appended. */
  lemma HistoryOfAppends(es: seq<Record>)
    ensures |AppendAll([], es)| == Min(|es|, Capacity)
    ensures AppendAll([], es) == es[|es| - Min(|es|, Capacity)..]
  {
    AppendAllKeepsLast([], es);
    assert [] + es == es;
  }
}
