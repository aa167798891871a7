/** Result limits: the streaming fetch of `PostgreSQLAdapter.fetch_bounded` and the
    `_apply_result_limits` of the query service. */
module BoundedRows {
  datatype Limits = Limits(maxRows: nat, maxBytes: nat)

  /** The serialized sizes of rows, added up. The size of a row is a parameter. */
  function Bytes<Row>(rows: seq<Row>, size: Row -> nat): nat {
    if rows == [] then 0 else Bytes(rows[..|rows| - 1], size) + size(rows[|rows| - 1])
  }

  /** A result within both limits. */
  predicate Fits<Row>(rows: seq<Row>, size: Row -> nat, l: Limits) {
    |rows| <= l.maxRows && Bytes(rows, size) <= l.maxBytes
  }

  /** How many rows are kept: the longest prefix within both limits. */
  function Kept<Row>(rows: seq<Row>, size: Row -> nat, l: Limits): (n: nat)
    ensures n <= |rows| && Fits(rows[..n], size, l)
    ensures forall m | n < m <= |rows| :: !Fits(rows[..m], size, l)
  {
    KeptFrom(rows, size, l, |rows|)
  }

  /** The longest fitting prefix of at most `n` rows. */
  function KeptFrom<Row>(rows: seq<Row>, size: Row -> nat, l: Limits, n: nat): (k: nat)
    requires n <= |rows|
    ensures k <= n && Fits(rows[..k], size, l)
    ensures forall m | k < m <= n :: !Fits(rows[..m], size, l)
  {
    if n == 0 || Fits(rows[..n], size, l) then n else KeptFrom(rows, size, l, n - 1)
  }

  /** The bounded result: the rows kept, and whether any are missing. */
  function Bounded<Row>(rows: seq<Row>, size: Row -> nat, l: Limits): (seq<Row>, bool) {
    (rows[..Kept(rows, size, l)], Kept(rows, size, l) < |rows|)
  }

  lemma {:induction false} BytesMonotone<Row>(rows: seq<Row>, size: Row -> nat, m: nat, n: nat)
    requires m <= n <= |rows|
    ensures Bytes(rows[..m], size) <= Bytes(rows[..n], size)
    decreases n
  {
    if m < n {
      BytesMonotone(rows, size, m, n - 1);
      assert rows[..n][..n - 1] == rows[..n - 1];
    }
  }

  /** Fitting prefixes are downward closed. */
  lemma FitsDown<Row>(rows: seq<Row>, size: Row -> nat, l: Limits, m: nat, n: nat)
    requires m <= n <= |rows| && Fits(rows[..n], size, l)
    ensures Fits(rows[..m], size, l)
  {
    BytesMonotone(rows, size, m, n);
  }

  /** Stopping at the first row that breaks a limit is keeping the longest prefix. */
  lemma FirstStopIsKept<Row>(rows: seq<Row>, size: Row -> nat, l: Limits, n: nat)
    requires n <= |rows| && Fits(rows[..n], size, l)
    requires n < |rows| ==> !Fits(rows[..n + 1], size, l)
    ensures Kept(rows, size, l) == n
  {
    var k := Kept(rows, size, l);
    if k > n {
      FitsDown(rows, size, l, n + 1, k);
    }
  }

  lemma OneMoreRow<Row>(rows: seq<Row>, size: Row -> nat, n: nat)
    requires n < |rows|
    ensures Bytes(rows[..n + 1], size) == Bytes(rows[..n], size) + size(rows[n])
  {
    assert rows[..n + 1][..n] == rows[..n];
  }

  /** `data` is the longest part of `rows` from the start within both limits, and `cut` says
      whether that leaves any out. */
  ghost predicate LongestPrefix<Row>(data: seq<Row>, cut: bool, rows: seq<Row>, size: Row -> nat, l: Limits) {
    && data <= rows && (cut <==> data != rows)
    && |data| <= l.maxRows && Bytes(data, size) <= l.maxBytes
    && (cut ==> |data| == l.maxRows || Bytes(data, size) + size(rows[|data|]) > l.maxBytes)
  }

  /** What both algorithms return. */
  lemma BoundedIsLongest<Row>(rows: seq<Row>, size: Row -> nat, l: Limits)
    ensures LongestPrefix(Bounded(rows, size, l).0, Bounded(rows, size, l).1, rows, size, l)
  {
    var n := Kept(rows, size, l);
    if n < |rows| { OneMoreRow(rows, size, n); }
    assert rows[..|rows|] == rows;
  }

  /** The streaming loop. `fetchmany` hands over the rows in batches of `batchSize`; the
      last may be short, and the batch after the last is empty. */
  method FetchBounded<Row>(result: seq<Row>, size: Row -> nat, l: Limits, batchSize: nat)
    returns (rows: seq<Row>, truncated: bool)
    requires batchSize >= 1
    ensures (rows, truncated) == Bounded(result, size, l)
  {
    rows, truncated := [], false;
    var totalBytes := 0;
    var cursor := 0;
    while true
      invariant cursor <= |result| && rows == result[..cursor] && !truncated
      invariant totalBytes == Bytes(rows, size) && Fits(rows, size, l)
      decreases |result| - cursor
    {
      var end := if cursor + batchSize < |result| then cursor + batchSize else |result|;
      var batch := result[cursor..end];
      if batch == [] {
        break;
      }
      var stop := false;
      for i := 0 to |batch|
        invariant rows == result[..cursor + i] && !truncated && !stop
        invariant totalBytes == Bytes(rows, size) && Fits(rows, size, l)
      {
        var at := cursor + i;
        OneMoreRow(result, size, at);
        if |rows| >= l.maxRows {
          truncated := true;
          stop := true;
          FirstStopIsKept(result, size, l, at);
          break;
        }
        var rowBytes := size(batch[i]);
        if totalBytes + rowBytes > l.maxBytes {
          truncated := true;
          stop := true;
          FirstStopIsKept(result, size, l, at);
          break;
        }
        rows := rows + [batch[i]];
        totalBytes := totalBytes + rowBytes;
      }
      if stop {
        return;
      }
      cursor := end;
    }
    FirstStopIsKept(result, size, l, |result|);
  }

  /** `_apply_result_limits`: first the row limit, then the loop over bytes. */
  method ApplyResultLimits<Row>(data: seq<Row>, size: Row -> nat, l: Limits)
    returns (out: seq<Row>, truncated: bool)
    ensures (out, truncated) == Bounded(data, size, l)
  {
    var rowLimited;
    if |data| <= l.maxRows {
      rowLimited, truncated := data, false;
    } else {
      rowLimited, truncated := data[..l.maxRows], true;
    }
    out := [];
    var totalBytes := 0;
    for i := 0 to |rowLimited|
      invariant out == data[..i] && truncated == (|data| > l.maxRows)
      invariant totalBytes == Bytes(out, size) && Fits(out, size, l)
    {
      OneMoreRow(data, size, i);
      var rowBytes := size(rowLimited[i]);
      if totalBytes + rowBytes > l.maxBytes {
        truncated := true;
        FirstStopIsKept(data, size, l, i);
        return;
      }
      out := out + [rowLimited[i]];
      totalBytes := totalBytes + rowBytes;
    }
    FirstStopIsKept(data, size, l, |rowLimited|);
  }

  function Tighter(a: Limits, b: Limits): Limits {
    Limits(if a.maxRows < b.maxRows then a.maxRows else b.maxRows,
           if a.maxBytes < b.maxBytes then a.maxBytes else b.maxBytes)
  }

  /** Bounding a bounded result by other limits is bounding the full result by the tighter
      of each; rows are missing in one of the two steps exactly when they are missing then. */
  lemma BoundedTwice<Row>(rows: seq<Row>, size: Row -> nat, a: Limits, b: Limits)
    ensures var (first, cutA), (second, cutB) := Bounded(rows, size, a), Bounded(Bounded(rows, size, a).0, size, b);
            Bounded(rows, size, Tighter(a, b)) == (second, cutA || cutB)
  {
    var n := Kept(rows, size, a);
    var first := rows[..n];
    var k := Kept(first, size, b);
    assert first[..k] == rows[..k];
    FitsDown(rows, size, a, k, n);
    if k < |rows| {
      if k < n {
        assert first[..k + 1] == rows[..k + 1];
      }
    }
    FirstStopIsKept(rows, size, Tighter(a, b), k);
  }

  /** Applying the same limits again changes nothing and reports nothing missing. */
  lemma BoundedAgain<Row>(rows: seq<Row>, size: Row -> nat, l: Limits)
    ensures Bounded(Bounded(rows, size, l).0, size, l) == (Bounded(rows, size, l).0, false)
  {
    var first := Bounded(rows, size, l).0;
    assert first[..|first|] == first;
    FirstStopIsKept(first, size, l, |first|);
  }

  /** Limiting the `a`-limited rows by `l` keeps what the stricter of the two keeps. */
  lemma KeptTwice<Row>(rows: seq<Row>, size: Row -> nat, a: Limits, l: Limits)
    ensures var n, m := Kept(rows, size, a), Kept(rows, size, l);
            Kept(rows[..n], size, l) == if m < n then m else n
  {
    var n, m := Kept(rows, size, a), Kept(rows, size, l);
    var first := rows[..n];
    if m < n {
      assert first[..m] == rows[..m] && first[..m + 1] == rows[..m + 1];
      FirstStopIsKept(first, size, l, m);
    } else {
      assert first[..n] == first;
      FitsDown(rows, size, l, n, m);
      FirstStopIsKept(first, size, l, n);
    }
  }

  /** Rows limited by `a` and then by `l` are what `l` alone would give exactly when `l` keeps
      no more than `a`; and the flag of the second step is what `l` alone would report exactly
      when `l` keeps less than `a`, or everything. */
  lemma LimitedTwiceExactlyWhen<Row>(rows: seq<Row>, size: Row -> nat, a: Limits, l: Limits)
    ensures var (data, cut) := Bounded(Bounded(rows, size, a).0, size, l);
            && (data == Bounded(rows, size, l).0 <==> Kept(rows, size, l) <= Kept(rows, size, a))
            && (cut == Bounded(rows, size, l).1 <==> Kept(rows, size, l) < Kept(rows, size, a) || Fits(rows, size, l))
  {
    var n, m := Kept(rows, size, a), Kept(rows, size, l);
    KeptTwice(rows, size, a, l);
    assert rows[..n][..if m < n then m else n] == rows[..if m < n then m else n];
    assert rows[..|rows|] == rows;
  }
}
