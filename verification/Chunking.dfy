/**
 * The one specification behind the three chunk readers: a file cut into pieces of `n` octets,
 * the last of which may be shorter.
 */
module Chunking {
  import opened Bytes

  function Split(file: Bytes, n: nat): (pieces: seq<Bytes>)
    requires n > 0
    decreases |file|
  {
    if |file| == 0 then []
    else if |file| <= n then [file]
    else [file[..n]] + Split(file[n..], n)
  }

  function Flatten(pieces: seq<Bytes>): Bytes {
    if pieces == [] then [] else pieces[0] + Flatten(pieces[1..])
  }

  /** Total number of octets in a list of pieces. */
  function TotalSize(pieces: seq<Bytes>): nat {
    if pieces == [] then 0 else |pieces[0]| + TotalSize(pieces[1..])
  }

  lemma {:induction false} FlattenSize(pieces: seq<Bytes>)
    ensures |Flatten(pieces)| == TotalSize(pieces)
  {
    if pieces != [] {
      FlattenSize(pieces[1..]);
    }
  }

  lemma {:induction false} FlattenAppend(pieces: seq<Bytes>, last: Bytes)
    ensures Flatten(pieces + [last]) == Flatten(pieces) + last
  {
    if pieces == [] {
      assert Flatten([last]) == last + Flatten([last][1..]);
    } else {
      assert (pieces + [last])[1..] == pieces[1..] + [last];
      FlattenAppend(pieces[1..], last);
    }
  }

  lemma {:induction false} TotalSizeAppend(pieces: seq<Bytes>, last: Bytes)
    ensures TotalSize(pieces + [last]) == TotalSize(pieces) + |last|
  {
    if pieces == [] {
      assert TotalSize([last]) == |last| + TotalSize([last][1..]);
    } else {
      assert (pieces + [last])[1..] == pieces[1..] + [last];
      TotalSizeAppend(pieces[1..], last);
    }
  }

  lemma TotalSizeTake(pieces: seq<Bytes>, i: nat)
    requires i < |pieces|
    ensures TotalSize(pieces[..i + 1]) == TotalSize(pieces[..i]) + |pieces[i]|
  {
    assert pieces[..i + 1] == pieces[..i] + [pieces[i]];
    TotalSizeAppend(pieces[..i], pieces[i]);
  }

  /** Every piece but the last is full, and no piece is empty. */
  ghost predicate Partition(pieces: seq<Bytes>, n: nat) {
    && (forall i :: 0 <= i < |pieces| ==> 0 < |pieces[i]| <= n)
    && (forall i :: 0 <= i < |pieces| - 1 ==> |pieces[i]| == n)
  }

  lemma {:induction false} SplitIsPartition(file: Bytes, n: nat)
    requires n > 0
    ensures Partition(Split(file, n), n)
    ensures Flatten(Split(file, n)) == file
    ensures TotalSize(Split(file, n)) == |file|
    decreases |file|
  {
    if |file| > n {
      SplitIsPartition(file[n..], n);
      var rest := Split(file[n..], n);
      assert Split(file, n)[1..] == rest;
      assert rest != [];
      assert file == file[..n] + file[n..];
    } else if |file| > 0 {
      assert Flatten([file]) == file + Flatten([file][1..]);
    }
    FlattenSize(Split(file, n));
  }

  /** The reference property: `Split` is the only way to cut the file with full pieces and a non-empty last one. */
  lemma {:induction false} SplitIsUnique(file: Bytes, n: nat, pieces: seq<Bytes>)
    requires n > 0
    requires Partition(pieces, n) && Flatten(pieces) == file
    ensures pieces == Split(file, n)
    decreases |pieces|
  {
    if pieces != [] {
      var rest := pieces[1..];
      assert file == pieces[0] + Flatten(rest);
      if rest == [] {
        assert file == pieces[0];
      } else {
        assert |pieces[0]| == n;
        assert Flatten(rest) == rest[0] + Flatten(rest[1..]);
        assert file[..n] == pieces[0] && file[n..] == Flatten(rest);
        SplitIsUnique(file[n..], n, rest);
      }
    }
  }

  /** Ceiling division as the C++ readers write it. */
  function CeilByAdding(size: nat, n: nat): nat
    requires n > 0
  {
    (size + n - 1) / n
  }

  /** Ceiling division as the Go reader writes it. */
  function CeilByRemainder(size: nat, n: nat): nat
    requires n > 0
  {
    if size % n != 0 then size / n + 1 else size / n
  }

  lemma DivisionStep(size: nat, n: nat)
    requires n > 0 && size >= n
    ensures size / n == (size - n) / n + 1 && size % n == (size - n) % n
  {
    var q, r := (size - n) / n, (size - n) % n;
    assert size == (q + 1) * n + r;
    QuotientIsUnique(size, n, q + 1, r);
  }

  lemma QuotientIsUnique(a: nat, n: nat, q: nat, r: nat)
    requires n > 0 && r < n && a == q * n + r
    ensures a / n == q && a % n == r
  {
    EuclidIsUnique(n, q, r, a / n, a % n);
  }

  lemma EuclidIsUnique(n: int, q: int, r: int, q': int, r': int)
    requires 0 <= r < n && 0 <= r' < n && q * n + r == q' * n + r'
    ensures q == q' && r == r'
  {
    var d := q - q';
    assert d * n == r' - r by {
      assert (q - q') * n == q * n - q' * n;
    }
    if d >= 1 {
      AtLeast(d, n);
    } else if d <= -1 {
      AtLeast(-d, n);
    }
  }

  lemma AtLeast(d: int, n: int)
    requires d >= 1 && n >= 0
    ensures d * n >= n
  {
    assert d * n == n + (d - 1) * n;
  }

  /** Both ceiling divisions count the pieces of the file. */
  lemma {:induction false} SplitCount(file: Bytes, n: nat)
    requires n > 0
    ensures |Split(file, n)| == CeilByAdding(|file|, n) == CeilByRemainder(|file|, n)
    decreases |file|
  {
    if |file| == 0 {
      QuotientIsUnique(0, n, 0, 0);
      QuotientIsUnique(n - 1, n, 0, n - 1);
    } else if |file| <= n {
      QuotientIsUnique(|file| + n - 1, n, 1, |file| - 1);
      if |file| == n {
        QuotientIsUnique(n, n, 1, 0);
      } else {
        QuotientIsUnique(|file|, n, 0, |file|);
      }
    } else {
      SplitCount(file[n..], n);
      DivisionStep(|file|, n);
      DivisionStep(|file| + n - 1, n);
    }
  }

  /** The last piece is shorter than `n`. */
  predicate EndsShort(file: Bytes, n: nat)
    requires n > 0
  {
    var pieces := Split(file, n);
    pieces != [] && |pieces[|pieces| - 1]| < n
  }

  /** It is exactly when the size is not a multiple of `n`. */
  lemma {:induction false} ShortTail(file: Bytes, n: nat)
    requires n > 0
    ensures EndsShort(file, n) <==> |file| % n != 0
    decreases |file|
  {
    if |file| > n {
      ShortTail(file[n..], n);
      DivisionStep(|file|, n);
    } else if |file| == n {
      QuotientIsUnique(n, n, 1, 0);
    } else {
      QuotientIsUnique(|file|, n, 0, |file|);
    }
  }
}
