/** Cutting the rows into consecutive batches of at most B rows: the slices of
    B rows starting at 0, B, 2B, ... taken in generator.py `generate`. */
module Batching {

  /** ceil(n / b). */
  function CeilDiv(n: nat, b: nat): nat
    requires b >= 1
  {
    (n + b - 1) / b
  }

  /** The batches: every one of size b except possibly a shorter last one. */
  function Chunks<T>(rows: seq<T>, b: nat): seq<seq<T>>
    requires b >= 1
    decreases |rows|
  {
    if |rows| == 0 then []
    else if |rows| <= b then [rows]
    else [rows[..b]] + Chunks(rows[b..], b)
  }

  function Flatten<T>(chunks: seq<seq<T>>): seq<T> {
    if |chunks| == 0 then [] else chunks[0] + Flatten(chunks[1..])
  }

  /** There are ceil(|rows| / b) batches. */
  lemma {:induction false} ChunksCount<T>(rows: seq<T>, b: nat)
    requires b >= 1
    ensures |Chunks(rows, b)| == CeilDiv(|rows|, b)
    decreases |rows|
  {
    if |rows| > b {
      ChunksCount(rows[b..], b);
      assert (|rows| + b - 1) / b == (|rows| - b + b - 1) / b + 1 by {
        DivShift(|rows| - b + b - 1, b);
      }
    } else if |rows| > 0 {
      assert (|rows| + b - 1) / b == 1 by { DivOne(|rows| + b - 1, b); }
    }
  }

  lemma MulAtLeast(k: int, b: int)
    requires k >= 1 && b > 0
    ensures k * b >= b
  {
  }

  /** Euclidean division has one quotient and one remainder. */
  lemma DivUnique(n: int, b: int, q: int, r: int)
    requires b > 0 && 0 <= r < b && n == q * b + r
    ensures n / b == q && n % b == r
  {
    var q', r' := n / b, n % b;
    assert n == q' * b + r';
    if q > q' {
      MulAtLeast(q - q', b);
    } else if q < q' {
      MulAtLeast(q' - q, b);
    }
  }

  lemma DivShift(m: nat, b: nat)
    requires b >= 1
    ensures (m + b) / b == m / b + 1 && (m + b) % b == m % b
  {
    DivUnique(m + b, b, m / b + 1, m % b);
  }

  /** A batch more than b rows long needs at least two batches. */
  lemma CeilDivAtLeastTwo(n: nat, b: nat)
    requires b >= 1 && n > b
    ensures CeilDiv(n, b) >= 2
  {
    DivShift(n - 1, b);
    DivUnique(n - 1, b, (n - 1) / b, (n - 1) % b);
  }

  lemma CeilDivPositive(n: nat, b: nat)
    requires b >= 1 && n > 0
    ensures CeilDiv(n, b) > 0
  {
    DivUnique(n + b - 1, b, (n + b - 1) / b, (n + b - 1) % b);
  }

  lemma DivOne(m: nat, b: nat)
    requires b >= 1 && b <= m < 2 * b
    ensures m / b == 1
  {
  }

  /** The batches, put back together, are all the rows in order. */
  lemma {:induction false} ChunksFlatten<T>(rows: seq<T>, b: nat)
    requires b >= 1
    ensures Flatten(Chunks(rows, b)) == rows
    decreases |rows|
  {
    if |rows| > b {
      ChunksFlatten(rows[b..], b);
      var c := Chunks(rows, b);
      assert c[0] == rows[..b] && c[1..] == Chunks(rows[b..], b);
      assert rows == rows[..b] + rows[b..];
    } else if |rows| > 0 {
      var c := Chunks(rows, b);
      assert c[1..] == [];
      assert rows + [] == rows;
    }
  }

  /** Every batch is non-empty and holds at most b rows; all but the last hold
      exactly b. */
  lemma {:induction false} ChunksSizes<T>(rows: seq<T>, b: nat)
    requires b >= 1
    ensures forall k :: 0 <= k < |Chunks(rows, b)| ==> 0 < |Chunks(rows, b)[k]| <= b
    ensures forall k :: 0 <= k < |Chunks(rows, b)| - 1 ==> |Chunks(rows, b)[k]| == b
    decreases |rows|
  {
    if |rows| > b {
      ChunksSizes(rows[b..], b);
      var c := Chunks(rows, b);
      var rest := Chunks(rows[b..], b);
      assert c == [rows[..b]] + rest;
      forall k | 1 <= k < |c| ensures c[k] == rest[k - 1] { }
    }
  }

  /** Cutting s + t, where s is a whole number of batches and t at most one
      batch, gives the batches of s followed by t. */
  lemma {:induction false} ChunksSnoc<T>(s: seq<T>, t: seq<T>, b: nat)
    requires b >= 1
    requires |s| % b == 0
    requires 0 < |t| <= b
    ensures Chunks(s + t, b) == Chunks(s, b) + [t]
    decreases |s|
  {
    if |s| == 0 {
      assert s + t == t;
    } else {
      PositiveMultiple(|s|, b);
      DivShift(|s| - b, b);
      var st := s + t;
      assert st[..b] == s[..b];
      assert st[b..] == s[b..] + t;
      assert Chunks(st, b) == [s[..b]] + Chunks(s[b..] + t, b);
      ChunksSnoc(s[b..], t, b);
      if |s| == b {
        assert s[b..] == [] && s[..b] == s;
        assert s[b..] + t == t;
      }
    }
  }

  lemma PositiveMultiple(n: nat, b: nat)
    requires b >= 1 && n > 0 && n % b == 0
    ensures n >= b
  {
    if n < b {
      DivUnique(n, b, 0, n);
    }
  }

  /** Every row of every batch is one of the rows. */
  lemma {:induction false} ChunksMembers<T>(rows: seq<T>, b: nat)
    requires b >= 1
    ensures forall k, x :: 0 <= k < |Chunks(rows, b)| && x in Chunks(rows, b)[k] ==> x in rows
    decreases |rows|
  {
    if |rows| > b {
      ChunksMembers(rows[b..], b);
      var c := Chunks(rows, b);
      var rest := Chunks(rows[b..], b);
      assert c == [rows[..b]] + rest;
      forall k, x | 0 <= k < |c| && x in c[k] ensures x in rows {
        if k == 0 {
          assert x in rows[..b];
        } else {
          assert c[k] == rest[k - 1];
          assert x in rows[b..];
        }
      }
    }
  }

  lemma TakeSnoc<T>(s: seq<T>, i: nat)
    requires i < |s|
    ensures s[..i + 1] == s[..i] + [s[i]]
  {
  }

  lemma TakeAll<T>(s: seq<T>)
    ensures s[..|s|] == s
  {
  }

  lemma TakeSplit<T>(s: seq<T>, i: nat, j: nat)
    requires i <= j <= |s|
    ensures s[..i] + s[i..j] == s[..j]
  {
  }

  lemma AppendStep<T>(out: seq<T>, prefix: seq<T>, done: seq<T>, more: seq<T>, x: T)
    requires out == prefix + done && more == done + [x]
    ensures out + [x] == prefix + more
  {
  }

  lemma AppendEmpty<T>(a: seq<T>)
    ensures a + [] == a
  {
  }
}
