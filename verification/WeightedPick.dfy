/** Weighted round robin of src/routing.ts. */
module WeightedPick {
  import opened Prelude

  /** A JavaScript number: infinities and NaN are not finite. */
  datatype Number = NotFinite | Finite(value: real)

  /** `normalizeWeight`: anything but a finite number of at least 1 counts as 1. */
  function NormalizeWeight(w: Number): (r: nat)
    ensures r >= 1
    ensures w.Finite? && w.value >= 1.0 ==> r as real <= w.value < r as real + 1.0
  {
    if w.Finite? && w.value >= 1.0 then w.value.Floor else 1
  }

  function Normalized(weights: seq<Number>): (r: seq<nat>)
    ensures |r| == |weights| && forall i | 0 <= i < |r| :: r[i] == NormalizeWeight(weights[i])
  {
    seq(|weights|, i requires 0 <= i < |weights| => NormalizeWeight(weights[i]))
  }

  /** The first `n` weights together. */
  function Before(ws: seq<nat>, n: nat): nat
    requires n <= |ws|
  {
    if n == 0 then 0 else Before(ws, n - 1) + ws[n - 1]
  }

  function Total(ws: seq<nat>): nat { Before(ws, |ws|) }

  ghost predicate Positive(ws: seq<nat>) {
    ws != [] && forall i | 0 <= i < |ws| :: ws[i] >= 1
  }

  lemma {:induction false} BeforeGrows(ws: seq<nat>, i: nat, j: nat)
    requires i <= j <= |ws|
    ensures Before(ws, i) <= Before(ws, j)
    decreases j
  {
    if i < j { BeforeGrows(ws, i, j - 1); }
  }

  lemma TotalPositive(ws: seq<nat>)
    requires Positive(ws)
    ensures Total(ws) >= 1
  {
    BeforeGrows(ws, 1, |ws|);
    assert Before(ws, 1) == Before(ws, 0) + ws[0];
  }

  /** The JavaScript remainder: it takes the sign of the dividend. */
  function Remainder(a: int, n: int): int
    requires n > 0
  {
    if a >= 0 then a % n else -((-a) % n)
  }

  lemma RemainderIsModulus(a: int, n: int)
    requires n > 0
    ensures (Remainder(a, n) + n) % n == a % n
  {
    if a >= 0 {
      ModulusUnique(a % n + n, n, 1, a % n);
    } else {
      var q, r := (-a) / n, (-a) % n;
      assert -a == n * q + r;
      if r == 0 {
        assert a == n * (-q) + 0;
        ModulusUnique(a, n, -q, 0);
        ModulusUnique(n, n, 1, 0);
      } else {
        assert a == n * (-q - 1) + (n - r) by {
          assert n * (-q - 1) == -(n * q) - n;
        }
        ModulusUnique(a, n, -q - 1, n - r);
        ModulusUnique(n - r, n, 0, n - r);
      }
    }
  }

  lemma ModulusUnique(a: int, n: int, q: int, r: int)
    requires n > 0 && a == n * q + r && 0 <= r < n
    ensures a % n == r
  {
    var p, s := a / n, a % n;
    assert a == n * p + s;
    Distribute(n, p, q);
    MultipleOfSelf(n, p - q);
  }

  lemma Distribute(n: int, p: int, q: int)
    ensures n * p - n * q == n * (p - q)
  {
  }

  lemma MultipleOfSelf(n: int, d: int)
    requires n > 0
    ensures d == 0 ==> n * d == 0
    ensures d >= 1 ==> n * d >= n
    ensures d <= -1 ==> n * d <= -n
  {
  }

  /** `pickWeighted` chooses candidate `i` for the part of the cycle that starts at this offset. */
  ghost predicate Chosen(ws: seq<nat>, cursor: int, i: nat)
    requires Positive(ws)
  {
    TotalPositive(ws);
    i < |ws| && Before(ws, i) <= cursor % Total(ws) < Before(ws, i + 1)
  }

  /** `pickWeighted`; the result is the position of the chosen candidate. */
  method PickWeighted(weights: seq<Number>, cursor: Number) returns (index: Option<nat>)
    ensures index.None? <==> weights == []
    ensures weights != [] ==>
      Positive(Normalized(weights))
      && Chosen(Normalized(weights), if cursor.Finite? then cursor.value.Floor else 0, index.value)
  {
    index := None;
    if weights == [] { return; }
    var ws := Normalized(weights);
    var total := 0;
    var k := 0;
    while k < |ws|
      invariant 0 <= k <= |ws| && total == Before(ws, k)
    {
      total := total + ws[k];
      k := k + 1;
    }
    TotalPositive(ws);
    var start := if cursor.Finite? then cursor.value.Floor else 0;
    RemainderIsModulus(start, total);
    var offset := (Remainder(start, total) + total) % total;
    var i := 0;
    while i < |ws|
      invariant 0 <= i <= |ws| && offset == start % total - Before(ws, i) && offset >= 0
    {
      offset := offset - ws[i];
      if offset < 0 { return Some(i); }
      i := i + 1;
    }
    assert false; // the fallback of the source is never reached
  }

  lemma {:induction false} SomeIsChosenBelow(ws: seq<nat>, cursor: int, n: nat)
    requires Positive(ws) && n <= |ws|
    requires Total(ws) > 0 && cursor % Total(ws) < Before(ws, n)
    ensures exists i :: Chosen(ws, cursor, i)
  {
    TotalPositive(ws);
    if cursor % Total(ws) < Before(ws, n - 1) {
      SomeIsChosenBelow(ws, cursor, n - 1);
    } else {
      assert Chosen(ws, cursor, n - 1);
    }
  }

  /** The candidate a cursor chooses. */
  ghost function WeightedIndex(ws: seq<nat>, cursor: int): (i: nat)
    requires Positive(ws)
    ensures Chosen(ws, cursor, i)
  {
    TotalPositive(ws);
    SomeIsChosenBelow(ws, cursor, |ws|);
    var i :| Chosen(ws, cursor, i);
    i
  }

  /** For every cursor exactly one candidate is chosen. */
  lemma {:induction false} ChosenIsUnique(ws: seq<nat>, cursor: int, i: nat, j: nat)
    requires Positive(ws) && Chosen(ws, cursor, i) && Chosen(ws, cursor, j)
    ensures i == j
  {
    if i < j { BeforeGrows(ws, i + 1, j); }
    if j < i { BeforeGrows(ws, j + 1, i); }
  }

  // ---- the share of a candidate ------------------------------------------------------------------------

  /** How many of the `n` cursors from `first` on choose candidate `i`. */
  ghost function Hits(ws: seq<nat>, i: nat, first: int, n: nat): nat
    requires Positive(ws)
  {
    if n == 0 then 0 else Hits(ws, i, first, n - 1) + (if Chosen(ws, first + n - 1, i) then 1 else 0)
  }

  lemma ChosenIsPeriodic(ws: seq<nat>, cursor: int, i: nat)
    requires Positive(ws)
    ensures Chosen(ws, cursor + Total(ws), i) <==> Chosen(ws, cursor, i)
  {
    TotalPositive(ws);
    var w := Total(ws);
    var q, r := cursor / w, cursor % w;
    assert w * (q + 1) == w * q + w;
    ModulusUnique(cursor + w, w, q + 1, r);
  }

  lemma {:induction false} HitsFromFront(ws: seq<nat>, i: nat, first: int, n: nat)
    requires Positive(ws) && n > 0
    ensures Hits(ws, i, first, n) == (if Chosen(ws, first, i) then 1 else 0) + Hits(ws, i, first + 1, n - 1)
  {
    if n > 1 { HitsFromFront(ws, i, first, n - 1); }
  }

  /** Moving a full cycle by one swaps its first cursor for an equivalent one. */
  lemma HitsShift(ws: seq<nat>, i: nat, first: int)
    requires Positive(ws)
    ensures Hits(ws, i, first + 1, Total(ws)) == Hits(ws, i, first, Total(ws))
  {
    TotalPositive(ws);
    HitsFromFront(ws, i, first, Total(ws));
    ChosenIsPeriodic(ws, first, i);
    assert first + 1 + Total(ws) - 1 == first + Total(ws);
  }

  lemma {:induction false} HitsAnywhere(ws: seq<nat>, i: nat, first: int)
    requires Positive(ws)
    ensures Hits(ws, i, first, Total(ws)) == Hits(ws, i, 0, Total(ws))
    decreases if first >= 0 then first else -first
  {
    if first > 0 {
      HitsShift(ws, i, first - 1);
      HitsAnywhere(ws, i, first - 1);
    } else if first < 0 {
      HitsShift(ws, i, first);
      HitsAnywhere(ws, i, first + 1);
    }
  }

  /** In the first cycle, the cursors of candidate `i` are an interval of its weight. */
  lemma {:induction false} HitsInFirstCycle(ws: seq<nat>, i: nat, n: nat)
    requires Positive(ws) && i < |ws| && n <= Total(ws)
    ensures Hits(ws, i, 0, n) ==
      if n <= Before(ws, i) then 0 else if n <= Before(ws, i + 1) then n - Before(ws, i) else ws[i]
  {
    if n > 0 {
      HitsInFirstCycle(ws, i, n - 1);
      TotalPositive(ws);
      ModulusUnique(n - 1, Total(ws), 0, n - 1);
    }
  }

  lemma CycleHits(ws: seq<nat>, i: nat, first: int)
    requires Positive(ws) && i < |ws|
    ensures Hits(ws, i, first, Total(ws)) == ws[i]
  {
    HitsAnywhere(ws, i, first);
    BeforeGrows(ws, i + 1, |ws|);
    HitsInFirstCycle(ws, i, Total(ws));
  }

  /** Any cycle of consecutive cursors gives every candidate exactly its weight. */
  lemma EveryCycleIsFair(weights: seq<Number>, i: nat, first: int)
    requires i < |weights|
    ensures Positive(Normalized(weights))
    ensures Hits(Normalized(weights), i, first, Total(Normalized(weights))) == NormalizeWeight(weights[i])
  {
    CycleHits(Normalized(weights), i, first);
  }

  lemma {:induction false} HitsSplit(ws: seq<nat>, i: nat, first: int, a: nat, b: nat)
    requires Positive(ws)
    ensures Hits(ws, i, first, a + b) == Hits(ws, i, first, a) + Hits(ws, i, first + a, b)
    decreases b
  {
    if b > 0 { HitsSplit(ws, i, first, a, b - 1); }
  }

  lemma {:induction false} HitsArePeriodic(ws: seq<nat>, i: nat, first: int, n: nat)
    requires Positive(ws)
    ensures Hits(ws, i, first + Total(ws), n) == Hits(ws, i, first, n)
  {
    if n > 0 {
      HitsArePeriodic(ws, i, first, n - 1);
      ChosenIsPeriodic(ws, first + n - 1, i);
      assert first + n - 1 + Total(ws) == first + Total(ws) + n - 1;
    }
  }

  /** The share of candidate `i` in the cursors 0 to `n` - 1: whole cycles, and the part of its interval reached since. */
  function Share(ws: seq<nat>, i: nat, n: nat): nat
    requires i < |ws| && Total(ws) > 0
  {
    if n > Total(ws) then ws[i] + Share(ws, i, n - Total(ws))
    else if n <= Before(ws, i) then 0
    else if n <= Before(ws, i + 1) then n - Before(ws, i)
    else ws[i]
  }

  lemma {:induction false} SharesAreHits(ws: seq<nat>, i: nat, n: nat)
    requires Positive(ws) && i < |ws| && Total(ws) > 0
    ensures Hits(ws, i, 0, n) == Share(ws, i, n)
  {
    BeforeGrows(ws, i + 1, |ws|);
    if n > Total(ws) {
      HitsSplit(ws, i, 0, Total(ws), n - Total(ws));
      HitsInFirstCycle(ws, i, Total(ws));
      HitsArePeriodic(ws, i, 0, n - Total(ws));
      SharesAreHits(ws, i, n - Total(ws));
    } else {
      HitsInFirstCycle(ws, i, n);
    }
  }

  /** The hits of any stretch of cursors are a difference of shares. */
  lemma StretchIsShareDifference(ws: seq<nat>, i: nat, first: nat, n: nat)
    requires Positive(ws) && i < |ws| && Total(ws) > 0
    ensures Hits(ws, i, first, n) == Share(ws, i, first + n) - Share(ws, i, first)
  {
    HitsSplit(ws, i, 0, first, n);
    SharesAreHits(ws, i, first);
    SharesAreHits(ws, i, first + n);
  }
}
