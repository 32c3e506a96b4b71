/** Weighted round robin with a cursor that wraps: which cycles are fair to whom. */
module CursorWrap {
  import opened WeightedPick
  import opened KeyPool

  // ---- a cursor that wraps --------------------------------------------------------------------------

  function NextCursor(c: nat): nat { (c + 1) % ROTATION_CURSOR_MODULUS }

  /** How many of `n` draws choose candidate `i`. */
  ghost function WrappedHits(ws: seq<nat>, i: nat, cursor: nat, n: nat): nat
    requires Positive(ws)
    decreases n
  {
    if n == 0 then 0
    else (if Chosen(ws, cursor, i) then 1 else 0) + WrappedHits(ws, i, NextCursor(cursor), n - 1)
  }

  /** The share of candidate `i` in the first `n` draws of a new cursor. */
  function WrappedShare(ws: seq<nat>, i: nat, n: nat): nat
    requires i < |ws| && Total(ws) > 0
  {
    if n <= ROTATION_CURSOR_MODULUS then Share(ws, i, n)
    else Share(ws, i, ROTATION_CURSOR_MODULUS) + WrappedShare(ws, i, n - ROTATION_CURSOR_MODULUS)
  }

  lemma {:induction false} HitsBeforeTheWrap(ws: seq<nat>, i: nat, cursor: nat, n: nat)
    requires Positive(ws) && cursor + n <= ROTATION_CURSOR_MODULUS
    ensures WrappedHits(ws, i, cursor, n) == Hits(ws, i, cursor, n)
    decreases n
  {
    if n > 0 {
      HitsFromFront(ws, i, cursor, n);
      if n > 1 { HitsBeforeTheWrap(ws, i, cursor + 1, n - 1); }
    }
  }

  /** The draws up to the wrap, and those of the new cursor. */
  lemma {:induction false} WrapSplit(ws: seq<nat>, i: nat, cursor: nat, n: nat)
    requires Positive(ws) && cursor < ROTATION_CURSOR_MODULUS < cursor + n
    ensures WrappedHits(ws, i, cursor, n)
      == Hits(ws, i, cursor, ROTATION_CURSOR_MODULUS - cursor) + WrappedHits(ws, i, 0, cursor + n - ROTATION_CURSOR_MODULUS)
    decreases n
  {
    HitsFromFront(ws, i, cursor, ROTATION_CURSOR_MODULUS - cursor);
    if cursor + 1 < ROTATION_CURSOR_MODULUS { WrapSplit(ws, i, cursor + 1, n - 1); }
  }

  lemma {:induction false} HitsOfANewCursor(ws: seq<nat>, i: nat, n: nat)
    requires Positive(ws) && i < |ws| && Total(ws) > 0
    ensures WrappedHits(ws, i, 0, n) == WrappedShare(ws, i, n)
  {
    if n <= ROTATION_CURSOR_MODULUS {
      HitsBeforeTheWrap(ws, i, 0, n);
      SharesAreHits(ws, i, n);
    } else {
      WrapSplit(ws, i, 0, n);
      SharesAreHits(ws, i, ROTATION_CURSOR_MODULUS);
      HitsOfANewCursor(ws, i, n - ROTATION_CURSOR_MODULUS);
    }
  }

  /**
   The cycle that starts at this cursor is fair to candidate `i`: it does not wrap, or the draws after
   the wrap give it what the cursor would have given it by counting on.
   */
  predicate FairCycle(ws: seq<nat>, i: nat, cursor: nat)
    requires i < |ws| && Total(ws) > 0
  {
    var end := cursor + Total(ws);
    end <= ROTATION_CURSOR_MODULUS
    || Share(ws, i, end) == Share(ws, i, ROTATION_CURSOR_MODULUS) + WrappedShare(ws, i, end - ROTATION_CURSOR_MODULUS)
  }

  lemma CycleIsFairExactlyWhen(ws: seq<nat>, i: nat, cursor: nat)
    requires Positive(ws) && i < |ws| && Total(ws) > 0 && cursor < ROTATION_CURSOR_MODULUS
    ensures WrappedHits(ws, i, cursor, Total(ws)) == ws[i] <==> FairCycle(ws, i, cursor)
  {
    var w, end := Total(ws), cursor + Total(ws);
    CycleHits(ws, i, cursor);
    StretchIsShareDifference(ws, i, cursor, w);
    if end <= ROTATION_CURSOR_MODULUS {
      HitsBeforeTheWrap(ws, i, cursor, w);
    } else {
      WrapSplit(ws, i, cursor, w);
      StretchIsShareDifference(ws, i, cursor, ROTATION_CURSOR_MODULUS - cursor);
      HitsOfANewCursor(ws, i, end - ROTATION_CURSOR_MODULUS);
    }
  }

  lemma {:induction false} HitsFromResidue(ws: seq<nat>, i: nat, start: nat, n: nat)
    requires Positive(ws) && Total(ws) > 0
    ensures Hits(ws, i, start, n) == Hits(ws, i, start % Total(ws), n)
    decreases start
  {
    var w := Total(ws);
    if start >= w {
      HitsFromResidue(ws, i, start - w, n);
      HitsArePeriodic(ws, i, start - w, n);
      var q, r := (start - w) / w, (start - w) % w;
      assert w * (q + 1) == w * q + w;
      ModulusUnique(start, w, q + 1, r);
    } else {
      ModulusUnique(start, w, 0, start);
    }
  }

  /**
   The draws after the wrap hit the interval of candidate `i` as often from position 0 as from the
   position where the wrap cut the cycle off.
   */
  ghost predicate AlikeAfterTheCut(ws: seq<nat>, i: nat, cursor: nat)
    requires Positive(ws) && 0 < Total(ws) && ROTATION_CURSOR_MODULUS < cursor + Total(ws)
  {
    var cut, wrapped := ROTATION_CURSOR_MODULUS % Total(ws), cursor + Total(ws) - ROTATION_CURSOR_MODULUS;
    Hits(ws, i, cut, wrapped) == Hits(ws, i, 0, wrapped)
  }

  /** For a cycle no longer than the modulus this is what fairness means. */
  lemma FairByResidues(ws: seq<nat>, i: nat, cursor: nat)
    requires Positive(ws) && i < |ws| && 0 < Total(ws) <= ROTATION_CURSOR_MODULUS
    requires cursor < ROTATION_CURSOR_MODULUS < cursor + Total(ws)
    ensures FairCycle(ws, i, cursor) <==> AlikeAfterTheCut(ws, i, cursor)
    ensures ROTATION_CURSOR_MODULUS % Total(ws) == 0 ==> FairCycle(ws, i, cursor)
  {
    var r := cursor + Total(ws) - ROTATION_CURSOR_MODULUS;
    HitsFromResidue(ws, i, ROTATION_CURSOR_MODULUS, r);
    StretchIsShareDifference(ws, i, ROTATION_CURSOR_MODULUS, r);
    SharesAreHits(ws, i, r);
  }
}
