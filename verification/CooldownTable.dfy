/**
 The cooldown table of src/executor-warmup.ts over runs: which entries a recycle keeps, and what every step
 keeps of the tables.
 */
module CooldownTable {
  import opened Prelude
  import opened ExecutorWarmup
  import opened ExecutorWarmupProofs

  predicate Listed(cs: seq<Cooldown>, key: string) { exists c :: c in cs && c.key == key }

  predicate DistinctKeys(cs: seq<Cooldown>) { forall i, j | 0 <= i < j < |cs| :: cs[i].key != cs[j].key }

  /** A map with at most four entries per lease. */
  predicate Table(cs: seq<Cooldown>, max: nat) { |cs| <= 4 * max && DistinctKeys(cs) }

  // ---- the table as a set of entries --------------------------------------------------------------------

  lemma {:induction false} UntilOfListed(cs: seq<Cooldown>, c: Cooldown)
    requires DistinctKeys(cs) && c in cs
    ensures CooldownUntil(cs, c.key) == c.until
  {
    if cs[0] != c {
      var i :| 0 <= i < |cs| && cs[i] == c;
      assert cs[0].key != cs[i].key && cs[1..][i - 1] == c;
      UntilOfListed(cs[1..], c);
    }
  }

  lemma {:induction false} UntilOfUnlisted(cs: seq<Cooldown>, key: string)
    requires !Listed(cs, key)
    ensures CooldownUntil(cs, key) == 0
  {
    if cs != [] {
      assert cs[0] in cs;
      forall c | c in cs[1..] ensures c.key != key { assert c in cs; }
      UntilOfUnlisted(cs[1..], key);
    }
  }

  lemma HeadIsAlone(cs: seq<Cooldown>, c: Cooldown)
    requires DistinctKeys(cs) && cs != [] && c in cs[1..]
    ensures c.key != cs[0].key
  {
    var i :| 0 <= i < |cs[1..]| && cs[1..][i] == c;
    assert cs[i + 1] == c;
  }

  lemma {:induction false} SetListed(cs: seq<Cooldown>, key: string, until: int, c: Cooldown)
    requires DistinctKeys(cs)
    ensures c in SetCooldown(cs, key, until) <==> c == Cooldown(key, until) || (c in cs && c.key != key)
  {
    if cs != [] {
      if cs[0].key == key {
        if c in cs[1..] { HeadIsAlone(cs, c); }
      } else {
        SetListed(cs[1..], key, until, c);
      }
    }
  }

  lemma {:induction false} SetDistinct(cs: seq<Cooldown>, key: string, until: int)
    requires DistinctKeys(cs)
    ensures DistinctKeys(SetCooldown(cs, key, until))
  {
    if cs != [] && cs[0].key != key {
      var tail := SetCooldown(cs[1..], key, until);
      SetDistinct(cs[1..], key, until);
      forall j | 0 <= j < |tail| ensures tail[j].key != cs[0].key {
        SetListed(cs[1..], key, until, tail[j]);
        if tail[j] in cs[1..] { HeadIsAlone(cs, tail[j]); }
      }
    }
  }

  lemma {:induction false} SetSize(cs: seq<Cooldown>, key: string, until: int)
    ensures Listed(cs, key) ==> |SetCooldown(cs, key, until)| == |cs|
    ensures !Listed(cs, key) ==> SetCooldown(cs, key, until) == cs + [Cooldown(key, until)]
  {
    if cs != [] {
      assert cs[0] in cs;
      if cs[0].key != key {
        SetSize(cs[1..], key, until);
        assert Listed(cs, key) <==> Listed(cs[1..], key) by {
          assert forall c :: c in cs <==> c == cs[0] || c in cs[1..];
        }
      }
    }
  }

  /** Setting replaces in place, or appends. */
  lemma SetIsUpdate(cs: seq<Cooldown>, key: string, until: int)
    requires DistinctKeys(cs)
    ensures DistinctKeys(SetCooldown(cs, key, until))
    ensures forall c :: c in SetCooldown(cs, key, until) <==> c == Cooldown(key, until) || (c in cs && c.key != key)
    ensures Listed(cs, key) ==> |SetCooldown(cs, key, until)| == |cs|
    ensures !Listed(cs, key) ==> SetCooldown(cs, key, until) == cs + [Cooldown(key, until)]
  {
    SetDistinct(cs, key, until);
    SetSize(cs, key, until);
    forall c ensures c in SetCooldown(cs, key, until) <==> c == Cooldown(key, until) || (c in cs && c.key != key) {
      SetListed(cs, key, until, c);
    }
  }

  lemma {:induction false} UnexpiredListed(cs: seq<Cooldown>, now: int, c: Cooldown)
    ensures c in Unexpired(cs, now) <==> c in cs && c.until > now
  {
    if cs != [] { UnexpiredListed(cs[1..], now, c); }
  }

  lemma {:induction false} AllUnexpired(cs: seq<Cooldown>, now: int)
    ensures |Unexpired(cs, now)| <= |cs|
    ensures |Unexpired(cs, now)| == |cs| ==> Unexpired(cs, now) == cs
  {
    if cs != [] { AllUnexpired(cs[1..], now); }
  }

  lemma {:induction false} UnexpiredDistinct(cs: seq<Cooldown>, now: int)
    requires DistinctKeys(cs)
    ensures DistinctKeys(Unexpired(cs, now))
  {
    if cs != [] {
      var rest, kept := cs[1..], Unexpired(cs[1..], now);
      UnexpiredDistinct(rest, now);
      forall j | 0 <= j < |kept| ensures kept[j].key != cs[0].key {
        UnexpiredListed(rest, now, kept[j]);
        var i :| 0 <= i < |rest| && rest[i] == kept[j];
        assert cs[i + 1] == kept[j];
      }
    }
  }

  lemma UnexpiredIsFilter(cs: seq<Cooldown>, now: int)
    requires DistinctKeys(cs)
    ensures DistinctKeys(Unexpired(cs, now)) && |Unexpired(cs, now)| <= |cs|
    ensures forall c :: c in Unexpired(cs, now) <==> c in cs && c.until > now
  {
    UnexpiredDistinct(cs, now);
    AllUnexpired(cs, now);
    forall c ensures c in Unexpired(cs, now) <==> c in cs && c.until > now { UnexpiredListed(cs, now, c); }
  }

  /** After a recycle, every entry is one of before that is still alive, or the new one. */
  lemma TrimmedFrom(cs: seq<Cooldown>, key: string, now: int, until: int, max: nat)
    requires Table(cs, max)
    ensures Table(Trim(SetCooldown(cs, key, until), now, max), max)
    ensures forall c | c in Trim(SetCooldown(cs, key, until), now, max) ::
      c.until > now && (c == Cooldown(key, until) || (c in cs && c.key != key))
  {
    SetIsUpdate(cs, key, until);
    UnexpiredIsFilter(SetCooldown(cs, key, until), now);
  }

  /** Recycling `other` takes the live entry of `key` out of the table. */
  predicate PushesOut(cs: seq<Cooldown>, key: string, other: string, now: int, until: int, max: nat) {
    && until > now && !Listed(cs, other) && |Unexpired(cs, now)| == 4 * max
    && cs != [] && cs[0].key == key
  }

  lemma UnlistedHead(cs: seq<Cooldown>, c: Cooldown, key: string)
    requires DistinctKeys(cs) && cs != [] && c.key != key && Listed(cs, key)
    ensures Listed(cs[1..] + [c], key) <==> cs[0].key != key
  {
    var d :| d in cs && d.key == key;
    var i :| 0 <= i < |cs| && cs[i] == d;
    if i > 0 {
      assert cs[1..][i - 1] == d;
      assert d in cs[1..] + [c];
    } else {
      forall e | e in cs[1..] + [c] ensures e.key != key {
        if e in cs[1..] {
          var j :| 0 <= j < |cs[1..]| && cs[1..][j] == e;
          assert cs[j + 1] == e;
        }
      }
    }
  }

  lemma NothingDropped(cs: seq<Cooldown>, key: string, other: string, now: int, until: int, max: nat)
    requires Table(cs, max) && key != other && Listed(cs, key) && CooldownUntil(cs, key) > now
    requires |Unexpired(SetCooldown(cs, other, until), now)| <= 4 * max
    ensures Listed(Trim(SetCooldown(cs, other, until), now, max), key)
  {
    SetIsUpdate(cs, other, until);
    UnexpiredIsFilter(SetCooldown(cs, other, until), now);
    var c :| c in cs && c.key == key;
    UntilOfListed(cs, c);
    assert c in Unexpired(SetCooldown(cs, other, until), now);
  }

  /** What is alive after a recycle fits the table, or is the whole table of before and the new entry. */
  lemma OverflowIsByOne(cs: seq<Cooldown>, other: string, now: int, until: int, max: nat)
    requires Table(cs, max)
    ensures
      var live := Unexpired(SetCooldown(cs, other, until), now);
      |live| > 4 * max <==> until > now && !Listed(cs, other) && |Unexpired(cs, now)| == 4 * max
    ensures
      var live := Unexpired(SetCooldown(cs, other, until), now);
      |live| > 4 * max ==> live == cs + [Cooldown(other, until)] && |cs| == 4 * max
  {
    var c := Cooldown(other, until);
    SetIsUpdate(cs, other, until);
    AllUnexpired(cs, now);
    AllUnexpired(SetCooldown(cs, other, until), now);
    if !Listed(cs, other) {
      UnexpiredAppend(cs, c, now);
      assert Unexpired([c], now) == if c.until <= now then [] else [c];
    }
  }

  /**
   Recycling another key drops a live entry exactly if that key is not in the table, as many live entries are
   as the table holds, and this one has been in it longest.
   */
  lemma DropsExactlyWhen(cs: seq<Cooldown>, key: string, other: string, now: int, until: int, max: nat)
    requires Table(cs, max) && key != other && Listed(cs, key) && CooldownUntil(cs, key) > now
    ensures !Listed(Trim(SetCooldown(cs, other, until), now, max), key) <==> PushesOut(cs, key, other, now, until, max)
  {
    OverflowIsByOne(cs, other, now, until, max);
    if |Unexpired(SetCooldown(cs, other, until), now)| <= 4 * max {
      NothingDropped(cs, key, other, now, until, max);
    } else {
      var c := Cooldown(other, until);
      assert |cs| > 0;
      assert LastN(cs + [c], 4 * max) == cs[1..] + [c];
      UnlistedHead(cs, c, key);
    }
  }

  // ---- references in range, whatever was overwritten ----------------------------------------------------

  ghost predicate InRange(s: Pool) {
    && (forall k | k in s.leases :: s.leases[k] < |s.objects|)
    && (forall i | 0 <= i < |s.orphans| :: s.orphans[i] < |s.objects|)
    && TasksInRange(s)
  }

  // ---- runs in time -------------------------------------------------------------------------------------

  /** The clock reading of a step that takes one. */
  function TimeOf(step: Step): Option<int> {
    match step
    case WarmFresh(_, now, _) => Some(now)
    case WarmTouch(_, now) => Some(now)
    case WarmRetire(_, now) => Some(now)
    case WarmResume(_, now, _) => Some(now)
    case Recycle(_, now) => Some(now)
    case _ => None
  }

  /** A run, overwriting or not, from `s` at time `start` to `r` at time `end`, on a clock that does not go back. */
  ghost predicate Follows(cfg: Config, s: Pool, start: int, steps: seq<Step>, r: Pool, end: int)
    decreases |steps|
  {
    if steps == [] then s == r && start == end
    else
      var now := TimeOf(steps[0]).GetOr(start);
      Enabled(cfg, s, steps[0]) && start <= now && Follows(cfg, Apply(cfg, s, steps[0]), now, steps[1..], r, end)
  }

  /** A `warm` call waits for a retiring lease of this key, and its settle has succeeded. */
  ghost predicate Resumable(s: Pool, key: string) {
    exists w: nat :: w < |s.waits| && MayResume(s, key, w)
  }

  predicate MayResume(s: Pool, key: string, w: nat)
    requires w < |s.waits|
  {
    && s.waits[w].key == key && !s.waits[w].resumed
    && s.waits[w].task < |s.tasks| && s.tasks[s.waits[w].task].phase == Settled(true)
  }

  /** A step of `warm` for this key at this time: a fresh lease, a touch, a retire, or a resume. */
  predicate Warms(s: Pool, step: Step, key: string, now: int) {
    match step
    case WarmFresh(k, at, _) => k == key && at == now
    case WarmTouch(k, at) => k == key && at == now
    case WarmRetire(k, at) => k == key && at == now
    case WarmResume(w, at, _) => w < |s.waits| && s.waits[w].key == key && at == now
    case _ => false
  }

  ghost predicate CanWarm(cfg: Config, s: Pool, key: string, now: int) {
    exists step :: Warms(s, step, key, now) && Enabled(cfg, s, step)
  }

  /** If the key is still in the table, it is with at least this deadline. */
  predicate ColdIfListed(cs: seq<Cooldown>, key: string, until: int) {
    forall c | c in cs && c.key == key :: c.until >= until
  }

  /** The step takes the entry of this key out of the table. */
  predicate TakesOut(cfg: Config, s: Pool, key: string, step: Step) {
    && step.Recycle?
    && if step.key == key then cfg.cooldownMs == 0
       else PushesOut(s.cooldowns, key, step.key, step.now, step.now + cfg.cooldownMs, cfg.maxLeases)
  }
}
