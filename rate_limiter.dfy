/**
 * The per-nickname abuse control of the server: a sliding window of message times,
 * a mute-expiry instant and a warning counter per name, three global counters, and
 * the verdict OK / WARNING(n) / MUTE(d) / KICK for each incoming message.
 *
 * Time is an integer tick `now` supplied by the caller. The five thresholds come from
 * the server configuration and are fixed when the limiter is created.
 */
module RateLimiter {
  import opened Optional

  datatype Verdict = Ok | Warning(count: nat) | Mute(duration: int) | Kick

  /** `get_statistics()`. */
  datatype Statistics = Statistics(totalWarnings: nat, totalMutes: nat, totalKicks: nat, currentlyMuted: nat)

  predicate Sorted(w: seq<int>) {
    forall i, j :: 0 <= i < j < |w| ==> w[i] <= w[j]
  }

  /**
   * The eviction loop: entries are dropped from the front while the front one is more
   * than `window` ticks older than `now`.
   */
  function Evict(w: seq<int>, now: int, window: int): (r: seq<int>)
    ensures |r| <= |w| && r == w[|w| - |r|..]
    ensures r == [] || now - r[0] <= window
    ensures forall i :: 0 <= i < |w| - |r| ==> now - w[i] > window
    decreases |w|
  {
    if w != [] && now - w[0] > window then Evict(w[1..], now, window) else w
  }

  /** The `popleft` loop of `check_rate_limit` on one window. */
  method EvictStale(w: seq<int>, now: int, window: int) returns (r: seq<int>)
    ensures r == Evict(w, now, window)
  {
    r := w;
    while r != [] && now - r[0] > window
      invariant Evict(r, now, window) == Evict(w, now, window)
      decreases |r|
    {
      r := r[1..];
    }
  }

  /**
   * After appending `now` to a time-ordered window whose entries are not in the future,
   * eviction leaves a time-ordered window that ends with `now` and holds only entries at
   * most `window` ticks old.
   */
  lemma EvictedWindow(w: seq<int>, now: int, window: int)
    requires Sorted(w) && forall i :: 0 <= i < |w| ==> w[i] <= now
    requires window >= 0
    ensures Sorted(Evict(w + [now], now, window))
    ensures Evict(w + [now], now, window) != [] && Last(Evict(w + [now], now, window)) == now
    ensures forall t :: t in Evict(w + [now], now, window) ==> 0 <= now - t <= window
  {
    SortedAppend(w, now);
    EvictSorted(w + [now], now, window);
  }

  /**
   * Eviction keeps a suffix: of a time-ordered window ending at `now` it keeps at least
   * `now` itself, and what it keeps is time-ordered and recent.
   */
  lemma EvictSorted(a: seq<int>, now: int, window: int)
    requires Sorted(a) && a != [] && Last(a) == now && window >= 0
    ensures Sorted(Evict(a, now, window))
    ensures Evict(a, now, window) != [] && Last(Evict(a, now, window)) == now
    ensures forall t :: t in Evict(a, now, window) ==> 0 <= now - t <= window
  {
    var r := Evict(a, now, window);
    var k := |a| - |r|;
    assert r == a[k..];
    SortedSuffix(a, k);
    RecentFront(r, now, window);
  }

  lemma SortedSuffix(a: seq<int>, k: nat)
    requires Sorted(a) && k <= |a|
    ensures Sorted(a[k..])
  {
    forall i, j | 0 <= i < j < |a| - k ensures a[k..][i] <= a[k..][j] {
      assert a[k..][i] == a[k + i] && a[k..][j] == a[k + j];
    }
  }

  /** A time-ordered window ending at `now` whose front is recent enough is recent throughout. */
  lemma RecentFront(a: seq<int>, now: int, window: int)
    requires Sorted(a) && a != [] && Last(a) == now && now - a[0] <= window
    ensures forall t :: t in a ==> 0 <= now - t <= window
  {
    forall t | t in a ensures 0 <= now - t <= window {
      var i :| 0 <= i < |a| && a[i] == t;
      assert a[0] <= a[i] <= a[|a| - 1];
    }
  }

  /** The newest entry of a window. */
  function Last(w: seq<int>): int
    requires w != []
  {
    w[|w| - 1]
  }

  lemma SortedAppend(w: seq<int>, x: int)
    requires Sorted(w) && forall i :: 0 <= i < |w| ==> w[i] <= x
    ensures Sorted(w + [x])
  {
  }

  /** `sum(1 for t in w if now - t <= window)`. */
  function CountWithin(w: seq<int>, now: int, window: int): (n: nat)
    ensures n <= |w|
  {
    if w == [] then 0
    else (if now - w[0] <= window then 1 else 0) + CountWithin(w[1..], now, window)
  }

  /** When every entry is recent enough, the count is the whole window. */
  lemma {:induction false} CountWithinAll(w: seq<int>, now: int, window: int)
    requires forall i :: 0 <= i < |w| ==> now - w[i] <= window
    ensures CountWithin(w, now, window) == |w|
  {
    if w != [] {
      CountWithinAll(w[1..], now, window);
    }
  }

  /** A shorter window never counts more entries than a longer one. */
  lemma {:induction false} CountWithinMonotone(w: seq<int>, now: int, short: int, long: int)
    requires short <= long
    ensures CountWithin(w, now, short) <= CountWithin(w, now, long)
  {
    if w != [] {
      CountWithinMonotone(w[1..], now, short, long);
    }
  }

  /** The mute table after `is_muted`: a mute that has expired by `now` is reset to `None`. */
  function ExpireMute(m: map<string, Option<int>>, nickname: string, now: int): (r: map<string, Option<int>>)
    ensures r.Keys == m.Keys
    ensures forall k :: k in m && k != nickname ==> r[k] == m[k]
    ensures nickname in m ==> (r[nickname].Some? <==> m[nickname].Some? && now < m[nickname].value)
    ensures nickname in m && r[nickname].Some? ==> r[nickname] == m[nickname]
  {
    if nickname in m && m[nickname].Some? && now >= m[nickname].value then m[nickname := None] else m
  }

  /** The names whose mute entry is a truthy instant (`sum(1 for v in muted_until.values() if v)`). */
  function MutedNames(m: map<string, Option<int>>): (r: set<string>)
    ensures r <= m.Keys
    ensures forall k :: k in m && m[k].Some? && m[k].value > 0 ==> k in r
    ensures forall k :: k in r ==> m[k].Some?
  {
    set k | k in m && m[k].Some? && m[k].value != 0
  }

  class RateLimiter {
    const rateWindow: int
    const rateMax: int
    const severeWindow: int
    const severeMax: int
    const muteDuration: int

    var messageTimes: map<string, seq<int>>
    var mutedUntil: map<string, Option<int>>
    var warningCounts: map<string, nat>
    var totalWarnings: nat
    var totalMutes: nat
    var totalKicks: nat

    /** The three per-name tables always describe the same names. */
    ghost predicate Valid()
      reads this
    {
      forall k :: (k in messageTimes <==> k in mutedUntil) && (k in mutedUntil <==> k in warningCounts)
    }

    /** The three global counters have not moved. */
    twostate predicate SameTotals()
      reads this
    {
      totalWarnings == old(totalWarnings) && totalMutes == old(totalMutes) && totalKicks == old(totalKicks)
    }

    /** Neither the per-name tables nor the counters have changed. */
    twostate predicate Kept()
      reads this
    {
      && SameTotals()
      && messageTimes == old(messageTimes) && mutedUntil == old(mutedUntil) && warningCounts == old(warningCounts)
    }

    constructor (rateWindow: int, rateMax: int, severeWindow: int, severeMax: int, muteDuration: int)
      ensures Valid()
      ensures this.rateWindow == rateWindow && this.rateMax == rateMax
      ensures this.severeWindow == severeWindow && this.severeMax == severeMax
      ensures this.muteDuration == muteDuration
      ensures messageTimes == map[] && mutedUntil == map[] && warningCounts == map[]
      ensures totalWarnings == 0 && totalMutes == 0 && totalKicks == 0
    {
      this.rateWindow := rateWindow;
      this.rateMax := rateMax;
      this.severeWindow := severeWindow;
      this.severeMax := severeMax;
      this.muteDuration := muteDuration;
      messageTimes := map[];
      mutedUntil := map[];
      warningCounts := map[];
      totalWarnings, totalMutes, totalKicks := 0, 0, 0;
    }

    /** `nickname` is muted at `now`: it has a mute instant and `now` is before it. */
    predicate MutedAt(nickname: string, now: int)
      reads this
      ensures MutedAt(nickname, now) ==> ExpireMute(mutedUntil, nickname, now) == mutedUntil
      ensures MutedAt(nickname, now) && now >= 0 ==> nickname in MutedNames(mutedUntil)
    {
      nickname in mutedUntil && mutedUntil[nickname].Some? && now < mutedUntil[nickname].value
    }

    /** The window of `nickname`, empty for an unknown name. */
    function WindowOf(nickname: string): seq<int>
      reads this
    {
      if nickname in messageTimes then messageTimes[nickname] else []
    }

    /** The mute table once `check_rate_limit` has passed its KICK test and created a missing entry. */
    function MutesBeforeVerdict(nickname: string, now: int): map<string, Option<int>>
      reads this
    {
      if nickname in messageTimes then ExpireMute(mutedUntil, nickname, now) else mutedUntil[nickname := None]
    }

    /** The warning table once `check_rate_limit` has created a missing entry. */
    function WarningsBeforeVerdict(nickname: string): (r: map<string, nat>)
      reads this
      ensures Valid() ==> nickname in r
    {
      if nickname in messageTimes then warningCounts else warningCounts[nickname := 0]
    }

    /** `add_client`: an empty window, no mute and no warning, replacing any earlier state of the name. */
    method AddClient(nickname: string)
      requires Valid()
      modifies this
      ensures Valid()
      ensures messageTimes == old(messageTimes)[nickname := []]
      ensures mutedUntil == old(mutedUntil)[nickname := None]
      ensures warningCounts == old(warningCounts)[nickname := 0]
      ensures SameTotals()
    {
      messageTimes := messageTimes[nickname := []];
      mutedUntil := mutedUntil[nickname := None];
      warningCounts := warningCounts[nickname := 0];
    }

    /** `remove_client`: all state of the name is dropped; an unknown name changes nothing. */
    method RemoveClient(nickname: string)
      requires Valid()
      modifies this
      ensures Valid()
      ensures messageTimes == old(messageTimes) - {nickname}
      ensures mutedUntil == old(mutedUntil) - {nickname}
      ensures warningCounts == old(warningCounts) - {nickname}
      ensures nickname !in old(messageTimes) ==>
                messageTimes == old(messageTimes) && mutedUntil == old(mutedUntil) && warningCounts == old(warningCounts)
      ensures SameTotals()
    {
      if nickname in messageTimes {
        messageTimes := messageTimes - {nickname};
      }
      if nickname in mutedUntil {
        mutedUntil := mutedUntil - {nickname};
      }
      if nickname in warningCounts {
        warningCounts := warningCounts - {nickname};
      }
    }

    /**
     * `is_muted`: true exactly when the name is muted at `now`; false for an unknown or
     * unmuted name. An expired mute is reset to `None` on the way.
     */
    method IsMuted(nickname: string, now: int) returns (b: bool)
      requires Valid()
      modifies this
      ensures Valid()
      ensures b == old(MutedAt(nickname, now))
      ensures !b ==> !MutedAt(nickname, now)
      ensures mutedUntil == ExpireMute(old(mutedUntil), nickname, now)
      ensures messageTimes == old(messageTimes) && warningCounts == old(warningCounts)
      ensures SameTotals()
    {
      if nickname !in mutedUntil {
        return false;
      }
      var muteTime := mutedUntil[nickname];
      if muteTime.None? {
        return false;
      }
      if now < muteTime.value {
        return true;
      } else {
        mutedUntil := mutedUntil[nickname := None];
        return false;
      }
    }

    /** `get_mute_remaining`: the ticks left on an active mute, and 0 whenever the name is not muted. */
    method GetMuteRemaining(nickname: string, now: int) returns (r: int)
      requires Valid()
      modifies this
      ensures Valid()
      ensures !old(MutedAt(nickname, now)) ==> r == 0
      ensures old(MutedAt(nickname, now)) ==> r == old(mutedUntil[nickname].value) - now && r > 0
      ensures mutedUntil == ExpireMute(old(mutedUntil), nickname, now)
      ensures messageTimes == old(messageTimes) && warningCounts == old(warningCounts)
      ensures SameTotals()
    {
      var muted := IsMuted(nickname, now);
      if !muted {
        return 0;
      }
      var muteTime := mutedUntil[nickname].value;
      r := muteTime - now;
    }

    /**
     * The first half of `check_rate_limit` once the KICK test has passed: create the name's
     * state if needed, append `now` to its window and drop the stale front entries.
     */
    method RecordMessage(nickname: string, now: int) returns (recent: seq<int>)
      requires Valid()
      modifies this
      ensures Valid() && nickname in messageTimes
      ensures recent == Evict(old(WindowOf(nickname)) + [now], now, severeWindow)
      ensures messageTimes == old(messageTimes)[nickname := recent]
      ensures mutedUntil == old(if nickname in messageTimes then mutedUntil else mutedUntil[nickname := None])
      ensures warningCounts == old(WarningsBeforeVerdict(nickname))
      ensures SameTotals()
    {
      if nickname !in messageTimes {
        AddClient(nickname);
      }
      ghost var before := messageTimes;
      recent := messageTimes[nickname] + [now];
      recent := EvictStale(recent, now, severeWindow);
      messageTimes := messageTimes[nickname := recent];
      UpdateOverwrites(old(messageTimes), before, nickname, recent);
    }

    /**
     * The verdict for a name that is not muted, from its window once `now` has been
     * recorded and the warnings it had so far: MUTE when the window has reached
     * `severeMax` entries, else WARNING (one more than before) when the entries within
     * `rateWindow` have reached `rateMax`, else OK.
     */
    function Classify(recent: seq<int>, now: int, warned: nat): (v: Verdict)
      ensures v != Kick
      ensures v.Mute? <==> |recent| >= severeMax
      ensures v.Warning? ==> v.count == warned + 1 && CountWithin(recent, now, rateWindow) >= rateMax
      ensures v.Ok? ==> CountWithin(recent, now, rateWindow) < rateMax
    {
      if |recent| >= severeMax then Mute(muteDuration)
      else if CountWithin(recent, now, rateWindow) >= rateMax then Warning(warned + 1)
      else Ok
    }

    /**
     * The tables and totals after `check_rate_limit(nickname)` at `now` answered `v`,
     * against those before. KICK only counts the kick. Any other verdict records the
     * message, is `Classify` of the new window, and sets the mute or raises the warning
     * counter it names; each total rises with its own verdict.
     */
    twostate predicate Checked(nickname: string, now: int, v: Verdict)
      reads this
    {
      && totalKicks == old(totalKicks) + (if v.Kick? then 1 else 0)
      && totalMutes == old(totalMutes) + (if v.Mute? then 1 else 0)
      && totalWarnings == old(totalWarnings) + (if v.Warning? then 1 else 0)
      && (v.Kick? ==>
            messageTimes == old(messageTimes) && mutedUntil == old(mutedUntil) && warningCounts == old(warningCounts))
      && (!v.Kick? ==>
            && messageTimes == old(messageTimes)[nickname := Evict(old(WindowOf(nickname)) + [now], now, severeWindow)]
            && nickname in old(WarningsBeforeVerdict(nickname))
            && v == Classify(messageTimes[nickname], now, old(WarningsBeforeVerdict(nickname))[nickname])
            && mutedUntil == (if v.Mute? then old(MutesBeforeVerdict(nickname, now))[nickname := Some(now + muteDuration)]
                              else old(MutesBeforeVerdict(nickname, now)))
            && warningCounts == (if v.Warning? then old(WarningsBeforeVerdict(nickname))[nickname := v.count]
                                 else old(WarningsBeforeVerdict(nickname))))
    }

    /**
     * `check_rate_limit`. A message while muted is a KICK and changes only the kick count.
     * Otherwise the name's state is created if missing, `now` joins its window, stale
     * entries leave the front, and the verdict is `Classify` of the new window; a MUTE sets
     * the mute instant, a WARNING raises the warning counter, and the matching total goes up.
     */
    method CheckRateLimit(nickname: string, now: int) returns (v: Verdict)
      requires Valid()
      modifies this
      ensures Valid()
      ensures v.Kick? <==> old(MutedAt(nickname, now))
      ensures Checked(nickname, now, v)
    {
      ghost var mutes := MutesBeforeVerdict(nickname, now);
      ghost var warnings := WarningsBeforeVerdict(nickname);
      ghost var times := messageTimes;
      var muted := IsMuted(nickname, now);
      if muted {
        assert mutedUntil == old(mutedUntil);
        totalKicks := totalKicks + 1;
        return Kick;
      }
      var recent := RecordMessage(nickname, now);
      assert recent == Evict(old(WindowOf(nickname)) + [now], now, severeWindow);
      assert mutedUntil == mutes && warningCounts == warnings && nickname in warnings;
      assert messageTimes == times[nickname := recent];
      v := Judge(nickname, now, recent);
      assert v == Classify(recent, now, warnings[nickname]);
      assert mutedUntil == (if v.Mute? then mutes[nickname := Some(now + muteDuration)] else mutes);
      assert warningCounts == (if v.Warning? then warnings[nickname := v.count] else warnings);
      assert messageTimes[nickname] == recent;
    }

    /** The second half of `check_rate_limit`, on the window just recorded. */
    method Judge(nickname: string, now: int, recent: seq<int>) returns (v: Verdict)
      requires Valid() && nickname in messageTimes && messageTimes[nickname] == recent
      modifies this`mutedUntil, this`warningCounts, this`totalMutes, this`totalWarnings
      ensures Valid()
      ensures v == Classify(recent, now, old(warningCounts[nickname]))
      ensures mutedUntil == (if v.Mute? then old(mutedUntil)[nickname := Some(now + muteDuration)] else old(mutedUntil))
      ensures warningCounts == (if v.Warning? then old(warningCounts)[nickname := v.count] else old(warningCounts))
      ensures totalMutes == old(totalMutes) + (if v.Mute? then 1 else 0)
      ensures totalWarnings == old(totalWarnings) + (if v.Warning? then 1 else 0)
      ensures messageTimes == old(messageTimes) && totalKicks == old(totalKicks)
    {
      var countFast := CountWithin(recent, now, rateWindow);
      var countSevere := |recent|;
      if countSevere >= severeMax {
        mutedUntil := mutedUntil[nickname := Some(now + muteDuration)];
        totalMutes := totalMutes + 1;
        return Mute(muteDuration);
      }
      if countFast >= rateMax {
        warningCounts := warningCounts[nickname := warningCounts[nickname] + 1];
        totalWarnings := totalWarnings + 1;
        return Warning(warningCounts[nickname]);
      }
      return Ok;
    }

    /** `get_statistics()`: the three counters and the number of names holding a mute instant. */
    function GetStatistics(): (s: Statistics)
      reads this
      ensures s.totalWarnings == totalWarnings && s.totalMutes == totalMutes && s.totalKicks == totalKicks
      ensures s.currentlyMuted <= |mutedUntil.Keys|
      ensures s.currentlyMuted == |MutedNames(mutedUntil)|
    {
      var names := MutedNames(mutedUntil);
      assert names <= mutedUntil.Keys;
      SubsetCardinality(names, mutedUntil.Keys);
      Statistics(totalWarnings, totalMutes, totalKicks, |names|)
    }

    /** `reset_warnings`: an existing counter goes back to 0; an unknown name changes nothing. */
    method ResetWarnings(nickname: string)
      requires Valid()
      modifies this
      ensures Valid()
      ensures nickname in old(warningCounts) ==> warningCounts == old(warningCounts)[nickname := 0]
      ensures nickname !in old(warningCounts) ==> warningCounts == old(warningCounts)
      ensures messageTimes == old(messageTimes) && mutedUntil == old(mutedUntil)
      ensures SameTotals()
    {
      if nickname in warningCounts {
        warningCounts := warningCounts[nickname := 0];
      }
    }
  }

  /** Writing a key again forgets whatever was written there before. */
  lemma UpdateOverwrites<K, V>(m: map<K, V>, n: map<K, V>, k: K, v: V)
    requires forall j :: j != k ==> (j in m <==> j in n)
    requires forall j :: j != k && j in m ==> m[j] == n[j]
    ensures n[k := v] == m[k := v]
  {
  }

  lemma SubsetCardinality<T>(a: set<T>, b: set<T>)
    requires a <= b
    ensures |a| <= |b|
  {
    assert b == a + (b - a);
  }
}
