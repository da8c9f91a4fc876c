/**
 * The router's two timestamp caches: the moderation-warning cache, which lets one
 * warning per group, sender and rule through per cooldown window, and the
 * command-cooldown cache. Both are keyed by strings, and both are cleared
 * wholesale once they grow past a fixed size.
 */
module Throttle {
  import opened Wrappers
  import opened Text

  const DefaultWarnCooldownMs: int := 15000
  const DefaultCommandCooldownMs: int := 1200
  const DefaultFunCooldownMs: int := 6000
  /** The warning cache is cleared when it holds more keys than this. */
  const WarnCacheLimit: nat := 5000
  /** The cooldown cache is cleared when it holds more keys than this. */
  const CooldownCacheLimit: nat := 20000

  /** A configured number, or the default when the setting is not a finite number (`None`). */
  function Configured(setting: Option<int>, default: int): int {
    if setting.Some? then setting.value else default
  }

  /** `${a}|${b}|${c}`: the key of a warning or a cooldown. */
  function CacheKey(a: string, b: string, c: string): string {
    a + "|" + b + "|" + c
  }

  /**
   * The cache after recording `now` under `key`: the stamped map, or the empty map
   * when the stamp made it larger than `limit`.
   */
  function Stamp(m: map<string, int>, key: string, now: int, limit: nat): (r: map<string, int>)
    ensures |r| <= limit && |r| <= |m| + 1
    ensures key in r ==> r[key] == now
    ensures forall k :: k in r && k != key ==> k in m && r[k] == m[k]
    ensures r == map[] || (key in r && forall k :: k in m ==> k in r)
    ensures |m| < limit ==> key in r
  {
    var s := m[key := now];
    assert |s| <= |m| + 1 by {
      if key in m {
        assert s.Keys == m.Keys;
      } else {
        assert s.Keys == m.Keys + {key};
      }
    }
    if |s| > limit then map[] else s
  }

  /** A stamp under `key` less than `window` milliseconds before `now`. */
  predicate Within(m: map<string, int>, key: string, window: int, now: int) {
    key in m && now - m[key] < window
  }

  /** Whether a warning under `key` may go out at `now`: the cooldown is off, or no earlier one is that recent. */
  predicate WarnAllowed(m: map<string, int>, key: string, cooldown: int, now: int) {
    !(cooldown > 0 && Within(m, key, cooldown, now))
  }

  /** The warning cache after `shouldSendWarning` under `key`: stamped when the warning went out with the cooldown on. */
  function WarnedAfter(m: map<string, int>, key: string, cooldown: int, now: int): map<string, int> {
    if WarnAllowed(m, key, cooldown, now) && cooldown > 0 then Stamp(m, key, now, WarnCacheLimit) else m
  }

  /**
   * `cooldownRemainingMs`: how long the command under `key` must still wait; zero
   * when the window is off or no earlier use is that recent.
   */
  function CooldownRemaining(m: map<string, int>, key: string, window: int, now: int): (r: int)
    ensures r >= 0
    ensures r > 0 <==> window > 0 && Within(m, key, window, now)
    ensures r > 0 ==> now + r == m[key] + window
  {
    if window <= 0 then 0
    else if key !in m then 0
    else if now - m[key] >= window then 0
    else window - (now - m[key])
  }

  /** `Math.ceil(ms / 1000)` for an integer number of milliseconds. */
  function CeilSeconds(ms: int): int {
    -((-ms) / 1000)
  }

  /** The whole seconds `cooldownWaitAr` shows: `max(1, ceil(ms / 1000))`. */
  function WaitSeconds(ms: int): (sec: nat)
    ensures sec >= 1
    ensures sec * 1000 >= ms
    ensures sec > 1 ==> (sec - 1) * 1000 < ms
  {
    var c := CeilSeconds(ms);
    if c < 1 then 1 else c
  }

  /** `cooldownWaitAr`: the wait in seconds, as the reply shows it. */
  function WaitText(ms: int): string {
    NatToString(WaitSeconds(ms)) + " ثانية"
  }

  /** A warning stamped at `now` keeps every later one for the same key back until the window has passed. */
  lemma WarningSuppressed(m: map<string, int>, key: string, window: int, now: int, later: int)
    requires |m| < WarnCacheLimit && window > 0 && later - now < window
    ensures Within(Stamp(m, key, now, WarnCacheLimit), key, window, later)
  {
  }

  /** Once the window has passed after the last stamp, the command may run again. */
  lemma CooldownEnds(m: map<string, int>, key: string, window: int, now: int)
    requires key in m && now >= m[key] + window
    ensures CooldownRemaining(m, key, window, now) == 0
  {
  }

  /** After a stamp the key waits the full window, unless the stamp cleared the cache. */
  lemma CooldownAfterBump(m: map<string, int>, key: string, window: int, now: int)
    requires |m| < CooldownCacheLimit && window > 0
    ensures CooldownRemaining(Stamp(m, key, now, CooldownCacheLimit), key, window, now) == window
  {
  }

  /** The router's throttling state. */
  class Throttle {
    const warnCooldown: int
    const commandCooldown: int
    const funCooldown: int
    /** `warnCache`: the time of the last warning per group, sender and rule. */
    var warned: map<string, int>
    /** `commandCooldownCache`: the time of the last command per cooldown key. */
    var stamps: map<string, int>

    predicate Valid()
      reads this
    {
      |warned| <= WarnCacheLimit && |stamps| <= CooldownCacheLimit
    }

    /** The three windows as configured, each falling back to its default; both caches empty. */
    constructor(warnSetting: Option<int>, commandSetting: Option<int>, funSetting: Option<int>)
      ensures warnCooldown == Configured(warnSetting, DefaultWarnCooldownMs)
      ensures commandCooldown == Configured(commandSetting, DefaultCommandCooldownMs)
      ensures funCooldown == Configured(funSetting, DefaultFunCooldownMs)
      ensures warned == map[] && stamps == map[]
      ensures Valid()
    {
      warnCooldown := Configured(warnSetting, DefaultWarnCooldownMs);
      commandCooldown := Configured(commandSetting, DefaultCommandCooldownMs);
      funCooldown := Configured(funSetting, DefaultFunCooldownMs);
      warned := map[];
      stamps := map[];
    }

    /**
     * `shouldSendWarning`: with the cooldown off every warning goes out and nothing
     * is recorded; otherwise a warning is held back while an earlier one for the
     * same key is within the window (without refreshing it), and one that goes out
     * is stamped.
     */
    method ShouldSendWarning(group: string, sender: string, rule: string, now: int) returns (send: bool)
      requires Valid()
      modifies this
      ensures Valid() && stamps == old(stamps)
      ensures send == WarnAllowed(old(warned), CacheKey(group, sender, rule), warnCooldown, now)
      ensures warned == WarnedAfter(old(warned), CacheKey(group, sender, rule), warnCooldown, now)
    {
      if warnCooldown <= 0 {
        return true;
      }
      var key := CacheKey(group, sender, rule);
      if key in warned && now - warned[key] < warnCooldown {
        return false;
      }
      warned := Stamp(warned, key, now, WarnCacheLimit);
      return true;
    }

    /** `bumpCooldown`: records `now` under `key`. */
    method BumpCooldown(key: string, now: int)
      requires Valid()
      modifies this
      ensures Valid() && warned == old(warned)
      ensures stamps == Stamp(old(stamps), key, now, CooldownCacheLimit)
    {
      stamps := Stamp(stamps, key, now, CooldownCacheLimit);
    }
  }
}
