/** Sliding-window login limiter with lockout (common/rate_limiter.py). */
module RateLimiting {
  import opened Options
  import opened Settings

  datatype Entry = Entry(failures: seq<real>, lockedUntil: Option<real>)

  type Table = map<string, Entry>

  const CLEAR := Entry([], None)

  function EntryOf(table: Table, username: string): Entry {
    if username in table then table[username] else CLEAR
  }

  predicate Locked(e: Entry, now: real) {
    e.lockedUntil.Some? && now < e.lockedUntil.value
  }

  // What a lockout check leaves behind: an elapsed lockout wipes the entry.
  function Checked(e: Entry, now: real): Entry {
    if e.lockedUntil.Some? && now >= e.lockedUntil.value then CLEAR else e
  }

  function Recent(times: seq<real>, now: real, window: int): seq<real> {
    if times == [] then []
    else (if now - times[0] < window as real then [times[0]] else []) + Recent(times[1..], now, window)
  }

  function Failed(cfg: Config, e: Entry, now: real): Entry {
    var failures := Recent(e.failures, now, cfg.window) + [now];
    Entry(failures, if |failures| >= cfg.maxAttempts then Some(now + cfg.lockout as real) else e.lockedUntil)
  }

  class RateLimiter {
    const cfg: Config
    var table: Table

    constructor (cfg: Config)
      ensures this.cfg == cfg && table == map[]
    {
      this.cfg := cfg;
      table := map[];
    }

    method IsLockedOut(username: string, now: real) returns (locked: bool, retryAfter: real)
      modifies this
      ensures table == old(table)[username := Checked(EntryOf(old(table), username), now)]
      ensures locked == Locked(EntryOf(old(table), username), now)
      ensures locked ==> retryAfter > 0.0 && table[username].lockedUntil == Some(now + retryAfter)
      ensures !locked ==> retryAfter == 0.0 && !table[username].lockedUntil.Some?
    {
      var entry := EntryOf(table, username);
      table := table[username := entry];
      if entry.lockedUntil == None {
        return false, 0.0;
      }
      var lockedUntil := entry.lockedUntil.value;
      if now >= lockedUntil {
        table := table[username := entry.(lockedUntil := None, failures := [])];
        return false, 0.0;
      }
      return true, lockedUntil - now;
    }

    method RecordFailure(username: string, now: real)
      modifies this
      ensures table == old(table)[username := Failed(cfg, EntryOf(old(table), username), now)]
    {
      var entry := EntryOf(table, username);
      entry := entry.(failures := Recent(entry.failures, now, cfg.window));
      entry := entry.(failures := entry.failures + [now]);
      if |entry.failures| >= cfg.maxAttempts {
        entry := entry.(lockedUntil := Some(now + cfg.lockout as real));
      }
      table := table[username := entry];
    }

    method RecordSuccess(username: string)
      modifies this
      ensures table == old(table)[username := CLEAR]
    {
      table := table[username := Entry([], None)];
    }
  }

  // ---- When exactly an account locks ----

  // The failures still inside the window, by position.
  ghost function Inside(times: seq<real>, now: real, window: int): set<nat> {
    set i: nat | i < |times| && now - times[i] < window as real
  }

  lemma {:induction false} ShiftKeepsCount(a: set<nat>, b: set<nat>)
    requires b == set i: nat | i in a :: i + 1
    ensures |b| == |a|
    decreases |a|
  {
    if a != {} {
      var i :| i in a;
      var less := set k: nat | k in a - {i} :: k + 1;
      ShiftKeepsCount(a - {i}, less);
      assert i + 1 in b && i + 1 !in less;
      forall k: nat ensures k in b <==> k in less + {i + 1} {
        if k in b && k != i + 1 {
          assert k - 1 in a - {i};
        }
      }
      assert b == less + {i + 1};
    } else {
      assert b == {};
    }
  }

  lemma {:induction false} RecentCounts(times: seq<real>, now: real, window: int)
    ensures |Recent(times, now, window)| == |Inside(times, now, window)|
  {
    if times != [] {
      var rest, all := Inside(times[1..], now, window), Inside(times, now, window);
      RecentCounts(times[1..], now, window);
      var shifted := set i: nat | i in rest :: i + 1;
      ShiftKeepsCount(rest, shifted);
      if now - times[0] < window as real {
        forall i: nat ensures i in all <==> i in shifted + {0} {
          if i > 0 && i in all {
            assert i - 1 in rest;
          }
        }
        assert all == shifted + {0};
      } else {
        forall i: nat ensures i in all <==> i in shifted {
          if i > 0 && i in all {
            assert i - 1 in rest;
          }
        }
        assert all == shifted;
      }
    }
  }

  lemma {:induction false} RecentMembers(times: seq<real>, now: real, window: int, t: real)
    ensures t in Recent(times, now, window) <==> t in times && now - t < window as real
  {
    if times != [] {
      RecentMembers(times[1..], now, window, t);
      assert times == [times[0]] + times[1..];
    }
  }

  // A recorded failure locks the account exactly when, with it, the failures inside the window
  // reach the limit; the lock then runs for the lockout time from now, and otherwise nothing
  // changes about it. The entry remembers this failure and those inside the window, and no other.
  lemma FailureLocksExactly(cfg: Config, e: Entry, now: real)
    ensures var after := Failed(cfg, e, now);
            && after.lockedUntil ==
                 (if |Inside(e.failures, now, cfg.window)| + 1 >= cfg.maxAttempts then Some(now + cfg.lockout as real) else e.lockedUntil)
            && |after.failures| == |Inside(e.failures, now, cfg.window)| + 1
            && (forall t :: t in after.failures <==> t == now || (t in e.failures && now - t < cfg.window as real))
  {
    RecentCounts(e.failures, now, cfg.window);
    forall t {
      RecentMembers(e.failures, now, cfg.window, t);
    }
  }

  // A lockout is in force exactly until its time; from then on the next check wipes the entry.
  lemma LockoutEndsOnTime(e: Entry, now: real)
    ensures Locked(e, now) <==> exists until :: e.lockedUntil == Some(until) && now < until
    ensures Checked(e, now) == if e.lockedUntil.Some? && !Locked(e, now) then Entry([], None) else e
  {
    if e.lockedUntil.Some? {
      assert e.lockedUntil == Some(e.lockedUntil.value);
    }
  }

  // ---- The guess-rate bound ----

  // Attempts needed to lock an account: at least one, whatever the setting.
  function Limit(cfg: Config): nat {
    if cfg.maxAttempts < 1 then 1 else cfg.maxAttempts
  }

  function Span(cfg: Config): real {
    if cfg.window <= cfg.lockout then cfg.window as real else cfg.lockout as real
  }

  ghost predicate Sorted(times: seq<real>) {
    forall i, j | 0 <= i < j < |times| :: times[i] <= times[j]
  }

  // `recorded` lists every failure recorded since the last success. The entry remembers a suffix
  // of it; whatever it has forgotten is at least Span old; a pending lockout dates from the last
  // failure; and fewer than Limit failures are remembered while no lockout is pending.
  ghost predicate Tracks(cfg: Config, e: Entry, recorded: seq<real>, clock: real) {
    var kept := |e.failures|;
    && Sorted(recorded)
    && (forall i | 0 <= i < |recorded| :: recorded[i] <= clock)
    && kept <= |recorded| && e.failures == recorded[|recorded| - kept..]
    && (forall i | 0 <= i < |recorded| - kept :: recorded[i] + Span(cfg) <= clock)
    && (e.lockedUntil.Some? ==> recorded != [] && e.lockedUntil.value == recorded[|recorded| - 1] + cfg.lockout as real)
    && (e.lockedUntil.None? ==> kept < Limit(cfg))
  }

  ghost predicate Spaced(cfg: Config, recorded: seq<real>) {
    forall i, j | 0 <= i < j < |recorded| && j == i + Limit(cfg) :: recorded[j] - recorded[i] >= Span(cfg)
  }

  lemma {:induction false} RecentKeepsAll(times: seq<real>, now: real, window: int)
    requires forall i | 0 <= i < |times| :: now - times[i] < window as real
    ensures Recent(times, now, window) == times
  {
    if times != [] {
      RecentKeepsAll(times[1..], now, window);
      assert [times[0]] + times[1..] == times;
    }
  }

  lemma {:induction false} RecentIsSuffix(times: seq<real>, now: real, window: int)
    requires Sorted(times)
    ensures var r := Recent(times, now, window);
            && |r| <= |times| && r == times[|times| - |r|..]
            && forall i | 0 <= i < |times| - |r| :: now - times[i] >= window as real
  {
    if times == [] {
    } else if now - times[0] < window as real {
      RecentKeepsAll(times, now, window);
    } else {
      var rest := times[1..];
      RecentIsSuffix(rest, now, window);
      var r := Recent(rest, now, window);
      assert times[|times| - |r|..] == rest[|rest| - |r|..];
      assert forall i | 0 <= i < |rest| - |r| :: rest[i] == times[i + 1];
    }
  }

  lemma CheckKeepsTrack(cfg: Config, e: Entry, recorded: seq<real>, clock: real, now: real)
    requires Tracks(cfg, e, recorded, clock) && clock <= now
    ensures Tracks(cfg, Checked(e, now), recorded, now)
  {
    if e.lockedUntil.Some? && now >= e.lockedUntil.value {
      forall i | 0 <= i < |recorded| ensures recorded[i] + Span(cfg) <= now {
        assert recorded[i] <= recorded[|recorded| - 1];
      }
    }
  }

  lemma SortedAppend(times: seq<real>, now: real)
    requires Sorted(times) && forall i | 0 <= i < |times| :: times[i] <= now
    ensures Sorted(times + [now])
  {
  }

  lemma RecentOfSuffix(recorded: seq<real>, kept: nat, now: real, window: int)
    requires Sorted(recorded) && kept <= |recorded|
    ensures var n := |recorded|;
            var r := Recent(recorded[n - kept..], now, window);
            && |r| <= kept && r == recorded[n - |r|..]
            && forall i | n - kept <= i < n - |r| :: now - recorded[i] >= window as real
  {
    var n, suffix := |recorded|, recorded[|recorded| - kept..];
    RecentIsSuffix(suffix, now, window);
    forall i | n - kept <= i < n - |Recent(suffix, now, window)| ensures now - recorded[i] >= window as real {
      assert recorded[i] == suffix[i - (n - kept)];
    }
  }

  // A failure recorded when no lockout is pending, as the order of checks in handle_login has it.
  lemma FailureKeepsTrack(cfg: Config, e: Entry, recorded: seq<real>, clock: real, now: real)
    requires Tracks(cfg, e, recorded, clock) && clock <= now && e.lockedUntil.None?
    ensures Tracks(cfg, Failed(cfg, e, now), recorded + [now], now)
  {
    var n, all := |recorded|, recorded + [now];
    RecentOfSuffix(recorded, |e.failures|, now, cfg.window);
    SortedAppend(recorded, now);
    hide Recent, Sorted;
    var r := Recent(e.failures, now, cfg.window);
    assert all[n - |r|..] == r + [now];
    assert forall i | 0 <= i < n - |r| :: recorded[i] + Span(cfg) <= now;
  }

  lemma FailureKeepsSpacing(cfg: Config, e: Entry, recorded: seq<real>, clock: real, now: real)
    requires Tracks(cfg, e, recorded, clock) && clock <= now && e.lockedUntil.None?
    requires Spaced(cfg, recorded)
    ensures Spaced(cfg, recorded + [now])
  {
    var all := recorded + [now];
    forall i, j | 0 <= i < j < |all| && j == i + Limit(cfg) ensures all[j] - all[i] >= Span(cfg) {
      assert all[i] == recorded[i];
      if j < |recorded| {
        assert all[j] == recorded[j];
      } else {
        assert i < |recorded| - |e.failures|;
      }
    }
  }

  // The number of failures in k full blocks.
  function Blocks(cfg: Config, k: nat): nat {
    if k == 0 then 0 else Blocks(cfg, k - 1) + Limit(cfg)
  }

  // How long k full blocks last at least.
  function BlockTime(cfg: Config, k: nat): real {
    if k == 0 then 0.0 else BlockTime(cfg, k - 1) + Span(cfg)
  }

  lemma {:induction false} BlocksAreProducts(cfg: Config, k: nat)
    ensures Blocks(cfg, k) == k * Limit(cfg) && BlockTime(cfg, k) == k as real * Span(cfg)
  {
    if k > 0 {
      BlocksAreProducts(cfg, k - 1);
    }
  }

  // Blocks of Limit failures add up: k * Limit + 1 failures in a row last at least k * Span.
  lemma {:induction false} SpacingAddsUp(cfg: Config, recorded: seq<real>, i: nat, k: nat)
    requires Spaced(cfg, recorded) && i + Blocks(cfg, k) < |recorded|
    ensures recorded[i + Blocks(cfg, k)] - recorded[i] >= BlockTime(cfg, k)
  {
    if k > 0 {
      SpacingAddsUp(cfg, recorded, i, k - 1);
    }
  }
}
