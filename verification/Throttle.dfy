// The authentication throttle: a sliding window of failures per source, and a lockout.
module Throttle {
  import opened Wrappers

  const MAX_TRACKED: nat := 10_000

  // Times and durations are counted in one unit.
  datatype Policy = Policy(maxFailures: nat, window: nat, lockout: nat, delayStep: nat, maxDelay: nat)

  datatype Key = Address(ip: nat) | User(name: string)

  datatype Entry = Entry(failures: seq<nat>, lockedUntil: Option<nat>, lastSeen: nat)

  type State = map<Key, Entry>

  // ------------------------------------------------------ what each step does

  // `duration_since`, which does not go below zero.
  function Since(now: nat, at: nat): nat { if now >= at then now - at else 0 }

  // Failures that have fallen out of the window go, oldest first.
  function Pruned(failures: seq<nat>, now: nat, window: nat): seq<nat> {
    if failures != [] && Since(now, failures[0]) >= window then Pruned(failures[1..], now, window) else failures
  }

  function Keys(address: Option<nat>, user: string): (keys: seq<Key>)
    ensures 1 <= |keys| <= 2
  {
    match address
    case Some(ip) => [Address(ip), User(user)]
    case None => [User(user)]
  }

  // What a check leaves of one entry, and how long its lock still runs.
  function Checked(policy: Policy, entry: Entry, now: nat): Entry {
    var lock := if entry.lockedUntil.Some? && entry.lockedUntil.value <= now then None else entry.lockedUntil;
    Entry(Pruned(entry.failures, now, policy.window), lock, entry.lastSeen)
  }

  function Remaining(state: State, key: Key, now: nat): nat {
    if key in state && state[key].lockedUntil.Some? && state[key].lockedUntil.value > now
    then state[key].lockedUntil.value - now
    else 0
  }

  function CheckAll(policy: Policy, state: State, keys: seq<Key>, now: nat): State {
    if keys == [] then state
    else
      var s := CheckAll(policy, state, keys[..|keys| - 1], now);
      var key := keys[|keys| - 1];
      if key in s then s[key := Checked(policy, s[key], now)] else s
  }

  function Longest(state: State, keys: seq<Key>, now: nat): nat {
    if keys == [] then 0
    else Max(Longest(state, keys[..|keys| - 1], now), Remaining(state, keys[|keys| - 1], now))
  }

  function Max(a: nat, b: nat): nat { if a >= b then a else b }

  function Min(a: nat, b: nat): nat { if a <= b then a else b }

  predicate Kept(policy: Policy, entry: Entry, now: nat) {
    || (entry.lockedUntil.Some? && entry.lockedUntil.value > now)
    || Pruned(entry.failures, now, policy.window) != []
  }

  // Sources with nothing left to remember are dropped.
  function Swept(policy: Policy, state: State, now: nat): State {
    map key | key in state && Kept(policy, state[key], now) ::
      state[key].(failures := Pruned(state[key].failures, now, policy.window))
  }

  // One more failure for an entry, and the lock if it was one too many.
  function Failed(policy: Policy, entry: Entry, now: nat): Entry {
    var failures := Pruned(entry.failures, now, policy.window) + [now];
    var lock := if |failures| >= policy.maxFailures && entry.lockedUntil.None? then Some(now + policy.lockout)
      else entry.lockedUntil;
    Entry(failures, lock, now)
  }

  // A source not seen before is tracked only while there is room.
  function FailOne(policy: Policy, state: State, key: Key, now: nat): State {
    if key in state then state[key := Failed(policy, state[key], now)]
    else if |state| >= MAX_TRACKED then state
    else state[key := Failed(policy, Entry([], None, now), now)]
  }

  function FailAll(policy: Policy, state: State, keys: seq<Key>, now: nat): State {
    if keys == [] then state
    else FailOne(policy, FailAll(policy, state, keys[..|keys| - 1], now), keys[|keys| - 1], now)
  }

  predicate Room(state: State, key: Key) { key in state || |state| < MAX_TRACKED }

  // The refusal is held back longer the more failures a source has, up to a limit.
  function DelayAll(policy: Policy, state: State, keys: seq<Key>, now: nat): nat {
    if keys == [] then 0
    else
      var front, key := keys[..|keys| - 1], keys[|keys| - 1];
      var s, d := FailAll(policy, state, front, now), DelayAll(policy, state, front, now);
      if !Room(s, key) then d
      else Min(Max(d, policy.delayStep * |FailOne(policy, s, key, now)[key].failures|), policy.maxDelay)
  }

  function BeforeFailure(policy: Policy, state: State, now: nat): State {
    if |state| >= MAX_TRACKED then Swept(policy, state, now) else state
  }

  function AfterFailure(policy: Policy, state: State, keys: seq<Key>, now: nat): State {
    FailAll(policy, BeforeFailure(policy, state, now), keys, now)
  }

  function Forget(state: State, keys: seq<Key>): State {
    map key | key in state && key !in keys :: state[key]
  }

  // -------------------------------------------------------------- the object

  method Prune(failures: seq<nat>, now: nat, window: nat) returns (left: seq<nat>)
    ensures left == Pruned(failures, now, window)
  {
    left := failures;
    while left != [] && Since(now, left[0]) >= window
      invariant Pruned(left, now, window) == Pruned(failures, now, window)
      decreases |left|
    {
      left := left[1..];
    }
  }

  lemma {:induction false} FailStep(policy: Policy, state: State, keys: seq<Key>, i: nat, now: nat)
    requires i < |keys|
    ensures var s, d := FailAll(policy, state, keys[..i], now), DelayAll(policy, state, keys[..i], now);
            var s' := FailOne(policy, s, keys[i], now);
            && FailAll(policy, state, keys[..i + 1], now) == s'
            && (Room(s, keys[i]) ==> keys[i] in s')
            && DelayAll(policy, state, keys[..i + 1], now) ==
               if !Room(s, keys[i]) then d else Min(Max(d, policy.delayStep * |s'[keys[i]].failures|), policy.maxDelay)
  {
    assert keys[..i + 1][..i] == keys[..i];
  }

  class AuthThrottle {
    const policy: Option<Policy>
    var state: State

    constructor (policy: Option<Policy>)
      ensures this.policy == policy && state == map[]
    {
      this.policy := policy;
      state := map[];
    }

    // Refused, with the longest lock of the two sources, or admitted.
    method Check(address: Option<nat>, user: string, now: nat) returns (r: Result<(), nat>)
      modifies this
      ensures policy.None? ==> r == Ok(()) && state == old(state)
      ensures policy.Some? ==>
              && state == CheckAll(policy.value, old(state), Keys(address, user), now)
              && var longest := Longest(old(state), Keys(address, user), now);
                 r == if longest == 0 then Ok(()) else Err(longest)
    {
      if policy.None? {
        return Ok(());
      }
      var keys, longest := Keys(address, user), 0;
      ghost var before := state;
      for i := 0 to |keys|
        invariant state == CheckAll(policy.value, before, keys[..i], now)
        invariant longest == Longest(before, keys[..i], now)
      {
        assert keys[..i + 1][..i] == keys[..i];
        CheckedElsewhere(policy.value, before, keys, i, now);
        var key := keys[i];
        if key in state {
          var failures := Prune(state[key].failures, now, policy.value.window);
          var lock := state[key].lockedUntil;
          if lock.Some? {
            if lock.value > now {
              longest := Max(longest, lock.value - now);
            } else {
              lock := None;
            }
          }
          state := state[key := Entry(failures, lock, state[key].lastSeen)];
        }
      }
      assert keys[..|keys|] == keys;
      return if longest == 0 then Ok(()) else Err(longest);
    }

    // Counts one failure for one source, if it is tracked or there is room for it.
    method FailKey(p: Policy, key: Key, now: nat) returns (count: Option<nat>)
      modifies this
      ensures state == FailOne(p, old(state), key, now)
      ensures count.Some? <==> Room(old(state), key)
      ensures count.Some? ==> key in state && count.value == |state[key].failures|
    {
      if key !in state {
        if |state| >= MAX_TRACKED {
          return None;
        }
        state := state[key := Entry([], None, now)];
      }
      var failures := Prune(state[key].failures, now, p.window);
      failures := failures + [now];
      var lock := state[key].lockedUntil;
      if |failures| >= p.maxFailures && lock.None? {
        lock := Some(now + p.lockout);
      }
      state := state[key := Entry(failures, lock, now)];
      return Some(|failures|);
    }

    // A failed attempt: how long to hold the refusal back.
    method RecordFailure(address: Option<nat>, user: string, now: nat) returns (delay: nat)
      modifies this
      ensures policy.None? ==> delay == 0 && state == old(state)
      ensures policy.Some? ==>
              && state == AfterFailure(policy.value, old(state), Keys(address, user), now)
              && delay == DelayAll(policy.value, BeforeFailure(policy.value, old(state), now), Keys(address, user), now)
    {
      if policy.None? {
        return 0;
      }
      if |state| >= MAX_TRACKED {
        state := Swept(policy.value, state, now);
      }
      ghost var before := state;
      var keys := Keys(address, user);
      delay := 0;
      for i := 0 to |keys|
        invariant state == FailAll(policy.value, before, keys[..i], now)
        invariant delay == DelayAll(policy.value, before, keys[..i], now)
      {
        FailStep(policy.value, before, keys, i, now);
        var count := FailKey(policy.value, keys[i], now);
        if count.Some? {
          delay := Min(Max(delay, policy.value.delayStep * count.value), policy.value.maxDelay);
        }
      }
      assert keys[..|keys|] == keys;
    }

    method RecordSuccess(address: Option<nat>, user: string)
      modifies this
      ensures state == if policy.None? then old(state) else Forget(old(state), Keys(address, user))
    {
      if policy.None? {
        return;
      }
      ghost var before := state;
      var keys := Keys(address, user);
      for i := 0 to |keys|
        invariant state == Forget(before, keys[..i])
      {
        state := state - {keys[i]};
      }
      assert keys[..|keys|] == keys;
    }
  }

  // The sources of one attempt are different, so checking one leaves the other's lock alone.
  lemma {:induction false} CheckedElsewhere(policy: Policy, state: State, keys: seq<Key>, i: nat, now: nat)
    requires i < |keys| <= 2 && (|keys| == 2 ==> keys[0] != keys[1])
    ensures var s := CheckAll(policy, state, keys[..i], now);
            (keys[i] in s <==> keys[i] in state) && (keys[i] in s ==> s[keys[i]] == state[keys[i]])
  {
    if i == 1 {
      assert keys[..1][..0] == [];
    }
  }
}
