// Whole runs of the throttle: however checks and answers interleave, guesses are rationed.
module ThrottleRuns {
  import opened Wrappers
  import opened Throttle

  // An attempt is checked and, if it is let through, answered later. `check` says which check an
  // answer belongs to, by its place in the run.
  datatype Event =
    | Check(at: nat, address: Option<nat>, user: string)
    | Fail(at: nat, address: Option<nat>, user: string, check: nat)
    | Succeed(at: nat, address: Option<nat>, user: string, check: nat)

  function Sources(e: Event): seq<Key> { Keys(e.address, e.user) }

  // Time does not run backwards.
  ghost predicate InTime(run: seq<Event>) { forall i, j :: 0 <= i < j < |run| ==> run[i].at <= run[j].at }

  function Next(policy: Policy, state: State, e: Event): State {
    match e
    case Check(at, _, _) => CheckAll(policy, state, Sources(e), at)
    case Fail(at, _, _, _) => AfterFailure(policy, state, Sources(e), at)
    case Succeed(_, _, _, _) => Forget(state, Sources(e))
  }

  function StateAfter(policy: Policy, run: seq<Event>): State {
    if run == [] then map[] else Next(policy, StateAfter(policy, run[..|run| - 1]), run[|run| - 1])
  }

  // A recorded failure; a late one found its source locked already.
  datatype Failure = Failure(at: nat, late: bool)

  predicate Locked(state: State, key: Key) { key in state && state[key].lockedUntil.Some? }

  // The failures recorded for a source while tracked, since its last success.
  function LogNext(policy: Policy, state: State, log: seq<Failure>, e: Event, key: Key): seq<Failure> {
    if key !in Sources(e) || e.Check? then log
    else if e.Succeed? then []
    else if key in Next(policy, state, e) then
      log + [Failure(e.at, Locked(BeforeFailure(policy, state, e.at), key))]
    else log
  }

  function LogAfter(policy: Policy, run: seq<Event>, key: Key): seq<Failure> {
    if run == [] then []
    else
      var front, e := run[..|run| - 1], run[|run| - 1];
      LogNext(policy, StateAfter(policy, front), LogAfter(policy, front, key), e, key)
  }

  function Times(log: seq<Failure>): (ts: seq<nat>)
    ensures |ts| == |log| && forall i :: 0 <= i < |log| ==> ts[i] == log[i].at
  {
    seq(|log|, i requires 0 <= i < |log| => log[i].at)
  }

  // The failures that were not late.
  function Prompt(log: seq<Failure>): seq<nat> {
    if log == [] then []
    else Prompt(log[..|log| - 1]) + if log[|log| - 1].late then [] else [log[|log| - 1].at]
  }

  function Late(log: seq<Failure>): seq<nat> {
    if log == [] then []
    else Late(log[..|log| - 1]) + if log[|log| - 1].late then [log[|log| - 1].at] else []
  }

  // -------------------------------------------------------------- pruning

  lemma {:induction false} PrunedSuffix(failures: seq<nat>, now: nat, window: nat)
    ensures var left := Pruned(failures, now, window);
            && |left| <= |failures| && left == failures[|failures| - |left|..]
            && forall i :: 0 <= i < |failures| - |left| ==> Since(now, failures[i]) >= window
  {
    if failures != [] && Since(now, failures[0]) >= window {
      PrunedSuffix(failures[1..], now, window);
      var left := Pruned(failures, now, window);
      assert left == failures[1..][|failures[1..]| - |left|..] == failures[|failures| - |left|..];
      forall i | 0 <= i < |failures| - |left| ensures Since(now, failures[i]) >= window {
        assert i > 0 ==> failures[i] == failures[1..][i - 1];
      }
    }
  }

  // ------------------------------------------------------------ invariant

  // The first `n` failures have left the window.
  ghost predicate Old(ts: seq<nat>, n: int, now: nat, window: nat) {
    forall i :: 0 <= i < n && i < |ts| ==> ts[i] + window <= now
  }

  // More than `max` failures never fit into one window.
  ghost predicate Spread(ts: seq<nat>, max: nat, window: nat) {
    forall i, j :: 0 <= i && i + max <= j < |ts| ==> ts[i] + window <= ts[j]
  }

  // An entry remembers every failure that still counts.
  ghost predicate Remembers(entry: Entry, log: seq<Failure>, now: nat, window: nat) {
    && |entry.failures| <= |log| && entry.failures == Times(log)[|log| - |entry.failures|..]
    && Old(Times(log), |log| - |entry.failures|, now, window)
  }

  // What is remembered of a source: every failure still in the window.
  ghost predicate Remembered(policy: Policy, state: State, log: seq<Failure>, key: Key, now: nat) {
    && (forall i :: 0 <= i < |log| ==> log[i].at <= now)
    && if key in state then Remembers(state[key], log, now, policy.window)
       else Old(Times(log), |log|, now, policy.window)
  }

  // An unlocked source has used up less than its ration; a locked one outwaits all of it.
  ghost predicate Rationed(policy: Policy, lock: Option<nat>, prompt: seq<nat>, now: nat) {
    match lock
    case None => Old(prompt, |prompt| - policy.maxFailures + 1, now, policy.window)
    case Some(until) => Old(prompt, |prompt|, until, policy.window)
  }

  ghost predicate Good(policy: Policy, state: State, log: seq<Failure>, key: Key, now: nat) {
    && Spread(Prompt(log), policy.maxFailures, policy.window)
    && if key in state then Rationed(policy, state[key].lockedUntil, Prompt(log), now)
       else Old(Prompt(log), |Prompt(log)|, now, policy.window)
  }

  lemma {:induction false} RememberedLater(policy: Policy, state: State, log: seq<Failure>, key: Key, now: nat,
                                           then_: nat)
    requires Remembered(policy, state, log, key, now) && now <= then_
    ensures Remembered(policy, state, log, key, then_)
  {
  }

  lemma {:induction false} GoodLater(policy: Policy, state: State, log: seq<Failure>, key: Key, now: nat, then_: nat)
    requires Good(policy, state, log, key, now) && now <= then_
    ensures Good(policy, state, log, key, then_)
  {
  }

  // Whatever is not among the last failures is not among the last prompt ones.
  lemma {:induction false} PromptBefore(log: seq<Failure>, n: nat)
    requires n <= |log|
    ensures Prompt(log[..n]) <= Prompt(log) && |Prompt(log)| <= |Prompt(log[..n])| + |log| - n
  {
    if n < |log| {
      var front := log[..|log| - 1];
      assert front[..n] == log[..n];
      PromptBefore(front, n);
    } else {
      assert log[..n] == log;
    }
  }

  lemma {:induction false} PromptOld(log: seq<Failure>, now: nat, window: nat)
    requires Old(Times(log), |log|, now, window)
    ensures Old(Prompt(log), |Prompt(log)|, now, window)
  {
    if log != [] {
      var front := log[..|log| - 1];
      forall i | 0 <= i < |front| ensures Times(front)[i] + window <= now {
        assert Times(front)[i] == Times(log)[i];
      }
      PromptOld(front, now, window);
      assert Times(log)[|log| - 1] + window <= now;
    }
  }

  // Of the prompt failures, all but as many as are remembered are old.
  lemma {:induction false} PromptRemembered(entry: Entry, log: seq<Failure>, now: nat, window: nat)
    requires Remembers(entry, log, now, window)
    ensures Old(Prompt(log), |Prompt(log)| - |entry.failures|, now, window)
  {
    var n := |log| - |entry.failures|;
    var front := log[..n];
    forall i | 0 <= i < |front| ensures Times(front)[i] + window <= now {
      assert Times(front)[i] == Times(log)[i];
    }
    PromptOld(front, now, window);
    PromptBefore(log, n);
    forall i | 0 <= i < |Prompt(log)| - |entry.failures| ensures Prompt(log)[i] + window <= now {
      assert Prompt(log)[i] == Prompt(front)[i];
    }
  }

  lemma {:induction false} PruneRemembers(entry: Entry, log: seq<Failure>, now: nat, window: nat, e: Entry)
    requires Remembers(entry, log, now, window) && (forall i :: 0 <= i < |log| ==> log[i].at <= now)
    requires e.failures == Pruned(entry.failures, now, window)
    ensures Remembers(e, log, now, window)
  {
    PrunedSuffix(entry.failures, now, window);
    var n, m := |log| - |entry.failures|, |log| - |e.failures|;
    forall i | 0 <= i < m ensures Times(log)[i] + window <= now {
      assert i >= n ==> Times(log)[i] == entry.failures[i - n];
    }
  }

  // ---------------------------------------------------------- one failure

  lemma {:induction false} TimesMore(log: seq<Failure>, f: Failure)
    ensures Times(log + [f]) == Times(log) + [f.at]
    ensures Prompt(log + [f]) == Prompt(log) + if f.late then [] else [f.at]
  {
    assert (log + [f])[..|log|] == log;
  }

  lemma {:induction false} FailRemembers(policy: Policy, entry: Entry, log: seq<Failure>, now: nat, late: bool)
    requires Remembers(entry, log, now, policy.window) && (forall i :: 0 <= i < |log| ==> log[i].at <= now)
    ensures Remembers(Failed(policy, entry, now), log + [Failure(now, late)], now, policy.window)
  {
    var e := Failed(policy, entry, now);
    var pruned := Entry(Pruned(entry.failures, now, policy.window), None, now);
    PruneRemembers(entry, log, now, policy.window, pruned);
    TimesMore(log, Failure(now, late));
    var all := Times(log) + [now];
    assert all[|all| - |e.failures|..] == Times(log)[|log| - |pruned.failures|..] + [now];
  }

  // A failure of an unlocked source keeps the ration.
  lemma {:induction false} FailRationed(policy: Policy, entry: Entry, log: seq<Failure>, now: nat)
    requires policy.maxFailures >= 1 && policy.window <= policy.lockout && entry.lockedUntil.None?
    requires Remembers(entry, log, now, policy.window) && (forall i :: 0 <= i < |log| ==> log[i].at <= now)
    ensures Rationed(policy, Failed(policy, entry, now).lockedUntil, Prompt(log) + [now], now)
  {
    var e, all := Failed(policy, entry, now), log + [Failure(now, false)];
    TimesMore(log, Failure(now, false));
    FailRemembers(policy, entry, log, now, false);
    if |e.failures| < policy.maxFailures {
      PromptRemembered(e, all, now, policy.window);
    } else {
      PromptPast(log, now);
    }
  }

  lemma {:induction false} PromptPast(log: seq<Failure>, now: nat)
    requires forall i :: 0 <= i < |log| ==> log[i].at <= now
    ensures forall i :: 0 <= i < |Prompt(log)| ==> Prompt(log)[i] <= now
  {
    if log != [] {
      PromptPast(log[..|log| - 1], now);
    }
  }

  lemma {:induction false} AppendSpread(ts: seq<nat>, max: nat, window: nat, now: nat)
    requires Spread(ts, max, window) && max >= 1 && Old(ts, |ts| - max + 1, now, window)
    ensures Spread(ts + [now], max, window)
  {
  }

  // ------------------------------------------------------------ all sources

  ghost predicate Distinct(keys: seq<Key>) { forall i, j :: 0 <= i < j < |keys| ==> keys[i] != keys[j] }

  lemma {:induction false} CheckAllAt(policy: Policy, state: State, keys: seq<Key>, now: nat, key: Key)
    requires Distinct(keys)
    ensures var s := CheckAll(policy, state, keys, now);
            && s.Keys == state.Keys
            && (key in state ==> s[key] == if key in keys then Checked(policy, state[key], now) else state[key])
  {
    if keys != [] {
      var front, last := keys[..|keys| - 1], keys[|keys| - 1];
      assert keys == front + [last];
      CheckAllAt(policy, state, front, now, key);
      CheckAllAt(policy, state, front, now, last);
    }
  }

  lemma {:induction false} LongestCovers(state: State, keys: seq<Key>, now: nat, key: Key)
    requires key in keys
    ensures Remaining(state, key, now) <= Longest(state, keys, now)
  {
    var front, last := keys[..|keys| - 1], keys[|keys| - 1];
    assert keys == front + [last];
    if key != last {
      LongestCovers(state, front, now, key);
    }
  }

  lemma {:induction false} FailAllAt(policy: Policy, state: State, keys: seq<Key>, now: nat, key: Key)
    requires Distinct(keys)
    ensures var s := FailAll(policy, state, keys, now);
            && (key in state ==> key in s)
            && (key !in keys ==> (key in s <==> key in state) && (key in s ==> s[key] == state[key]))
            && (key in keys && key in s ==>
                  s[key] == Failed(policy, if key in state then state[key] else Entry([], None, now), now))
  {
    if keys != [] {
      var front, last := keys[..|keys| - 1], keys[|keys| - 1];
      assert keys == front + [last];
      FailAllAt(policy, state, front, now, key);
    }
  }

  lemma {:induction false} SourcesDistinct(e: Event)
    ensures Distinct(Sources(e))
  {
  }

  lemma {:induction false} FreshRemembers(log: seq<Failure>, now: nat, window: nat)
    requires Old(Times(log), |log|, now, window)
    ensures Remembers(Entry([], None, now), log, now, window)
  {
  }

  // Sweeping forgets no failure that still counts.
  lemma {:induction false} SweepRemembered(policy: Policy, state: State, log: seq<Failure>, key: Key, now: nat)
    requires Remembered(policy, state, log, key, now)
    ensures Remembered(policy, BeforeFailure(policy, state, now), log, key, now)
  {
    if key in state {
      var e := state[key].(failures := Pruned(state[key].failures, now, policy.window));
      PruneRemembers(state[key], log, now, policy.window, e);
    }
  }

  lemma {:induction false} SweepGood(policy: Policy, state: State, log: seq<Failure>, key: Key, now: nat)
    requires Good(policy, state, log, key, now) && Remembered(policy, state, log, key, now)
    ensures Good(policy, BeforeFailure(policy, state, now), log, key, now)
  {
    SweepRemembered(policy, state, log, key, now);
    if key !in BeforeFailure(policy, state, now) {
      PromptOld(log, now, policy.window);
    }
  }

  // The entry a failure is added to.
  ghost function EntryFor(state: State, key: Key, now: nat): Entry {
    if key in state then state[key] else Entry([], None, now)
  }

  lemma {:induction false} EntryRemembers(policy: Policy, state: State, log: seq<Failure>, key: Key, now: nat)
    requires Remembered(policy, state, log, key, now)
    ensures Remembers(EntryFor(state, key, now), log, now, policy.window)
  {
    if key !in state {
      FreshRemembers(log, now, policy.window);
    }
  }

  lemma {:induction false} StepRemembered(policy: Policy, state: State, log: seq<Failure>, key: Key, now: nat, e: Event)
    requires Remembered(policy, state, log, key, now) && now <= e.at
    ensures Remembered(policy, Next(policy, state, e), LogNext(policy, state, log, e, key), key, e.at)
  {
    RememberedLater(policy, state, log, key, now, e.at);
    SourcesDistinct(e);
    match e
    case Check(at, _, _) =>
      CheckAllAt(policy, state, Sources(e), at, key);
      if key in state {
        PruneRemembers(state[key], log, at, policy.window, Checked(policy, state[key], at));
      }
    case Fail(at, _, _, _) =>
      var before := BeforeFailure(policy, state, at);
      SweepRemembered(policy, state, log, key, at);
      FailAllAt(policy, before, Sources(e), at, key);
      EntryRemembers(policy, before, log, key, at);
      FailRemembers(policy, EntryFor(before, key, at), log, at, Locked(before, key));
    case Succeed(_, _, _, _) =>
  }

  lemma {:induction false} FailGood(policy: Policy, state: State, log: seq<Failure>, key: Key, now: nat, late: bool)
    requires policy.maxFailures >= 1 && policy.window <= policy.lockout
    requires Remembered(policy, state, log, key, now) && Good(policy, state, log, key, now)
             && late == Locked(state, key)
    ensures var prompt := Prompt(log + [Failure(now, late)]);
            && Spread(prompt, policy.maxFailures, policy.window)
            && Rationed(policy, Failed(policy, EntryFor(state, key, now), now).lockedUntil, prompt, now)
  {
    TimesMore(log, Failure(now, late));
    if !late {
      EntryRemembers(policy, state, log, key, now);
      FailRationed(policy, EntryFor(state, key, now), log, now);
      AppendSpread(Prompt(log), policy.maxFailures, policy.window, now);
    }
  }

  lemma {:induction false} StepGood(policy: Policy, state: State, log: seq<Failure>, key: Key, now: nat, e: Event)
    requires policy.maxFailures >= 1 && policy.window <= policy.lockout
    requires Remembered(policy, state, log, key, now) && Good(policy, state, log, key, now) && now <= e.at
    ensures Good(policy, Next(policy, state, e), LogNext(policy, state, log, e, key), key, e.at)
  {
    RememberedLater(policy, state, log, key, now, e.at);
    GoodLater(policy, state, log, key, now, e.at);
    SourcesDistinct(e);
    match e
    case Check(at, _, _) => CheckAllAt(policy, state, Sources(e), at, key);
    case Fail(at, _, _, _) =>
      var before := BeforeFailure(policy, state, at);
      SweepRemembered(policy, state, log, key, at);
      SweepGood(policy, state, log, key, at);
      FailAllAt(policy, before, Sources(e), at, key);
      FailGood(policy, before, log, key, at, Locked(before, key));
    case Succeed(_, _, _, _) =>
  }

  function LastTime(run: seq<Event>): nat { if run == [] then 0 else run[|run| - 1].at }

  lemma {:induction false} RunRemembered(policy: Policy, run: seq<Event>, key: Key)
    requires InTime(run)
    ensures Remembered(policy, StateAfter(policy, run), LogAfter(policy, run, key), key, LastTime(run))
  {
    if run != [] {
      var front, e := run[..|run| - 1], run[|run| - 1];
      RunRemembered(policy, front, key);
      StepRemembered(policy, StateAfter(policy, front), LogAfter(policy, front, key), key, LastTime(front), e);
    }
  }

  lemma {:induction false} RunGood(policy: Policy, run: seq<Event>, key: Key)
    requires policy.maxFailures >= 1 && policy.window <= policy.lockout && InTime(run)
    ensures Good(policy, StateAfter(policy, run), LogAfter(policy, run, key), key, LastTime(run))
  {
    if run != [] {
      var front, e := run[..|run| - 1], run[|run| - 1];
      RunGood(policy, front, key);
      RunRemembered(policy, front, key);
      StepGood(policy, StateAfter(policy, front), LogAfter(policy, front, key), key, LastTime(front), e);
    }
  }

  // ------------------------------------------------------------- the bound

  // How many failures fall into [from, to).
  function Count(ts: seq<nat>, from: nat, to: nat): nat {
    if ts == [] then 0
    else Count(ts[..|ts| - 1], from, to) + (if from <= ts[|ts| - 1] < to then 1 else 0)
  }

  lemma {:induction false} CountAfter(ts: seq<nat>, n: nat, from: nat, to: nat)
    requires n <= |ts| && forall i :: 0 <= i < n ==> ts[i] < from
    ensures Count(ts, from, to) <= |ts| - n
  {
    if ts != [] {
      CountAfter(ts[..|ts| - 1], if n < |ts| then n else n - 1, from, to);
    }
  }

  lemma {:induction false} CountBound(ts: seq<nat>, max: nat, window: nat, from: nat)
    requires Spread(ts, max, window) && max >= 1
    ensures Count(ts, from, from + window) <= max
  {
    if ts != [] {
      var front, last := ts[..|ts| - 1], ts[|ts| - 1];
      if from <= last < from + window {
        var n := if |ts| > max then |ts| - max else 0;
        forall i | 0 <= i < n ensures ts[i] < from {
          assert ts[i] + window <= ts[|ts| - 1];
        }
        CountAfter(ts, n, from, from + window);
      } else {
        CountBound(front, max, window, from);
      }
    }
  }

  // However attempts overlap, no window holds more failures that found their source unlocked than
  // the policy allows.
  lemma {:induction false} WindowHolds(policy: Policy, run: seq<Event>, key: Key, from: nat)
    requires policy.maxFailures >= 1 && policy.window <= policy.lockout && InTime(run)
    ensures Count(Prompt(LogAfter(policy, run, key)), from, from + policy.window) <= policy.maxFailures
  {
    RunGood(policy, run, key);
    GoodWindow(policy, StateAfter(policy, run), LogAfter(policy, run, key), key, LastTime(run), from);
  }

  lemma {:induction false} GoodWindow(policy: Policy, state: State, log: seq<Failure>, key: Key, now: nat, from: nat)
    requires policy.maxFailures >= 1 && Good(policy, state, log, key, now)
    ensures Count(Prompt(log), from, from + policy.window) <= policy.maxFailures
  {
    CountBound(Prompt(log), policy.maxFailures, policy.window, from);
  }

  lemma {:induction false} CountMore(ts: seq<nat>, t: nat, from: nat, to: nat)
    ensures Count(ts + [t], from, to) == Count(ts, from, to) + if from <= t < to then 1 else 0
  {
    assert (ts + [t])[..|ts|] == ts;
  }

  lemma {:induction false} CountSplit(log: seq<Failure>, from: nat, to: nat)
    ensures Count(Times(log), from, to) == Count(Prompt(log), from, to) + Count(Late(log), from, to)
  {
    if log != [] {
      var front, f := log[..|log| - 1], log[|log| - 1];
      CountSplit(front, from, to);
      assert Times(log) == Times(front) + [f.at];
      CountMore(Times(front), f.at, from, to);
      CountMore(Prompt(front), f.at, from, to);
      CountMore(Late(front), f.at, from, to);
      assert Prompt(front) + [] == Prompt(front) && Late(front) + [] == Late(front);
    }
  }

  // So what a window holds beyond the ration is late failures.
  lemma {:induction false} ExcessIsLate(policy: Policy, run: seq<Event>, key: Key, from: nat)
    requires policy.maxFailures >= 1 && policy.window <= policy.lockout && InTime(run)
    ensures var log, to := LogAfter(policy, run, key), from + policy.window;
            Count(Times(log), from, to) <= policy.maxFailures + Count(Late(log), from, to)
  {
    WindowHolds(policy, run, key, from);
    RestIsLate(LogAfter(policy, run, key), policy.maxFailures, from, from + policy.window);
  }

  lemma {:induction false} RestIsLate(log: seq<Failure>, max: nat, from: nat, to: nat)
    requires Count(Prompt(log), from, to) <= max
    ensures Count(Times(log), from, to) <= max + Count(Late(log), from, to)
  {
    CountSplit(log, from, to);
  }

  // ------------------------------------------------------- attempts in flight

  // The check at place `j` let its attempt through.
  ghost predicate Admitted(policy: Policy, run: seq<Event>, j: nat) {
    j < |run| && run[j].Check? && Longest(StateAfter(policy, run[..j]), Sources(run[j]), run[j].at) == 0
  }

  // No answer to the check at `j` came before place `n`.
  ghost predicate Waiting(run: seq<Event>, j: nat, n: nat) {
    forall i :: j < i < n && i < |run| && !run[i].Check? ==> run[i].check != j
  }

  // Answers are to attempts that were let through, each answered once.
  ghost predicate Proper(policy: Policy, run: seq<Event>) {
    forall i {:trigger Answers(policy, run, i)} :: 0 <= i < |run| && !run[i].Check? ==> Answers(policy, run, i)
  }

  ghost predicate Answers(policy: Policy, run: seq<Event>, i: nat)
    requires i < |run| && !run[i].Check?
  {
    var c := run[i].check;
    c < i && Admitted(policy, run, c) && Sources(run[c]) == Sources(run[i]) && Waiting(run, c, i)
  }

  // The attempts on a source let through and not yet answered after `n` events.
  ghost predicate InFlight(policy: Policy, run: seq<Event>, n: nat, key: Key, j: nat) {
    j < n && Admitted(policy, run, j) && key in Sources(run[j]) && Waiting(run, j, n)
  }

  // The event after which a source has been locked until now.
  function LockedSince(policy: Policy, run: seq<Event>, key: Key): (s: Option<nat>)
    ensures s.Some? <==> Locked(StateAfter(policy, run), key)
    ensures s.Some? ==> s.value < |run|
  {
    if !Locked(StateAfter(policy, run), key) then None
    else
      var front := run[..|run| - 1];
      if Locked(StateAfter(policy, front), key) then LockedSince(policy, front, key) else Some(|run| - 1)
  }

  // Only a failure locks a source.
  lemma {:induction false} FailureLocks(policy: Policy, state: State, e: Event, key: Key)
    requires !Locked(state, key) && Locked(Next(policy, state, e), key)
    ensures e.Fail? && key in Sources(e)
  {
    SourcesDistinct(e);
    match e
    case Check(at, _, _) => CheckAllAt(policy, state, Sources(e), at, key);
    case Fail(at, _, _, _) => FailAllAt(policy, BeforeFailure(policy, state, at), Sources(e), at, key);
    case Succeed(_, _, _, _) =>
  }

  // An attempt let through leaves its sources unlocked.
  lemma {:induction false} AdmittedUnlocks(policy: Policy, state: State, e: Event, key: Key)
    requires e.Check? && key in Sources(e) && Longest(state, Sources(e), e.at) == 0
    ensures !Locked(Next(policy, state, e), key)
  {
    SourcesDistinct(e);
    CheckAllAt(policy, state, Sources(e), e.at, key);
    LongestCovers(state, Sources(e), e.at, key);
  }

  // Nothing is let through while a source stays locked.
  lemma {:induction false} NoneSince(policy: Policy, run: seq<Event>, key: Key, j: nat)
    requires LockedSince(policy, run, key).Some? && LockedSince(policy, run, key).value <= j < |run|
    requires key in Sources(run[j])
    ensures !Admitted(policy, run, j)
  {
    var front, e := run[..|run| - 1], run[|run| - 1];
    if j == |run| - 1 {
      if Admitted(policy, run, j) {
        AdmittedUnlocks(policy, StateAfter(policy, front), e, key);
      }
    } else if Locked(StateAfter(policy, front), key) {
      NoneSince(policy, front, key, j);
      assert front[..j] == run[..j];
    }
  }

  // A late failure answers an attempt that was in flight when its source was locked.
  lemma {:induction false} LateWasInFlight(policy: Policy, run: seq<Event>, i: nat, key: Key)
    requires Proper(policy, run) && i < |run| && run[i].Fail? && key in Sources(run[i])
    requires Locked(StateAfter(policy, run[..i]), key)
    ensures InFlight(policy, run, LockedSince(policy, run[..i], key).value + 1, key, run[i].check)
  {
    var s, c := LockedSince(policy, run[..i], key).value, run[i].check;
    assert Answers(policy, run, i);
    assert run[..i][..c] == run[..c];
    if c >= s {
      NoneSince(policy, run[..i], key, c);
    }
  }

  // Attempts one after the other: none is checked while another is in flight.
  ghost predicate OneAtATime(policy: Policy, run: seq<Event>) {
    forall i, j :: 0 <= j < i < |run| && run[i].Check? && Admitted(policy, run, j) ==> !Waiting(run, j, i)
  }

  lemma {:induction false} LockedBy(policy: Policy, run: seq<Event>, key: Key)
    requires LockedSince(policy, run, key).Some?
    ensures run[LockedSince(policy, run, key).value].Fail?
  {
    var front := run[..|run| - 1];
    if Locked(StateAfter(policy, front), key) {
      LockedBy(policy, front, key);
    } else {
      FailureLocks(policy, StateAfter(policy, front), run[|run| - 1], key);
    }
  }

  lemma {:induction false} NeverLate(policy: Policy, run: seq<Event>, i: nat, key: Key)
    requires Proper(policy, run) && OneAtATime(policy, run) && i < |run| && run[i].Fail? && key in Sources(run[i])
    ensures !Locked(StateAfter(policy, run[..i]), key)
  {
    if Locked(StateAfter(policy, run[..i]), key) {
      LateWasInFlight(policy, run, i, key);
      LockedBy(policy, run[..i], key);
      var s := LockedSince(policy, run[..i], key).value;
      assert Answers(policy, run, s) && Answers(policy, run, i);
      var c, d := run[s].check, run[i].check;
      assert c != d;
      if c < d {
        assert Waiting(run, c, d);
      } else {
        assert Waiting(run, d, c);
      }
    }
  }

  lemma {:induction false} AllPrompt(policy: Policy, run: seq<Event>, n: nat, key: Key)
    requires Proper(policy, run) && OneAtATime(policy, run) && n <= |run|
    ensures Prompt(LogAfter(policy, run[..n], key)) == Times(LogAfter(policy, run[..n], key))
  {
    if n > 0 {
      var front, e := run[..n - 1], run[n - 1];
      assert run[..n][..n - 1] == front;
      AllPrompt(policy, run, n - 1, key);
      var state, log := StateAfter(policy, front), LogAfter(policy, front, key);
      if e.Fail? && key in Sources(e) {
        NeverLate(policy, run, n - 1, key);
        TimesMore(log, Failure(e.at, false));
      }
    }
  }

  // When attempts do not overlap, no window holds more recorded failures at all.
  lemma {:induction false} SequentialWindow(policy: Policy, run: seq<Event>, key: Key, from: nat)
    requires policy.maxFailures >= 1 && policy.window <= policy.lockout && InTime(run)
    requires Proper(policy, run) && OneAtATime(policy, run)
    ensures Count(Times(LogAfter(policy, run, key)), from, from + policy.window) <= policy.maxFailures
  {
    assert run[..|run|] == run;
    AllPrompt(policy, run, |run|, key);
    WindowHolds(policy, run, key, from);
  }

  const ONE_GUESS: Policy := Policy(1, 10, 10, 0, 0)

  // Two attempts checked before either is answered: both failures are recorded in one window.
  const OVERLAP: seq<Event> := [Check(0, None, "u"), Check(0, None, "u"), Fail(1, None, "u", 0), Fail(2, None, "u", 1)]

  lemma {:induction false} RunMore(policy: Policy, run: seq<Event>, e: Event, key: Key)
    ensures StateAfter(policy, run + [e]) == Next(policy, StateAfter(policy, run), e)
    ensures LogAfter(policy, run + [e], key) ==
            LogNext(policy, StateAfter(policy, run), LogAfter(policy, run, key), e, key)
  {
    assert (run + [e])[..|run|] == run;
  }

  lemma {:induction false} OneSource(policy: Policy, state: State, key: Key, now: nat)
    ensures CheckAll(policy, map[], [key], now) == map[]
    ensures |state| < MAX_TRACKED ==>
            AfterFailure(policy, state, [key], now) == state[key := Failed(policy, EntryFor(state, key, now), now)]
  {
    assert [key][..0] == [];
    assert FailAll(policy, state, [key], now) == FailOne(policy, FailAll(policy, state, [key][..0], now), key, now);
  }

  lemma {:induction false} OverlapExceeds()
    ensures InTime(OVERLAP) && LogAfter(ONE_GUESS, OVERLAP, User("u")) == [Failure(1, false), Failure(2, true)]
  {
    var p, key, one := ONE_GUESS, User("u"), map[User("u") := Entry([1], Some(11), 1)];
    OneSource(p, map[], key, 0);
    OneSource(p, map[], key, 1);
    OneSource(p, one, key, 2);
    assert |one| == 1;
    RunMore(p, [], OVERLAP[0], key);
    RunMore(p, [] + [OVERLAP[0]], OVERLAP[1], key);
    RunMore(p, [] + [OVERLAP[0]] + [OVERLAP[1]], OVERLAP[2], key);
    RunMore(p, [] + [OVERLAP[0]] + [OVERLAP[1]] + [OVERLAP[2]], OVERLAP[3], key);
    assert OVERLAP == [] + [OVERLAP[0]] + [OVERLAP[1]] + [OVERLAP[2]] + [OVERLAP[3]];
    assert Pruned([1], 2, 10) == [1] && [1] + [2] == [1, 2];
  }

  // ------------------------------------------------------- a lockout too short

  const WHO: Key := User("u")

  // `n` attempts at time zero, one after the other, all failing.
  function Guesses(n: nat): seq<Event> {
    if n == 0 then [] else Guesses(n - 1) + [Check(0, None, "u")] + [Fail(0, None, "u", 2 * (n - 1))]
  }

  function Zeros(n: nat): (ts: seq<nat>)
    ensures |ts| == n && forall i :: 0 <= i < n ==> ts[i] == 0
  {
    seq(n, _ => 0)
  }

  function Misses(n: nat): (log: seq<Failure>)
    ensures |log| == n && forall i :: 0 <= i < n ==> log[i] == Failure(0, false)
  {
    seq(n, _ => Failure(0, false))
  }

  // What is known of the one source after `n` guesses.
  ghost function Known(policy: Policy, n: nat): State {
    if n == 0 then map[]
    else map[WHO := Entry(Zeros(n), if n < policy.maxFailures then None else Some(policy.lockout), 0)]
  }

  lemma {:induction false} CheckOne(policy: Policy, state: State, now: nat)
    ensures CheckAll(policy, state, [WHO], now) ==
            if WHO in state then state[WHO := Checked(policy, state[WHO], now)] else state
  {
    assert [WHO][..0] == [];
  }

  lemma {:induction false} GuessesKnown(policy: Policy, n: nat)
    requires 1 <= policy.maxFailures && n <= policy.maxFailures && policy.window > 0
    ensures StateAfter(policy, Guesses(n)) == Known(policy, n) && LogAfter(policy, Guesses(n), WHO) == Misses(n)
  {
    if n > 0 {
      GuessesKnown(policy, n - 1);
      OneGuess(policy, Guesses(n - 1), n - 1, Check(0, None, "u"), Fail(0, None, "u", 2 * (n - 1)));
    }
  }

  lemma {:induction false} OneGuess(policy: Policy, run: seq<Event>, n: nat, check: Event, fail: Event)
    requires n < policy.maxFailures && policy.window > 0
    requires StateAfter(policy, run) == Known(policy, n) && LogAfter(policy, run, WHO) == Misses(n)
    requires check == Check(0, None, "u") && fail.Fail? && fail.at == 0 && Sources(fail) == [WHO]
    ensures StateAfter(policy, run + [check] + [fail]) == Known(policy, n + 1)
    ensures LogAfter(policy, run + [check] + [fail], WHO) == Misses(n + 1)
  {
    var checked := run + [check];
    RunMore(policy, run, check, WHO);
    KnownChecked(policy, n, Misses(n), check);
    RunMore(policy, checked, fail, WHO);
    KnownFailed(policy, n, Misses(n), fail);
    assert Misses(n) + [Failure(0, false)] == Misses(n + 1);
  }

  lemma {:induction false} KnownChecked(policy: Policy, n: nat, log: seq<Failure>, e: Event)
    requires n < policy.maxFailures && policy.window > 0 && e == Check(0, None, "u")
    ensures Next(policy, Known(policy, n), e) == Known(policy, n)
    ensures LogNext(policy, Known(policy, n), log, e, WHO) == log
  {
    KnownStep(policy, n);
  }

  lemma {:induction false} KnownFailed(policy: Policy, n: nat, log: seq<Failure>, e: Event)
    requires n < policy.maxFailures && policy.window > 0 && e.Fail? && e.at == 0 && Sources(e) == [WHO]
    ensures Next(policy, Known(policy, n), e) == Known(policy, n + 1)
    ensures LogNext(policy, Known(policy, n), log, e, WHO) == log + [Failure(0, false)]
  {
    KnownStep(policy, n);
    assert WHO in Known(policy, n + 1);
  }

  lemma {:induction false} KnownStep(policy: Policy, n: nat)
    requires n < policy.maxFailures && policy.window > 0
    ensures CheckAll(policy, Known(policy, n), [WHO], 0) == Known(policy, n)
    ensures BeforeFailure(policy, Known(policy, n), 0) == Known(policy, n) && !Locked(Known(policy, n), WHO)
    ensures AfterFailure(policy, Known(policy, n), [WHO], 0) == Known(policy, n + 1)
  {
    assert |Known(policy, n)| <= 1;
    CheckOne(policy, Known(policy, n), 0);
    OneSource(policy, Known(policy, n), WHO, 0);
    assert Zeros(n) + [0] == Zeros(n + 1);
  }

  // The run that breaks the ration: the lock has run out, and the failures before it still count.
  function TooSoon(policy: Policy): seq<Event> {
    Guesses(policy.maxFailures) + [Check(policy.lockout, None, "u")]
    + [Fail(policy.lockout, None, "u", 2 * policy.maxFailures)]
  }

  lemma {:induction false} TooSoonLog(policy: Policy)
    requires 1 <= policy.maxFailures && policy.lockout < policy.window
    ensures LogAfter(policy, TooSoon(policy), WHO) == Misses(policy.maxFailures) + [Failure(policy.lockout, false)]
  {
    var n, now := policy.maxFailures, policy.lockout;
    var check, fail := Check(now, None, "u"), Fail(now, None, "u", 2 * n);
    GuessesKnown(policy, n);
    RunMore(policy, Guesses(n), check, WHO);
    RunMore(policy, Guesses(n) + [check], fail, WHO);
    CheckOne(policy, Known(policy, n), now);
    var unlocked := Next(policy, Known(policy, n), check);
    OneSource(policy, unlocked, WHO, now);
    assert |unlocked| == 1;
  }

  lemma {:induction false} CountAll(ts: seq<nat>, to: nat)
    requires forall i :: 0 <= i < |ts| ==> ts[i] < to
    ensures Count(ts, 0, to) == |ts|
  {
    if ts != [] {
      CountAll(ts[..|ts| - 1], to);
    }
  }

  lemma {:induction false} MissesPrompt(n: nat)
    ensures Prompt(Misses(n)) == Zeros(n)
  {
    if n > 0 {
      assert Misses(n)[..n - 1] == Misses(n - 1);
      MissesPrompt(n - 1);
      assert Zeros(n - 1) + [0] == Zeros(n);
    }
  }

  lemma {:induction false} GuessesAtZero(n: nat)
    ensures forall i :: 0 <= i < |Guesses(n)| ==> Guesses(n)[i].at == 0
  {
    if n > 0 {
      GuessesAtZero(n - 1);
    }
  }

  // A lockout shorter than the window breaks the ration, whatever it is.
  lemma {:induction false} ShortLockout(policy: Policy)
    requires 1 <= policy.maxFailures && policy.lockout < policy.window
    ensures InTime(TooSoon(policy))
    ensures Count(Prompt(LogAfter(policy, TooSoon(policy), WHO)), 0, policy.window) == policy.maxFailures + 1
  {
    var n := policy.maxFailures;
    GuessesAtZero(n);
    TooSoonLog(policy);
    TimesMore(Misses(n), Failure(policy.lockout, false));
    MissesPrompt(n);
    CountAll(Zeros(n) + [policy.lockout], policy.window);
  }

  // Whatever was swept or pruned away, what is remembered at any later time is every failure
  // still in the window; a source that is not tracked has none.
  lemma {:induction false} NothingForgotten(policy: Policy, run: seq<Event>, key: Key, now: nat)
    requires InTime(run) && LastTime(run) <= now
    ensures var state, log := StateAfter(policy, run), LogAfter(policy, run, key);
            forall i :: 0 <= i < |log| && log[i].at + policy.window > now ==>
              key in state && log[i].at in state[key].failures
  {
    var state, log := StateAfter(policy, run), LogAfter(policy, run, key);
    RunRemembered(policy, run, key);
    RememberedLater(policy, state, log, key, LastTime(run), now);
    forall i | 0 <= i < |log| && log[i].at + policy.window > now
      ensures key in state && log[i].at in state[key].failures
    {
      assert Times(log)[i] == log[i].at;
      assert key in state;
      var n := |log| - |state[key].failures|;
      assert state[key].failures[i - n] == log[i].at;
    }
  }

  // ---------------------------------------------------------------- the cap

  lemma {:induction false} FailAllCap(policy: Policy, state: State, keys: seq<Key>, now: nat)
    requires |state| <= MAX_TRACKED
    ensures |FailAll(policy, state, keys, now)| <= MAX_TRACKED
  {
    if keys != [] {
      var front, last := keys[..|keys| - 1], keys[|keys| - 1];
      FailAllCap(policy, state, front, now);
      var s := FailAll(policy, state, front, now);
      assert FailOne(policy, s, last, now).Keys <= s.Keys + {last};
    }
  }

  lemma {:induction false} SubsetCount<T>(a: set<T>, b: set<T>)
    requires a <= b
    ensures |a| <= |b|
  {
    if a != {} {
      var x :| x in a;
      SubsetCount(a - {x}, b - {x});
    }
  }

  lemma {:induction false} KeyCount(m: State, n: State)
    requires m.Keys <= n.Keys
    ensures |m| <= |n|
  {
    SubsetCount(m.Keys, n.Keys);
    assert |m| == |m.Keys| && |n| == |n.Keys|;
  }

  // The table never outgrows its cap, whatever unauthenticated peers do.
  lemma {:induction false} TableCapped(policy: Policy, run: seq<Event>)
    ensures |StateAfter(policy, run)| <= MAX_TRACKED
  {
    if run != [] {
      var front, e := run[..|run| - 1], run[|run| - 1];
      TableCapped(policy, front);
      var state := StateAfter(policy, front);
      SourcesDistinct(e);
      match e
      case Check(at, _, _) =>
        CheckAllAt(policy, state, Sources(e), at, User(""));
        KeyCount(Next(policy, state, e), state);
      case Fail(at, _, _, _) =>
        KeyCount(BeforeFailure(policy, state, at), state);
        FailAllCap(policy, BeforeFailure(policy, state, at), Sources(e), at);
      case Succeed(_, _, _, _) => KeyCount(Next(policy, state, e), state);
    }
  }
}
