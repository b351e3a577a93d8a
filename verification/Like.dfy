// SQL LIKE: the loop that backtracks only to the last `%`, and the recursive definition.
module Like {
  import opened Wrappers

  // Whether pattern[p..] matches text[t..]. A backslash takes the next pattern character
  // literally; one at the very end matches nothing.
  predicate Matches(text: string, pattern: string, t: nat, p: nat)
    requires t <= |text| && p <= |pattern|
    decreases |text| - t + |pattern| - p
  {
    if p == |pattern| then t == |text|
    else if pattern[p] == '%' then
      Matches(text, pattern, t, p + 1) || (t < |text| && Matches(text, pattern, t + 1, p))
    else if pattern[p] == '_' then t < |text| && Matches(text, pattern, t + 1, p + 1)
    else if pattern[p] == '\\' then
      p + 1 < |pattern| && t < |text| && pattern[p + 1] == text[t] && Matches(text, pattern, t + 1, p + 2)
    else t < |text| && pattern[p] == text[t] && Matches(text, pattern, t + 1, p + 1)
  }

  // -------------------------------------------------- runs without a `%`

  // How many pattern characters the unit at `p` is written with.
  function Width(pattern: string, p: nat): nat
    requires p < |pattern|
  {
    if pattern[p] == '\\' then 2 else 1
  }

  // pattern[a..b] is `n` units, none of them a `%`: it consumes exactly `n` characters.
  ghost predicate Run(pattern: string, a: nat, b: nat, n: nat)
    decreases n
  {
    if n == 0 then a == b
    else a < b <= |pattern| && pattern[a] != '%' && Run(pattern, a + Width(pattern, a), b, n - 1)
  }

  lemma {:induction false} RunExtend(pattern: string, a: nat, b: nat, n: nat)
    requires Run(pattern, a, b, n) && b < |pattern| && pattern[b] != '%' && b + Width(pattern, b) <= |pattern|
    ensures Run(pattern, a, b + Width(pattern, b), n + 1)
    decreases n
  {
    if n == 0 {
      assert Run(pattern, b + Width(pattern, b), b + Width(pattern, b), 0);
    } else {
      RunExtend(pattern, a + Width(pattern, a), b, n - 1);
    }
  }

  lemma {:induction false} RunConsumes(text: string, pattern: string, t: nat, a: nat, b: nat, n: nat)
    requires t <= |text| && a <= |pattern| && Run(pattern, a, b, n) && b <= |pattern|
    requires Matches(text, pattern, t, a)
    ensures t + n <= |text| && Matches(text, pattern, t + n, b)
    decreases n
  {
    if n > 0 {
      RunConsumes(text, pattern, t + 1, a + Width(pattern, a), b, n - 1);
    }
  }

  // A `%` can start earlier.
  lemma {:induction false} StarAbsorbs(text: string, pattern: string, t: nat, k: nat, p: nat)
    requires t <= k <= |text| && p < |pattern| && pattern[p] == '%' && Matches(text, pattern, k, p)
    ensures Matches(text, pattern, t, p)
    decreases k - t
  {
    if t < k {
      StarAbsorbs(text, pattern, t + 1, k, p);
    }
  }

  // A `%` stops somewhere.
  lemma {:induction false} StarStops(text: string, pattern: string, t: nat, p: nat) returns (k: nat)
    requires t <= |text| && p < |pattern| && pattern[p] == '%' && Matches(text, pattern, t, p)
    ensures t <= k <= |text| && Matches(text, pattern, k, p + 1)
    decreases |text| - t
  {
    if Matches(text, pattern, t, p + 1) {
      k := t;
    } else {
      k := StarStops(text, pattern, t + 1, p);
    }
  }

  // ---------------------------------------------------------- the greedy step

  // The last `%`, at `w`, started at `resume`; the units after it consumed text[resume..t].
  ghost predicate Since(text: string, pattern: string, w: nat, resume: nat, t: nat, p: nat) {
    && w < p <= |pattern| && pattern[w] == '%' && resume <= t <= |text|
    && Run(pattern, w + 1, p, t - resume)
  }

  // Letting the last `%` take one more character.
  ghost predicate Later(text: string, pattern: string, w: nat, resume: nat) {
    resume < |text| && w < |pattern| && Matches(text, pattern, resume + 1, w)
  }

  // If a later start would match, the units after the `%` still end further right.
  lemma {:induction false} LaterEndsLater(text: string, pattern: string, w: nat, resume: nat, t: nat, p: nat)
    returns (k: nat)
    requires Since(text, pattern, w, resume, t, p) && Later(text, pattern, w, resume)
    ensures t < k <= |text| && Matches(text, pattern, k, p)
  {
    var start := StarStops(text, pattern, resume + 1, w);
    RunConsumes(text, pattern, start, w + 1, p, t - resume);
    k := start + (t - resume);
  }

  // Reaching another `%` makes the earlier one irrelevant.
  lemma {:induction false} StarSupersedes(text: string, pattern: string, w: nat, resume: nat, t: nat, p: nat)
    requires Since(text, pattern, w, resume, t, p) && p < |pattern| && pattern[p] == '%'
    ensures Later(text, pattern, w, resume) ==> Matches(text, pattern, t, p)
  {
    if Later(text, pattern, w, resume) {
      var k := LaterEndsLater(text, pattern, w, resume, t, p);
      StarAbsorbs(text, pattern, t, k, p);
    }
  }

  // With the text used up there is no later start.
  lemma {:induction false} NoLater(text: string, pattern: string, w: nat, resume: nat, p: nat)
    requires Since(text, pattern, w, resume, |text|, p)
    ensures !Later(text, pattern, w, resume)
  {
    if Later(text, pattern, w, resume) {
      var k := LaterEndsLater(text, pattern, w, resume, |text|, p);
    }
  }

  // Nothing left to match: only `%` may remain.
  lemma {:induction false} OnlyStars(text: string, pattern: string, p: nat)
    requires p <= |pattern|
    ensures Matches(text, pattern, |text|, p) <==> forall i :: p <= i < |pattern| ==> pattern[i] == '%'
    decreases |pattern| - p
  {
    if p < |pattern| {
      OnlyStars(text, pattern, p + 1);
    }
  }

  // What is still to be decided.
  ghost predicate Undecided(text: string, pattern: string, wildcard: Option<nat>, resume: nat, t: nat, p: nat) {
    && t <= |text| && p <= |pattern| && resume <= |text|
    && (wildcard.Some? ==> Since(text, pattern, wildcard.value, resume, t, p))
    && (Matches(text, pattern, 0, 0) <==>
          Matches(text, pattern, t, p) || (wildcard.Some? && Later(text, pattern, wildcard.value, resume)))
  }

  // One pattern unit and one character taken.
  lemma {:induction false} Advance(text: string, pattern: string, wildcard: Option<nat>, resume: nat, t: nat, p: nat)
    requires Undecided(text, pattern, wildcard, resume, t, p) && t < |text| && p < |pattern| && pattern[p] != '%'
    requires p + Width(pattern, p) <= |pattern|
    requires Matches(text, pattern, t, p) <==> Matches(text, pattern, t + 1, p + Width(pattern, p))
    ensures Undecided(text, pattern, wildcard, resume, t + 1, p + Width(pattern, p))
  {
    if wildcard.Some? {
      RunExtend(pattern, wildcard.value + 1, p, t - resume);
    }
  }

  // How far along the search is: the last `%`, where it started, the text position.
  ghost function Stars(wildcard: Option<nat>): nat {
    if wildcard.Some? then wildcard.value + 1 else 0
  }

  method LikeMatches(text: string, pattern: string) returns (r: bool)
    ensures r == Matches(text, pattern, 0, 0)
  {
    var t, p := 0, 0;
    var wildcard: Option<nat>, resume := None, 0;
    while t < |text|
      invariant Undecided(text, pattern, wildcard, resume, t, p)
      decreases |pattern| - Stars(wildcard), |text| - resume, |text| - t
    {
      if p < |pattern| {
        if pattern[p] == '%' {
          if wildcard.Some? {
            StarSupersedes(text, pattern, wildcard.value, resume, t, p);
          }
          wildcard, resume := Some(p), t;
          p := p + 1;
          continue;
        } else if pattern[p] == '_' {
          Advance(text, pattern, wildcard, resume, t, p);
          t, p := t + 1, p + 1;
          continue;
        } else if pattern[p] == '\\' && p + 1 < |pattern| && pattern[p + 1] == text[t] {
          Advance(text, pattern, wildcard, resume, t, p);
          t, p := t + 1, p + 2;
          continue;
        } else if pattern[p] != '\\' && pattern[p] == text[t] {
          Advance(text, pattern, wildcard, resume, t, p);
          t, p := t + 1, p + 1;
          continue;
        }
      }
      match wildcard
      case Some(position) =>
        p := position + 1;
        resume := resume + 1;
        t := resume;
      case None =>
        return false;
    }
    if wildcard.Some? {
      NoLater(text, pattern, wildcard.value, resume, p);
    }
    OnlyStars(text, pattern, p);
    r := forall i :: p <= i < |pattern| ==> pattern[i] == '%';
  }
}
