// Facts about sequences alone.
module Sequences {
  lemma {:induction false} LastApart<T>(s: seq<T>)
    requires s != []
    ensures s[..|s| - 1] + [s[|s| - 1]] == s
  {
  }
}
