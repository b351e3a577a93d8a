// Putting a list back together from numbered pieces stored in any order.
module Gathering {
  datatype Piece<P> = Piece(owner: nat, position: nat, payload: P)

  type Numbered<P> = seq<(nat, P)>

  // The pieces of one owner, in the order they come.
  function Of<P>(pieces: seq<Piece<P>>, owner: nat): Numbered<P> {
    if pieces == [] then []
    else
      var front, last := Of(pieces[..|pieces| - 1], owner), pieces[|pieces| - 1];
      if last.owner == owner then front + [(last.position, last.payload)] else front
  }

  function AtOrEmpty<P>(m: map<nat, Numbered<P>>, owner: nat): Numbered<P> {
    if owner in m then m[owner] else []
  }

  method Gather<P>(pieces: seq<Piece<P>>) returns (m: map<nat, Numbered<P>>)
    ensures forall owner :: AtOrEmpty(m, owner) == Of(pieces, owner)
    ensures forall owner :: owner in m <==> Of(pieces, owner) != []
  {
    m := map[];
    for i := 0 to |pieces|
      invariant forall owner :: AtOrEmpty(m, owner) == Of(pieces[..i], owner)
      invariant forall owner :: owner in m <==> Of(pieces[..i], owner) != []
    {
      var x := pieces[i];
      assert pieces[..i + 1][..i] == pieces[..i];
      m := m[x.owner := AtOrEmpty(m, x.owner) + [(x.position, x.payload)]];
    }
    assert pieces[..|pieces|] == pieces;
  }

  // ------------------------------------------------------------- sorting

  function Place<P>(x: (nat, P), s: Numbered<P>): (r: Numbered<P>)
    ensures |r| == |s| + 1
  {
    if s == [] || s[|s| - 1].0 <= x.0 then s + [x] else Place(x, s[..|s| - 1]) + [s[|s| - 1]]
  }

  // A stable sort by position.
  function Sort<P>(s: Numbered<P>): (r: Numbered<P>)
    ensures |r| == |s|
  {
    if s == [] then [] else Place(s[|s| - 1], Sort(s[..|s| - 1]))
  }

  function Payloads<P>(s: Numbered<P>): (r: seq<P>)
    ensures |r| == |s|
  {
    seq(|s|, i requires 0 <= i < |s| => s[i].1)
  }

  ghost function Positions<P>(s: Numbered<P>): set<nat> {
    if s == [] then {} else Positions(s[..|s| - 1]) + {s[|s| - 1].0}
  }

  // Each piece is in its place in `whole`.
  ghost predicate From<P>(s: Numbered<P>, whole: seq<P>) {
    forall i :: 0 <= i < |s| ==> s[i].0 < |whole| && s[i].1 == whole[s[i].0]
  }

  ghost predicate Rising<P>(s: Numbered<P>) { forall i, j :: 0 <= i < j < |s| ==> s[i].0 < s[j].0 }

  ghost predicate Distinct<P>(s: Numbered<P>) { forall i, j :: 0 <= i < j < |s| ==> s[i].0 != s[j].0 }

  lemma {:induction false} InPositions<P>(s: Numbered<P>, i: nat)
    requires i < |s|
    ensures s[i].0 in Positions(s)
  {
    if i < |s| - 1 {
      InPositions(s[..|s| - 1], i);
      assert s[..|s| - 1][i] == s[i];
    }
  }

  lemma {:induction false} PositionAt<P>(s: Numbered<P>, p: nat) returns (i: nat)
    requires p in Positions(s)
    ensures i < |s| && s[i].0 == p
  {
    if s[|s| - 1].0 == p {
      i := |s| - 1;
    } else {
      i := PositionAt(s[..|s| - 1], p);
    }
  }

  lemma {:induction false} PositionsSnoc<P(!new)>(s: Numbered<P>, x: (nat, P))
    ensures Positions(s + [x]) == Positions(s) + {x.0}
  {
    assert (s + [x])[..|s|] == s;
  }

  lemma {:induction false} PlacePositions<P(!new)>(x: (nat, P), s: Numbered<P>)
    ensures Positions(Place(x, s)) == Positions(s) + {x.0}
  {
    if s == [] || s[|s| - 1].0 <= x.0 {
      PositionsSnoc(s, x);
    } else {
      var n := |s| - 1;
      PlacePositions(x, s[..n]);
      PositionsSnoc(Place(x, s[..n]), s[n]);
    }
  }

  lemma {:induction false} PlaceFrom<P(!new)>(x: (nat, P), s: Numbered<P>, whole: seq<P>)
    requires From(s, whole) && x.0 < |whole| && x.1 == whole[x.0]
    ensures From(Place(x, s), whole)
  {
    if s != [] && s[|s| - 1].0 > x.0 {
      PlaceFrom(x, s[..|s| - 1], whole);
    }
  }

  lemma {:induction false} PlaceRising<P(!new)>(x: (nat, P), s: Numbered<P>)
    requires Rising(s) && x.0 !in Positions(s)
    ensures Rising(Place(x, s))
  {
    if s != [] && s[|s| - 1].0 <= x.0 {
      InPositions(s, |s| - 1);
    } else if s != [] {
      var n := |s| - 1;
      PlaceRising(x, s[..n]);
      var r := Place(x, s[..n]);
      PlacePositions(x, s[..n]);
      forall i | 0 <= i < |r| ensures r[i].0 < s[n].0 {
        InPositions(r, i);
        if r[i].0 != x.0 {
          var k := PositionAt(s[..n], r[i].0);
          assert s[..n][k] == s[k];
        }
      }
    }
  }

  lemma {:induction false} SortKeeps<P(!new)>(s: Numbered<P>, whole: seq<P>)
    requires Distinct(s)
    ensures Rising(Sort(s)) && Positions(Sort(s)) == Positions(s)
    ensures From(s, whole) ==> From(Sort(s), whole)
  {
    if s != [] {
      var n := |s| - 1;
      SortKeeps(s[..n], whole);
      if s[n].0 in Positions(s[..n]) {
        var k := PositionAt(s[..n], s[n].0);
        assert false;
      }
      PlaceRising(s[n], Sort(s[..n]));
      PlacePositions(s[n], Sort(s[..n]));
      if From(s, whole) {
        PlaceFrom(s[n], Sort(s[..n]), whole);
      }
    }
  }

  // Rising numbers below `n`, `n` of them: the numbers 0 to n - 1.
  lemma {:induction false} Dense<P>(s: Numbered<P>, i: nat)
    requires Rising(s) && i < |s| && forall k :: 0 <= k < |s| ==> s[k].0 < |s|
    ensures s[i].0 == i
  {
    AtLeast(s, i);
    AtMost(s, i);
  }

  lemma {:induction false} AtLeast<P>(s: Numbered<P>, i: nat)
    requires Rising(s) && i < |s|
    ensures s[i].0 >= i
  {
    if i > 0 {
      AtLeast(s, i - 1);
    }
  }

  lemma {:induction false} AtMost<P>(s: Numbered<P>, i: nat)
    requires Rising(s) && i < |s| && forall k :: 0 <= k < |s| ==> s[k].0 < |s|
    ensures s[i].0 <= i
    decreases |s| - i
  {
    if i + 1 < |s| {
      AtMost(s, i + 1);
    }
  }

  // Sorted by position, the pieces of a list are the list.
  lemma {:induction false} PutTogether<P(!new)>(s: Numbered<P>, whole: seq<P>)
    requires Distinct(s) && From(s, whole) && |s| == |whole|
    ensures Payloads(Sort(s)) == whole
  {
    SortKeeps(s, whole);
    var r := Sort(s);
    forall i | 0 <= i < |r| ensures Payloads(r)[i] == whole[i] {
      Dense(r, i);
    }
  }

  // ------------------------------------------------------------- counting

  ghost function UpTo(n: nat): set<nat> {
    if n == 0 then {} else UpTo(n - 1) + {n - 1}
  }

  lemma {:induction false} UpToHas(n: nat)
    ensures |UpTo(n)| == n && forall x :: x in UpTo(n) <==> 0 <= x < n
  {
    if n > 0 {
      UpToHas(n - 1);
    }
  }

  lemma {:induction false} PositionCount<P(!new)>(s: Numbered<P>)
    requires Distinct(s)
    ensures |Positions(s)| == |s|
  {
    if s != [] {
      var n := |s| - 1;
      PositionCount(s[..n]);
      if s[n].0 in Positions(s[..n]) {
        var k := PositionAt(s[..n], s[n].0);
        assert false;
      }
    }
  }

  // Distinct pieces of a list with none missing are as many as it is long.
  lemma {:induction false} NoneMissing<P(!new)>(s: Numbered<P>, whole: seq<P>)
    requires Distinct(s) && From(s, whole) && forall p :: 0 <= p < |whole| ==> p in Positions(s)
    ensures |s| == |whole|
  {
    PositionCount(s);
    UpToHas(|whole|);
    forall p | p in Positions(s) ensures p in UpTo(|whole|) {
      var i := PositionAt(s, p);
    }
    assert Positions(s) == UpTo(|whole|);
  }

  // ------------------------------------------------------------- together

  // The pieces are those of `wholes`, each once.
  ghost predicate Pieces<P>(pieces: seq<Piece<P>>, wholes: map<nat, seq<P>>) {
    && (forall i :: 0 <= i < |pieces| ==> Fits(pieces[i], wholes))
    && (forall i, j :: 0 <= i < j < |pieces| ==>
      !(pieces[i].owner == pieces[j].owner && pieces[i].position == pieces[j].position))
  }

  ghost predicate Fits<P>(x: Piece<P>, wholes: map<nat, seq<P>>) {
    x.owner in wholes && x.position < |wholes[x.owner]| && x.payload == wholes[x.owner][x.position]
  }

  ghost predicate Held<P>(pieces: seq<Piece<P>>, owner: nat, position: nat) {
    exists i :: 0 <= i < |pieces| && pieces[i].owner == owner && pieces[i].position == position
  }

  lemma {:induction false} OfComesFrom<P(!new)>(pieces: seq<Piece<P>>, owner: nat, p: nat) returns (i: nat)
    requires p in Positions(Of(pieces, owner))
    ensures i < |pieces| && pieces[i].owner == owner && pieces[i].position == p
  {
    var n := |pieces| - 1;
    PositionsSnoc(Of(pieces[..n], owner), (pieces[n].position, pieces[n].payload));
    if pieces[n].owner == owner && pieces[n].position == p {
      i := n;
    } else {
      i := OfComesFrom(pieces[..n], owner, p);
    }
  }

  lemma {:induction false} OfHas<P(!new)>(pieces: seq<Piece<P>>, i: nat)
    requires i < |pieces|
    ensures pieces[i].position in Positions(Of(pieces, pieces[i].owner))
  {
    var n := |pieces| - 1;
    PositionsSnoc(Of(pieces[..n], pieces[i].owner), (pieces[n].position, pieces[n].payload));
    if i < n {
      OfHas(pieces[..n], i);
      assert pieces[..n][i] == pieces[i];
    }
  }

  lemma {:induction false} OfFits<P(!new)>(pieces: seq<Piece<P>>, wholes: map<nat, seq<P>>, owner: nat)
    requires Pieces(pieces, wholes)
    ensures Distinct(Of(pieces, owner))
    ensures if owner in wholes then From(Of(pieces, owner), wholes[owner]) else Of(pieces, owner) == []
  {
    if pieces != [] {
      var n := |pieces| - 1;
      OfFits(pieces[..n], wholes, owner);
      assert Fits(pieces[n], wholes);
      if pieces[n].owner == owner {
        var s, x := Of(pieces[..n], owner), pieces[n];
        forall i | 0 <= i < |s| ensures s[i].0 != x.position {
          InPositions(s, i);
          var j := OfComesFrom(pieces[..n], owner, s[i].0);
          assert pieces[..n][j] == pieces[j];
        }
      }
    }
  }

  // A list stored in numbered pieces comes back whole, whatever order they are read in.
  lemma {:induction false} ComesBack<P(!new)>(pieces: seq<Piece<P>>, wholes: map<nat, seq<P>>, owner: nat)
    requires Pieces(pieces, wholes) && owner in wholes
    requires forall p :: 0 <= p < |wholes[owner]| ==> Held(pieces, owner, p)
    ensures Payloads(Sort(Of(pieces, owner))) == wholes[owner]
  {
    OfFits(pieces, wholes, owner);
    forall p | 0 <= p < |wholes[owner]| ensures p in Positions(Of(pieces, owner)) {
      assert Held(pieces, owner, p);
      var i :| 0 <= i < |pieces| && pieces[i].owner == owner && pieces[i].position == p;
      OfHas(pieces, i);
    }
    NoneMissing(Of(pieces, owner), wholes[owner]);
    PutTogether(Of(pieces, owner), wholes[owner]);
  }
}
