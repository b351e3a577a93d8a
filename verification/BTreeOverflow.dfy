// Overflow chains: payloads too large for a leaf, written, read and released page by page.
module BTreeOverflow {
  import opened Bytes
  import opened PageImage
  import opened Wrappers
  import opened Paging
  import opened BTreeModel

  // Every way a tree operation can fail. `NoPages` stands for a page id beyond `u32`.
  datatype Fault =
    | NotANode | TooDeep
    | BadChain | ChunkOutOfRange | LengthMismatch
    | ShortItem | TruncatedDescriptor | UnknownFlag
    | SingleEntry | LeafHalfTooBig
    | DuplicateSeparator | NodeTooSmall | NodeHalfTooBig
    | UnexpectedPage | NoPages

  // `after` differs from `pages` at most on `ids`.
  ghost predicate OnlyChanged(pages: Pages, after: Pages, ids: set<PageId>) {
    forall p :: p in pages && p !in ids ==> p in after && after[p] == pages[p]
  }

  // One overflow page holding `chunk` and pointing at `next`.
  function OverflowImage(blank: Image, chunk: seq<byte>, next: PageId): (p: Image)
    requires blank == Blank(Overflow) && |chunk| <= OVERFLOW_CHUNK
    ensures p.Record? && p.kind == Overflow && p.extra == next && |p.body| == CAPACITY
    ensures p.body[..4] == ToLE(|chunk|, 4) && p.body[4..4 + |chunk|] == chunk
  {
    blank.(extra := next, body := ToLE(|chunk|, 4) + chunk + blank.body[4 + |chunk|..])
  }

  // One turn of the writing loop: a page for `chunk`, pointing at `next`.
  method WriteChunk(pager: Pager, chunk: seq<byte>, next: PageId) returns (r: Option<PageId>)
    requires pager.Valid() && |chunk| <= OVERFLOW_CHUNK
    modifies pager
    ensures pager.Valid()
    ensures r.None? ==> pager.pages == old(pager.pages) && pager.Used() == old(pager.Used())
    ensures r.Some? ==>
            && r.value !in old(pager.Used()) && HoldsChunk(pager.pages, r.value, chunk, next)
            && pager.Used() == old(pager.Used()) + {r.value}
            && OnlyChanged(old(pager.pages), pager.pages, {r.value})
  {
    r := pager.AllocPage(Overflow);
    if r.Some? {
      pager.WritePage(r.value, OverflowImage(pager.pages[r.value], chunk, next));
    }
  }

  lemma {:induction false} ChainSetPrepend(id: PageId, chain: seq<PageId>)
    requires NoDuplicates(chain) && id !in ChainSet(chain)
    ensures NoDuplicates([id] + chain)
    ensures ChainSet([id] + chain) == {id} + ChainSet(chain)
  {
  }

  lemma {:induction false} ChunkPrepended(pages: Pages, after: Pages, id: PageId, chain: seq<PageId>,
                                          chunks: seq<seq<byte>>, i: nat)
    requires i < |chunks| && HoldsChunks(pages, chain, chunks[i + 1..])
    requires Agree(pages, after, ChainSet(chain)) && HoldsChunk(after, id, chunks[i], First(chain))
    ensures HoldsChunks(after, [id] + chain, chunks[i..])
  {
    ChunksFrame(pages, after, chain, chunks[i + 1..]);
    var chain', chunks' := [id] + chain, chunks[i..];
    forall j | 0 <= j < |chain'| ensures HoldsAt(after, chain', chunks', j) {
      if j == 0 {
        assert chain'[1..] == chain;
      } else {
        assert chain'[j + 1..] == chain[j..];
        assert HoldsAt(after, chain, chunks[i + 1..], j - 1);
      }
    }
  }

  method WriteOverflow(pager: Pager, data: seq<byte>) returns (r: Result<PageId, Fault>, ghost chain: seq<PageId>)
    requires pager.Valid()
    modifies pager
    ensures pager.Valid()
    ensures r.Ok? ==> HoldsChain(pager.pages, chain, data) && r.value == First(chain)
    ensures r.Err? ==> r.error == NoPages
    ensures NoDuplicates(chain) && ChainSet(chain) !! old(pager.Used())
    ensures pager.Used() == old(pager.Used()) + ChainSet(chain)
    ensures Agree(old(pager.pages), pager.pages, old(pager.Used()))
  {
    var chunks := Chunks(data);
    var i := |chunks|;
    var next := NO_PAGE;
    chain := [];
    ghost var before, used := pager.pages, pager.Used();
    while i > 0
      invariant 0 <= i <= |chunks|
      invariant pager.Valid()
      invariant next == First(chain)
      invariant HoldsChunks(pager.pages, chain, chunks[i..])
      invariant NoDuplicates(chain) && ChainSet(chain) !! used
      invariant pager.Used() == used + ChainSet(chain)
      invariant Agree(before, pager.pages, used)
    {
      i := i - 1;
      ghost var mid := pager.pages;
      var got := WriteChunk(pager, chunks[i], next);
      if got.None? {
        return Err(NoPages), chain;
      }
      ChainSetPrepend(got.value, chain);
      ChunkPrepended(mid, pager.pages, got.value, chain, chunks, i);
      chain := [got.value] + chain;
      next := got.value;
    }
    assert chunks[0..] == chunks;
    return Ok(next), chain;
  }

  // What the first page of a chain says, and what is left after it.
  lemma {:induction false} ChunksStep(pages: Pages, chain: seq<PageId>, chunks: seq<seq<byte>>)
    requires HoldsChunks(pages, chain, chunks) && chain != []
    ensures chain[0] != NO_PAGE && chain[0] in pages
    ensures var p := pages[chain[0]];
            && p.Record? && p.kind.Overflow? && |p.body| == CAPACITY
            && |chunks[0]| <= OVERFLOW_CHUNK
            && FromLE(LeField(p.body, 0, 4)) == |chunks[0]|
            && p.body[4..4 + |chunks[0]|] == chunks[0]
            && p.extra == First(chain[1..])
    ensures HoldsChunks(pages, chain[1..], chunks[1..])
  {
    assert HoldsAt(pages, chain, chunks, 0);
    var p := pages[chain[0]];
    assert LeField(p.body, 0, 4) == p.body[..4];
    LERoundTrip(|chunks[0]|, 4);
    Widths();
    forall i | 0 <= i < |chain[1..]| ensures HoldsAt(pages, chain[1..], chunks[1..], i) {
      assert HoldsAt(pages, chain, chunks, i + 1);
      assert chain[1..][i + 1..] == chain[i + 2..];
    }
  }

  // A chain read back is exactly what was written, and the descriptor's length is checked
  // against it.
  method ReadOverflow(pager: Pager, first: PageId, total: nat, ghost chain: seq<PageId>, ghost data: seq<byte>)
    returns (r: Result<seq<byte>, Fault>)
    requires HoldsChain(pager.pages, chain, data) && first == First(chain)
    ensures r == if |data| == total then Ok(data) else Err(LengthMismatch)
  {
    var out: seq<byte> := [];
    var id := first;
    ghost var left, chunks := chain, Chunks(data);
    ChunksJoin(data);
    if left != [] {
      ChunksStep(pager.pages, left, chunks);
    }
    while id != NO_PAGE
      invariant id == First(left)
      invariant HoldsChunks(pager.pages, left, chunks)
      invariant left != [] ==> id != NO_PAGE
      invariant out + Joined(chunks) == data
      decreases |left|
    {
      ChunksStep(pager.pages, left, chunks);
      var p := pager.pages[id];
      if p.kind != Overflow {
        return Err(BadChain);
      }
      var len := FromLE(LeField(p.body, 0, 4));
      if len > OVERFLOW_CHUNK {
        return Err(ChunkOutOfRange);
      }
      out := out + p.body[4..4 + len];
      id := p.extra;
      left, chunks := left[1..], chunks[1..];
      if left != [] {
        ChunksStep(pager.pages, left, chunks);
      }
    }
    assert out + [] == out;
    if |out| != total {
      return Err(LengthMismatch);
    }
    return Ok(out);
  }

  lemma {:induction false} ChainSetTail(chain: seq<PageId>)
    requires NoDuplicates(chain) && chain != []
    ensures NoDuplicates(chain[1..])
    ensures ChainSet(chain) == {chain[0]} + ChainSet(chain[1..]) && chain[0] !in ChainSet(chain[1..])
  {
    assert chain == [chain[0]] + chain[1..];
  }

  method FreeOverflow(pager: Pager, first: PageId, ghost chain: seq<PageId>, ghost chunks: seq<seq<byte>>)
    requires pager.Valid()
    requires HoldsChunks(pager.pages, chain, chunks) && first == First(chain)
    requires NoDuplicates(chain) && ChainSet(chain) <= pager.Used()
    modifies pager
    ensures pager.Valid()
    ensures pager.Used() == old(pager.Used()) - ChainSet(chain)
    ensures OnlyChanged(old(pager.pages), pager.pages, ChainSet(chain))
  {
    var id := first;
    ghost var left, rest := chain, chunks;
    ghost var before := pager.pages;
    ghost var gone: set<PageId> := {};
    if left != [] {
      ChunksStep(pager.pages, left, rest);
    }
    while id != NO_PAGE
      invariant pager.Valid()
      invariant id == First(left)
      invariant HoldsChunks(pager.pages, left, rest)
      invariant left != [] ==> id != NO_PAGE
      invariant NoDuplicates(left) && ChainSet(left) <= pager.Used()
      invariant pager.Used() == old(pager.Used()) - gone
      invariant gone + ChainSet(left) == ChainSet(chain)
      invariant OnlyChanged(before, pager.pages, ChainSet(chain))
      decreases |left|
    {
      ChunksStep(pager.pages, left, rest);
      ChainSetTail(left);
      var next := pager.pages[id].extra;
      ghost var mid := pager.pages;
      pager.FreePage(id);
      gone := gone + {id};
      left, rest := left[1..], rest[1..];
      ChunksFrame(mid, pager.pages, left, rest);
      if left != [] {
        ChunksStep(pager.pages, left, rest);
      }
      id := next;
    }
    assert ChainSet(left) == {};
  }
}
