// The page allocator under every structure in the data file: ids are handed out from a free list
// threaded through the `extra` field of freed pages, and from the end of the file when that is
// empty. Caching, journalling and the file itself are not part of this model.
module Paging {
  import opened PageImage
  import opened Wrappers

  // `Meta::page_count` is a `u32`, so the last id it can hand out is one below this.
  const MAX_PAGES: nat := 0xFFFF_FFFF

  ghost function Elements(s: seq<PageId>): set<PageId> {
    set p | p in s
  }

  ghost predicate NoDuplicates<T>(s: seq<T>) {
    forall i, j :: 0 <= i < j < |s| ==> s[i] != s[j]
  }

  // `free` is the list starting at `head`, linked through `extra` and ended by `NO_PAGE`.
  ghost predicate FreeChain(pages: map<PageId, Image>, head: PageId, free: seq<PageId>)
    decreases |free|
  {
    if free == [] then head == NO_PAGE
    else
      && head == free[0] && head != NO_PAGE && head in pages
      && pages[head].kind.Free?
      && FreeChain(pages, pages[head].extra, free[1..])
  }

  lemma {:induction false} FreeChainFrame(pages: map<PageId, Image>, after: map<PageId, Image>, head: PageId,
                                          free: seq<PageId>)
    requires FreeChain(pages, head, free)
    requires forall p :: p in free && p in pages ==> p in after && after[p] == pages[p]
    ensures FreeChain(after, head, free)
    decreases |free|
  {
    if free != [] {
      FreeChainFrame(pages, after, pages[head].extra, free[1..]);
    }
  }

  class Pager {
    var pages: map<PageId, Image>
    var pageCount: nat
    var freeHead: PageId
    ghost var free: seq<PageId>

    ghost predicate Valid()
      reads this
    {
      && 1 <= pageCount <= MAX_PAGES
      && (forall p: PageId :: p in pages <==> 1 <= p < pageCount)
      && (forall p :: p in pages ==> WellFormed(pages[p]))
      && FreeChain(pages, freeHead, free)
      && NoDuplicates(free)
      && (forall p :: p in free ==> p in pages)
    }

    // The pages some structure holds.
    ghost function Used(): set<PageId>
      reads this
    {
      pages.Keys - Elements(free)
    }

    // A fresh data file: page 0 is the meta page and belongs to nobody here.
    constructor ()
      ensures Valid() && Used() == {}
    {
      pages, pageCount, freeHead, free := map[], 1, NO_PAGE, [];
    }

    method AllocPage(kind: PageKind) returns (r: Option<PageId>)
      requires Valid()
      modifies this
      ensures Valid()
      ensures r.Some? ==>
              && r.value !in old(Used()) && r.value != NO_PAGE
              && pages == old(pages)[r.value := Blank(kind)]
              && Used() == old(Used()) + {r.value}
      ensures r.None? ==> pages == old(pages) && Used() == old(Used())
      ensures r.None? <==> old(free) == [] && old(pageCount) == MAX_PAGES
    {
      var id: PageId;
      if freeHead != NO_PAGE {
        id := freeHead;
        freeHead := pages[id].extra;
        free := free[1..];
        assert id !in free;
        FreeChainFrame(pages, pages[id := Blank(kind)], freeHead, free);
      } else {
        if pageCount == MAX_PAGES {
          return None;
        }
        id := pageCount;
        pageCount := pageCount + 1;
        FreeChainFrame(pages, pages[id := Blank(kind)], freeHead, free);
      }
      pages := pages[id := Blank(kind)];
      assert forall p :: p in Elements(free) + {id} <==> p in old(Elements(free)) + {id};
      return Some(id);
    }

    method FreePage(id: PageId)
      requires Valid() && id in Used()
      modifies this
      ensures Valid()
      ensures Used() == old(Used()) - {id}
      ensures pages == old(pages)[id := Slotted(Free, old(freeHead), [], PAGE_SIZE)]
    {
      var freed := Slotted(Free, freeHead, [], PAGE_SIZE);
      FreeChainFrame(pages, pages[id := freed], freeHead, free);
      pages := pages[id := freed];
      freeHead := id;
      free := [id] + free;
    }

    // `with_page_mut`: one page rewritten in place.
    method WritePage(id: PageId, image: Image)
      requires Valid() && id in Used() && WellFormed(image)
      modifies this
      ensures Valid()
      ensures Used() == old(Used())
      ensures pages == old(pages)[id := image]
    {
      FreeChainFrame(pages, pages[id := image], freeHead, free);
      pages := pages[id := image];
    }
  }
}
