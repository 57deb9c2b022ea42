/**
 * The article stitcher of the China Daily adapter (`SplitJointPagination`):
 * while the current article page has a "Next" link, the children of its
 * `div#Content` are appended to the end of the next page's `div#Content`,
 * and the next page becomes the current one.
 *
 * Pages are pre-parsed records. The pages that the successive "Next" hrefs
 * return are given as a finite sequence `fetched`; where it ends, the fetch
 * of the next href failed.
 */
module Stitcher {
  import opened Wrappers

  type Url = string

  /** One child node of an article page's `div#Content`, kept as opaque markup. */
  datatype Fragment = Fragment(markup: string)

  /** A parsed article page: the children of its `div#Content` and its "Next" href. */
  datatype ArticlePage = ArticlePage(content: seq<Fragment>, next: Option<Url>)

  /** The failure the source raises: the next page (raw href) could not be fetched and parsed. */
  datatype StitchError = FetchFailed(href: Url)

  /**
   * `SplitJointPagination` as written: the older content goes AFTER the
   * newer page's own content.
   */
  function SplitJointPagination(page: ArticlePage, fetched: seq<ArticlePage>): (r: Result<ArticlePage, StitchError>)
    ensures page.next.None? ==> r == Ok(page)
    ensures r.Ok? ==> r.value.next.None?
    decreases |fetched|
  {
    match page.next
    case None => Ok(page)
    case Some(href) =>
      if fetched == [] then Err(FetchFailed(href))
      else
        var post := fetched[0];
        SplitJointPagination(post.(content := post.content + page.content), fetched[1..])
  }

  /** The contents of `pages`, the last page's first: C, B, A for pages A, B, C. */
  function NewestFirst(pages: seq<ArticlePage>): seq<Fragment> {
    if pages == [] then [] else NewestFirst(pages[1..]) + pages[0].content
  }

  /** The contents of `pages` in page order: A, B, C for pages A, B, C. */
  function InPageOrder(pages: seq<ArticlePage>): seq<Fragment> {
    if pages == [] then [] else pages[0].content + InPageOrder(pages[1..])
  }

  /** `pages[k]` is the first page of the chain without a "Next" link. */
  predicate FirstWithoutNext(pages: seq<ArticlePage>, k: int) {
    0 <= k < |pages| && pages[k].next.None? && forall j :: 0 <= j < k ==> pages[j].next.Some?
  }

  /**
   * Recursion ends at the first page without "Next"; that page is returned,
   * its content holding its own fragments followed by those of every earlier
   * page, newest first.
   */
  lemma {:induction false} StitchNewestFirst(page: ArticlePage, fetched: seq<ArticlePage>, k: nat)
    requires FirstWithoutNext([page] + fetched, k)
    ensures SplitJointPagination(page, fetched)
         == Ok(([page] + fetched)[k].(content := NewestFirst(([page] + fetched)[..k + 1])))
    decreases |fetched|
  {
    var pages := [page] + fetched;
    if k == 0 {
      assert pages[..1] == [page];
      assert NewestFirst(pages[..1]) == NewestFirst([]) + page.content == page.content;
      assert pages[0] == page;
    } else {
      assert pages[0].next.Some?;
      var post := fetched[0];
      var merged := post.(content := post.content + page.content);
      var pages' := [merged] + fetched[1..];
      forall j | 0 <= j < k - 1
        ensures pages'[j].next.Some?
      {
        assert pages'[j].next == pages[j + 1].next;
      }
      assert pages'[k - 1].next == pages[k].next;
      StitchNewestFirst(merged, fetched[1..], k - 1);
      var tail := fetched[1..][..k - 1];
      assert pages'[..k] == [merged] + tail;
      assert pages'[..k][1..] == tail;
      assert pages[..k + 1] == [page] + ([post] + tail);
      assert pages[..k + 1][1..] == [post] + tail;
      assert ([post] + tail)[1..] == tail;
      assert NewestFirst(pages'[..k]) == NewestFirst(tail) + merged.content;
      assert NewestFirst([post] + tail) == NewestFirst(tail) + post.content;
      assert NewestFirst(pages[..k + 1]) == NewestFirst([post] + tail) + page.content;
      assert pages'[k - 1] == pages[k].(content := pages'[k - 1].content);
      assert NewestFirst(pages'[..k]) == NewestFirst(pages[..k + 1]);
    }
  }

  /** If every page of the chain has "Next", the fetch after the last one fails. */
  lemma {:induction false} StitchFailsPastChain(page: ArticlePage, fetched: seq<ArticlePage>)
    requires forall j :: 0 <= j < |[page] + fetched| ==> ([page] + fetched)[j].next.Some?
    ensures SplitJointPagination(page, fetched) == Err(FetchFailed(([page] + fetched)[|fetched|].next.value))
    decreases |fetched|
  {
    var pages := [page] + fetched;
    assert pages[0] == page;
    if fetched != [] {
      var post := fetched[0];
      var merged := post.(content := post.content + page.content);
      var pages' := [merged] + fetched[1..];
      forall j | 0 <= j < |pages'|
        ensures pages'[j].next.Some?
      {
        assert pages'[j].next == pages[j + 1].next;
      }
      StitchFailsPastChain(merged, fetched[1..]);
      assert pages'[|fetched| - 1].next == pages[|fetched|].next;
    }
  }

  /** Three pages with fragments A, B, C come out as C, B, A on the last page. */
  lemma ThreePagesReversed(a: Fragment, b: Fragment, c: Fragment, toB: Url, toC: Url)
    ensures SplitJointPagination(ArticlePage([a], Some(toB)),
                                 [ArticlePage([b], Some(toC)), ArticlePage([c], None)])
         == Ok(ArticlePage([c, b, a], None))
  {
    var pageA, pageB, pageC := ArticlePage([a], Some(toB)), ArticlePage([b], Some(toC)), ArticlePage([c], None);
    assert [pageB, pageC][1..] == [pageC] && [pageC][1..] == [];
    assert [b] + [a] == [b, a] && [c] + [b, a] == [c, b, a];
    assert SplitJointPagination(pageA, [pageB, pageC])
        == SplitJointPagination(pageB.(content := [b] + [a]), [pageC]);
    assert SplitJointPagination(pageB.(content := [b] + [a]), [pageC])
        == SplitJointPagination(pageC.(content := [c] + [b, a]), []);
  }

  /**
   * The stitcher with the older content placed BEFORE the newer page's own
   * content, so that the article reads in page order.
   */
  function SplitJointPaginationInOrder(page: ArticlePage, fetched: seq<ArticlePage>): (r: Result<ArticlePage, StitchError>)
    ensures page.next.None? ==> r == Ok(page)
    ensures r.Ok? ==> r.value.next.None?
    decreases |fetched|
  {
    match page.next
    case None => Ok(page)
    case Some(href) =>
      if fetched == [] then Err(FetchFailed(href))
      else
        var post := fetched[0];
        SplitJointPaginationInOrder(post.(content := page.content + post.content), fetched[1..])
  }

  /** The corrected stitcher puts every page's fragments in page order on the first page without "Next". */
  lemma {:induction false} StitchInOrder(page: ArticlePage, fetched: seq<ArticlePage>, k: nat)
    requires FirstWithoutNext([page] + fetched, k)
    ensures SplitJointPaginationInOrder(page, fetched)
         == Ok(([page] + fetched)[k].(content := InPageOrder(([page] + fetched)[..k + 1])))
    decreases |fetched|
  {
    var pages := [page] + fetched;
    if k == 0 {
      assert pages[..1] == [page];
      assert InPageOrder(pages[..1]) == page.content + InPageOrder([]) == page.content;
      assert pages[0] == page;
    } else {
      assert pages[0].next.Some?;
      var post := fetched[0];
      var merged := post.(content := page.content + post.content);
      var pages' := [merged] + fetched[1..];
      forall j | 0 <= j < k - 1
        ensures pages'[j].next.Some?
      {
        assert pages'[j].next == pages[j + 1].next;
      }
      assert pages'[k - 1].next == pages[k].next;
      StitchInOrder(merged, fetched[1..], k - 1);
      var tail := fetched[1..][..k - 1];
      assert pages'[..k] == [merged] + tail;
      assert pages'[..k][1..] == tail;
      assert pages[..k + 1] == [page] + ([post] + tail);
      assert pages[..k + 1][1..] == [post] + tail;
      assert ([post] + tail)[1..] == tail;
      assert InPageOrder(pages'[..k]) == merged.content + InPageOrder(tail);
      assert InPageOrder([post] + tail) == post.content + InPageOrder(tail);
      assert InPageOrder(pages[..k + 1]) == page.content + InPageOrder([post] + tail);
      assert pages'[k - 1] == pages[k].(content := pages'[k - 1].content);
      assert InPageOrder(pages'[..k]) == InPageOrder(pages[..k + 1]);
    }
  }

  /** With the correction, three pages with fragments A, B, C come out as A, B, C. */
  lemma ThreePagesInOrder(a: Fragment, b: Fragment, c: Fragment, toB: Url, toC: Url)
    ensures SplitJointPaginationInOrder(ArticlePage([a], Some(toB)),
                                        [ArticlePage([b], Some(toC)), ArticlePage([c], None)])
         == Ok(ArticlePage([a, b, c], None))
  {
    var pageA, pageB, pageC := ArticlePage([a], Some(toB)), ArticlePage([b], Some(toC)), ArticlePage([c], None);
    assert [pageB, pageC][1..] == [pageC] && [pageC][1..] == [];
    assert [a] + [b] == [a, b] && [a, b] + [c] == [a, b, c];
    assert SplitJointPaginationInOrder(pageA, [pageB, pageC])
        == SplitJointPaginationInOrder(pageB.(content := [a] + [b]), [pageC]);
    assert SplitJointPaginationInOrder(pageB.(content := [a] + [b]), [pageC])
        == SplitJointPaginationInOrder(pageC.(content := [a, b] + [c]), []);
  }
}
