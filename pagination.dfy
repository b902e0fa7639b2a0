/** The recursive `getter` generators of net.py: fetch a page, yield its items when
    the response is OK, then continue from the page's `next` link whatever the status.
    The HTTP transport is replaced by an abstract API: a map from URL to the page
    the server answers with. A URL the map does not hold stands for a non-OK
    response without links. */
module Pagination {
  import opened Common

  /** One HTTP response: whether its status is 200, its JSON array, and the
      `next` relation of its Link header if any. */
  datatype Page<T> = Page(ok: bool, items: seq<T>, next: Option<Url>)

  /** The server as seen by the walk. `rank` witnesses that every chain of
      `next` links is finite: it strictly decreases along each link. */
  datatype Api<T> = Api(pages: map<Url, Page<T>>, rank: map<Url, nat>)

  /** The page at `u` links to another page the server holds. */
  predicate HasNextPage<T>(api: Api<T>, u: Url)
    requires u in api.pages
  {
    api.pages[u].next.Some? && api.pages[u].next.value in api.pages
  }

  predicate Ranked<T>(api: Api<T>)
  {
    forall u :: u in api.pages ==>
      u in api.rank &&
      (HasNextPage(api, u) ==>
         api.pages[u].next.value in api.rank &&
         api.rank[api.pages[u].next.value] < api.rank[u])
  }

  function Measure<T>(api: Api<T>, url: Url): nat
    requires Ranked(api)
  {
    if url in api.pages then api.rank[url] + 1 else 0
  }

  /** What one response contributes: its items if OK, nothing otherwise. */
  function OkItems<T>(p: Page<T>): seq<T>
  {
    if p.ok then p.items else []
  }

  /** `getter(url)`: the items of this page when OK, followed by the walk from `next`. */
  function Walk<T>(api: Api<T>, url: Url): seq<T>
    requires Ranked(api)
    decreases Measure(api, url)
  {
    if url !in api.pages then []
    else
      var p := api.pages[url];
      OkItems(p) + match p.next
                   case None => []
                   case Some(v) => Walk(api, v)
  }

  /** The URLs whose responses the walk from `url` reads, in order. */
  function Chain<T>(api: Api<T>, url: Url): seq<Url>
    requires Ranked(api)
    decreases Measure(api, url)
  {
    if url !in api.pages then []
    else [url] + match api.pages[url].next
                 case None => []
                 case Some(v) => Chain(api, v)
  }

  /** `us` starts at `url`, goes from each page to the one its `next` link names,
      and stops at the first page that links to no further page. */
  ghost predicate FollowsLinks<T>(api: Api<T>, url: Url, us: seq<Url>)
  {
    if url !in api.pages then us == []
    else
      && |us| > 0 && us[0] == url
      && (forall i :: 0 <= i < |us| ==> us[i] in api.pages)
      && (forall i :: 0 <= i < |us| - 1 ==> api.pages[us[i]].next == Some(us[i + 1]))
      && !HasNextPage(api, us[|us| - 1])
  }

  /** The items of the OK pages among `us`, concatenated in the order of `us`. */
  function ConcatOk<T>(api: Api<T>, us: seq<Url>): seq<T>
    requires forall i :: 0 <= i < |us| ==> us[i] in api.pages
  {
    if us == [] then [] else OkItems(api.pages[us[0]]) + ConcatOk(api, us[1..])
  }

  /** The chain the walk reads is the link chain from `url`. */
  lemma {:induction false} ChainFollowsLinks<T>(api: Api<T>, url: Url)
    requires Ranked(api)
    ensures FollowsLinks(api, url, Chain(api, url))
    decreases Measure(api, url)
  {
    if url in api.pages {
      match api.pages[url].next
      case None =>
        assert Chain(api, url) == [url];
      case Some(v) =>
        ChainFollowsLinks(api, v);
        if v in api.pages {
          PrependLink(api, url, v, Chain(api, v));
        } else {
          assert Chain(api, url) == [url];
        }
    }
  }

  /** A page linking to `v` extends the link chain from `v` by one step. */
  lemma PrependLink<T>(api: Api<T>, url: Url, v: Url, rest: seq<Url>)
    requires url in api.pages && v in api.pages && api.pages[url].next == Some(v)
    requires FollowsLinks(api, v, rest)
    ensures FollowsLinks(api, url, [url] + rest)
  {
    var us := [url] + rest;
    forall i | 0 <= i < |us| ensures us[i] in api.pages {
      if i > 0 { assert us[i] == rest[i - 1]; }
    }
    forall i | 0 <= i < |us| - 1 ensures api.pages[us[i]].next == Some(us[i + 1]) {
      if i > 0 { assert us[i] == rest[i - 1] && us[i + 1] == rest[i]; }
    }
    assert us[|us| - 1] == rest[|rest| - 1];
  }

  /** The link chain from `url` is unique: any sequence that follows the links is the walk's chain. */
  lemma {:induction false} LinkChainIsUnique<T>(api: Api<T>, url: Url, us: seq<Url>)
    requires Ranked(api)
    requires FollowsLinks(api, url, us)
    ensures us == Chain(api, url)
    decreases Measure(api, url)
  {
    if url in api.pages {
      if |us| == 1 {
        assert !HasNextPage(api, url);
        match api.pages[url].next
        case None =>
        case Some(v) => assert Chain(api, v) == [];
      } else {
        var v := us[1];
        assert api.pages[url].next == Some(v);
        assert HasNextPage(api, url);
        var rest := us[1..];
        assert FollowsLinks(api, v, rest) by {
          forall i | 0 <= i < |rest| - 1 ensures api.pages[rest[i]].next == Some(rest[i + 1]) {
            assert rest[i] == us[i + 1] && rest[i + 1] == us[i + 2];
          }
        }
        LinkChainIsUnique(api, v, rest);
        assert us == [url] + rest;
      }
    }
  }

  /** The walk yields the items of the chain's OK pages, in link order. */
  lemma {:induction false} WalkConcatsChain<T>(api: Api<T>, url: Url)
    requires Ranked(api)
    ensures forall i :: 0 <= i < |Chain(api, url)| ==> Chain(api, url)[i] in api.pages
    ensures Walk(api, url) == ConcatOk(api, Chain(api, url))
    decreases Measure(api, url)
  {
    ChainFollowsLinks(api, url);
    if url in api.pages {
      match api.pages[url].next
      case None =>
        assert Chain(api, url) == [url];
        assert ConcatOk(api, [url][1..]) == [];
      case Some(v) =>
        WalkConcatsChain(api, v);
        assert Chain(api, url)[1..] == Chain(api, v);
    }
  }

  /** Pagination in one statement: for the sequence of pages linked from `url`,
      ending at the first page without a further page, the walk is exactly the
      concatenation of the items of its OK pages. A non-OK page contributes
      nothing but does not stop the walk. */
  lemma PaginationYieldsOkPagesInLinkOrder<T>(api: Api<T>, url: Url, us: seq<Url>)
    requires Ranked(api)
    requires FollowsLinks(api, url, us)
    ensures Walk(api, url) == ConcatOk(api, us)
  {
    LinkChainIsUnique(api, url, us);
    WalkConcatsChain(api, url);
  }

  /** A non-OK page is skipped, not a stop: the walk goes on from its `next` link. */
  lemma NonOkPageIsSkipped<T>(api: Api<T>, url: Url)
    requires Ranked(api)
    requires url in api.pages && !api.pages[url].ok && api.pages[url].next.Some?
    ensures Walk(api, url) == Walk(api, api.pages[url].next.value)
  {
  }

  /** N pages of S items each, all OK, yield N * S items. */
  lemma {:induction false} UniformPagesYieldCountTimesSize<T>(api: Api<T>, url: Url, size: nat)
    requires Ranked(api)
    requires forall i :: 0 <= i < |Chain(api, url)| ==>
               Chain(api, url)[i] in api.pages && UniformPage(api.pages[Chain(api, url)[i]], size)
    ensures |Walk(api, url)| == |Chain(api, url)| * size
    decreases Measure(api, url)
  {
    if url in api.pages {
      var chain := Chain(api, url);
      assert chain[0] == url;
      match api.pages[url].next
      case None =>
        assert |chain| == 1;
      case Some(v) =>
        var rest := Chain(api, v);
        assert chain == [url] + rest;
        forall i | 0 <= i < |rest| ensures rest[i] in api.pages && UniformPage(api.pages[rest[i]], size) {
          assert rest[i] == chain[i + 1];
        }
        UniformPagesYieldCountTimesSize(api, v, size);
        CountStep(|rest|, size);
    }
  }

  predicate UniformPage<T>(p: Page<T>, size: nat)
  {
    p.ok && |p.items| == size
  }

  lemma CountStep(n: nat, size: nat)
    ensures size + n * size == (n + 1) * size
  {
  }

  /** `get_result_contributors`: one response, its items if OK, its links ignored. */
  function FirstPage<T>(api: Api<T>, url: Url): seq<T>
  {
    if url in api.pages then OkItems(api.pages[url]) else []
  }

  /** Reading only the first page gives a prefix of the full walk, and all of it
      when that page has no `next` link. */
  lemma FirstPageIsPrefixOfWalk<T>(api: Api<T>, url: Url)
    requires Ranked(api)
    ensures FirstPage(api, url) <= Walk(api, url)
    ensures url in api.pages && api.pages[url].next.None? ==> FirstPage(api, url) == Walk(api, url)
  {
  }
}
