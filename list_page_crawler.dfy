/**
 * list_page_crawler.py: the URLs of the listing index pages, and the detail links read from one.
 *
 * Page 1 of a listing index lives at `<prefix>/`, page k at `<prefix>/p<k>/`; the prefix is the
 * site's base URL, or the base URL followed by a region slug. The links on a page are read by
 * browser-side JavaScript, which the model takes as an outcome.
 */
module ListPages {

  import opened Common
  import opened Text
  import opened Utils

  /** `f"{prefix}/"` for page 1 and `f"{prefix}/p{page}/"` for any other page. */
  function PagePath(prefix: string, page: int): string {
    if page == 1 then prefix + "/" else prefix + "/p" + IntToString(page) + "/"
  }

  /** The pages `1..pages` under one prefix, in order; `range(1, pages + 1)` is empty when `pages < 1`. */
  function PagesOf(prefix: string, pages: int): (urls: seq<string>)
    ensures |urls| == if pages > 0 then pages else 0
  {
    seq(if pages > 0 then pages else 0, i => PagePath(prefix, i + 1))
  }

  /** The pages of one configured region: none when the region is blank after stripping. */
  function RegionPages(base: string, region: string, pages: int): (urls: seq<string>)
    ensures |urls| == if Strip(region) != [] && pages > 0 then pages else 0
  {
    var slug := Strip(region);
    if slug != [] then PagesOf(base + "/" + slug, pages) else []
  }

  /** The lists `f` gives for the elements of `xs`, joined in the order of `xs`. */
  function Concat<T, U>(f: T -> seq<U>, xs: seq<T>): seq<U> {
    if xs == [] then [] else Concat(f, xs[..|xs| - 1]) + f(xs[|xs| - 1])
  }

  function RegionPagesWith(base: string, pages: int): string -> seq<string> {
    region => RegionPages(base, region, pages)
  }

  /** The URLs of the configured regions, region by region, in the configured order. */
  function RegionUrls(base: string, regions: seq<string>, pages: int): seq<string> {
    Concat(RegionPagesWith(base, pages), regions)
  }

  /** What `generate_list_urls` returns for a given page count. */
  function ListUrls(base: string, regions: seq<string>, pages: int): (urls: seq<string>)
    ensures |urls| == (if regions == [] then 1 else NonBlank(regions)) * (if pages > 0 then pages else 0)
  {
    CountWithRegions(base, regions, pages);
    if regions != [] then RegionUrls(base, regions, pages) else PagesOf(base, pages)
  }

  /** How many regions are not blank after stripping. */
  function NonBlank(regions: seq<string>): (n: nat)
    ensures n <= |regions|
  {
    if regions == [] then 0
    else NonBlank(regions[..|regions| - 1]) + (if Strip(regions[|regions| - 1]) != [] then 1 else 0)
  }

  /**
   * `generate_list_urls(pages)`: `pages` of `None` means `max_pages`; then one loop per region
   * (or a single loop over the base URL when no region is configured) appends the page URLs.
   */
  method GenerateListUrls(base: string, regions: seq<string>, pages: Option<int>, maxPages: int)
    returns (urls: seq<string>)
    ensures urls == ListUrls(base, regions, pages.GetOr(maxPages))
  {
    var count := pages.GetOr(maxPages);
    urls := [];
    if regions != [] {
      for j := 0 to |regions|
        invariant urls == RegionUrls(base, regions[..j], count)
      {
        assert regions[..j + 1][..j] == regions[..j];
        var region := Strip(regions[j]);
        if region != [] {
          var pageUrls := AppendPages(base + "/" + region, count);
          urls := urls + pageUrls;
        }
      }
      assert regions[..|regions|] == regions;
    } else {
      urls := AppendPages(base, count);
    }
  }

  /** The inner loop `for page in range(1, pages + 1)`, building one prefix's page URLs. */
  method AppendPages(prefix: string, pages: int) returns (urls: seq<string>)
    ensures urls == PagesOf(prefix, pages)
  {
    urls := [];
    if pages < 1 {
      return;
    }
    for page := 1 to pages + 1
      invariant urls == PagesOf(prefix, page - 1)
    {
      urls := urls + [PagePath(prefix, page)];
      assert PagesOf(prefix, page) == PagesOf(prefix, page - 1) + [PagePath(prefix, page)];
    }
  }

  // ---------------------------------------------------------------------------
  // Properties of the generated URLs

  /** With no regions there are exactly `pages` URLs (none for `pages <= 0`). */
  lemma CountWithoutRegions(base: string, pages: int)
    ensures |ListUrls(base, [], pages)| == if pages > 0 then pages else 0
  {
  }

  /** With regions, each non-blank region contributes `pages` URLs: blank-only regions give none. */
  lemma {:induction false} CountWithRegions(base: string, regions: seq<string>, pages: int)
    ensures |RegionUrls(base, regions, pages)| == NonBlank(regions) * (if pages > 0 then pages else 0)
  {
    if regions != [] {
      var init := regions[..|regions| - 1];
      var last := regions[|regions| - 1];
      var n := NonBlank(init);
      var p := if pages > 0 then pages else 0;
      CountWithRegions(base, init, pages);
      assert |RegionUrls(base, regions, pages)| == n * p + |RegionPages(base, last, pages)|;
      if Strip(last) != [] {
        assert NonBlank(regions) == n + 1;
        MulSucc(n, p);
      } else {
        assert NonBlank(regions) == n;
      }
    }
  }

  lemma MulSucc(n: int, p: int)
    ensures (n + 1) * p == n * p + p
  {
  }

  /** Every URL starts with the base URL and ends with "/". */
  lemma PagePathShape(prefix: string, base: string, page: int)
    requires IsPrefix(base, prefix)
    ensures IsPrefix(base, PagePath(prefix, page))
    ensures PagePath(prefix, page) != [] && PagePath(prefix, page)[|PagePath(prefix, page)| - 1] == '/'
  {
    var u := PagePath(prefix, page);
    assert u[..|prefix|] == prefix;
  }

  /** Distinct page numbers give distinct URLs under the same prefix. */
  lemma PagePathsDistinct(prefix: string, p: int, q: int)
    requires p >= 1 && q >= 1 && p != q
    ensures PagePath(prefix, p) != PagePath(prefix, q)
  {
    if p != 1 && q != 1 && PagePath(prefix, p) == PagePath(prefix, q) {
      var u := PagePath(prefix, p);
      var sp := IntToString(p);
      var sq := IntToString(q);
      assert |sp| == |sq|;
      assert u[|prefix| + 2..|u| - 1] == sp;
      assert u[|prefix| + 2..|u| - 1] == sq;
      ParseIntOfIntToString(p);
      ParseIntOfIntToString(q);
    }
  }

  /** The URLs of page `k` under one prefix sit at position `k - 1`. */
  lemma PagesOfMembers(prefix: string, pages: int, u: string)
    ensures u in PagesOf(prefix, pages) <==> exists k :: 1 <= k <= pages && u == PagePath(prefix, k)
  {
    var urls := PagesOf(prefix, pages);
    if exists k :: 1 <= k <= pages && u == PagePath(prefix, k) {
      var k :| 1 <= k <= pages && u == PagePath(prefix, k);
      assert urls[k - 1] == u;
    }
  }

  /** A region's pages are the pages `1..pages` under `<base>/<stripped region>`, if it is not blank. */
  lemma RegionPagesMembers(base: string, region: string, pages: int, u: string)
    ensures u in RegionPages(base, region, pages) <==>
      Strip(region) != [] && exists k :: 1 <= k <= pages && u == PagePath(base + "/" + Strip(region), k)
  {
    if Strip(region) != [] {
      PagesOfMembers(base + "/" + Strip(region), pages, u);
    }
  }

  /** An element of a concatenation comes from the list of some element, and each such list is in it. */
  lemma {:induction false} ConcatMembers<T, U>(f: T -> seq<U>, xs: seq<T>, u: U)
    ensures u in Concat(f, xs) <==> exists j :: 0 <= j < |xs| && u in f(xs[j])
  {
    if xs != [] {
      var init := xs[..|xs| - 1];
      var last := |xs| - 1;
      ConcatMembers(f, init, u);
      if exists j :: 0 <= j < |xs| && u in f(xs[j]) {
        var j :| 0 <= j < |xs| && u in f(xs[j]);
        if j < last {
          assert init[j] == xs[j];
        }
      }
      if u in Concat(f, init) {
        var j :| 0 <= j < |init| && u in f(init[j]);
        assert init[j] == xs[j];
      }
    }
  }

  /** Concatenation keeps the order: the lists of the earlier elements come first. */
  lemma {:induction false} ConcatAppend<T, U>(f: T -> seq<U>, xs: seq<T>, more: seq<T>)
    ensures Concat(f, xs) <= Concat(f, xs + more)
    decreases |more|
  {
    if more != [] {
      var all := xs + more;
      var init := more[..|more| - 1];
      assert all[..|all| - 1] == xs + init;
      ConcatAppend(f, xs, init);
    } else {
      assert xs + more == xs;
    }
  }

  /** A URL is generated for the regions exactly when it is one of the pages of some region. */
  lemma RegionUrlsMembers(base: string, regions: seq<string>, pages: int, u: string)
    ensures u in RegionUrls(base, regions, pages) <==>
      exists j :: 0 <= j < |regions| && u in RegionPages(base, regions[j], pages)
  {
    ConcatMembers(RegionPagesWith(base, pages), regions, u);
  }

  /** Regions keep their order: the URLs of the earlier regions come first. */
  lemma RegionUrlsAppend(base: string, regions: seq<string>, more: seq<string>, pages: int)
    ensures RegionUrls(base, regions, pages) <= RegionUrls(base, regions + more, pages)
  {
    ConcatAppend(RegionPagesWith(base, pages), regions, more);
  }

  /** The pages under a prefix of `base` start with `base` and end with "/". */
  lemma PagesOfShape(prefix: string, base: string, pages: int, u: string)
    requires IsPrefix(base, prefix)
    requires u in PagesOf(prefix, pages)
    ensures IsPrefix(base, u) && u != [] && u[|u| - 1] == '/'
  {
    PagesOfMembers(prefix, pages, u);
    var k :| 1 <= k <= pages && u == PagePath(prefix, k);
    PagePathShape(prefix, base, k);
  }

  /** Every generated URL starts with the base URL and ends with "/". */
  lemma ListUrlsShape(base: string, regions: seq<string>, pages: int, u: string)
    requires u in ListUrls(base, regions, pages)
    ensures IsPrefix(base, u) && u != [] && u[|u| - 1] == '/'
  {
    if regions == [] {
      PagesOfShape(base, base, pages, u);
    } else {
      RegionUrlsMembers(base, regions, pages, u);
      var j :| 0 <= j < |regions| && u in RegionPages(base, regions[j], pages);
      var prefix := base + "/" + Strip(regions[j]);
      assert prefix[..|base|] == base;
      PagesOfShape(prefix, base, pages, u);
    }
  }

  // ---------------------------------------------------------------------------
  // extract_house_links

  /** `links[:n]` with Python's slice semantics: a negative `n` counts from the end. */
  function SlicePrefix<T>(links: seq<T>, n: int): (r: seq<T>)
    ensures |r| <= |links| && r == links[..|r|]
    ensures n >= 0 ==> |r| == if n < |links| then n else |links|
    ensures n < 0 ==> |r| == if |links| + n > 0 then |links| + n else 0
  {
    if n >= 0 then (if n < |links| then links[..n] else links)
    else if |links| + n > 0 then links[..|links| + n] else []
  }

  /**
   * The links `extract_house_links` returns: none when navigation raises or the status is not
   * 200, or when the script raises; otherwise the script's links, cut to `max_houses` when longer.
   */
  function HouseLinks(status: Outcome<int>, script: Outcome<seq<string>>, maxHouses: int): (links: seq<string>)
    ensures links != [] ==> status == Returned(200) && script.Returned?
    ensures script.Returned? ==> links <= script.value
  {
    if status.Raised? || status.value != 200 || script.Raised? then []
    else if |script.value| > maxHouses then SlicePrefix(script.value, maxHouses)
    else script.value
  }

  /** `extract_house_links(page, url, max_houses)`, step by step. */
  method ExtractHouseLinks(status: Outcome<int>, script: Outcome<seq<string>>, maxHouses: int)
    returns (links: seq<string>)
    ensures links == HouseLinks(status, script, maxHouses)
  {
    match status {
      case Raised(_) =>
        return [];
      case Returned(code) =>
        if code != 200 {
          return [];
        }
    }
    match script {
      case Raised(_) =>
        return [];
      case Returned(found) =>
        links := found;
    }
    if |links| > maxHouses {
      links := SlicePrefix(links, maxHouses);
    }
  }

  /** The links returned are a prefix of those the script found; none unless the page loaded. */
  lemma HouseLinksArePrefix(status: Outcome<int>, script: Outcome<seq<string>>, maxHouses: int)
    ensures var r := HouseLinks(status, script, maxHouses);
      (r != [] ==> status == Returned(200) && script.Returned?) &&
      (script.Returned? ==> r <= script.value)
  {
  }

  /** A non-negative `max_houses` bounds the number of links, and shorter lists pass unchanged. */
  lemma HouseLinksBounded(status: Outcome<int>, script: Outcome<seq<string>>, maxHouses: int)
    requires maxHouses >= 0
    requires status == Returned(200) && script.Returned?
    ensures |HouseLinks(status, script, maxHouses)| ==
      if |script.value| > maxHouses then maxHouses else |script.value|
  {
  }
}
