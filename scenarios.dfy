/**
 * The crawler's unit tests as concrete fetchers. A test whose mock serves
 * the same page for every URL is a map from each URL the crawl can fetch to
 * that page; the hrefs of a page are the strings the anchor pattern captures
 * from the test's HTML, in document order.
 */
module Scenarios {
  import opened LinkFilter
  import opened Crawl

  /** A listed extension holds no dot. */
  lemma DottedNotListed(e: string, j: nat)
    requires j < |e| && e[j] == '.'
    ensures e !in Exclusions
  {
  }

  /** A link whose last dot is at `p` and whose text after it is not listed is kept by the exclusion filter. */
  lemma NotExcludedAfterLastDot(link: string, p: nat)
    requires p < |link| && link[p] == '.'
    requires forall j :: p < j < |link| ==> link[j] != '.'
    requires link[p + 1..] !in Exclusions
    ensures !HasExcludedExtension(link)
  {
    forall i | 0 <= i < p && link[i] == '.' ensures link[i + 1..] !in Exclusions {
      assert link[i + 1..][p - i - 1] == '.';
      DottedNotListed(link[i + 1..], p - i - 1);
    }
  }

  /** `t` does not occur in `s` when two adjacent characters of `t` never occur side by side in `s`. */
  lemma NotContainedByPair(s: string, t: string, k: nat)
    requires k + 1 < |t|
    requires forall j :: 0 <= j < |s| - 1 ==> !(s[j] == t[k] && s[j + 1] == t[k + 1])
    ensures !Contains(s, t)
  {
    forall i | 0 <= i <= |s| ensures !(t <= s[i..]) {
      if i + k + 1 < |s| {
        assert !(s[i + k] == t[k] && s[i + k + 1] == t[k + 1]);
        assert s[i..][k] == s[i + k] && s[i..][k + 1] == s[i + k + 1];
      }
    }
  }

  /** `t` occurs in `s` when it matches `s` character by character from index `i`. */
  lemma ContainsAt(s: string, t: string, i: nat)
    requires i + |t| <= |s|
    requires forall k :: 0 <= k < |t| ==> s[i + k] == t[k]
    ensures Contains(s, t)
  {
    assert t <= s[i..];
  }

  lemma ExternalDropped()
    ensures !Kept("example.com", "https://external.com/page3")
  {
    NotContainedByPair("https://external.com/page3", "example.com", 1);
  }

  lemma PageKept(n: char)
    requires n != '.'
    ensures Kept("example.com", "https://example.com/page" + [n])
  {
    var link := "https://example.com/page" + [n];
    NotExcludedAfterLastDot(link, 15);
    ContainsAt(link, "example.com", 8);
  }

  lemma JpegExcluded()
    ensures HasExcludedExtension("https://orf.at/download/file.jpeg")
  {
    var link := "https://orf.at/download/file.jpeg";
    assert link[28] == '.' && link[29..] == "jpeg";
    assert NoLineTerminator(link[..28]);
  }

  lemma Mp3Kept()
    ensures Kept("orf.at", "https://orf.at/media/file.mp3")
  {
    var link := "https://orf.at/media/file.mp3";
    NotExcludedAfterLastDot(link, 25);
    ContainsAt(link, "orf.at", 8);
  }

  /** Capturing one more link adds it exactly when it is kept. */
  lemma KeptLinksSnoc(domain: string, captures: seq<string>, link: string)
    ensures KeptLinks(domain, captures + [link]) == KeptLinks(domain, captures) + (if Kept(domain, link) then {link} else {})
  {
    assert (captures + [link])[..|captures|] == captures;
  }

  /** Every page of the site serves the same captures: the crawl collects exactly the kept ones. */
  lemma UniformSiteReach(c: Crawler, domain: string, seed: Url, hrefs: seq<Url>)
    requires seed in c.pages
    requires forall u :: u in c.pages ==> c.pages[u] == Page(hrefs)
    ensures forall l :: c.Reachable(domain, seed, l) <==> l in KeptLinks(domain, hrefs)
  {
    forall l ensures c.Reachable(domain, seed, l) <==> l in KeptLinks(domain, hrefs) {
      if l in KeptLinks(domain, hrefs) {
        c.EdgeReachable(domain, seed, l);
      }
      if c.Reachable(domain, seed, l) {
        c.ReachableHasLinkingPage(domain, seed, l);
      }
    }
  }

  function ExamplePage(n: char): Url {
    "https://example.com/page" + [n]
  }

  const External: Url := "https://external.com/page3"
  const News: Url := "https://orf.at/news"
  const KidsStory: Url := "https://kids.orf.at/story"
  const ExternalPage: Url := "https://external.com/page"
  const Mp3: Url := "https://orf.at/media/file.mp3"
  const Jpeg: Url := "https://orf.at/download/file.jpeg"
  const Gitlab: Url := "https://gitlab.com"

  lemma NewsKept()
    ensures Kept("orf.at", News)
  {
    NotExcludedAfterLastDot(News, 11);
    ContainsAt(News, "orf.at", 8);
  }

  lemma KidsStoryKept()
    ensures Kept("orf.at", KidsStory)
  {
    NotExcludedAfterLastDot(KidsStory, 16);
    ContainsAt(KidsStory, "orf.at", 13);
  }

  lemma OutsideOrfDropped()
    ensures !Kept("orf.at", ExternalPage) && !Kept("orf.at", Gitlab)
  {
    NotContainedByPair(ExternalPage, "orf.at", 0);
    NotContainedByPair(Gitlab, "orf.at", 0);
  }

  lemma KeptLinksOfOne(domain: string, a: string)
    requires Kept(domain, a)
    ensures KeptLinks(domain, [a]) == {a}
  {
    KeptLinksSnoc(domain, [], a);
  }

  lemma KeptLinksOfTwo(domain: string, a: string, b: string)
    requires Kept(domain, a) && Kept(domain, b)
    ensures KeptLinks(domain, [a, b]) == {a, b}
  {
    KeptLinksOfOne(domain, a);
    KeptLinksSnoc(domain, [a], b);
    assert [a] + [b] == [a, b];
  }

  lemma KeptLinksOfThree(domain: string, a: string, b: string, x: string)
    requires Kept(domain, a) && Kept(domain, b) && !Kept(domain, x)
    ensures KeptLinks(domain, [a, b, x]) == {a, b}
  {
    KeptLinksOfTwo(domain, a, b);
    KeptLinksSnoc(domain, [a, b], x);
    assert [a, b] + [x] == [a, b, x];
  }

  lemma KeptLinksOfFour(domain: string, a: string, b: string, x: string, y: string)
    requires Kept(domain, a) && Kept(domain, b) && !Kept(domain, x) && !Kept(domain, y)
    ensures KeptLinks(domain, [a, b, x, y]) == {a, b}
  {
    KeptLinksOfThree(domain, a, b, x);
    KeptLinksSnoc(domain, [a, b, x], y);
    assert [a, b, x] + [y] == [a, b, x, y];
  }

  /** A page with two links into the domain and one outside it, served for every URL. */
  method IgnoresExternalLinks() returns (res: set<Url>)
    ensures res == {ExamplePage('1'), ExamplePage('2')}
    ensures External !in res
  {
    var hrefs := [ExamplePage('1'), ExamplePage('2'), External];
    var site := map["https://example.com" := Page(hrefs), ExamplePage('1') := Page(hrefs), ExamplePage('2') := Page(hrefs)];
    var c := new Crawler(site);
    ghost var fetched;
    res, fetched := c.CollectLinks("example.com", "https://example.com");
    UniformSiteReach(c, "example.com", "https://example.com", hrefs);
    PageKept('1');
    PageKept('2');
    ExternalDropped();
    KeptLinksOfThree("example.com", ExamplePage('1'), ExamplePage('2'), External);
  }

  /** Links to a subdomain contain the domain token and are collected. */
  method IncludesSubdomain() returns (res: set<Url>)
    ensures res == {News, KidsStory}
  {
    var hrefs := [News, KidsStory, ExternalPage];
    var site := map["https://orf.at" := Page(hrefs), News := Page(hrefs), KidsStory := Page(hrefs)];
    var c := new Crawler(site);
    ghost var fetched;
    res, fetched := c.CollectLinks("orf.at", "https://orf.at");
    UniformSiteReach(c, "orf.at", "https://orf.at", hrefs);
    NewsKept();
    KidsStoryKept();
    OutsideOrfDropped();
    KeptLinksOfThree("orf.at", News, KidsStory, ExternalPage);
  }

  /** The jpeg link and the link outside the domain are dropped; the mp3 link is collected. */
  method ExcludesListedMedia() returns (res: set<Url>)
    ensures res == {News, Mp3}
    ensures Jpeg !in res && Gitlab !in res
  {
    var hrefs := [News, Mp3, Jpeg, Gitlab];
    var site := map["https://orf.at" := Page(hrefs), News := Page(hrefs), Mp3 := Page(hrefs)];
    var c := new Crawler(site);
    ghost var fetched;
    res, fetched := c.CollectLinks("orf.at", "https://orf.at");
    UniformSiteReach(c, "orf.at", "https://orf.at", hrefs);
    NewsKept();
    Mp3Kept();
    JpegExcluded();
    OutsideOrfDropped();
    KeptLinksOfFour("orf.at", News, Mp3, Jpeg, Gitlab);
  }

  /**
   * The four-page site: the seed links to pages 1 and 2, which link to pages
   * 3 and 4; pages 3 and 4 are served as a "404 Not Found" page without links.
   */
  function SubpagesSite(): map<Url, Fetched> {
    map["https://example.com" := Page([ExamplePage('1'), ExamplePage('2')]),
        ExamplePage('1') := Page([ExamplePage('3')]),
        ExamplePage('2') := Page([ExamplePage('4')]),
        ExamplePage('3') := Page([]),
        ExamplePage('4') := Page([])]
  }

  /** The edges of the four-page site. */
  lemma SubpagesLinks(c: Crawler)
    requires c.pages == SubpagesSite()
    ensures c.Links("example.com", "https://example.com") == {ExamplePage('1'), ExamplePage('2')}
    ensures c.Links("example.com", ExamplePage('1')) == {ExamplePage('3')}
    ensures c.Links("example.com", ExamplePage('2')) == {ExamplePage('4')}
    ensures c.Links("example.com", ExamplePage('3')) == {}
    ensures c.Links("example.com", ExamplePage('4')) == {}
  {
    var d, p1, p2 := "example.com", ExamplePage('1'), ExamplePage('2');
    PageKept('1');
    PageKept('2');
    PageKept('3');
    PageKept('4');
    KeptLinksOfTwo(d, p1, p2);
    KeptLinksOfOne(d, ExamplePage('3'));
    KeptLinksOfOne(d, ExamplePage('4'));
    var p3, p4 := ExamplePage('3'), ExamplePage('4');
    assert p1[24] == '1' && p2[24] == '2' && p3[24] == '3' && p4[24] == '4';
  }

  /** Each of the four pages is reachable from the seed. */
  lemma SubpagesReached(c: Crawler)
    requires c.pages == SubpagesSite()
    ensures forall l :: l in {ExamplePage('1'), ExamplePage('2'), ExamplePage('3'), ExamplePage('4')} ==>
      c.Reachable("example.com", "https://example.com", l)
  {
    var d, seed := "example.com", "https://example.com";
    var p1, p2, p3, p4 := ExamplePage('1'), ExamplePage('2'), ExamplePage('3'), ExamplePage('4');
    SubpagesLinks(c);
    c.EdgeReachable(d, seed, p1);
    c.EdgeReachable(d, seed, p2);
    c.EdgeReachable(d, p1, p3);
    c.EdgeReachable(d, p2, p4);
    c.PrependEdge(d, seed, p1, p3);
    c.PrependEdge(d, seed, p2, p4);
  }

  lemma SubpagesReach(c: Crawler)
    requires c.pages == SubpagesSite()
    ensures forall l :: c.Reachable("example.com", "https://example.com", l) <==>
      l in {ExamplePage('1'), ExamplePage('2'), ExamplePage('3'), ExamplePage('4')}
  {
    SubpagesLinks(c);
    SubpagesReached(c);
    c.ClosedContainsReachable("example.com", "https://example.com",
      {ExamplePage('1'), ExamplePage('2'), ExamplePage('3'), ExamplePage('4')});
  }

  /** Every reachable subpage is collected, and nothing else. */
  method MultipleSubpages() returns (res: set<Url>)
    ensures res == {ExamplePage('1'), ExamplePage('2'), ExamplePage('3'), ExamplePage('4')}
  {
    var c := new Crawler(SubpagesSite());
    ghost var fetched;
    res, fetched := c.CollectLinks("example.com", "https://example.com");
    SubpagesReach(c);
  }

  /**
   * The relative href is not captured: the anchor pattern only captures
   * links starting with `http://` or `https://`, so every page yields the
   * news link alone.
   */
  method IncludeRelativeUrl() returns (res: set<Url>)
    ensures res == {News}
  {
    var hrefs := [News];
    var site := map["https://orf.at" := Page(hrefs), News := Page(hrefs)];
    var c := new Crawler(site);
    ghost var fetched;
    res, fetched := c.CollectLinks("orf.at", "https://orf.at");
    UniformSiteReach(c, "orf.at", "https://orf.at", hrefs);
    NewsKept();
    KeptLinksOfOne("orf.at", News);
  }
}
