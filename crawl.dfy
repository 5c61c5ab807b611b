/**
 * The crawl-and-dedupe traversal, run sequentially.
 *
 * The page fetcher is a fixed finite map from URL to the outcome of
 * fetching it: a failure (the fetch threw) or the hrefs the anchor pattern
 * captures on the page. A URL missing from the map fails. The domain token
 * is a parameter. The schedule is one the concurrent program can take: a
 * page admits all of its new links first, then its children are crawled one
 * after another.
 */
module Crawl {
  import opened LinkFilter

  type Url = string

  datatype Fetched = FetchFailed | Page(hrefs: seq<Url>)

  /**
   * `log` lists every element of `s` exactly once and nothing else: its first
   * element is in `s`, and the rest lists the other elements of `s`.
   */
  ghost predicate ListsOnce(log: seq<Url>, s: set<Url>)
    decreases |log|
  {
    if log == [] then s == {}
    else log[0] in s && ListsOnce(log[1..], s - {log[0]})
  }

  /** What `ListsOnce` means element by element: the same members, and no repeats. */
  lemma {:induction false} ListsOnceMeans(log: seq<Url>, s: set<Url>)
    requires ListsOnce(log, s)
    ensures forall v :: v in log <==> v in s
    ensures forall i, j :: 0 <= i < j < |log| ==> log[i] != log[j]
    decreases |log|
  {
    if log != [] {
      var rest := log[1..];
      ListsOnceMeans(rest, s - {log[0]});
      assert log == [log[0]] + rest;
      forall i, j | 0 <= i < j < |log| ensures log[i] != log[j] {
        if i > 0 {
          assert log[i] == rest[i - 1] && log[j] == rest[j - 1];
        } else {
          assert log[j] == rest[j - 1] && rest[j - 1] in s - {log[0]};
        }
      }
    }
  }

  lemma ListsOnceSingle(x: Url)
    ensures ListsOnce([x], {x})
  {
    assert [x][1..] == [];
    assert {x} - {x} == {};
  }

  lemma {:induction false} ListsOnceConcat(a: seq<Url>, sa: set<Url>, b: seq<Url>, sb: set<Url>)
    requires ListsOnce(a, sa) && ListsOnce(b, sb) && sa !! sb
    ensures ListsOnce(a + b, sa + sb)
    decreases |a|
  {
    if a == [] {
      assert a + b == b && sa + sb == sb;
    } else {
      var x := a[0];
      ListsOnceConcat(a[1..], sa - {x}, b, sb);
      assert (a + b)[0] == x && (a + b)[1..] == a[1..] + b;
      assert (sa + sb) - {x} == (sa - {x}) + sb;
    }
  }

  lemma DropFirstPending(children: seq<Url>, i: nat, pending: set<Url>)
    requires i < |children| && ListsOnce(children[i..], pending)
    ensures children[i] in pending
    ensures ListsOnce(children[i + 1..], pending - {children[i]})
  {
    assert children[i..][0] == children[i] && children[i..][1..] == children[i + 1..];
  }

  /** The set of visited links shared by every crawl of one run. */
  class VisitedSet {
    var elems: set<Url>

    constructor ()
      ensures elems == {}
    {
      elems := {};
    }

    /** Atomic add-if-absent: reports whether `link` was absent. */
    method Add(link: Url) returns (added: bool)
      modifies this
      ensures added <==> link !in old(elems)
      ensures elems == old(elems) + {link}
    {
      added := link !in elems;
      elems := elems + {link};
    }

    method AddAll(links: set<Url>)
      modifies this
      ensures elems == old(elems) + links
    {
      elems := elems + links;
    }
  }

  class Crawler {
    const pages: map<Url, Fetched>

    constructor (pages: map<Url, Fetched>)
      ensures this.pages == pages
    {
      this.pages := pages;
    }

    function Fetch(url: Url): Fetched {
      if url in pages then pages[url] else FetchFailed
    }

    /** The edges of the link graph: the links a page contributes; none when its fetch fails. */
    function Links(domain: string, url: Url): set<Url> {
      match Fetch(url)
      case FetchFailed => {}
      case Page(hrefs) => KeptLinks(domain, hrefs)
    }

    /** Every href captured on some page: no crawl admits anything else. */
    ghost function Universe(): set<Url> {
      set u, l | u in pages && pages[u].Page? && l in pages[u].hrefs :: l
    }

    lemma LinksInUniverse(domain: string, url: Url)
      ensures Links(domain, url) <= Universe()
    {
      if url in pages && pages[url].Page? {
        forall l | l in Links(domain, url) ensures l in Universe() {
          KeptLinksMembership(domain, pages[url].hrefs, l);
        }
      }
    }

    /**
     * The links reachable from `from` along at most `n` + 1 edges of the link
     * graph: its own links, then the links of those, and so on.
     */
    ghost function ReachIn(domain: string, from: Url, n: nat): set<Url>
      decreases n
    {
      if n == 0 then Links(domain, from)
      else ReachIn(domain, from, n - 1) + Successors(domain, ReachIn(domain, from, n - 1))
    }

    /** The links of the pages in `r`. */
    ghost function Successors(domain: string, r: set<Url>): set<Url> {
      set v, l | v in r && l in Links(domain, v) :: l
    }

    lemma SuccessorsGrow(domain: string, r: set<Url>, r': set<Url>)
      requires r <= r'
      ensures Successors(domain, r) <= Successors(domain, r')
    {
    }

    /** `to` is reached from `from` by following at least one edge. */
    ghost predicate Reachable(domain: string, from: Url, to: Url) {
      exists n: nat :: to in ReachIn(domain, from, n)
    }

    lemma EdgeReachable(domain: string, from: Url, to: Url)
      requires to in Links(domain, from)
      ensures Reachable(domain, from, to)
    {
      assert to in ReachIn(domain, from, 0);
    }

    lemma LinksReachable(domain: string, from: Url, s: set<Url>)
      requires s <= Links(domain, from)
      ensures forall v :: v in s ==> Reachable(domain, from, v)
    {
      forall v | v in s ensures Reachable(domain, from, v) {
        EdgeReachable(domain, from, v);
      }
    }

    /** A page whose links stay inside `r`, like every page of `r`, reaches nothing outside `r`. */
    lemma {:induction false} ClosedContainsReachIn(domain: string, seed: Url, r: set<Url>, n: nat)
      requires Links(domain, seed) <= r
      requires forall v :: v in r ==> Links(domain, v) <= r
      ensures ReachIn(domain, seed, n) <= r
      decreases n
    {
      if n > 0 {
        ClosedContainsReachIn(domain, seed, r, n - 1);
      }
    }

    /**
     * A set that holds the seed's links and the links of each of its own
     * members holds every link reachable from the seed.
     */
    lemma ClosedContainsReachable(domain: string, seed: Url, r: set<Url>)
      requires Links(domain, seed) <= r
      requires forall v :: v in r ==> Links(domain, v) <= r
      ensures forall l :: Reachable(domain, seed, l) ==> l in r
    {
      forall l | Reachable(domain, seed, l) ensures l in r {
        var n: nat :| l in ReachIn(domain, seed, n);
        ClosedContainsReachIn(domain, seed, r, n);
      }
    }

    /** Going through one more edge first reaches everything within one more step. */
    lemma {:induction false} PrependEdgeIn(domain: string, u: Url, c: Url, n: nat)
      requires c in Links(domain, u)
      ensures ReachIn(domain, c, n) <= ReachIn(domain, u, n + 1)
      decreases n
    {
      if n == 0 {
        assert c in ReachIn(domain, u, 0);
        assert Links(domain, c) <= Successors(domain, ReachIn(domain, u, 0));
      } else {
        PrependEdgeIn(domain, u, c, n - 1);
        SuccessorsGrow(domain, ReachIn(domain, c, n - 1), ReachIn(domain, u, n));
      }
    }

    lemma PrependEdge(domain: string, u: Url, c: Url, v: Url)
      requires c in Links(domain, u) && Reachable(domain, c, v)
      ensures Reachable(domain, u, v)
    {
      var n: nat :| v in ReachIn(domain, c, n);
      PrependEdgeIn(domain, u, c, n);
      assert v in ReachIn(domain, u, n + 1);
    }

    /**
     * Every reachable link passed the filters on some fetched page that is the
     * seed or is itself reachable; in particular the seed is reachable only
     * when some reachable page, or the seed itself, links to it.
     */
    lemma {:induction false} ReachInHasLinkingPage(domain: string, seed: Url, l: Url, n: nat)
      requires l in ReachIn(domain, seed, n)
      ensures exists u :: (u == seed || Reachable(domain, seed, u)) && l in Links(domain, u) && Fetch(u).Page?
      decreases n
    {
      if n == 0 {
        assert l in Links(domain, seed);
      } else if l in ReachIn(domain, seed, n - 1) {
        ReachInHasLinkingPage(domain, seed, l, n - 1);
      } else {
        var v :| v in ReachIn(domain, seed, n - 1) && l in Links(domain, v);
        assert Reachable(domain, seed, v);
      }
    }

    lemma ReachableHasLinkingPage(domain: string, seed: Url, l: Url)
      requires Reachable(domain, seed, l)
      ensures exists u :: (u == seed || Reachable(domain, seed, u)) && l in Links(domain, u) && Fetch(u).Page?
    {
      var n: nat :| l in ReachIn(domain, seed, n);
      ReachInHasLinkingPage(domain, seed, l, n);
    }

    lemma CardinalityDrops(u: set<Url>, a: set<Url>, b: set<Url>, x: Url)
      requires a <= b && x in b && x !in a && x in u
      ensures |u - b| < |u - a|
    {
      var d := (u - a) - (u - b);
      assert x in d;
      assert u - a == (u - b) + d;
      assert (u - b) !! d;
    }

    /** Joining one child extends the fetch log by the child and then everything it fetched. */
    lemma JoinLog(log: seq<Url>, a: set<Url>, childLog: seq<Url>, child: Url, b: set<Url>)
      requires ListsOnce(log, a)
      requires |childLog| >= 1 && childLog[0] == child && ListsOnce(childLog[1..], b)
      requires child !in a && child !in b && a !! b
      ensures ListsOnce(log + childLog, a + {child} + b)
    {
      assert childLog == [child] + childLog[1..];
      assert log + childLog == log + [child] + childLog[1..];
      ListsOnceSingle(child);
      ListsOnceConcat(log, a, [child], {child});
      ListsOnceConcat(log + [child], a + {child}, childLog[1..], b);
    }

    /** Every page in `s` has all of its links in `bound`. */
    ghost predicate LinksWithin(domain: string, s: set<Url>, bound: set<Url>) {
      forall v :: v in s ==> Links(domain, v) <= bound
    }

    /** Every link in `s` is reachable from `from`. */
    ghost predicate AllReachable(domain: string, from: Url, s: set<Url>) {
      forall v :: v in s ==> Reachable(domain, from, v)
    }

    /** Joining one child leaves every admitted link that is not pending with its links visited. */
    lemma JoinClosure(domain: string, child: Url, before: set<Url>, pre: set<Url>, post: set<Url>, pending: set<Url>)
      requires pre <= post && child in pending
      requires LinksWithin(domain, pre - before - pending, pre)
      requires Links(domain, child) <= post
      requires LinksWithin(domain, post - pre, post)
      ensures LinksWithin(domain, post - before - (pending - {child}), post)
    {
      forall v | v in post - before - (pending - {child}) ensures Links(domain, v) <= post {
        if v in pre && v != child {
          assert v in pre - before - pending;
        }
      }
    }

    /** What a child admits is reachable from the parent through the child. */
    lemma JoinReachable(domain: string, url: Url, child: Url, before: set<Url>, pre: set<Url>, post: set<Url>)
      requires child in Links(domain, url) && pre <= post
      requires AllReachable(domain, url, pre - before)
      requires AllReachable(domain, child, post - pre)
      ensures AllReachable(domain, url, post - before)
    {
      forall v | v in post - before ensures Reachable(domain, url, v) {
        if v !in pre {
          assert v in post - pre;
          PrependEdge(domain, url, child, v);
        } else {
          assert v in pre - before;
        }
      }
    }

    /** The loop invariant of the join, carried across awaiting one child. */
    lemma JoinStep(domain: string, url: Url, child: Url, before: set<Url>, pre: set<Url>, post: set<Url>, pending: set<Url>,
                   log: seq<Url>, childLog: seq<Url>)
      requires before <= pre <= post && child in pending && pending <= pre - before && child in Links(domain, url)
      requires LinksWithin(domain, pre - before - pending, pre)
      requires AllReachable(domain, url, pre - before)
      requires ListsOnce(log, pre - before - pending)
      requires Links(domain, child) <= post
      requires LinksWithin(domain, post - pre, post)
      requires AllReachable(domain, child, post - pre)
      requires |childLog| >= 1 && childLog[0] == child && ListsOnce(childLog[1..], post - pre)
      ensures LinksWithin(domain, post - before - (pending - {child}), post)
      ensures AllReachable(domain, url, post - before)
      ensures ListsOnce(log + childLog, post - before - (pending - {child}))
    {
      JoinLog(log, pre - before - pending, childLog, child, post - pre);
      assert (pre - before - pending) + {child} + (post - pre) == post - before - (pending - {child});
      JoinClosure(domain, child, before, pre, post, pending);
      JoinReachable(domain, url, child, before, pre, post);
    }

    /**
     * Offers each of a page's links to `visited`; the links it admits are the
     * page's `local` set and, in admission order, the children to crawl.
     */
    method Admit(links: set<Url>, visited: VisitedSet) returns (local: set<Url>, children: seq<Url>)
      modifies visited
      ensures visited.elems == old(visited.elems) + links
      ensures local == links - old(visited.elems)
      ensures ListsOnce(children, local)
    {
      local, children := {}, [];
      var todo := links;
      while todo != {}
        invariant todo <= links
        invariant visited.elems == old(visited.elems) + (links - todo)
        invariant local == (links - todo) - old(visited.elems)
        invariant ListsOnce(children, local)
        decreases todo
      {
        var link :| link in todo;
        todo := todo - {link};
        var added := visited.Add(link);
        if added {
          ListsOnceSingle(link);
          ListsOnceConcat(children, local, [link], {link});
          local := local + {link};
          children := children + [link];
        }
      }
    }

    /**
     * Crawls one page. `local` is the set of links this page admitted to
     * `visited`; `fetched` lists the URLs passed to the fetcher during the
     * call, in order. For a call in the middle of a crawl the links it adds
     * are bounded from both sides (all reachable from `url`, and closed
     * under the links of the pages added) but not pinned down: which links
     * a page adds depends on what was visited before. Only the top-level
     * call, starting from an empty visited set, is exact.
     */
    method CrawlPage(domain: string, url: Url, visited: VisitedSet) returns (local: set<Url>, ghost fetched: seq<Url>)
      requires visited.elems <= Universe()
      modifies visited
      decreases |Universe() - visited.elems|, 3
      ensures visited.elems <= Universe()
      ensures old(visited.elems) <= visited.elems
      ensures Fetch(url).FetchFailed? ==> visited.elems == old(visited.elems)
      ensures local == Links(domain, url) - old(visited.elems)
      ensures Links(domain, url) <= visited.elems
      ensures LinksWithin(domain, visited.elems - old(visited.elems), visited.elems)
      ensures AllReachable(domain, url, visited.elems - old(visited.elems))
      ensures |fetched| >= 1 && fetched[0] == url
      ensures ListsOnce(fetched[1..], visited.elems - old(visited.elems))
    {
      var page := Fetch(url);
      if page.FetchFailed? {
        // The exception is caught: this page contributes nothing.
        local, fetched := {}, [url];
        return;
      }
      var links := ExtractLinks(domain, page.hrefs);
      ghost var tail;
      local, tail := CrawlLinks(domain, url, links, visited);
      fetched := [url] + tail;
      assert fetched[1..] == tail;
    }

    /**
     * The part of a page's crawl after its links are extracted: they are
     * offered to `visited`, and the children admitted are crawled and
     * awaited. `fetched` lists the URLs fetched meanwhile.
     */
    method CrawlLinks(domain: string, url: Url, links: set<Url>, visited: VisitedSet) returns (local: set<Url>, ghost fetched: seq<Url>)
      requires links == Links(domain, url)
      requires visited.elems <= Universe()
      modifies visited
      decreases |Universe() - visited.elems|, 2
      ensures old(visited.elems) <= visited.elems <= Universe()
      ensures local == links - old(visited.elems)
      ensures links <= visited.elems
      ensures LinksWithin(domain, visited.elems - old(visited.elems), visited.elems)
      ensures AllReachable(domain, url, visited.elems - old(visited.elems))
      ensures ListsOnce(fetched, visited.elems - old(visited.elems))
    {
      LinksInUniverse(domain, url);
      ghost var before := visited.elems;
      var children;
      local, children := Admit(links, visited);
      LinksReachable(domain, url, local);
      assert visited.elems - before == local;
      fetched := Join(domain, url, children, visited, before);
    }

    /**
     * Awaits the children of page `url` in order. `before` is the visited set
     * as it was before `url` admitted its links, and `fetched` lists the URLs
     * fetched meanwhile.
     */
    method Join(domain: string, url: Url, children: seq<Url>, visited: VisitedSet, ghost before: set<Url>) returns (ghost fetched: seq<Url>)
      requires before <= visited.elems <= Universe()
      requires visited.elems - before <= Links(domain, url)
      requires ListsOnce(children, visited.elems - before)
      requires AllReachable(domain, url, visited.elems - before)
      modifies visited
      decreases |Universe() - before|, 1
      ensures old(visited.elems) <= visited.elems <= Universe()
      ensures LinksWithin(domain, visited.elems - before, visited.elems)
      ensures AllReachable(domain, url, visited.elems - before)
      ensures ListsOnce(fetched, visited.elems - before)
    {
      fetched := [];
      ghost var pending := visited.elems - before;
      var i := 0;
      while i < |children|
        invariant 0 <= i <= |children|
        invariant old(visited.elems) <= visited.elems <= Universe()
        invariant pending <= old(visited.elems) - before
        invariant ListsOnce(children[i..], pending)
        invariant LinksWithin(domain, visited.elems - before - pending, visited.elems)
        invariant AllReachable(domain, url, visited.elems - before)
        invariant ListsOnce(fetched, visited.elems - before - pending)
      {
        DropFirstPending(children, i, pending);
        fetched := AwaitChild(domain, url, children[i], visited, before, pending, fetched);
        pending := pending - {children[i]};
        i := i + 1;
      }
      assert children[i..] == [];
      assert visited.elems - before - pending == visited.elems - before;
    }

    /**
     * Awaits one child: crawls it, then adds what it returns to `visited`.
     * `pending` holds the children of `url` not yet awaited, `child` first.
     */
    method AwaitChild(domain: string, url: Url, child: Url, visited: VisitedSet, ghost before: set<Url>, ghost pending: set<Url>, ghost log: seq<Url>)
      returns (ghost fetched: seq<Url>)
      requires before <= visited.elems <= Universe()
      requires child in pending && pending <= visited.elems - before && child in Links(domain, url)
      requires LinksWithin(domain, visited.elems - before - pending, visited.elems)
      requires AllReachable(domain, url, visited.elems - before)
      requires ListsOnce(log, visited.elems - before - pending)
      modifies visited
      decreases |Universe() - before|, 0
      ensures old(visited.elems) <= visited.elems <= Universe()
      ensures LinksWithin(domain, visited.elems - before - (pending - {child}), visited.elems)
      ensures AllReachable(domain, url, visited.elems - before)
      ensures ListsOnce(fetched, visited.elems - before - (pending - {child}))
    {
      ghost var pre := visited.elems;
      CardinalityDrops(Universe(), before, pre, child);
      var childLinks, childFetched := CrawlPage(domain, child, visited);
      ghost var joined := visited.elems;
      // The child's result is already in `visited`, so adding it changes nothing.
      visited.AddAll(childLinks);
      assert visited.elems == joined;
      JoinStep(domain, url, child, before, pre, visited.elems, pending, log, childFetched);
      fetched := log + childFetched;
    }

    /**
     * The top-level crawl: a fresh visited set, one crawl of the seed, and
     * the visited set as the result.
     */
    method CollectLinks(domain: string, seed: Url) returns (result: set<Url>, ghost fetched: seq<Url>)
      ensures forall l :: l in result <==> Reachable(domain, seed, l)
      ensures Fetch(seed).FetchFailed? ==> result == {}
      ensures result <= Universe()
      ensures |fetched| >= 1 && fetched[0] == seed && ListsOnce(fetched[1..], result)
      ensures forall i, j :: 1 <= i < j < |fetched| ==> fetched[i] != fetched[j]
    {
      var visited := new VisitedSet();
      var _, f := CrawlPage(domain, seed, visited);
      fetched := f;
      result := visited.elems;
      assert visited.elems - {} == result;
      ClosedContainsReachable(domain, seed, result);
      ListsOnceMeans(fetched[1..], result);
      forall i, j | 1 <= i < j < |fetched| ensures fetched[i] != fetched[j] {
        assert fetched[i] == fetched[1..][i - 1] && fetched[j] == fetched[1..][j - 1];
      }
    }
  }
}
