/**
 * The link scraper's pure part: from the anchors of the search-results page,
 * in document order, take the `href` values and keep the absolute web links.
 * Fetching and parsing the page are left to the caller: the anchors are an
 * input here.
 */
module Links {
  import opened Common

  const HTTP_PREFIX := "http://"
  const HTTPS_PREFIX := "https://"

  /** An anchor element, reduced to its `href` attribute (None when it has none). */
  datatype Anchor = Anchor(href: Option<string>)

  /** The filter's test: a literal `http://` or `https://` prefix. */
  predicate IsWebLink(link: string)
  {
    StartsWith(link, HTTP_PREFIX) || StartsWith(link, HTTPS_PREFIX)
  }

  /** Some anchor carries exactly this `href` value. */
  ghost predicate HasHref(anchors: seq<Anchor>, link: string)
  {
    exists i :: 0 <= i < |anchors| && anchors[i].href == Some(link)
  }

  /** The `href` values of the anchors that have one, in document order. */
  function Hrefs(anchors: seq<Anchor>): (links: seq<string>)
    ensures |links| <= |anchors|
    ensures forall link :: link in links <==> HasHref(anchors, link)
  {
    if anchors == [] then []
    else
      var rest := Hrefs(anchors[1..]);
      assert forall link :: HasHref(anchors[1..], link) ==> HasHref(anchors, link) by {
        forall link | HasHref(anchors[1..], link) ensures HasHref(anchors, link) {
          var i :| 0 <= i < |anchors[1..]| && anchors[1..][i].href == Some(link);
          assert anchors[i + 1].href == Some(link);
        }
      }
      assert forall link :: HasHref(anchors, link) ==> anchors[0].href == Some(link) || HasHref(anchors[1..], link) by {
        forall link | HasHref(anchors, link) && anchors[0].href != Some(link) ensures HasHref(anchors[1..], link) {
          var i :| 0 <= i < |anchors| && anchors[i].href == Some(link);
          assert i > 0 && anchors[1..][i - 1].href == Some(link);
        }
      }
      match anchors[0].href
      case None => rest
      case Some(link) => [link] + rest
  }

  /** The links that pass the web-link test, in their original order. */
  function KeepWebLinks(links: seq<string>): (kept: seq<string>)
    ensures |kept| <= |links|
    ensures forall link :: link in kept <==> link in links && IsWebLink(link)
  {
    if links == [] then []
    else if IsWebLink(links[0]) then [links[0]] + KeepWebLinks(links[1..])
    else KeepWebLinks(links[1..])
  }

  /** The links reported for a results page: every `href` that is an absolute web link, in document order. */
  function ParsePages(anchors: seq<Anchor>): (pages: seq<string>)
    ensures |pages| <= |anchors|
    ensures forall link :: link in pages <==> IsWebLink(link) && HasHref(anchors, link)
  {
    KeepWebLinks(Hrefs(anchors))
  }

  /** Collecting `href` values distributes over splitting the document. */
  lemma {:induction false} HrefsAppend(a: seq<Anchor>, b: seq<Anchor>)
    ensures Hrefs(a + b) == Hrefs(a) + Hrefs(b)
  {
    if a == [] {
      assert a + b == b;
    } else {
      assert (a + b)[1..] == a[1..] + b;
      HrefsAppend(a[1..], b);
    }
  }

  /** Filtering distributes over concatenation: each part is filtered on its own and the order is kept. */
  lemma {:induction false} KeepWebLinksAppend(a: seq<string>, b: seq<string>)
    ensures KeepWebLinks(a + b) == KeepWebLinks(a) + KeepWebLinks(b)
  {
    if a == [] {
      assert a + b == b;
    } else {
      assert (a + b)[1..] == a[1..] + b;
      KeepWebLinksAppend(a[1..], b);
    }
  }

  /** The result for two stretches of the document is the result for the first followed by that for the second. */
  lemma ParsePagesAppend(a: seq<Anchor>, b: seq<Anchor>)
    ensures ParsePages(a + b) == ParsePages(a) + ParsePages(b)
  {
    HrefsAppend(a, b);
    KeepWebLinksAppend(Hrefs(a), Hrefs(b));
  }

  /** One anchor contributes its `href` when it has one that is a web link, and nothing otherwise. */
  lemma ParsePagesSingle(anchor: Anchor)
    ensures ParsePages([anchor]) == if anchor.href.Some? && IsWebLink(anchor.href.value) then [anchor.href.value] else []
  {
    assert [anchor][1..] == [];
  }

  /** An anchor without an `href`, wherever it stands, changes nothing in the result. */
  lemma AnchorWithoutHrefIgnored(before: seq<Anchor>, after: seq<Anchor>)
    ensures ParsePages(before + [Anchor(None)] + after) == ParsePages(before + after)
  {
    ParsePagesAppend(before + [Anchor(None)], after);
    ParsePagesAppend(before, [Anchor(None)]);
    ParsePagesSingle(Anchor(None));
    ParsePagesAppend(before, after);
  }

  /** Every web link begins with the letter `h`. */
  lemma WebLinkStartsWithH(link: string)
    ensures IsWebLink(link) ==> link != [] && link[0] == 'h'
  {
    if StartsWith(link, HTTP_PREFIX) {
      assert link[0] == link[..|HTTP_PREFIX|][0];
    }
    if StartsWith(link, HTTPS_PREFIX) {
      assert link[0] == link[..|HTTPS_PREFIX|][0];
    }
  }

  /** A value not starting with `h` (relative, `#` fragment, `javascript:`, `mailto:`) is never kept; the test is case-sensitive. */
  lemma NonWebLinkDropped(link: string)
    requires link == [] || link[0] != 'h'
    ensures !IsWebLink(link)
    ensures KeepWebLinks([link]) == []
  {
    WebLinkStartsWithH(link);
  }

  /** `kept` is `links` with some elements removed, the rest in their order. */
  ghost predicate IsSubsequence(kept: seq<string>, links: seq<string>)
    decreases |links|
  {
    kept == []
    || (links != []
        && ((kept[0] == links[0] && IsSubsequence(kept[1..], links[1..]))
            || IsSubsequence(kept, links[1..])))
  }

  /** The kept links are an order-preserving subsequence of the input. */
  lemma {:induction false} KeepWebLinksSubsequence(links: seq<string>)
    ensures IsSubsequence(KeepWebLinks(links), links)
  {
    if links != [] {
      KeepWebLinksSubsequence(links[1..]);
    }
  }

  /** No deduplication: every web link is kept as many times as it occurs, every other value never. */
  lemma {:induction false} KeepWebLinksCounts(links: seq<string>, link: string)
    ensures multiset(KeepWebLinks(links))[link] == if IsWebLink(link) then multiset(links)[link] else 0
  {
    if links != [] {
      KeepWebLinksCounts(links[1..], link);
      assert links == [links[0]] + links[1..];
      assert multiset(links) == multiset([links[0]]) + multiset(links[1..]);
    }
  }

  /** The filter leaves a list unchanged exactly when every link in it is a web link. */
  lemma {:induction false} KeepWebLinksIdentity(links: seq<string>)
    ensures KeepWebLinks(links) == links <==> forall k :: 0 <= k < |links| ==> IsWebLink(links[k])
  {
    if links != [] {
      KeepWebLinksIdentity(links[1..]);
      if !IsWebLink(links[0]) {
        assert |KeepWebLinks(links)| < |links| by {
          assert KeepWebLinks(links) == KeepWebLinks(links[1..]);
        }
      } else if KeepWebLinks(links) == links {
        assert KeepWebLinks(links[1..]) == links[1..];
      } else {
        assert exists k :: 0 <= k < |links[1..]| && !IsWebLink(links[1..][k]);
      }
    }
  }

  /** Filtering twice is filtering once. */
  lemma KeepWebLinksIdempotent(links: seq<string>)
    ensures KeepWebLinks(KeepWebLinks(links)) == KeepWebLinks(links)
  {
    var kept := KeepWebLinks(links);
    forall k | 0 <= k < |kept| ensures IsWebLink(kept[k]) {
      assert kept[k] in kept;
    }
    KeepWebLinksIdentity(kept);
  }

  /** The sample page: a relative link, two absolute links and a script link give the two absolute links in order. */
  lemma SamplePage()
    ensures ParsePages([Anchor(Some("/relative")), Anchor(Some("https://x")), Anchor(Some("http://y")), Anchor(Some("javascript:z"))])
         == ["https://x", "http://y"]
  {
    var links := ["/relative", "https://x", "http://y", "javascript:z"];
    assert Hrefs([Anchor(Some("/relative")), Anchor(Some("https://x")), Anchor(Some("http://y")), Anchor(Some("javascript:z"))]) == links;
    NonWebLinkDropped("/relative");
    NonWebLinkDropped("javascript:z");
    assert IsWebLink("https://x") by {
      assert "https://x"[..|HTTPS_PREFIX|] == HTTPS_PREFIX;
    }
    assert IsWebLink("http://y") by {
      assert "http://y"[..|HTTP_PREFIX|] == HTTP_PREFIX;
    }
    assert links[1..] == ["https://x", "http://y", "javascript:z"];
    assert links[1..][1..] == ["http://y", "javascript:z"];
    assert links[1..][1..][1..] == ["javascript:z"];
    assert links[1..][1..][1..][1..] == [];
  }
}
