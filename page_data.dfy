/** The page record and its assembly from the extractors (page_data.go). */
module Pages {
  import opened Wrappers
  import opened Web

  /** The structured data taken from one page; list fields keep document order. */
  datatype PageData = PageData(
    URL: string,
    H1: string,
    FirstParagraph: string,
    OutgoingLinks: seq<string>,
    ImageURLs: seq<string>)

  /**
   * extractPageData: total, never fails. The URL field is always the argument;
   * when the page URL does not parse, every other field is empty; otherwise each
   * field is its own extractor's output (links and images resolved against the
   * page's own parsed URL), and an error in one list extractor empties only
   * that list.
   */
  function ExtractPageData(web: Web, html: string, pageURL: string): (p: PageData)
    ensures p.URL == pageURL
    ensures web.parse(pageURL).None? ==>
      p.H1 == "" && p.FirstParagraph == "" && p.OutgoingLinks == [] && p.ImageURLs == []
    ensures web.parse(pageURL).Some? ==>
      var base := web.parse(pageURL).value;
      && p.H1 == web.h1(html)
      && p.FirstParagraph == web.firstParagraph(html)
      && (web.links(html, base).None? ==> p.OutgoingLinks == [])
      && (web.links(html, base).Some? ==> p.OutgoingLinks == web.links(html, base).value)
      && (web.images(html, base).None? ==> p.ImageURLs == [])
      && (web.images(html, base).Some? ==> p.ImageURLs == web.images(html, base).value)
  {
    match web.parse(pageURL)
    case None => PageData(pageURL, "", "", [], [])
    case Some(base) =>
      // an extraction error leaves that list empty
      var links := match web.links(html, base) case None => [] case Some(ls) => ls;
      var images := match web.images(html, base) case None => [] case Some(xs) => xs;
      PageData(pageURL, web.h1(html), web.firstParagraph(html), links, images)
  }

  /**
   * The fields of the record are extracted independently: two collaborator sets
   * that agree on parsing and on one extractor give records that agree on that
   * extractor's field, whatever the other extractors do.
   */
  lemma FieldsIndependent(web1: Web, web2: Web, html: string, pageURL: string)
    requires web1.parse(pageURL) == web2.parse(pageURL)
    ensures var p1, p2 := ExtractPageData(web1, html, pageURL), ExtractPageData(web2, html, pageURL);
      && p1.URL == p2.URL
      && (web1.parse(pageURL).None? ==> p1 == p2)
      && (web1.h1(html) == web2.h1(html) ==> p1.H1 == p2.H1)
      && (web1.firstParagraph(html) == web2.firstParagraph(html) ==> p1.FirstParagraph == p2.FirstParagraph)
      && (forall base :: web1.parse(pageURL) == Some(base) && web1.links(html, base) == web2.links(html, base) ==>
            p1.OutgoingLinks == p2.OutgoingLinks)
      && (forall base :: web1.parse(pageURL) == Some(base) && web1.images(html, base) == web2.images(html, base) ==>
            p1.ImageURLs == p2.ImageURLs)
  {
  }
}
