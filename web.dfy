/**
 * The crawler's collaborators that are not modelled: URL parsing (net/url),
 * URL normalisation, the HTTP fetch and the four HTML extractors. Each is a
 * deterministic function of its inputs, kept uninterpreted by passing it in
 * as a field of `Web`.
 */
module Web {
  import opened Wrappers

  /** The parts of a parsed URL the crawler looks at; `None` from `parse` is a parse error. */
  datatype Url = Url(scheme: string, host: string, path: string)

  datatype Web = Web(
    /** url.Parse */
    parse: string -> Option<Url>,
    /** normalizeURL */
    normalize: string -> Option<string>,
    /** getHTML: the document body, or None for a request, status (>= 400) or content-type error */
    fetch: string -> Option<string>,
    /** getH1FromHTML: text of the first h1, "" when there is none */
    h1: string -> string,
    /** getFirstParagraphFromHTML: text of the first p (inside main if possible), "" when there is none */
    firstParagraph: string -> string,
    /** getURLsFromHTML: every a[href], resolved against the base URL, in document order */
    links: (string, Url) -> Option<seq<string>>,
    /** getImagesFromHTML: every img[src], resolved against the base URL, in document order */
    images: (string, Url) -> Option<seq<string>>)
}
