/**
 * The CSV report (csv_report.go): a fixed header row, then one five-field row
 * per registered page, list fields joined with ';'. Quoting and the file
 * itself belong to the CSV library and the OS and are not modelled: a row is
 * the list of its field values, and the outcome of each I/O call is an input.
 */
module Report {
  import opened Wrappers
  import opened Pages

  const Header: seq<string> := ["page_url", "h1", "first_paragraph", "outgoing_link_urls", "image_urls"]

  /** strings.Join(xs, ";") */
  function Join(xs: seq<string>): (s: string)
    ensures xs == [] ==> s == ""
    ensures |xs| == 1 ==> s == xs[0]
    ensures |xs| > 1 ==> ';' in s
  {
    if xs == [] then ""
    else if |xs| == 1 then xs[0]
    else xs[0] + ";" + Join(xs[1..])
  }

  /** strings.Split(s, ";"): the pieces between separators; never empty. */
  function Split(s: string): (parts: seq<string>)
    ensures |parts| >= 1
  {
    if s == [] then [""]
    else if s[0] == ';' then [""] + Split(s[1..])
    else var r := Split(s[1..]); [[s[0]] + r[0]] + r[1..]
  }

  /** Reads a joined list field back: the empty field is the empty list. */
  function SplitField(s: string): (xs: seq<string>)
  {
    if s == "" then [] else Split(s)
  }

  /** A list element that survives joining: non-empty and free of the separator. */
  predicate Plain(x: string)
  {
    x != "" && ';' !in x
  }

  lemma {:induction false} SplitPlain(x: string)
    requires ';' !in x
    ensures Split(x) == [x]
  {
    if x != [] {
      SplitPlain(x[1..]);
      assert [x[0]] + x[1..] == x;
    }
  }

  lemma {:induction false} SplitAfter(x: string, t: string)
    requires ';' !in x
    ensures Split(x + ";" + t) == [x] + Split(t)
  {
    if x == [] {
      assert x + ";" + t == [';'] + t;
      assert (x + ";" + t)[1..] == t;
    } else {
      assert (x + ";" + t)[1..] == x[1..] + ";" + t;
      SplitAfter(x[1..], t);
      assert [x[0]] + x[1..] == x;
    }
  }

  /** Splitting undoes joining when no element contains the separator. */
  lemma {:induction false} SplitJoin(xs: seq<string>)
    requires xs != []
    requires forall i :: 0 <= i < |xs| ==> ';' !in xs[i]
    ensures Split(Join(xs)) == xs
  {
    if |xs| == 1 {
      SplitPlain(xs[0]);
    } else {
      SplitAfter(xs[0], Join(xs[1..]));
      SplitJoin(xs[1..]);
    }
  }

  /** A joined field reads back as the original list, the empty list included. */
  lemma {:induction false} SplitFieldJoin(xs: seq<string>)
    requires forall i :: 0 <= i < |xs| ==> Plain(xs[i])
    ensures SplitField(Join(xs)) == xs
  {
    if xs != [] {
      assert |Join(xs)| > 0 by {
        if |xs| > 1 { assert |Join(xs)| >= |xs[0]|; }
      }
      SplitJoin(xs);
    }
  }

  /** The row written for one page; the map key does not appear in it. */
  function Row(p: PageData): (row: seq<string>)
    ensures |row| == |Header|
  {
    [p.URL, p.H1, p.FirstParagraph, Join(p.OutgoingLinks), Join(p.ImageURLs)]
  }

  /** Reads a five-field row back into a page record. */
  function FromRow(row: seq<string>): (p: PageData)
    requires |row| == |Header|
  {
    PageData(row[0], row[1], row[2], SplitField(row[3]), SplitField(row[4]))
  }

  /** Reading a page's row gives the page back, when its links and image URLs are non-empty and ';'-free. */
  lemma {:induction false} RowRoundTrip(p: PageData)
    requires forall i :: 0 <= i < |p.OutgoingLinks| ==> Plain(p.OutgoingLinks[i])
    requires forall i :: 0 <= i < |p.ImageURLs| ==> Plain(p.ImageURLs[i])
    ensures FromRow(Row(p)) == p
  {
    SplitFieldJoin(p.OutgoingLinks);
    SplitFieldJoin(p.ImageURLs);
  }

  /** The rows of the pages under `order`'s keys, in that order. */
  function Rows(pages: map<string, PageData>, order: seq<string>): (rows: seq<seq<string>>)
    requires forall i :: 0 <= i < |order| ==> order[i] in pages
    ensures |rows| == |order|
    ensures forall i :: 0 <= i < |order| ==> rows[i] == Row(pages[order[i]])
  {
    seq(|order|, i requires 0 <= i < |order| => Row(pages[order[i]]))
  }

  /** `order` lists distinct keys of `pages`. */
  ghost predicate Distinct(pages: map<string, PageData>, order: seq<string>)
  {
    && (forall i :: 0 <= i < |order| ==> order[i] in pages)
    && (forall i, j :: 0 <= i < j < |order| ==> order[i] != order[j])
  }

  /** How the writer's I/O calls go: file creation, the n-th Write call (0 is the header), the final error check. */
  datatype Io = Io(create: bool, write: nat -> bool, final: bool)

  datatype ReportError = CreateFailed | HeaderFailed | RowFailed | WriterFailed

  /** Adding a key to the order adds its page's row at the end. */
  lemma RowsSnoc(pages: map<string, PageData>, order: seq<string>, key: string)
    requires forall i :: 0 <= i < |order| ==> order[i] in pages
    requires key in pages
    ensures Rows(pages, order + [key]) == Rows(pages, order) + [Row(pages[key])]
  {
  }

  /** Adding a new key of the map keeps the order's keys distinct. */
  lemma {:induction false} DistinctSnoc(pages: map<string, PageData>, order: seq<string>, key: string)
    requires Distinct(pages, order)
    requires key in pages && key !in order
    ensures Distinct(pages, order + [key])
  {
    var order' := order + [key];
    forall i, j | 0 <= i < j < |order'| ensures order'[i] != order'[j] {
      if j < |order| {
        assert order'[i] == order[i] && order'[j] == order[j];
      } else {
        assert order'[i] == order[i] && order[i] in order;
      }
    }
  }

  /**
   * The state of the row loop: `order` lists the keys visited so far,
   * `remaining` the keys still to visit, `rows` the rows written, each by a
   * Write call that succeeded.
   */
  ghost predicate Visiting(pages: map<string, PageData>, io: Io, order: seq<string>, remaining: set<string>,
                           rows: seq<seq<string>>)
  {
    && Distinct(pages, order)
    && (forall n :: 1 <= n <= |order| ==> io.write(n))
    && remaining <= pages.Keys
    && (forall i :: 0 <= i < |order| ==> order[i] !in remaining)
    && |remaining| + |order| == |pages|
    && rows == Rows(pages, order)
  }

  /** Visiting one more key keeps the loop state consistent. */
  lemma {:induction false} VisitStep(pages: map<string, PageData>, io: Io, order: seq<string>, remaining: set<string>,
                                     rows: seq<seq<string>>, key: string)
    requires Visiting(pages, io, order, remaining, rows)
    requires key in remaining && io.write(|rows| + 1)
    ensures Visiting(pages, io, order + [key], remaining - {key}, rows + [Row(pages[key])])
  {
    RowsSnoc(pages, order, key);
    DistinctSnoc(pages, order, key);
  }

  /**
   * The data-row loop of writeCSVReport: visits the map's keys in an
   * unspecified order, writing one row each; Write call n (n >= 1) writes the
   * n-th row. Stops at the first failing call.
   */
  method WriteRows(pages: map<string, PageData>, io: Io)
    returns (rows: seq<seq<string>>, ok: bool, ghost order: seq<string>)
    ensures Distinct(pages, order)
    ensures rows == Rows(pages, order)
    ensures forall n :: 1 <= n <= |rows| ==> io.write(n)
    ensures ok ==> |order| == |pages|
    ensures !ok ==> |order| < |pages| && !io.write(|rows| + 1)
  {
    rows, order := [], [];
    var remaining := pages.Keys;
    while remaining != {}
      invariant Visiting(pages, io, order, remaining, rows)
      decreases remaining
    {
      var key :| key in remaining;
      if !io.write(|rows| + 1) {
        return rows, false, order;
      }
      VisitStep(pages, io, order, remaining, rows, key);
      rows, order, remaining := rows + [Row(pages[key])], order + [key], remaining - {key};
    }
    return rows, true, order;
  }

  /**
   * writeCSVReport. `written` is the rows the writer accepted; `order` is the
   * (unspecified) order in which the map was visited. The header goes first;
   * the first failing Write ends the report with an error and nothing after
   * it is written; on success there is one row per entry.
   */
  method WriteCSVReport(pages: map<string, PageData>, io: Io)
    returns (written: seq<seq<string>>, err: Option<ReportError>, ghost order: seq<string>)
    ensures Distinct(pages, order)
    ensures err == Some(CreateFailed) <==> !io.create
    ensures err == Some(HeaderFailed) <==> io.create && !io.write(0)
    ensures err == Some(RowFailed) <==> io.create && io.write(0) && exists n :: 1 <= n <= |pages| && !io.write(n)
    ensures err == Some(WriterFailed) <==> io.create && (forall n :: 0 <= n <= |pages| ==> io.write(n)) && !io.final
    ensures err == Some(CreateFailed) || err == Some(HeaderFailed) ==> written == []
    ensures io.create && io.write(0) ==> written == [Header] + Rows(pages, order)
    ensures forall n :: 0 <= n < |written| ==> io.write(n)
    ensures err == Some(RowFailed) ==> |order| < |pages| && !io.write(|written|)
    ensures err.None? || err == Some(WriterFailed) ==> |written| == |pages| + 1
    ensures err.None? <==> io.create && (forall n :: 0 <= n <= |pages| ==> io.write(n)) && io.final
  {
    written, order := [], [];
    if !io.create {
      return written, Some(CreateFailed), order;
    }
    if !io.write(0) {
      return written, Some(HeaderFailed), order;
    }
    var rows, ok;
    rows, ok, order := WriteRows(pages, io);
    written := [Header] + rows;
    if !ok {
      return written, Some(RowFailed), order;
    }
    if !io.final {
      return written, Some(WriterFailed), order;
    }
    return written, None, order;
  }
}
