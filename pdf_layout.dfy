/**
 * The page layout of `save_to_pdf`: an integer cursor `y_position` walks down the page,
 * a new page starts when a body line would fall below the bottom margin, and every
 * `drawString` call is recorded in a log together with the page it lands on and the font
 * in effect. The log stands for the PDF that reportlab writes.
 */
module PdfLayout {

  datatype Face = Helvetica | HelveticaBold

  datatype Font = Font(face: Face, size: nat)

  /** The fonts the source selects before the title, a source header and the body lines. */
  const TitleFont := Font(Helvetica, 12)
  const HeaderFont := Font(HelveticaBold, 10)
  const BodyFont := Font(Helvetica, 10)

  /** Layout constants, in PDF points, and the body-line width limit in characters. */
  const PageTop := 750
  const LeftMargin := 50
  const BottomMargin := 50
  const TitleGap := 20
  const HeaderGap := 15
  const LineGap := 12
  const SourceGap := 10
  const MaxLineChars := 100

  const Title := "Personal Loan Information from Aggregators"
  const SourcePrefix := "Source: "

  /** One `drawString(x, y, text)` call, on page `page` (counted from 1), with font `font` set. */
  datatype DrawString = DrawString(page: nat, x: int, y: int, font: Font, text: string)

  /** The state of the layout loop: the current page, the cursor `y_position`, and the draws so far. */
  datatype Layout = Layout(page: nat, y: int, log: seq<DrawString>)

  /** `loan_data`: the dictionary from URL to extracted texts, as its entries in insertion order. */
  type LoanData = seq<(string, seq<string>)>

  /** `line[:100]`: the longest prefix of `line` with at most 100 characters. */
  function Truncate(line: string): (r: string)
    ensures |r| == if |line| <= MaxLineChars then |line| else MaxLineChars
    ensures r <= line
  {
    if |line| <= MaxLineChars then line else line[..MaxLineChars]
  }

  /** The state after the title: the title drawn at the top of page 1 and the cursor 20 points lower. */
  function Begin(): Layout {
    Layout(1, PageTop - TitleGap, [DrawString(1, LeftMargin, PageTop, TitleFont, Title)])
  }

  /** One iteration of the inner loop: break the page if the cursor is below the margin, then draw the truncated line. */
  function PlaceLine(st: Layout, line: string): Layout {
    var page := if st.y < BottomMargin then st.page + 1 else st.page;
    var y := if st.y < BottomMargin then PageTop else st.y;
    Layout(page, y - LineGap, st.log + [DrawString(page, LeftMargin, y, BodyFont, Truncate(line))])
  }

  /** The inner loop over the lines of one source. */
  function PlaceLines(st: Layout, lines: seq<string>): Layout
    decreases |lines|
  {
    if lines == [] then st
    else PlaceLine(PlaceLines(st, lines[..|lines| - 1]), lines[|lines| - 1])
  }

  /** One iteration of the outer loop: the header (with no space check), the lines, the gap after the source. */
  function PlaceSource(st: Layout, url: string, lines: seq<string>): Layout {
    var header := Layout(st.page, st.y - HeaderGap,
                         st.log + [DrawString(st.page, LeftMargin, st.y, HeaderFont, SourcePrefix + url)]);
    var body := PlaceLines(header, lines);
    body.(y := body.y - SourceGap)
  }

  /** The outer loop over the entries of `loan_data`. */
  function PlaceSources(st: Layout, sources: LoanData): Layout
    decreases |sources|
  {
    if sources == [] then st
    else
      var (url, lines) := sources[|sources| - 1];
      PlaceSource(PlaceSources(st, sources[..|sources| - 1]), url, lines)
  }

  /** The whole of `save_to_pdf`. */
  function Render(loanData: LoanData): Layout {
    PlaceSources(Begin(), loanData)
  }

  /**
   * `save_to_pdf(loan_data)`: returns the number of pages of the document and its draw log.
   * Fonts are tracked as the source sets them; `showPage` is the page increment.
   */
  method SaveToPdf(loanData: LoanData) returns (pages: nat, log: seq<DrawString>)
    ensures pages == Render(loanData).page
    ensures log == Render(loanData).log
  {
    var page: nat := 1;
    var font := TitleFont;
    var y := PageTop;
    log := [DrawString(page, LeftMargin, y, font, Title)];
    y := y - TitleGap;

    var i := 0;
    while i < |loanData|
      invariant 0 <= i <= |loanData|
      invariant Layout(page, y, log) == PlaceSources(Begin(), loanData[..i])
    {
      var (url, info) := loanData[i];
      font := HeaderFont;
      log := log + [DrawString(page, LeftMargin, y, font, SourcePrefix + url)];
      y := y - HeaderGap;
      ghost var header := Layout(page, y, log);

      font := BodyFont;
      var j := 0;
      while j < |info|
        invariant 0 <= j <= |info|
        invariant font == BodyFont
        invariant Layout(page, y, log) == PlaceLines(header, info[..j])
      {
        if y < BottomMargin {
          page := page + 1;
          font := BodyFont;
          y := PageTop;
        }
        log := log + [DrawString(page, LeftMargin, y, font, Truncate(info[j]))];
        y := y - LineGap;
        assert info[..j + 1][..j] == info[..j];
        j := j + 1;
      }
      assert info[..j] == info;
      y := y - SourceGap;
      assert loanData[..i + 1][..i] == loanData[..i];
      i := i + 1;
    }
    assert loanData[..i] == loanData;
    pages := page;
  }

  // ---------------------------------------------------------------------------------------
  // Geometry of the log

  /** `b` is drawn after `a`: lower on the same page, or at the top of the next page. */
  ghost predicate Follows(a: DrawString, b: DrawString) {
    (b.page == a.page && b.y < a.y) || (b.page == a.page + 1 && b.y == PageTop)
  }

  /** What holds of the layout state after the title and after every step of either loop. */
  ghost predicate WellFormed(st: Layout) {
    && |st.log| > 0
    && st.log[0] == DrawString(1, LeftMargin, PageTop, TitleFont, Title)
    && (forall i :: 0 < i < |st.log| ==> Follows(st.log[i - 1], st.log[i]))
    && (forall i :: 0 < i < |st.log| && st.log[i].page != st.log[i - 1].page ==> st.log[i].font == BodyFont)
    && (forall d <- st.log :: d.x == LeftMargin && d.y <= PageTop)
    && (forall d <- st.log :: d.font == BodyFont ==> d.y >= BottomMargin)
    && st.page == st.log[|st.log| - 1].page
    && st.y < st.log[|st.log| - 1].y
  }

  lemma PlaceLinePreserves(st: Layout, line: string)
    requires WellFormed(st)
    ensures WellFormed(PlaceLine(st, line))
  {
    var r := PlaceLine(st, line);
    assert r.log[..|st.log|] == st.log;
  }

  lemma {:induction false} PlaceLinesPreserves(st: Layout, lines: seq<string>)
    requires WellFormed(st)
    ensures WellFormed(PlaceLines(st, lines))
    decreases |lines|
  {
    if lines != [] {
      PlaceLinesPreserves(st, lines[..|lines| - 1]);
      PlaceLinePreserves(PlaceLines(st, lines[..|lines| - 1]), lines[|lines| - 1]);
    }
  }

  lemma PlaceSourcePreserves(st: Layout, url: string, lines: seq<string>)
    requires WellFormed(st)
    ensures WellFormed(PlaceSource(st, url, lines))
  {
    var header := Layout(st.page, st.y - HeaderGap,
                         st.log + [DrawString(st.page, LeftMargin, st.y, HeaderFont, SourcePrefix + url)]);
    assert header.log[..|st.log|] == st.log;
    assert WellFormed(header);
    PlaceLinesPreserves(header, lines);
  }

  lemma {:induction false} PlaceSourcesPreserves(st: Layout, sources: LoanData)
    requires WellFormed(st)
    ensures WellFormed(PlaceSources(st, sources))
    decreases |sources|
  {
    if sources != [] {
      var (url, lines) := sources[|sources| - 1];
      PlaceSourcesPreserves(st, sources[..|sources| - 1]);
      PlaceSourcePreserves(PlaceSources(st, sources[..|sources| - 1]), url, lines);
    }
  }

  /**
   * The layout invariants of the finished document: the title opens page 1 at y = 750; each
   * draw is lower than the one before it on the same page, or opens the next page at y = 750;
   * only a body line opens a new page (the space check guards body lines, never headers);
   * every draw is at x = 50 and no higher than 750; every body line is at y >= 50; and the
   * page count is the page of the last draw, so no page is left blank.
   */
  lemma RenderWellFormed(loanData: LoanData)
    ensures var r := Render(loanData);
      && |r.log| > 0
      && r.log[0] == DrawString(1, LeftMargin, PageTop, TitleFont, Title)
      && (forall i :: 0 < i < |r.log| ==> Follows(r.log[i - 1], r.log[i]))
      && (forall i :: 0 < i < |r.log| && r.log[i].page != r.log[i - 1].page ==> r.log[i].font == BodyFont)
      && (forall d <- r.log :: d.x == LeftMargin && d.y <= PageTop)
      && (forall d <- r.log :: d.font == BodyFont ==> d.y >= BottomMargin)
      && r.page == r.log[|r.log| - 1].page
  {
    PlaceSourcesPreserves(Begin(), loanData);
  }

  // ---------------------------------------------------------------------------------------
  // Pages

  /** The number of places in the log where the page changes, i.e. `showPage` calls. */
  function PageBreaks(log: seq<DrawString>): nat
    decreases |log|
  {
    if |log| <= 1 then 0
    else PageBreaks(log[..|log| - 1]) + (if log[|log| - 1].page != log[|log| - 2].page then 1 else 0)
  }

  lemma {:induction false} LastPageCountsBreaks(log: seq<DrawString>)
    requires |log| > 0 && log[0].page == 1
    requires forall i :: 0 < i < |log| ==> Follows(log[i - 1], log[i])
    ensures log[|log| - 1].page == 1 + PageBreaks(log)
    decreases |log|
  {
    if |log| > 1 {
      var init := log[..|log| - 1];
      assert forall i :: 0 < i < |init| ==> Follows(init[i - 1], init[i]) by {
        forall i | 0 < i < |init| ensures Follows(init[i - 1], init[i]) {
          assert Follows(log[i - 1], log[i]);
        }
      }
      LastPageCountsBreaks(init);
      assert Follows(log[|log| - 2], log[|log| - 1]);
    }
  }

  /** Pages used = 1 + number of page breaks. */
  lemma RenderPageCount(loanData: LoanData)
    ensures Render(loanData).page == 1 + PageBreaks(Render(loanData).log)
  {
    RenderWellFormed(loanData);
    LastPageCountsBreaks(Render(loanData).log);
  }

  // ---------------------------------------------------------------------------------------
  // Order and text of the draws

  /** What a draw shows: its font and its text. */
  function Items(log: seq<DrawString>): seq<(Font, string)> {
    seq(|log|, i requires 0 <= i < |log| => (log[i].font, log[i].text))
  }

  /** The body lines of one source as drawn: each truncated, in list order. */
  function BodyScript(lines: seq<string>): seq<(Font, string)> {
    seq(|lines|, i requires 0 <= i < |lines| => (BodyFont, Truncate(lines[i])))
  }

  /** The expected draws for `loan_data` after the title: per source its header, then its lines. */
  function Script(sources: LoanData): seq<(Font, string)>
    decreases |sources|
  {
    if sources == [] then []
    else
      var (url, lines) := sources[|sources| - 1];
      Script(sources[..|sources| - 1]) + [(HeaderFont, SourcePrefix + url)] + BodyScript(lines)
  }

  lemma ItemsAppend(a: seq<DrawString>, b: seq<DrawString>)
    ensures Items(a + b) == Items(a) + Items(b)
  {
  }

  lemma {:induction false} PlaceLinesScript(st: Layout, lines: seq<string>)
    ensures Items(PlaceLines(st, lines).log) == Items(st.log) + BodyScript(lines)
    decreases |lines|
  {
    if lines == [] {
      assert BodyScript(lines) == [];
    } else {
      var n := |lines| - 1;
      var mid := PlaceLines(st, lines[..n]);
      PlaceLinesScript(st, lines[..n]);
      var d := PlaceLine(mid, lines[n]).log[|mid.log|];
      ItemsAppend(mid.log, [d]);
      assert BodyScript(lines) == BodyScript(lines[..n]) + [(BodyFont, Truncate(lines[n]))];
    }
  }

  lemma {:induction false} PlaceSourcesScript(st: Layout, sources: LoanData)
    ensures Items(PlaceSources(st, sources).log) == Items(st.log) + Script(sources)
    decreases |sources|
  {
    if sources != [] {
      var (url, lines) := sources[|sources| - 1];
      var mid := PlaceSources(st, sources[..|sources| - 1]);
      PlaceSourcesScript(st, sources[..|sources| - 1]);
      var hd := DrawString(mid.page, LeftMargin, mid.y, HeaderFont, SourcePrefix + url);
      var header := Layout(mid.page, mid.y - HeaderGap, mid.log + [hd]);
      ItemsAppend(mid.log, [hd]);
      PlaceLinesScript(header, lines);
    }
  }

  /**
   * The draws appear in order: the title, then for each source of `loan_data`, in insertion
   * order, its "Source: url" header followed by its lines, each cut to its first 100 characters.
   */
  lemma RenderFollowsScript(loanData: LoanData)
    ensures Items(Render(loanData).log) == [(TitleFont, Title)] + Script(loanData)
  {
    PlaceSourcesScript(Begin(), loanData);
  }

  // ---------------------------------------------------------------------------------------
  // The source header is drawn without a space check

  /** Lines that fit above the margin from the current cursor are drawn without a page break, 12 points apart. */
  lemma {:induction false} LinesWithoutBreak(st: Layout, lines: seq<string>)
    requires lines != [] ==> st.y - LineGap * (|lines| - 1) >= BottomMargin
    ensures PlaceLines(st, lines).page == st.page
    ensures PlaceLines(st, lines).y == st.y - LineGap * |lines|
    ensures |PlaceLines(st, lines).log| == |st.log| + |lines|
    decreases |lines|
  {
    if lines != [] {
      LinesWithoutBreak(st, lines[..|lines| - 1]);
    }
  }

  /** Sources without lines only move the cursor: 25 points each, never starting a page. */
  lemma {:induction false} EmptySourcesDescend(st: Layout, sources: LoanData)
    requires forall k :: 0 <= k < |sources| ==> sources[k].1 == []
    ensures PlaceSources(st, sources).page == st.page
    ensures PlaceSources(st, sources).y == st.y - (HeaderGap + SourceGap) * |sources|
    ensures |PlaceSources(st, sources).log| == |st.log| + |sources|
    decreases |sources|
  {
    if sources != [] {
      EmptySourcesDescend(st, sources[..|sources| - 1]);
    }
  }

  /**
   * A header can land below the bottom margin: after 56 body lines the cursor is at 43, and
   * the next source's header is drawn at y = 33 on the same page.
   */
  lemma HeaderBelowMargin()
    ensures var first := seq(56, _ => "Interest rate from 10.5%");
      var r := Render([("https://www.bankbazaar.com/personal-loan.html", first),
                       ("https://www.paisabazaar.com/personal-loan/", ["Tenure up to 5 years"])]);
      |r.log| == 60 && r.log[58] == DrawString(1, LeftMargin, 33, HeaderFont, SourcePrefix + "https://www.paisabazaar.com/personal-loan/")
  {
    var first := seq(56, _ => "Interest rate from 10.5%");
    var sources := [("https://www.bankbazaar.com/personal-loan.html", first),
                    ("https://www.paisabazaar.com/personal-loan/", ["Tenure up to 5 years"])];
    var header := Layout(1, PageTop - TitleGap - HeaderGap,
                         Begin().log + [DrawString(1, LeftMargin, PageTop - TitleGap, HeaderFont, SourcePrefix + sources[0].0)]);
    LinesWithoutBreak(header, first);
    assert sources[..1][..0] == [];
    assert PlaceSources(Begin(), sources[..1]) == PlaceSource(Begin(), sources[0].0, first);
    assert sources[..|sources| - 1] == sources[..1];
  }

  /**
   * With enough sources that have no lines, a header is drawn at a negative y: for any
   * `loan_data` of 31 distinct URLs with empty lists, the 31st header is at y = -20.
   */
  lemma HeaderAtNegativeY(loanData: LoanData)
    requires |loanData| == 31
    requires forall k :: 0 <= k < |loanData| ==> loanData[k].1 == []
    requires forall i, j :: 0 <= i < j < |loanData| ==> loanData[i].0 != loanData[j].0
    ensures var r := Render(loanData);
      |r.log| == 32 && r.log[31].font == HeaderFont && r.log[31].y == -20
  {
    EmptySourcesDescend(Begin(), loanData[..30]);
  }

  /** Such a `loan_data` exists: 31 distinct one-letter URLs, each with no lines. */
  lemma NegativeHeaderInput() returns (loanData: LoanData)
    ensures |loanData| == 31
    ensures forall k :: 0 <= k < |loanData| ==> loanData[k].1 == []
    ensures forall i, j :: 0 <= i < j < |loanData| ==> loanData[i].0 != loanData[j].0
  {
    loanData := seq(31, k requires 0 <= k < 31 => ([(65 + k) as char], []));
    forall i, j | 0 <= i < j < |loanData| ensures loanData[i].0 != loanData[j].0 {
      assert loanData[i].0[0] != loanData[j].0[0];
    }
  }

  /** The lowest y a source header can reach when every source has at least one line. */
  const HeaderFloor := BottomMargin - LineGap - SourceGap

  ghost predicate HeadersAbove(log: seq<DrawString>, floor: int) {
    forall d <- log :: d.font == HeaderFont ==> d.y >= floor
  }

  lemma {:induction false} PlaceLinesKeepsHeaders(st: Layout, lines: seq<string>, floor: int)
    requires HeadersAbove(st.log, floor)
    ensures HeadersAbove(PlaceLines(st, lines).log, floor)
    decreases |lines|
  {
    if lines != [] {
      PlaceLinesKeepsHeaders(st, lines[..|lines| - 1], floor);
    }
  }

  lemma {:induction false} PlaceSourcesHeaderFloor(st: Layout, sources: LoanData)
    requires st.y >= HeaderFloor && HeadersAbove(st.log, HeaderFloor)
    requires forall k :: 0 <= k < |sources| ==> sources[k].1 != []
    ensures PlaceSources(st, sources).y >= HeaderFloor
    ensures HeadersAbove(PlaceSources(st, sources).log, HeaderFloor)
    decreases |sources|
  {
    if sources != [] {
      var (url, lines) := sources[|sources| - 1];
      var mid := PlaceSources(st, sources[..|sources| - 1]);
      PlaceSourcesHeaderFloor(st, sources[..|sources| - 1]);
      var header := Layout(mid.page, mid.y - HeaderGap,
                           mid.log + [DrawString(mid.page, LeftMargin, mid.y, HeaderFont, SourcePrefix + url)]);
      PlaceLinesKeepsHeaders(header, lines, HeaderFloor);
    }
  }

  /**
   * When every source has at least one line, as the scraper guarantees, a header is never
   * drawn below y = 28: the last body line is at y >= 50, then the cursor drops by 12 and 10.
   */
  lemma RenderHeaderFloor(loanData: LoanData)
    requires forall k :: 0 <= k < |loanData| ==> loanData[k].1 != []
    ensures forall d <- Render(loanData).log :: d.font == HeaderFont ==> d.y >= HeaderFloor
  {
    PlaceSourcesHeaderFloor(Begin(), loanData);
  }
}
