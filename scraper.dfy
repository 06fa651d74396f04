/**
 * `scrape_personal_loan_info`: visit each loan aggregator in turn, keep the loan texts of
 * every page that was fetched and has any, and write the PDF when anything was kept.
 * Fetching is not modelled: the result of `fetch_page_content` for the i-th aggregator is
 * the i-th element of the input, `None` for a failed request.
 */
module Scraper {
  import opened Wrappers
  import opened Subsequences
  import opened LoanFilter
  import opened PdfLayout

  /** The aggregator pages, in the order they are scraped. */
  const LoanAggregators: seq<string> := [
    "https://www.bankbazaar.com/personal-loan.html",
    "https://www.paisabazaar.com/personal-loan/",
    "https://www.moneycontrol.com/personal-loan"
  ]

  /** The URLs of `loan_data`, in insertion order. */
  function Urls(loanData: LoanData): seq<string> {
    seq(|loanData|, k requires 0 <= k < |loanData| => loanData[k].0)
  }

  /** `loan_data` after the loop has visited `urls`, whose fetch results are `fetched`. */
  function Collect(urls: seq<string>, fetched: seq<Option<seq<string>>>): LoanData
    requires |urls| == |fetched|
    decreases |urls|
  {
    if urls == [] then []
    else
      var n := |urls| - 1;
      var kept := Collect(urls[..n], fetched[..n]);
      if fetched[n].Some? && Filter(fetched[n].value) != [] then kept + [(urls[n], Filter(fetched[n].value))]
      else kept
  }

  /**
   * `scrape_personal_loan_info()`, returning `loan_data` and, when it is non-empty, the page
   * count and draw log of the PDF that `save_to_pdf` writes.
   */
  method ScrapePersonalLoanInfo(fetched: seq<Option<seq<string>>>)
    returns (loanData: LoanData, pdf: Option<(nat, seq<DrawString>)>)
    requires |fetched| == |LoanAggregators|
    ensures loanData == Collect(LoanAggregators, fetched)
    ensures pdf.Some? <==> loanData != []
    ensures pdf.Some? ==> pdf.value == (Render(loanData).page, Render(loanData).log)
  {
    loanData := [];
    var i := 0;
    while i < |LoanAggregators|
      invariant 0 <= i <= |LoanAggregators|
      invariant loanData == Collect(LoanAggregators[..i], fetched[..i])
    {
      var url := LoanAggregators[i];
      var soup := fetched[i];
      if soup.Some? {
        var extractedInfo := ExtractLoanInfo(soup);
        if extractedInfo != [] {
          loanData := loanData + [(url, extractedInfo)];
        }
      }
      assert LoanAggregators[..i + 1][..i] == LoanAggregators[..i];
      assert fetched[..i + 1][..i] == fetched[..i];
      i := i + 1;
    }
    assert LoanAggregators[..i] == LoanAggregators;
    assert fetched[..i] == fetched;
    if loanData != [] {
      var pages, log := SaveToPdf(loanData);
      pdf := Some((pages, log));
    } else {
      pdf := None;
    }
  }

  // ---------------------------------------------------------------------------------------
  // What `loan_data` holds

  /** Every entry of `loan_data` comes from a fetched page, holds that page's filtered texts, and they are not empty. */
  lemma {:induction false} CollectSound(urls: seq<string>, fetched: seq<Option<seq<string>>>, k: int)
    requires |urls| == |fetched|
    requires 0 <= k < |Collect(urls, fetched)|
    ensures exists i :: 0 <= i < |urls| && urls[i] == Collect(urls, fetched)[k].0
                        && fetched[i].Some? && Collect(urls, fetched)[k].1 == Filter(fetched[i].value)
    ensures Collect(urls, fetched)[k].1 != []
    decreases |urls|
  {
    var n := |urls| - 1;
    var kept := Collect(urls[..n], fetched[..n]);
    if k < |kept| {
      CollectSound(urls[..n], fetched[..n], k);
      var i :| 0 <= i < n && urls[..n][i] == kept[k].0 && fetched[..n][i].Some? && kept[k].1 == Filter(fetched[..n][i].value);
      assert urls[i] == urls[..n][i] && fetched[i] == fetched[..n][i];
    } else {
      assert Collect(urls, fetched)[k] == (urls[n], Filter(fetched[n].value));
    }
  }

  /** Every fetched page with some loan text has its entry in `loan_data`. */
  lemma {:induction false} CollectComplete(urls: seq<string>, fetched: seq<Option<seq<string>>>, i: int)
    requires |urls| == |fetched|
    requires 0 <= i < |urls|
    requires fetched[i].Some? && Filter(fetched[i].value) != []
    ensures (urls[i], Filter(fetched[i].value)) in Collect(urls, fetched)
    decreases |urls|
  {
    var n := |urls| - 1;
    if i < n {
      CollectComplete(urls[..n], fetched[..n], i);
      assert urls[..n][i] == urls[i] && fetched[..n][i] == fetched[i];
      var kept := Collect(urls[..n], fetched[..n]);
      assert kept <= Collect(urls, fetched);
    }
  }

  /** `loan_data` lists its URLs in aggregator order. */
  lemma {:induction false} CollectInOrder(urls: seq<string>, fetched: seq<Option<seq<string>>>)
    requires |urls| == |fetched|
    ensures IsSubsequence(Urls(Collect(urls, fetched)), urls)
    decreases |urls|
  {
    if urls != [] {
      var n := |urls| - 1;
      var kept := Collect(urls[..n], fetched[..n]);
      CollectInOrder(urls[..n], fetched[..n]);
      assert urls == urls[..n] + [urls[n]];
      if fetched[n].Some? && Filter(fetched[n].value) != [] {
        assert Urls(Collect(urls, fetched)) == Urls(kept) + [urls[n]];
        SubsequenceExtend(Urls(kept), urls[..n], urls[n]);
      } else {
        SubsequenceGrow(Urls(kept), urls[..n], urls[n]);
      }
    }
  }

  /** No URL is listed twice. */
  ghost predicate Distinct(xs: seq<string>) {
    forall i, j :: 0 <= i < j < |xs| ==> xs[i] != xs[j]
  }

  /** With distinct URLs, `loan_data` has distinct keys, so a list of entries models the dictionary. */
  lemma {:induction false} CollectDistinct(urls: seq<string>, fetched: seq<Option<seq<string>>>)
    requires |urls| == |fetched| && Distinct(urls)
    ensures Distinct(Urls(Collect(urls, fetched)))
    decreases |urls|
  {
    if urls != [] {
      var n := |urls| - 1;
      var kept := Collect(urls[..n], fetched[..n]);
      CollectDistinct(urls[..n], fetched[..n]);
      if fetched[n].Some? && Filter(fetched[n].value) != [] {
        forall k | 0 <= k < |kept| ensures kept[k].0 != urls[n] {
          CollectSound(urls[..n], fetched[..n], k);
        }
        assert Urls(Collect(urls, fetched)) == Urls(kept) + [urls[n]];
      }
    }
  }

  /** The URLs of the scraped `loan_data` are distinct and in the order of the aggregator list. */
  lemma ScrapeKeysDistinctInOrder(fetched: seq<Option<seq<string>>>)
    requires |fetched| == |LoanAggregators|
    ensures Distinct(Urls(Collect(LoanAggregators, fetched)))
    ensures IsSubsequence(Urls(Collect(LoanAggregators, fetched)), LoanAggregators)
  {
    CollectDistinct(LoanAggregators, fetched);
    CollectInOrder(LoanAggregators, fetched);
  }

  /** A URL is recorded exactly when its page was fetched and has some loan text. */
  lemma ScrapeRecordsExactly(fetched: seq<Option<seq<string>>>, i: int)
    requires |fetched| == |LoanAggregators| && 0 <= i < |LoanAggregators|
    ensures LoanAggregators[i] in Urls(Collect(LoanAggregators, fetched))
            <==> fetched[i].Some? && Filter(fetched[i].value) != []
  {
    var data := Collect(LoanAggregators, fetched);
    if fetched[i].Some? && Filter(fetched[i].value) != [] {
      CollectComplete(LoanAggregators, fetched, i);
      var k :| 0 <= k < |data| && data[k] == (LoanAggregators[i], Filter(fetched[i].value));
      assert Urls(data)[k] == LoanAggregators[i];
    } else if LoanAggregators[i] in Urls(data) {
      var k :| 0 <= k < |data| && Urls(data)[k] == LoanAggregators[i];
      CollectSound(LoanAggregators, fetched, k);
    }
  }

  /**
   * In the PDF written by the scraper no source header falls below y = 28: every entry of
   * `loan_data` has at least one line.
   */
  lemma ScrapedHeadersAboveFloor(fetched: seq<Option<seq<string>>>)
    requires |fetched| == |LoanAggregators|
    ensures forall d <- Render(Collect(LoanAggregators, fetched)).log :: d.font == HeaderFont ==> d.y >= HeaderFloor
  {
    var data := Collect(LoanAggregators, fetched);
    forall k | 0 <= k < |data| ensures data[k].1 != [] {
      CollectSound(LoanAggregators, fetched, k);
    }
    RenderHeaderFloor(data);
  }
}
