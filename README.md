# Personal-loan scraper: keyword filter and PDF layout

This project models, in Dafny, the part of the RAG chatbot repository that the repository
writes itself rather than delegating to a library: the scraper in `webscraper.py`.

- **Keyword filter** (`extract_loan_info`). A page is the stripped texts of its `h2`, `h3`, `p`
  and `li` elements in document order, or `None` when the page could not be fetched. The filter
  keeps exactly the texts whose lower-cased form contains one of "personal loan",
  "interest rate", "eligibility", "tenure" or "loan amount". Texts keep their original case and
  their order. Module `LoanFilter`, file `loan_filter.dfy`.
- **PDF layout** (`save_to_pdf`). This is a loop over an integer cursor `y_position` and a page
  counter. The title goes at y = 750 and the cursor drops 20. Each source gets a header
  "Source: url" and the cursor drops 15. Before each of the source's lines, a new page starts
  if the cursor is below 50, resetting it to 750; the line is drawn cut to 100 characters and
  the cursor drops 12. After each source the cursor drops another 10. The reportlab canvas is
  modelled as a log of `drawString` calls, each with its page, x, y, font and text. Module
  `PdfLayout`, file `pdf_layout.dfy`.
- **Aggregation** (`scrape_personal_loan_info`). Each of the three aggregator URLs is visited
  in order. A URL is recorded in `loan_data` only if its page was fetched and its filtered text
  list is non-empty. The PDF is written only if something was recorded. Module `Scraper`, file
  `scraper.dfy`.

The imperative code stays imperative. `ExtractLoanInfo`, `SaveToPdf` and
`ScrapePersonalLoanInfo` are methods with the source's loops. Each is proved equal to a
specification function (`Filter`, `Render`, `Collect`), and the source's promises are proved
as lemmas about those functions. The `loan_data` dictionary is a sequence of `(url, lines)`
pairs in insertion order. Its keys are proved distinct, so the dictionary's overwrite-on-repeat
case never arises.

One quirk is reproduced on purpose. The source header (webscraper.py:66) is drawn with no
space check. It can land below the bottom margin that body lines respect, and with enough
sources that have no lines (31 distinct URLs) it lands at a negative y. `HeaderBelowMargin` and
`HeaderAtNegativeY` exhibit both cases. `RenderHeaderFloor` shows that when every source has
at least one line, which the scraper guarantees, a header never goes below y = 28.

## Model

| member | source | states |
|---|---|---|
| `LoanFilter.ExtractLoanInfo` | webscraper.py:43-53 | A missing page (`None`) gives the empty list; otherwise the result is `Filter` of the page's section texts, built by the append loop. |
| `LoanFilter.ContainsIffOccurs` | webscraper.py:50 | `keyword in text` holds exactly when the keyword occurs in the text at some index as a contiguous substring. |
| `LoanFilter.MentionKept` | webscraper.py:50 | A text whose lower-cased form contains any of the five keywords at some index passes the test, whatever the case of the original. |
| `LoanFilter.IsLoanTextIgnoresCase` | webscraper.py:50 | The keyword test gives the same answer for a text and for its lower-cased form. |
| `LoanFilter.FilterSound` | webscraper.py:48-51 | Every kept text is one of the page's texts, unchanged (original case), and contains a keyword after lower-casing. |
| `LoanFilter.FilterComplete` | webscraper.py:48-51 | Every text of the page that contains a keyword after lower-casing is kept at its own place: the output is the filtered texts before it, the text itself, then the filtered texts after it. Repeated texts are kept as often as they occur. |
| `LoanFilter.FilterKeepsPassing` | webscraper.py:48-51 | A passing text between two stretches of texts is output between their filtered forms. |
| `LoanFilter.FilterExcludes` | webscraper.py:50-51 | A text that contains no keyword after lower-casing is never kept. |
| `LoanFilter.FilterAppend` | webscraper.py:47-51 | Filtering distributes over concatenation: each text is judged alone and stays in place. |
| `LoanFilter.FilterIsSubsequence` | webscraper.py:47-51 | The output is a subsequence of the section texts, in document order. |
| `PdfLayout.Truncate` | webscraper.py:76 | `line[:100]` is a prefix of the line whose length is the smaller of the line's length and 100. |
| `PdfLayout.SaveToPdf` | webscraper.py:56-81 | The nested loops over the y cursor and page counter produce exactly the page count and draw log of `Render`. |
| `PdfLayout.RenderWellFormed` | webscraper.py:59-79 | The title is first, on page 1 at y = 750. Every later draw is either lower on the same page or at y = 750 on the next page. All draws are at x = 50 and y <= 750. Only a body line opens a new page, since the space check guards body lines and never headers. Every body line is at y >= 50. The page count equals the page of the last draw, so no page is blank. |
| `PdfLayout.RenderPageCount` | webscraper.py:71-74 | Pages used = 1 + the number of page breaks in the log. |
| `PdfLayout.RenderFollowsScript` | webscraper.py:61-79 | Draws come in order: the title, then for each source in insertion order its "Source: url" header (bold) and its lines in list order, each cut to 100 characters. |
| `PdfLayout.LinesWithoutBreak` | webscraper.py:70-77 | Lines that fit above the margin from the current cursor stay on the same page, and the cursor drops 12 per line. |
| `PdfLayout.EmptySourcesDescend` | webscraper.py:64-79 | A source with no lines moves the cursor down 25 and never starts a page. |
| `PdfLayout.HeaderBelowMargin` | webscraper.py:64-79 | After a 56-line first source, the next source header is drawn at y = 33 on page 1, below the 50-point margin. |
| `PdfLayout.HeaderAtNegativeY` | webscraper.py:64-79 | For any `loan_data` of 31 distinct URLs whose lists are empty, the 31st header is drawn at y = -20. |
| `PdfLayout.NegativeHeaderInput` | webscraper.py:64 | A `loan_data` with 31 distinct URLs and empty lists exists, so `HeaderAtNegativeY` applies to an input a dictionary can hold. |
| `PdfLayout.RenderHeaderFloor` | webscraper.py:64-79 | If every source has at least one line, no header is drawn below y = 28. |
| `Scraper.ScrapePersonalLoanInfo` | webscraper.py:85-103 | `loan_data` is `Collect` over the aggregators in order. The PDF is produced exactly when `loan_data` is non-empty, and it is the `Render` of `loan_data`. |
| `Scraper.CollectSound` | webscraper.py:88-96 | Every `loan_data` entry belongs to a fetched aggregator page, holds that page's filtered texts, and is non-empty. |
| `Scraper.CollectComplete` | webscraper.py:88-96 | Every fetched page with non-empty filtered texts has its `(url, texts)` entry in `loan_data`. |
| `Scraper.CollectInOrder` | webscraper.py:86-96 | The URLs of `loan_data` form a subsequence of the visited URLs, in visiting order. |
| `Scraper.CollectDistinct` | webscraper.py:86-96 | Visiting distinct URLs gives `loan_data` distinct keys. |
| `Scraper.ScrapeKeysDistinctInOrder` | webscraper.py:22-26 | The keys of the scraped `loan_data` are distinct and in the order of `LOAN_AGGREGATORS`. |
| `Scraper.ScrapeRecordsExactly` | webscraper.py:93-98 | An aggregator URL is recorded if and only if its fetch succeeded and its filtered list is non-empty. |
| `Scraper.ScrapedHeadersAboveFloor` | webscraper.py:93-101 | In the PDF the scraper writes, no source header is below y = 28. |

## Left out

- `fetch_page_content` (webscraper.py:29-40) is not modelled: the HTTP request, status check, random user agent and HTML parsing are I/O and library code. The result for each aggregator is an input, `None` when the request failed. `ScrapePersonalLoanInfo` therefore requires exactly one fetch result per aggregator URL.
- `find_all` and `get_text(strip=True)` are HTML parsing. A page is modelled as its already-stripped section texts in document order.
- `text.lower()` is modelled as ASCII lower-casing. Non-ASCII characters are left unchanged; Python's full Unicode case mapping is not modelled.
- `time.sleep(random.uniform(2, 5))` is timing and randomness. It has no effect on the data.
- The console messages (`print`) are not modelled.
- The reportlab canvas is reduced to a log of `drawString` calls. The model records the page, x, y, the font set at that point and the text. Glyph widths, `showPage` and `save` internals, the font reset that `showPage` performs, and the PDF file and its name are not modelled.
- `loan_data` is a sequence of entries, not a hash map. Overwriting a repeated key is not modelled because the aggregator URLs are distinct (`ScrapeKeysDistinctInOrder`).
- `SaveToPdf` and `Render` accept sequences with repeated URLs, which no dictionary can hold. Their layout results hold for such inputs too. The lemmas that exhibit a particular layout (`HeaderBelowMargin`, `HeaderAtNegativeY`) use distinct URLs.
- `main.py` (chat UI, session state, LLM, vector store, conversation memory, progress bar) and `vectorize_documents.py` (PDF loading, text splitting, embedding, persistence) are not part of this model. All of their behaviour is carried out inside third-party libraries.
