/**
 * The keyword filter of the scraper (`extract_loan_info`): out of the texts of a page's
 * headings, paragraphs and list items, in document order, keep those whose lower-cased
 * form mentions one of five fixed loan keywords.
 */
module LoanFilter {
  import opened Wrappers
  import opened Subsequences

  /** The keywords, all ASCII lower case, in the order the source lists them. */
  const Keywords: seq<string> := ["personal loan", "interest rate", "eligibility", "tenure", "loan amount"]

  /** ASCII lower-casing of one character. */
  function LowerChar(c: char): char {
    if 'A' <= c <= 'Z' then (c as int - 'A' as int + 'a' as int) as char else c
  }

  /** `text.lower()`, restricted to ASCII letters. */
  function ToLower(s: string): string {
    seq(|s|, i requires 0 <= i < |s| => LowerChar(s[i]))
  }

  /** `k` is a prefix of `s`. */
  predicate StartsWith(s: string, k: string) {
    |k| <= |s| && s[..|k|] == k
  }

  /** Python's `k in s` on strings: `k` occurs in `s` as a contiguous substring. */
  predicate Contains(s: string, k: string)
    decreases |s|
  {
    StartsWith(s, k) || (|s| > 0 && Contains(s[1..], k))
  }

  /** `k` occurs in `s` starting at index `i`. */
  ghost predicate OccursAt(s: string, k: string, i: int) {
    0 <= i && i + |k| <= |s| && s[i..i + |k|] == k
  }

  /** The condition of the `if` in the loop: `any(keyword in text.lower() for keyword in ...)`. */
  predicate IsLoanText(text: string) {
    exists kw <- Keywords :: Contains(ToLower(text), kw)
  }

  /** The texts of `sections` that satisfy `IsLoanText`, in document order; defined on the last element so that it follows the loop. */
  function Filter(sections: seq<string>): seq<string>
    decreases |sections|
  {
    if sections == [] then []
    else
      var last := sections[|sections| - 1];
      Filter(sections[..|sections| - 1]) + (if IsLoanText(last) then [last] else [])
  }

  /**
   * `extract_loan_info(soup)`. The page is `None` when it could not be fetched; otherwise it is
   * the stripped texts of its h2, h3, p and li elements in document order.
   */
  method ExtractLoanInfo(page: Option<seq<string>>) returns (loanInfo: seq<string>)
    ensures page.None? ==> loanInfo == []
    ensures page.Some? ==> loanInfo == Filter(page.value)
  {
    loanInfo := [];
    if page.Some? {
      var sections := page.value;
      var i := 0;
      while i < |sections|
        invariant 0 <= i <= |sections|
        invariant loanInfo == Filter(sections[..i])
      {
        var text := sections[i];
        if IsLoanText(text) {
          loanInfo := loanInfo + [text];
        }
        assert sections[..i + 1][..i] == sections[..i];
        i := i + 1;
      }
      assert sections[..i] == sections;
    }
  }

  // ---------------------------------------------------------------------------------------
  // Substring containment

  /** An occurrence of `k` anywhere in `s` makes `Contains` true. */
  lemma {:induction false} OccurrenceContained(s: string, k: string, i: int)
    requires OccursAt(s, k, i)
    ensures Contains(s, k)
    decreases i
  {
    if i == 0 {
      assert s[..|k|] == k;
    } else {
      assert s[1..][i - 1..i - 1 + |k|] == s[i..i + |k|];
      OccurrenceContained(s[1..], k, i - 1);
    }
  }

  /** `Contains` is only true where `k` really occurs. */
  lemma {:induction false} ContainedOccurs(s: string, k: string) returns (i: int)
    requires Contains(s, k)
    ensures OccursAt(s, k, i)
    decreases |s|
  {
    if StartsWith(s, k) {
      i := 0;
    } else {
      var j := ContainedOccurs(s[1..], k);
      assert s[1..][j..j + |k|] == s[j + 1..j + 1 + |k|];
      i := j + 1;
    }
  }

  /** The recursive `Contains` agrees with the direct definition: some index where `k` occurs. */
  lemma ContainsIffOccurs(s: string, k: string)
    ensures Contains(s, k) <==> exists i :: OccursAt(s, k, i)
  {
    if Contains(s, k) {
      var i := ContainedOccurs(s, k);
    }
    forall i | OccursAt(s, k, i) ensures Contains(s, k) {
      OccurrenceContained(s, k, i);
    }
  }

  // ---------------------------------------------------------------------------------------
  // Case

  /** Lower-casing is idempotent. */
  lemma ToLowerIdempotent(s: string)
    ensures ToLower(ToLower(s)) == ToLower(s)
  {
  }

  /** The keyword test ignores case: a text and its lower-cased form are kept or dropped together. */
  lemma IsLoanTextIgnoresCase(text: string)
    ensures IsLoanText(ToLower(text)) == IsLoanText(text)
  {
    ToLowerIdempotent(text);
  }

  /** A text that mentions a keyword in any mix of ASCII cases passes the test. */
  lemma {:induction false} MentionKept(text: string, kw: string, i: int)
    requires kw in Keywords
    requires OccursAt(ToLower(text), kw, i)
    ensures IsLoanText(text)
  {
    ContainsIffOccurs(ToLower(text), kw);
  }

  // ---------------------------------------------------------------------------------------
  // The filter

  /** The filter distributes over concatenation: each text is judged on its own, in place. */
  lemma {:induction false} FilterAppend(a: seq<string>, b: seq<string>)
    ensures Filter(a + b) == Filter(a) + Filter(b)
    decreases |b|
  {
    if b == [] {
      assert a + b == a;
    } else {
      var n := |b| - 1;
      assert (a + b)[..|a + b| - 1] == a + b[..n];
      assert (a + b)[|a + b| - 1] == b[n];
      FilterAppend(a, b[..n]);
    }
  }

  /** Soundness: every kept text is one of the page's texts, unchanged, and passes the keyword test. */
  lemma {:induction false} FilterSound(sections: seq<string>, j: int)
    requires 0 <= j < |Filter(sections)|
    ensures Filter(sections)[j] in sections
    ensures IsLoanText(Filter(sections)[j])
    decreases |sections|
  {
    var n := |sections| - 1;
    var init := sections[..n];
    if j < |Filter(init)| {
      FilterSound(init, j);
      assert Filter(sections)[j] == Filter(init)[j];
    } else {
      assert Filter(sections)[j] == sections[n];
    }
  }

  /**
   * Completeness: every text of the page that passes the keyword test is kept, at its own
   * place: the output is what comes before it filtered, the text itself, and what follows filtered.
   * So repeated texts are kept as often as they occur.
   */
  lemma {:induction false} FilterComplete(sections: seq<string>, i: int)
    requires 0 <= i < |sections|
    requires IsLoanText(sections[i])
    ensures Filter(sections) == Filter(sections[..i]) + [sections[i]] + Filter(sections[i + 1..])
    ensures sections[i] in Filter(sections)
  {
    FilterKeepsPassing(sections[..i], sections[i], sections[i + 1..]);
    assert sections == sections[..i] + [sections[i]] + sections[i + 1..];
  }

  /** A passing text between two stretches of texts is kept between their filtered forms. */
  lemma {:induction false} FilterKeepsPassing(before: seq<string>, x: string, after: seq<string>)
    requires IsLoanText(x)
    ensures Filter(before + [x] + after) == Filter(before) + [x] + Filter(after)
  {
    FilterAppend(before + [x], after);
    assert (before + [x])[..|before|] == before;
  }

  /** A text that fails the keyword test is never in the output. */
  lemma {:induction false} FilterExcludes(sections: seq<string>, text: string)
    requires !IsLoanText(text)
    ensures text !in Filter(sections)
  {
    if text in Filter(sections) {
      var j :| 0 <= j < |Filter(sections)| && Filter(sections)[j] == text;
      FilterSound(sections, j);
    }
  }

  /** Order is kept: the output is a subsequence of the page's texts. */
  lemma {:induction false} FilterIsSubsequence(sections: seq<string>)
    ensures IsSubsequence(Filter(sections), sections)
    decreases |sections|
  {
    if sections != [] {
      var rest := sections[1..];
      FilterIsSubsequence(rest);
      assert sections == [sections[0]] + rest;
      FilterAppend([sections[0]], rest);
      assert [sections[0]][..0] == [];
      if IsLoanText(sections[0]) {
        assert Filter(sections) == [sections[0]] + Filter(rest);
        assert Filter(sections)[1..] == Filter(rest);
      } else {
        assert Filter(sections) == Filter(rest);
        SubsequenceSkip(Filter(rest), sections);
      }
    }
  }
}
