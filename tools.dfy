/**
 * The text handling of the three crew tools: the document reader collapses
 * blank lines page by page and joins the pages, the investment analyzer
 * removes double spaces and reports the cleaned length, and the risk tool
 * reports the raw length. Both cleanups are specified by one reference
 * definition, Squeeze, which shrinks every run of one character to a
 * single occurrence.
 */
module Tools {
  import opened Wrappers
  import opened Text

  /** No two neighbouring characters of `s` are both `c`. */
  predicate NoRepeat(s: string, c: char) {
    forall i :: 0 <= i < |s| - 1 ==> !(s[i] == c && s[i + 1] == c)
  }

  /** Reference definition: `s` with every run of `c` shrunk to one `c`.
      It never lengthens a string, keeps it non-empty, and keeps its first
      character. */
  function Squeeze(s: string, c: char): (r: string)
    ensures |r| <= |s|
    ensures |s| > 0 ==> |r| > 0 && r[0] == s[0]
  {
    if |s| < 2 then s
    else if s[0] == c && s[1] == c then Squeeze(s[1..], c)
    else [s[0]] + Squeeze(s[1..], c)
  }

  /** `s` with every `c` deleted. */
  function Without(s: string, c: char): string {
    if s == [] then [] else (if s[0] == c then [] else [s[0]]) + Without(s[1..], c)
  }

  /** `r` is a non-empty run of `c`. */
  predicate IsRun(r: string, c: char) {
    r != [] && forall k :: 0 <= k < |r| ==> r[k] == c
  }

  /** Squeezing one character onto the front of a string. */
  lemma SqueezeCons(d: char, x: string, c: char)
    ensures Squeeze([d] + x, c) ==
      if x != [] && d == c && x[0] == c then Squeeze(x, c) else [d] + Squeeze(x, c)
  {
    assert ([d] + x)[1..] == x;
  }

  /** Squeeze only looks at a string through its squeezed form when a
      character is put in front. */
  lemma SqueezeCongruence(d: char, x: string, y: string, c: char)
    requires Squeeze(x, c) == Squeeze(y, c)
    ensures Squeeze([d] + x, c) == Squeeze([d] + y, c)
  {
    SqueezeCons(d, x, c);
    SqueezeCons(d, y, c);
  }

  /** After squeezing, no two neighbouring characters are both `c`. */
  lemma {:induction false} SqueezeNoRepeat(s: string, c: char)
    ensures NoRepeat(Squeeze(s, c), c)
  {
    if |s| >= 2 {
      SqueezeNoRepeat(s[1..], c);
    }
  }

  /** A string is left unchanged by Squeeze exactly when it has no
      repeated `c`. */
  lemma {:induction false} SqueezeFixpoint(s: string, c: char)
    ensures Squeeze(s, c) == s <==> NoRepeat(s, c)
  {
    if |s| >= 2 {
      if NoRepeat(s, c) {
        assert !(s[0] == c && s[1] == c);
        assert NoRepeat(s[1..], c) by {
          forall i | 0 <= i < |s[1..]| - 1
            ensures !(s[1..][i] == c && s[1..][i + 1] == c)
          {
            assert s[1..][i] == s[i + 1] && s[1..][i + 1] == s[i + 2];
          }
        }
        SqueezeFixpoint(s[1..], c);
        assert [s[0]] + s[1..] == s;
      } else {
        SqueezeNoRepeat(s, c);
      }
    }
  }

  /** Squeezing twice is squeezing once. */
  lemma SqueezeIdempotent(s: string, c: char)
    ensures Squeeze(Squeeze(s, c), c) == Squeeze(s, c)
  {
    SqueezeNoRepeat(s, c);
    SqueezeFixpoint(Squeeze(s, c), c);
  }

  /** Squeeze deletes only copies of `c`: with every `c` removed, input and
      output are the same string. */
  lemma {:induction false} SqueezeOnlyDeletes(s: string, c: char)
    ensures Without(Squeeze(s, c), c) == Without(s, c)
  {
    if |s| >= 2 {
      SqueezeOnlyDeletes(s[1..], c);
      if !(s[0] == c && s[1] == c) {
        assert ([s[0]] + Squeeze(s[1..], c))[1..] == Squeeze(s[1..], c);
      }
    }
  }

  /** Two pieces that do not meet in a pair of `c` squeeze separately. */
  lemma {:induction false} SqueezeAppend(a: string, b: string, c: char)
    requires a == [] || b == [] || a[|a| - 1] != c || b[0] != c
    ensures Squeeze(a + b, c) == Squeeze(a, c) + Squeeze(b, c)
  {
    if a == [] {
      assert a + b == b;
    } else if |a| == 1 {
      assert (a + b)[1..] == b;
    } else {
      var a' := a[1..];
      assert (a + b)[1..] == a' + b;
      SqueezeAppend(a', b, c);
      if !(a[0] == c && a[1] == c) {
        assert [a[0]] + (Squeeze(a', c) + Squeeze(b, c)) == [a[0]] + Squeeze(a', c) + Squeeze(b, c);
      }
    }
  }

  /** A non-empty run of `c` squeezes to a single `c`. */
  lemma {:induction false} SqueezeRunPrefix(r: string, b: string, c: char)
    requires IsRun(r, c)
    requires b == [] || b[0] != c
    ensures Squeeze(r + b, c) == [c] + Squeeze(b, c)
    decreases |r|
  {
    var rest := r[1..] + b;
    assert r + b == [c] + rest;
    SqueezeCons(c, rest, c);
    if |r| > 1 {
      SqueezeRunPrefix(r[1..], b, c);
      assert rest[0] == c;
    } else {
      assert rest == b;
    }
  }

  /** Every maximal run of `c` between two other characters (or the ends of
      the string) becomes exactly one `c`, and the text on either side is
      squeezed on its own. */
  lemma SqueezeCollapsesRun(a: string, r: string, b: string, c: char)
    requires IsRun(r, c)
    requires a == [] || a[|a| - 1] != c
    requires b == [] || b[0] != c
    ensures Squeeze(a + (r + b), c) == Squeeze(a, c) + ([c] + Squeeze(b, c))
  {
    var sa, sb := Squeeze(a, c), Squeeze(b, c);
    assert Squeeze(r + b, c) == [c] + sb by {
      SqueezeRunPrefix(r, b, c);
    }
    assert Squeeze(a + (r + b), c) == sa + Squeeze(r + b, c) by {
      assert (r + b)[0] == r[0] == c;
      SqueezeAppend(a, r + b, c);
    }
  }

  /** Deleting one character of a pair `cc` does not change the squeezed
      form; this is the step of the double-space loop. */
  lemma {:induction false} SqueezeDropOne(s: string, i: nat, c: char)
    requires i + 1 < |s| && s[i] == c && s[i + 1] == c
    ensures Squeeze(s[..i] + s[i + 1..], c) == Squeeze(s, c)
  {
    var t := s[..i] + s[i + 1..];
    if i == 0 {
      assert t == s[1..];
    } else {
      assert t == [s[0]] + (s[1..][..i - 1] + s[1..][i..]);
      assert s == [s[0]] + s[1..];
      SqueezeDropOne(s[1..], i - 1, c);
      SqueezeCongruence(s[0], s[1..][..i - 1] + s[1..][i..], s[1..], c);
    }
  }

  /** `"cc" in s` is the negation of NoRepeat. */
  lemma {:induction false} ContainsPair(s: string, c: char)
    ensures Contains(s, [c, c]) <==> !NoRepeat(s, c)
  {
    if |s| >= 2 {
      assert StartsWith(s, [c, c]) <==> s[0] == c && s[1] == c by {
        assert s[..2] == [s[0], s[1]];
      }
      ContainsPair(s[1..], c);
      if NoRepeat(s[1..], c) && !(s[0] == c && s[1] == c) {
        forall i | 0 <= i < |s| - 1
          ensures !(s[i] == c && s[i + 1] == c)
        {
          if i > 0 {
            assert s[i] == s[1..][i - 1] && s[i + 1] == s[1..][i];
          }
        }
      }
      if !NoRepeat(s[1..], c) {
        var i :| 0 <= i < |s[1..]| - 1 && s[1..][i] == c && s[1..][i + 1] == c;
        assert s[i + 1] == c && s[i + 2] == c;
      }
    } else if |s| == 1 {
      assert !Contains(s[1..], [c, c]);
    }
  }

  /** One pass of `s.replace("cc", "c")` does not change the squeezed form. */
  lemma {:induction false} SqueezeReplacePair(s: string, c: char)
    ensures Squeeze(Replace(s, [c, c], [c]), c) == Squeeze(s, c)
    decreases |s|
  {
    if StartsWith(s, [c, c]) {
      assert s[0] == c && s[1] == c by { assert s[..2] == [s[0], s[1]]; }
      SqueezeReplacePair(s[2..], c);
      SqueezeCongruence(c, Replace(s[2..], [c, c], [c]), s[2..], c);
      assert s[1..] == [c] + s[2..];
    } else if s != [] {
      SqueezeReplacePair(s[1..], c);
      SqueezeCongruence(s[0], Replace(s[1..], [c, c], [c]), s[1..], c);
      assert s == [s[0]] + s[1..];
    }
  }

  /** `read_data_tool`'s cleanup of one page: while `"\n\n"` occurs, replace
      every occurrence by `"\n"`. The result is the page with each run of
      newlines shrunk to one, and no blank line is left. */
  method CleanPage(page: string) returns (content: string)
    ensures content == Squeeze(page, '\n')
    ensures !Contains(content, "\n\n")
  {
    content := page;
    while Contains(content, "\n\n")
      invariant Squeeze(content, '\n') == Squeeze(page, '\n')
      decreases |content|
    {
      SqueezeReplacePair(content, '\n');
      content := Replace(content, "\n\n", "\n");
    }
    ContainsPair(content, '\n');
    SqueezeFixpoint(content, '\n');
  }

  /** What the reader emits for one page: its cleaned content and a newline. */
  function PageLine(page: string): (line: string)
    ensures line != [] && line[|line| - 1] == '\n'
  {
    Squeeze(page, '\n') + "\n"
  }

  /** What `read_data_tool` returns for the pages of a document, in order:
      each page's cleaned content followed by one newline. */
  function Report(pages: seq<string>): (r: string)
    ensures r == [] <==> pages == []
    ensures r != [] ==> r[|r| - 1] == '\n'
  {
    if pages == [] then ""
    else Report(pages[..|pages| - 1]) + PageLine(pages[|pages| - 1])
  }

  /** All pages' raw content, concatenated in order. */
  function Concat(pages: seq<string>): string {
    if pages == [] then "" else Concat(pages[..|pages| - 1]) + pages[|pages| - 1]
  }

  /** The document reader: the pages the PDF loader yields are cleaned one
      by one and appended to the report, each followed by a newline. */
  method ReadData(pages: seq<string>) returns (report: string)
    ensures report == Report(pages)
  {
    report := "";
    for k := 0 to |pages|
      invariant report == Report(pages[..k])
    {
      var content := CleanPage(pages[k]);
      assert pages[..k + 1][..k] == pages[..k];
      report := report + (content + "\n");
    }
    assert pages[..|pages|] == pages;
  }

  /** The report of two batches of pages is the two reports joined. */
  lemma {:induction false} ReportAppend(a: seq<string>, b: seq<string>)
    ensures Report(a + b) == Report(a) + Report(b)
    decreases |b|
  {
    if b == [] {
      assert a + b == a;
    } else {
      var b' := b[..|b| - 1];
      assert (a + b)[..|a + b| - 1] == a + b';
      assert (a + b)[|a + b| - 1] == b[|b| - 1];
      ReportAppend(a, b');
      var line := PageLine(b[|b| - 1]);
      assert Report(a) + Report(b') + line == Report(a) + (Report(b') + line);
    }
  }

  lemma {:induction false} WithoutAppend(x: string, y: string, c: char)
    ensures Without(x + y, c) == Without(x, c) + Without(y, c)
  {
    if x != [] {
      assert (x + y)[1..] == x[1..] + y;
      WithoutAppend(x[1..], y, c);
    } else {
      assert x + y == y;
    }
  }

  /** The reader adds and drops only newlines: with newlines removed, the
      report is the pages' text in order. */
  lemma {:induction false} ReportKeepsText(pages: seq<string>)
    ensures Without(Report(pages), '\n') == Without(Concat(pages), '\n')
  {
    if pages != [] {
      var init, last := pages[..|pages| - 1], pages[|pages| - 1];
      ReportKeepsText(init);
      WithoutAppend(Report(init), PageLine(last), '\n');
      WithoutAppend(Squeeze(last, '\n'), "\n", '\n');
      WithoutAppend(Concat(init), last, '\n');
      SqueezeOnlyDeletes(last, '\n');
      assert Without("\n", '\n') == [];
    }
  }

  /** `analyze_investment_tool`'s cleanup: scanning with index `i`, a space
      followed by a space is deleted and the scan stays at `i`; otherwise
      `i` advances. The result is the data with each run of spaces shrunk
      to one, and no double space is left. */
  method RemoveDoubleSpaces(data: string) returns (processed: string)
    ensures processed == Squeeze(data, ' ')
    ensures !Contains(processed, "  ")
  {
    processed := data;
    var i := 0;
    while i < |processed|
      invariant i <= |processed|
      invariant Squeeze(processed, ' ') == Squeeze(data, ' ')
      invariant forall k :: 0 <= k < i && k + 1 < |processed| ==> !(processed[k] == ' ' && processed[k + 1] == ' ')
      decreases |processed| - i
    {
      // Python's slice processed_data[i:i+2] stops at the end of the string
      if processed[i..Min(i + 2, |processed|)] == "  " {
        assert processed[i] == ' ' && processed[i + 1] == ' ' by {
          assert processed[i..i + 2][0] == processed[i] && processed[i..i + 2][1] == processed[i + 1];
        }
        SqueezeDropOne(processed, i, ' ');
        processed := processed[..i] + processed[i + 1..];
      } else {
        if i + 1 < |processed| {
          assert processed[i..i + 2] == [processed[i], processed[i + 1]];
        }
        i := i + 1;
      }
    }
    SqueezeFixpoint(processed, ' ');
    ContainsPair(processed, ' ');
  }

  const InvestmentPrefix := "Processed financial data ("
  const InvestmentSuffix := " chars) ready for investment analysis."
  const RiskPrefix := "Risk assessment initiated for document with "
  const RiskSuffix := " characters of financial data."

  /** `analyze_investment_tool`: cleans the data and reports how many
      characters are left; the count can be read back from the message. */
  method AnalyzeInvestment(data: string) returns (message: string)
    ensures ReadCount(message, InvestmentPrefix, InvestmentSuffix) == Some(|Squeeze(data, ' ')|)
    ensures StartsWith(message, InvestmentPrefix)
    ensures message == InvestmentPrefix + DecimalString(|Squeeze(data, ' ')|) + InvestmentSuffix
  {
    var processed := RemoveDoubleSpaces(data);
    message := InvestmentPrefix + DecimalString(|processed|) + InvestmentSuffix;
    CountRoundTrip(InvestmentPrefix, |processed|, InvestmentSuffix);
  }

  /** `create_risk_assessment_tool`: reports the length of the raw data,
      which can be read back from the message. */
  function RiskAssessment(data: string): (message: string)
    ensures ReadCount(message, RiskPrefix, RiskSuffix) == Some(|data|)
  {
    CountRoundTrip(RiskPrefix, |data|, RiskSuffix);
    RiskPrefix + DecimalString(|data|) + RiskSuffix
  }
}
