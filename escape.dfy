/**
 * Decoding of the `''` escape inside a CASL II string constant: a doubled
 * single quote stands for one quote, and a lone quote is an error.
 */
module EscapeString {
  import opened Common

  /** `s.replace(/''/g, rep)`: pairs of quotes, leftmost first and without overlap, become `rep`. */
  function ReplacePairs(s: string, rep: string): string
  {
    if |s| >= 2 && s[0] == '\'' && s[1] == '\'' then rep + ReplacePairs(s[2..], rep)
    else if s == [] then []
    else [s[0]] + ReplacePairs(s[1..], rep)
  }

  /** Number of `''` pairs that `ReplacePairs` replaces. */
  function PairCount(s: string): nat
  {
    if |s| >= 2 && s[0] == '\'' && s[1] == '\'' then 1 + PairCount(s[2..])
    else if s == [] then 0
    else PairCount(s[1..])
  }

  /**
   * `escapeStringConstant`: no result when a quote survives the deletion of
   * every pair, otherwise every pair reduced to one quote.
   */
  function EscapeStringConstant(str: string): Option<string>
  {
    if '\'' in ReplacePairs(str, "") then None else Some(ReplacePairs(str, "'"))
  }

  /** Quote doubling, the encoding that the escape undoes. */
  function DoubleQuotes(s: string): string
  {
    if s == [] then []
    else (if s[0] == '\'' then "''" else [s[0]]) + DoubleQuotes(s[1..])
  }

  lemma {:induction false} ReplacePairsNoQuote(s: string, rep: string)
    requires '\'' !in s
    ensures ReplacePairs(s, rep) == s
  {
    if s != [] {
      assert '\'' !in s[1..];
      ReplacePairsNoQuote(s[1..], rep);
    }
  }

  /** A string without quotes comes back unchanged. */
  lemma EscapeWithoutQuotes(s: string)
    requires '\'' !in s
    ensures EscapeStringConstant(s) == Some(s)
  {
    ReplacePairsNoQuote(s, "");
    ReplacePairsNoQuote(s, "'");
  }

  lemma {:induction false} ReplacePairsLength(s: string)
    ensures |ReplacePairs(s, "'")| == |s| - PairCount(s)
    ensures PairCount(s) * 2 <= |s|
  {
    if |s| >= 2 && s[0] == '\'' && s[1] == '\'' {
      ReplacePairsLength(s[2..]);
    } else if s != [] {
      ReplacePairsLength(s[1..]);
    }
  }

  /** A successful result is shorter than the input by the number of `''` pairs. */
  lemma EscapeLength(s: string)
    requires EscapeStringConstant(s).Some?
    ensures |EscapeStringConstant(s).value| == |s| - PairCount(s)
  {
    ReplacePairsLength(s);
  }

  /** Escaping undoes quote doubling: for every `s`, escaping `s` with each quote doubled gives back `s`. */
  lemma {:induction false} EscapeOfDoubled(s: string)
    ensures EscapeStringConstant(DoubleQuotes(s)) == Some(s)
  {
    DoubledReplace(s);
  }

  lemma {:induction false} DoubledReplace(s: string)
    ensures ReplacePairs(DoubleQuotes(s), "") == RemoveQuotes(s)
    ensures ReplacePairs(DoubleQuotes(s), "'") == s
    ensures '\'' !in RemoveQuotes(s)
  {
    if s != [] {
      DoubledReplace(s[1..]);
      var d := DoubleQuotes(s);
      if s[0] == '\'' {
        assert d == "''" + DoubleQuotes(s[1..]);
        assert d[2..] == DoubleQuotes(s[1..]);
      } else {
        assert d == [s[0]] + DoubleQuotes(s[1..]);
        assert d[1..] == DoubleQuotes(s[1..]);
      }
    }
  }

  /** `s` with every quote deleted. */
  function RemoveQuotes(s: string): string
  {
    if s == [] then [] else (if s[0] == '\'' then [] else [s[0]]) + RemoveQuotes(s[1..])
  }

  /** Conversely, a string that escapes successfully is the quote doubling of its result. */
  lemma {:induction false} DoubledOfEscape(s: string)
    requires EscapeStringConstant(s).Some?
    ensures DoubleQuotes(EscapeStringConstant(s).value) == s
  {
    if |s| >= 2 && s[0] == '\'' && s[1] == '\'' {
      assert ReplacePairs(s, "") == ReplacePairs(s[2..], "");
      DoubledOfEscape(s[2..]);
      var r := ReplacePairs(s[2..], "'");
      assert ReplacePairs(s, "'") == "'" + r;
      assert ("'" + r)[1..] == r;
      assert s == "''" + s[2..];
    } else if s != [] {
      assert ReplacePairs(s, "") == [s[0]] + ReplacePairs(s[1..], "");
      assert s[0] != '\'';
      DoubledOfEscape(s[1..]);
      var r := ReplacePairs(s[1..], "'");
      assert ReplacePairs(s, "'") == [s[0]] + r;
      assert ([s[0]] + r)[1..] == r;
      assert s == [s[0]] + s[1..];
    }
  }

  /** The strings that escape successfully are exactly the quote doublings. */
  lemma EscapeSucceedsIffDoubled(s: string)
    ensures EscapeStringConstant(s).Some? <==> exists t :: DoubleQuotes(t) == s
  {
    if EscapeStringConstant(s).Some? {
      DoubledOfEscape(s);
    }
    forall t | DoubleQuotes(t) == s ensures EscapeStringConstant(s).Some? {
      EscapeOfDoubled(t);
    }
  }
}
