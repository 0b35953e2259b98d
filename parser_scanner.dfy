/**
 * The parser's cursor over the token list of one line: `scan` hands out the
 * tokens in order and then an "unknown" sentinel for ever; `getNext` and
 * `getNextNext` peek one and two tokens ahead without moving.
 */
module Scanning {
  import opened Token

  /** The sentinel handed out once the tokens are used up. */
  const UnknownToken: TokenInfo := TokenInfo("", TUNKNOWN, -1, -1, -1)

  /** What `scan` returns at cursor `i`, and where it leaves the cursor. */
  function ScanAt(ts: seq<TokenInfo>, i: nat): (r: (TokenInfo, nat))
    ensures i < |ts| ==> r == (ts[i], i + 1)
    ensures i >= |ts| ==> r == (UnknownToken, i)
  {
    if i < |ts| then (ts[i], i + 1) else (UnknownToken, i)
  }

  /** `getNext` at cursor `i`. */
  function NextAt(ts: seq<TokenInfo>, i: nat): TokenInfo
  {
    if i < |ts| then ts[i] else UnknownToken
  }

  /** `getNextNext` at cursor `i`: the test is `i < length - 1`. */
  function NextNextAt(ts: seq<TokenInfo>, i: nat): TokenInfo
  {
    if i < |ts| - 1 then ts[i + 1] else UnknownToken
  }

  /** The tokens that `n` scans from cursor `i` return, in order. */
  function ScanTimes(ts: seq<TokenInfo>, i: nat, n: nat): seq<TokenInfo>
    decreases n
  {
    if n == 0 then [] else
      var (t, j) := ScanAt(ts, i);
      [t] + ScanTimes(ts, j, n - 1)
  }

  class Scanner {
    const tokens: seq<TokenInfo>
    var index: nat

    constructor(tokens: seq<TokenInfo>)
      ensures this.tokens == tokens && index == 0
    {
      this.tokens := tokens;
      index := 0;
    }

    method Scan() returns (t: TokenInfo)
      modifies this
      ensures (t, index) == ScanAt(tokens, old(index))
    {
      if !AllScan() {
        t := tokens[index];
        index := index + 1;
      } else {
        t := UnknownToken;
      }
    }

    function AllScan(): bool
      reads this
    {
      index >= |tokens|
    }

    function GetNext(): TokenInfo
      reads this
    {
      NextAt(tokens, index)
    }

    function GetNextNext(): TokenInfo
      reads this
    {
      NextNextAt(tokens, index)
    }
  }

  /**
   * Scanning hands out the tokens in order and then the sentinel: the k-th of
   * n scans from the start is token k while there is one, else the sentinel.
   */
  lemma {:induction false} ScanTimesFrom(ts: seq<TokenInfo>, i: nat, n: nat)
    ensures |ScanTimes(ts, i, n)| == n
    ensures forall k :: 0 <= k < n ==>
      ScanTimes(ts, i, n)[k] == (if i + k < |ts| then ts[i + k] else UnknownToken)
    decreases n
  {
    if n > 0 {
      var (t, j) := ScanAt(ts, i);
      ScanTimesFrom(ts, j, n - 1);
      if i >= |ts| {
        assert j == i;
      }
    }
  }

  lemma ScanInOrder(ts: seq<TokenInfo>, n: nat)
    ensures |ScanTimes(ts, 0, n)| == n
    ensures n <= |ts| ==> ScanTimes(ts, 0, n) == ts[..n]
    ensures forall k :: |ts| <= k < n ==> ScanTimes(ts, 0, n)[k] == UnknownToken
  {
    ScanTimesFrom(ts, 0, n);
  }

  /** The sentinel is sticky: once the cursor is at the end, scanning neither moves it nor returns a token. */
  lemma ScanAtEnd(ts: seq<TokenInfo>, i: nat)
    requires i >= |ts|
    ensures ScanAt(ts, i) == (UnknownToken, i)
    ensures NextAt(ts, i) == UnknownToken && NextNextAt(ts, i) == UnknownToken
  {
  }

  /**
   * Peeking agrees with scanning: `getNext` is the token the next `scan`
   * returns, and `getNextNext` the one the scan after it returns.
   */
  lemma PeekAgreesWithScan(ts: seq<TokenInfo>, i: nat)
    ensures NextAt(ts, i) == ScanAt(ts, i).0
    ensures NextNextAt(ts, i) == NextAt(ts, i + 1)
    ensures i < |ts| ==> NextNextAt(ts, i) == ScanAt(ts, ScanAt(ts, i).1).0
  {
  }
}
