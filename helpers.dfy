/** `OString.truncateTo`: shorten a text to `n` characters and mark the cut with an ellipsis. */
module Helpers {

  /** The single-character ellipsis the helper appends. */
  const Ellipsis: char := '…'

  function TruncateTo(s: string, n: nat): (r: string)
    ensures |s| <= n ==> r == s
    ensures |s| > n ==> |r| == n + 1 && r[..n] == s[..n] && r[n] == Ellipsis
  {
    if |s| > n then s[..n] + [Ellipsis] else s
  }

  /** The result is never longer than `n + 1`, and only a text longer than `n` grows a mark. */
  lemma TruncateLength(s: string, n: nat)
    ensures |TruncateTo(s, n)| == if |s| <= n then |s| else n + 1
  {
  }

  /** The first `min(|s|, n)` characters survive unchanged. */
  lemma TruncatePrefix(s: string, n: nat)
    ensures var m := if |s| <= n then |s| else n;
      m <= |TruncateTo(s, n)| && TruncateTo(s, n)[..m] == s[..m]
  {
  }

  /** Truncating an already truncated text changes nothing. */
  lemma TruncateIdempotent(s: string, n: nat)
    ensures TruncateTo(TruncateTo(s, n), n) == TruncateTo(s, n)
  {
    var r := TruncateTo(s, n);
    if |s| > n {
      assert |r| == n + 1;
      assert r[..n] == s[..n];
    }
  }
}
