/** Keys joined with slashes, as used by the deduplication sets and by the job table. */
module Keys {

  predicate SlashFree(s: string) {
    forall i | 0 <= i < |s| :: s[i] != '/'
  }

  function Join(a: string, b: string): string {
    a + "/" + b
  }

  lemma FirstSlash(a: string, b: string)
    requires SlashFree(a)
    ensures Join(a, b)[|a|] == '/' && forall i | 0 <= i < |a| :: Join(a, b)[i] != '/'
  {
  }

  /** With a slash-free first part the two parts can be read back. */
  lemma JoinInjective(a: string, b: string, c: string, d: string)
    requires SlashFree(a) && SlashFree(c) && Join(a, b) == Join(c, d)
    ensures a == c && b == d
  {
    FirstSlash(a, b);
    FirstSlash(c, d);
    assert |a| == |c|;
    assert a == Join(a, b)[..|a|] && c == Join(c, d)[..|c|];
    assert b == Join(a, b)[|a| + 1..] && d == Join(c, d)[|c| + 1..];
  }
}
