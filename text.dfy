/** String helpers mirroring the Java string operations the code generator
    relies on: String.indexOf("_"), substring, decimal printing of an int, and
    the concatenation loops that build emitted lines. */
module Text {

  /** String.indexOf("_"): the first position of an underscore, or -1. */
  function IndexOfUnderscore(s: string): (i: int)
    ensures -1 <= i < |s|
  {
    UnderscoreFrom(s, 0)
  }

  /** The first position at or after k holding an underscore, or -1. */
  function UnderscoreFrom(s: string, k: nat): (i: int)
    requires k <= |s|
    ensures -1 <= i < |s|
    decreases |s| - k
  {
    if k == |s| then -1
    else if s[k] == '_' then k
    else UnderscoreFrom(s, k + 1)
  }

  /** The search from k stops at the first underscore j, or reports -1 when
      there is none. */
  lemma {:induction false} UnderscoreFromSpec(s: string, k: nat)
    requires k <= |s|
    ensures var i := UnderscoreFrom(s, k);
      && (i >= 0 ==> k <= i && s[i] == '_' && forall j :: k <= j < i ==> s[j] != '_')
      && (i == -1 <==> forall j :: k <= j < |s| ==> s[j] != '_')
    decreases |s| - k
  {
    if k < |s| && s[k] != '_' {
      UnderscoreFromSpec(s, k + 1);
    }
  }

  /** String.indexOf("_") is the first underscore, and -1 exactly when there
      is none. */
  lemma IndexOfUnderscoreSpec(s: string)
    ensures var i := IndexOfUnderscore(s);
      && (i >= 0 ==> s[i] == '_' && forall j :: 0 <= j < i ==> s[j] != '_')
      && (i == -1 <==> '_' !in s)
  {
    UnderscoreFromSpec(s, 0);
  }

  /** s.substring(s.indexOf("_") + 1): the text after the first underscore,
      or the whole string when there is none. */
  function AfterUnderscore(s: string): string
  {
    s[IndexOfUnderscore(s) + 1..]
  }

  /** The suffix of the label "C_m" is m whenever C has no underscore. */
  lemma AfterUnderscoreOfLabel(c: string, m: string)
    requires '_' !in c
    ensures AfterUnderscore(c + "_" + m) == m
  {
    var s := c + "_" + m;
    IndexOfUnderscoreSpec(s);
    assert s[..|c|] == c;
    assert s[|c|] == '_';
    assert IndexOfUnderscore(s) == |c|;
    assert s[|c| + 1..] == m;
  }

  /** The concatenation of the fragments, left to right. */
  function Concat(xs: seq<string>): string
  {
    if xs == [] then "" else Concat(xs[..|xs| - 1]) + xs[|xs| - 1]
  }

  /** String.join(sep, xs): the fragments separated by sep. */
  function Join(xs: seq<string>, sep: string): string
  {
    if |xs| == 0 then ""
    else if |xs| == 1 then xs[0]
    else Join(xs[..|xs| - 1], sep) + sep + xs[|xs| - 1]
  }

  /** One more fragment of a concatenation. */
  lemma ConcatStep(xs: seq<string>, i: nat)
    requires i < |xs|
    ensures Concat(xs[..i + 1]) == Concat(xs[..i]) + xs[i]
  {
    assert xs[..i + 1][..i] == xs[..i];
  }

  /** One more element of a separated list: the separator comes before
      every element but the first. */
  lemma JoinStep(xs: seq<string>, sep: string, i: nat)
    requires i < |xs|
    ensures Join(xs[..i + 1], sep) == if i == 0 then xs[0] else Join(xs[..i], sep) + sep + xs[i]
  {
    assert xs[..i + 1][..i] == xs[..i];
  }

  /** What a loop that appends the fragments one by one, with the separator
      after each one but the last, has built after its first k iterations. */
  function JoinPrefix(xs: seq<string>, sep: string, k: nat): string
    requires k <= |xs|
  {
    Join(xs[..k], sep) + (if 0 < k < |xs| then sep else "")
  }

  lemma JoinPrefixStep(xs: seq<string>, sep: string, k: nat)
    requires k < |xs|
    ensures JoinPrefix(xs, sep, k + 1) == JoinPrefix(xs, sep, k) + xs[k] + (if k + 1 < |xs| then sep else "")
  {
    JoinStep(xs, sep, k);
  }

  lemma JoinPrefixAll(xs: seq<string>, sep: string)
    ensures JoinPrefix(xs, sep, |xs|) == Join(xs, sep)
  {
    assert xs[..|xs|] == xs;
  }

  function DigitChar(d: nat): char
    requires d < 10
  {
    "0123456789"[d]
  }

  /** Java's decimal printing of a non-negative int ("" + n). */
  function NatToString(n: nat): (s: string)
    ensures |s| >= 1
    ensures forall i :: 0 <= i < |s| ==> '0' <= s[i] <= '9'
  {
    if n < 10 then [DigitChar(n)] else NatToString(n / 10) + [DigitChar(n % 10)]
  }
}
