/**
  The C string operations pam_namespace relies on (isspace, strchr,
  strrchr, strstr, strtok_r, strncmp), stated on `seq<char>`.  A C string
  ends at its first NUL, so `CString` cuts there first.
 */
module CStrings {
  import opened Types

  /** isspace() in the C locale: space, \t, \n, \v, \f, \r. */
  predicate IsSpace(c: char) { c == ' ' || ('\t' <= c <= '\r') }

  /** The delimiters passed to strtok_r by process_line. */
  predicate IsDelim(c: char) { c == ' ' || c == '\t' }

  /** strchr: index of the first `c` in `s`. */
  function IndexOf(s: string, c: char): (r: Option<nat>)
    ensures r.Some? ==> r.value < |s| && s[r.value] == c && c !in s[..r.value]
    ensures r.None? ==> c !in s
  {
    if s == [] then None
    else if s[0] == c then Some(0)
    else match IndexOf(s[1..], c)
      case None => None
      case Some(k) => assert s[1..][..k] == s[1..k + 1]; Some(k + 1)
  }

  /** A path starting with '/'. */
  predicate Absolute(p: string) { |p| > 0 && p[0] == '/' }

  /** strrchr: index of the last `c` in `s`. */
  function LastIndexOf(s: string, c: char): (r: Option<nat>)
    ensures r.Some? ==> r.value < |s| && s[r.value] == c && c !in s[r.value + 1..]
    ensures r.None? ==> c !in s
  {
    if s == [] then None
    else if s[|s| - 1] == c then Some(|s| - 1)
    else
      var r := LastIndexOf(s[..|s| - 1], c);
      assert r.Some? ==> s[r.value + 1..] == s[..|s| - 1][r.value + 1..] + [s[|s| - 1]];
      assert r.None? ==> s == s[..|s| - 1] + [s[|s| - 1]];
      r
  }

  /** Writing NUL over the first `c` (if any): the C string that remains. */
  function CutAt(s: string, c: char): (r: string)
    ensures r <= s && c !in r
    ensures |r| < |s| ==> s[|r|] == c
  {
    match IndexOf(s, c)
      case None => s
      case Some(k) => s[..k]
  }

  /** The C string a buffer holds: everything before the first NUL. */
  function CString(s: string): (r: string)
    ensures r <= s && '\0' !in r
  {
    CutAt(s, '\0')
  }

  /** The leading-whitespace skip of process_line. */
  function SkipSpace(s: string): (r: string)
    ensures |r| <= |s| && r == s[|s| - |r|..]
    ensures forall i :: 0 <= i < |s| - |r| ==> IsSpace(s[i])
    ensures r == [] || !IsSpace(r[0])
  {
    if s == [] || !IsSpace(s[0]) then s else SkipSpace(s[1..])
  }

  /** The skip stops at the first character that is not white space. */
  lemma {:induction false} SkipSpaceStops(s: string, i: nat)
    requires i <= |s|
    requires forall k :: 0 <= k < i ==> IsSpace(s[k])
    requires i == |s| || !IsSpace(s[i])
    ensures SkipSpace(s) == s[i..]
    decreases i
  {
    if i > 0 {
      assert s[1..][i - 1..] == s[i..];
      SkipSpaceStops(s[1..], i - 1);
    }
  }

  /** Does `pat` occur in `s` at index `i`? */
  predicate OccursAt(s: string, pat: string, i: nat) {
    i + |pat| <= |s| && s[i..i + |pat|] == pat
  }

  /** strstr from index `k` on. */
  function FindFrom(s: string, pat: string, k: nat): (r: Option<nat>)
    requires k <= |s|
    ensures r.Some? ==> k <= r.value && r.value + |pat| <= |s|
    decreases |s| - k
  {
    if OccursAt(s, pat, k) then Some(k)
    else if k == |s| then None
    else FindFrom(s, pat, k + 1)
  }

  /** strstr: index of the first occurrence of `pat` in `s`. */
  function Find(s: string, pat: string): (r: Option<nat>)
    ensures r.Some? ==> r.value + |pat| <= |s|
  {
    FindFrom(s, pat, 0)
  }

  /** FindFrom finds the first occurrence at or after `k`. */
  lemma {:induction false} FindFromFirst(s: string, pat: string, k: nat)
    requires k <= |s|
    ensures FindFrom(s, pat, k).Some? ==> OccursAt(s, pat, FindFrom(s, pat, k).value)
    ensures FindFrom(s, pat, k).Some? ==>
              forall j :: k <= j < FindFrom(s, pat, k).value ==> !OccursAt(s, pat, j)
    ensures FindFrom(s, pat, k).None? ==> forall j :: k <= j ==> !OccursAt(s, pat, j)
    decreases |s| - k
  {
    if !OccursAt(s, pat, k) && k < |s| {
      FindFromFirst(s, pat, k + 1);
    }
  }

  /** strstr finds the first occurrence, and finds none only when there is none. */
  lemma FindFirst(s: string, pat: string)
    ensures Find(s, pat).Some? ==> OccursAt(s, pat, Find(s, pat).value)
    ensures Find(s, pat).Some? ==> forall j :: 0 <= j < Find(s, pat).value ==> !OccursAt(s, pat, j)
    ensures Find(s, pat).None? <==> forall j :: 0 <= j ==> !OccursAt(s, pat, j)
  {
    FindFromFirst(s, pat, 0);
  }

  predicate Contains(s: string, pat: string) { Find(s, pat).Some? }

  /** The text substitution of process_line: the first `pat` in `s` becomes `rep`. */
  function ReplaceFirst(s: string, pat: string, rep: string): (r: string)
  {
    match Find(s, pat)
      case None => s
      case Some(i) => s[..i] + rep + s[i + |pat|..]
  }

  /** Length of the leading run of non-delimiters of `s`. */
  function TokenLen(s: string): (n: nat)
    ensures n <= |s|
    ensures forall i :: 0 <= i < n ==> !IsDelim(s[i])
    ensures n < |s| ==> IsDelim(s[n])
  {
    if s == [] || IsDelim(s[0]) then 0 else 1 + TokenLen(s[1..])
  }

  /** Length of the leading run of delimiters of `s`. */
  function DelimLen(s: string): (n: nat)
    ensures n <= |s|
    ensures forall i :: 0 <= i < n ==> IsDelim(s[i])
    ensures n < |s| ==> !IsDelim(s[n])
  {
    if s == [] || !IsDelim(s[0]) then 0 else 1 + DelimLen(s[1..])
  }

  /** Successive strtok_r(…, " \t", …) results: the maximal runs of non-delimiters. */
  function Tokens(s: string): (r: seq<string>)
    ensures forall i :: 0 <= i < |r| ==> r[i] != []
    decreases |s|
  {
    var t := s[DelimLen(s)..];
    if t == [] then [] else [t[..TokenLen(t)]] + Tokens(t[TokenLen(t)..])
  }

  /** The fields between the `c` separators of `s` (strchr walk of the uid list). */
  function Split(s: string, c: char): (r: seq<string>)
    ensures |r| >= 1
    decreases |s|
  {
    match IndexOf(s, c)
      case None => [s]
      case Some(k) => [s[..k]] + Split(s[k + 1..], c)
  }

  /** No field of a split holds the separator. */
  lemma {:induction false} SplitFieldsHaveNoSeparator(s: string, c: char)
    ensures forall f :: f in Split(s, c) ==> c !in f
    decreases |s|
  {
    match IndexOf(s, c)
    case None =>
    case Some(k) =>
      SplitFieldsHaveNoSeparator(s[k + 1..], c);
  }

  /** One step of Split: the first field is the text up to the first separator. */
  lemma SplitStep(s: string, c: char)
    ensures Split(s, c)[0] == CutAt(s, c)
    ensures IndexOf(s, c).None? ==> |Split(s, c)| == 1
    ensures IndexOf(s, c).Some? ==>
              Split(s, c)[1..] == Split(s[IndexOf(s, c).value + 1..], c)
  {
  }

  /** Number of occurrences of `c` in `s`. */
  function Count(s: string, c: char): nat {
    if s == [] then 0 else (if s[0] == c then 1 else 0) + Count(s[1..], c)
  }

  /** strncmp(a, b, strlen(b)) == 0: `b` is a prefix of `a`. */
  predicate PrefixCompare(a: string, b: string) {
    |b| <= |a| && a[..|b|] == b
  }
}
