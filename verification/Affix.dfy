/** The shared affix of a list of strings, and the domain check that relies on it. */
module Affix {
  import opened Text

  // ---------------------------------------------------------------- affixes

  function Min(a: nat, b: nat): nat {
    if a <= b then a else b
  }

  /** The first n characters, or the last n. */
  function Part(s: string, n: nat, pre: bool): (p: string)
    requires n <= |s|
    ensures |p| == n
  {
    if pre then s[..n] else s[|s| - n..]
  }

  /** One is an affix of the other. */
  predicate Comparable(x: string, y: string, pre: bool) {
    var m := Min(|x|, |y|);
    Part(x, m, pre) == Part(y, m, pre)
  }

  ghost predicate ComparableWithAll(x: string, strs: seq<string>, pre: bool) {
    forall s :: s in strs ==> Comparable(x, s, pre)
  }

  lemma EmptyIsComparable(first: string, strs: seq<string>, pre: bool)
    ensures ComparableWithAll(Part(first, 0, pre), strs, pre)
  {
  }

  /** The reference: the longest affix of a string, up to n characters, that is comparable with every
      string of a list. */
  ghost function LongestComparable(first: string, n: nat, strs: seq<string>, pre: bool): (x: string)
    requires n <= |first|
    ensures |x| <= n && x == Part(first, |x|, pre) && ComparableWithAll(x, strs, pre)
    ensures forall k :: |x| < k <= n ==> !ComparableWithAll(Part(first, k, pre), strs, pre)
  {
    EmptyIsComparable(first, strs, pre);
    if n == 0 || ComparableWithAll(Part(first, n, pre), strs, pre) then Part(first, n, pre)
    else LongestComparable(first, n - 1, strs, pre)
  }

  ghost function Shared(strs: seq<string>, pre: bool): string {
    if strs == [] || (|strs| > 1 && "" in strs) then ""
    else LongestComparable(strs[0], |strs[0]|, strs, pre)
  }

  lemma PartOfPart(s: string, n: nat, m: nat, pre: bool)
    requires m <= n <= |s|
    ensures Part(Part(s, n, pre), m, pre) == Part(s, m, pre)
  {
  }

  lemma ShorterStaysComparable(first: string, n: nat, m: nat, s: string, pre: bool)
    requires m <= n <= |first| && Comparable(Part(first, n, pre), s, pre)
    ensures Comparable(Part(first, m, pre), s, pre)
  {
    var a, b := Min(n, |s|), Min(m, |s|);
    PartOfPart(first, n, a, pre);
    PartOfPart(first, a, b, pre);
    PartOfPart(s, a, b, pre);
    PartOfPart(first, m, b, pre);
  }

  /** One more character is comparable exactly when the string is used up or has that character. */
  lemma OneMore(first: string, n: nat, s: string, pre: bool)
    requires n < |first| && Comparable(Part(first, n, pre), s, pre)
    ensures Comparable(Part(first, n + 1, pre), s, pre) <==> |s| <= n || SameNext(first, s, n, pre)
  {
    if |s| <= n {
      PartOfPart(first, n, |s|, pre);
      PartOfPart(first, n + 1, |s|, pre);
    } else {
      PartOfPart(first, n, n, pre);
      PartOfPart(first, n + 1, n + 1, pre);
      OneMoreMatches(first, s, n, pre);
    }
  }

  /** What makes a candidate the longest: it is comparable, and one more character is not. */
  lemma LongestIsWhereItStops(first: string, strs: seq<string>, pre: bool, n: nat)
    requires n <= |first| && ComparableWithAll(Part(first, n, pre), strs, pre)
    requires n < |first| ==> !ComparableWithAll(Part(first, n + 1, pre), strs, pre)
    ensures LongestComparable(first, |first|, strs, pre) == Part(first, n, pre)
  {
    hide Comparable, Part, LongestComparable;
    var x := LongestComparable(first, |first|, strs, pre);
    if n < |x| {
      forall s | s in strs ensures Comparable(Part(first, n + 1, pre), s, pre) {
        ShorterStaysComparable(first, |x|, n + 1, s, pre);
      }
    }
  }

  lemma LongestReaches(first: string, strs: seq<string>, pre: bool, n: nat)
    requires n <= |first| && ComparableWithAll(Part(first, n, pre), strs, pre)
    ensures n <= |LongestComparable(first, |first|, strs, pre)|
  {
  }

  lemma NothingMatches(s: string, t: string, pre: bool)
    ensures Part(s, 0, pre) == Part(t, 0, pre)
  {
  }

  /** The letters of one string against the candidate: the longest affix of the candidate that is
      comparable with the string. */
  method CompareLetters(xfix: string, str: string, pre: bool) returns (kept: string)
    ensures |kept| <= |xfix| && kept == Part(xfix, |kept|, pre) && Comparable(kept, str, pre)
    ensures |kept| < |xfix| ==> !Comparable(Part(xfix, |kept| + 1, pre), str, pre)
  {
    hide Comparable, Part, SameNext;
    var maxl := |xfix|;
    if |str| < maxl {
      maxl := |str|;
    }
    NothingMatches(xfix, str, pre);
    PartIsSlice(xfix, |xfix|);
    for i := 0 to maxl
      invariant Part(xfix, i, pre) == Part(str, i, pre)
    {
      Compared(xfix, str, i);
      PartIsSlice(xfix, i);
      MatchedIsComparable(xfix, str, i, pre);
      OneMore(xfix, i, str, pre);
      if pre {
        if xfix[i] != str[i] {
          return xfix[..i];
        }
      } else {
        var xi, si := |xfix| - i - 1, |str| - i - 1;
        if xfix[xi] != str[si] {
          return xfix[xi + 1..];
        }
      }
      OneMoreMatches(xfix, str, i, pre);
    }
    MatchedIsComparable(xfix, str, maxl, pre);
    return xfix;
  }

  /** lcp: the shared prefix of the list, or the shared suffix. */
  method Lcp(strs: seq<string>, pre: bool) returns (xfix: string)
    ensures xfix == Shared(strs, pre)
  {
    SharedCases(strs, pre);
    hide LongestComparable, Comparable, Part, Shared;
    if |strs| == 0 {
      return "";
    }
    xfix := strs[0];
    OfItself(xfix, pre);
    if |strs| == 1 {
      return;
    }
    TakeFirstAndAll(strs);
    for k := 1 to |strs|
      invariant xfix == LongestComparable(strs[0], |strs[0]|, strs[..k], pre)
      invariant k > 1 ==> forall j :: 0 <= j < k ==> strs[j] != ""
    {
      var str := strs[k];
      if |xfix| == 0 || |str| == 0 {
        EmptyStaysEmpty(strs, k, pre);
        return "";
      }
      var kept := CompareLetters(xfix, str, pre);
      TakeOneMore(strs, k);
      CutOnce(strs[0], strs[..k], xfix, str, pre, kept);
      xfix := kept;
    }
  }

  lemma TakeFirstAndAll(strs: seq<string>)
    requires strs != []
    ensures strs[..1] == [strs[0]] && strs[..|strs|] == strs
  {
  }

  lemma TakeOneMore(strs: seq<string>, k: nat)
    requires k < |strs|
    ensures strs[..k + 1] == strs[..k] + [strs[k]]
  {
  }

  lemma SharedCases(strs: seq<string>, pre: bool)
    ensures strs == [] ==> Shared(strs, pre) == ""
    ensures |strs| == 1 || (strs != [] && forall j :: 0 <= j < |strs| ==> strs[j] != "") ==>
            Shared(strs, pre) == LongestComparable(strs[0], |strs[0]|, strs, pre)
  {
  }

  lemma PartIsSlice(s: string, n: nat)
    requires n <= |s|
    ensures Part(s, n, true) == s[..n] && Part(s, n, false) == s[|s| - n..]
  {
  }

  /** What one comparison of the loop decides. */
  lemma Compared(x: string, s: string, i: nat)
    requires i < |x| && i < |s|
    ensures SameNext(x, s, i, true) <==> x[i] == s[i]
    ensures SameNext(x, s, i, false) <==> x[|x| - i - 1] == s[|s| - i - 1]
  {
  }

  /** The next characters, counted from the side of the affix, are the same. */
  predicate SameNext(x: string, s: string, i: nat, pre: bool)
    requires i < |x| && i < |s|
  {
    if pre then x[i] == s[i] else x[|x| - i - 1] == s[|s| - i - 1]
  }

  lemma OneMoreMatches(x: string, s: string, i: nat, pre: bool)
    requires i < |x| && i < |s| && Part(x, i, pre) == Part(s, i, pre)
    ensures Part(x, i + 1, pre) == Part(s, i + 1, pre) <==> SameNext(x, s, i, pre)
  {
    var p, q := Part(x, i + 1, pre), Part(s, i + 1, pre);
    if pre {
      assert p == p[..i] + [x[i]] && q == q[..i] + [s[i]];
    } else {
      assert p == [x[|x| - i - 1]] + p[1..] && q == [s[|s| - i - 1]] + q[1..];
    }
  }

  lemma OfItself(first: string, pre: bool)
    ensures LongestComparable(first, |first|, [first], pre) == first
  {
  }

  /** Nothing is comparable that was not before. */
  lemma ComparableWithFewer(x: string, strs: seq<string>, k: nat, pre: bool)
    requires k <= |strs| && ComparableWithAll(x, strs, pre)
    ensures ComparableWithAll(x, strs[..k], pre)
  {
  }

  lemma EmptyStaysEmpty(strs: seq<string>, k: nat, pre: bool)
    requires 1 <= k < |strs|
    requires LongestComparable(strs[0], |strs[0]|, strs[..k], pre) == "" || strs[k] == ""
    ensures Shared(strs, pre) == ""
  {
    if "" !in strs {
      var x := LongestComparable(strs[0], |strs[0]|, strs, pre);
      ComparableWithFewer(x, strs, k, pre);
      assert x == Part(strs[0], |x|, pre);
    } else {
    }
  }

  /** One round of the outer loop. */
  lemma CutOnce(first: string, done: seq<string>, was: string, str: string, pre: bool, now: string)
    requires was == LongestComparable(first, |first|, done, pre)
    requires |now| <= |was| && now == Part(was, |now|, pre) && Comparable(now, str, pre)
    requires |now| < |was| ==> !Comparable(Part(was, |now| + 1, pre), str, pre)
    ensures now == LongestComparable(first, |first|, done + [str], pre)
  {
    var n := |now|;
    hide LongestComparable, Comparable, Part, ComparableWithAll;
    PartOfPart(first, |was|, n, pre);
    CutIsComparable(first, done, |was|, str, pre, n);
    if n < |was| {
      PartOfPart(first, |was|, n + 1, pre);
      OneIsEnough(Part(first, n + 1, pre), done + [str], str, pre);
    } else if n < |first| {
      FewerAreEnough(Part(first, n + 1, pre), done, str, pre);
    }
    LongestIsWhereItStops(first, done + [str], pre, n);
  }

  lemma CutIsComparable(first: string, done: seq<string>, m: nat, str: string, pre: bool, n: nat)
    requires n <= m <= |first| && ComparableWithAll(Part(first, m, pre), done, pre)
    requires Comparable(Part(first, n, pre), str, pre)
    ensures ComparableWithAll(Part(first, n, pre), done + [str], pre)
  {
    hide Comparable, Part;
    forall s | s in done ensures Comparable(Part(first, n, pre), s, pre) {
      ShorterStaysComparable(first, m, n, s, pre);
    }
  }

  lemma OneIsEnough(x: string, strs: seq<string>, s: string, pre: bool)
    requires s in strs && !Comparable(x, s, pre)
    ensures !ComparableWithAll(x, strs, pre)
  {
  }

  lemma FewerAreEnough(x: string, done: seq<string>, s: string, pre: bool)
    requires !ComparableWithAll(x, done, pre)
    ensures !ComparableWithAll(x, done + [s], pre)
  {
    hide Comparable;
    var t :| t in done && !Comparable(x, t, pre);
    assert t in done + [s];
  }

  lemma MatchedIsComparable(x: string, str: string, i: nat, pre: bool)
    requires i <= Min(|x|, |str|) && Part(x, i, pre) == Part(str, i, pre)
    ensures Comparable(Part(x, i, pre), str, pre)
    ensures i == Min(|x|, |str|) ==> Comparable(Part(x, |x|, pre), str, pre)
  {
    PartOfPart(x, i, i, pre);
    PartOfPart(x, |x|, i, pre);
  }

  // ---------------------------------------------------------------- against the longest common affix

  ghost predicate Common(strs: seq<string>, n: nat, pre: bool)
    requires strs != []
  {
    forall s :: s in strs ==> n <= |s| && n <= |strs[0]| && Part(s, n, pre) == Part(strs[0], n, pre)
  }

  /** The longest common affix, as its documentation promises it. */
  ghost predicate LongestCommon(strs: seq<string>, x: string, pre: bool)
    requires strs != []
  {
    && Common(strs, |x|, pre) && |x| <= |strs[0]| && x == Part(strs[0], |x|, pre)
    && forall n: nat :: Common(strs, n, pre) ==> n <= |x|
  }

  ghost predicate Shortest(strs: seq<string>, n: nat) {
    && (exists s :: s in strs && |s| == n)
    && (forall s :: s in strs ==> n <= |s|)
  }

  /** The lists the routine answers wrongly: the first string is longer than the shortest ones, and
      its affix one character longer than those is comparable with every string. */
  ghost predicate Overshoots(strs: seq<string>, n: nat, pre: bool)
    requires strs != []
  {
    && n > 0 && |strs[0]| > n
    && forall s :: s in strs ==>
         if |s| <= n then s == Part(strs[0], |s|, pre)
         else Part(s, n + 1, pre) == Part(strs[0], n + 1, pre)
  }

  lemma CommonIsComparable(strs: seq<string>, n: nat, k: nat, pre: bool)
    requires strs != [] && Shortest(strs, n) && k <= n
    ensures Common(strs, k, pre) <==> ComparableWithAll(Part(strs[0], k, pre), strs, pre)
  {
    forall s | s in strs ensures Part(s, k, pre) == Part(strs[0], k, pre) <==> Comparable(Part(strs[0], k, pre), s, pre) {
      PartOfPart(strs[0], k, k, pre);
    }
  }

  lemma OvershootsIsComparable(strs: seq<string>, n: nat, pre: bool)
    requires strs != [] && Shortest(strs, n) && n > 0 && |strs[0]| > n
    ensures Overshoots(strs, n, pre) <==> ComparableWithAll(Part(strs[0], n + 1, pre), strs, pre)
  {
    forall s | s in strs ensures Comparable(Part(strs[0], n + 1, pre), s, pre) <==>
        if |s| <= n then s == Part(strs[0], |s|, pre) else Part(s, n + 1, pre) == Part(strs[0], n + 1, pre)
    {
      PartOfPart(strs[0], n + 1, Min(n + 1, |s|), pre);
    }
  }

  /** The routine gives the longest common affix exactly when the list does not overshoot. */
  lemma SharedIsLongestCommon(strs: seq<string>, n: nat, pre: bool)
    requires strs != [] && Shortest(strs, n)
    ensures LongestCommon(strs, Shared(strs, pre), pre) <==> !Overshoots(strs, n, pre)
  {
    hide Shared, LongestCommon, Overshoots, Common;
    if n == 0 {
      SharedWithEmpty(strs, pre);
      EmptyNeverOvershoots(strs, pre);
    } else if Overshoots(strs, n, pre) {
      OvershootIsTooLong(strs, n, pre);
    } else {
      SharedOfMany(strs, n, pre);
      ComparableIsLongestCommon(strs, n, pre, Shared(strs, pre));
    }
  }

  lemma EmptyNeverOvershoots(strs: seq<string>, pre: bool)
    requires strs != []
    ensures !Overshoots(strs, 0, pre)
  {
  }

  /** Without an empty string the routine gives the longest comparable affix. */
  lemma SharedOfMany(strs: seq<string>, n: nat, pre: bool)
    requires strs != [] && Shortest(strs, n) && n > 0
    ensures Shared(strs, pre) == LongestComparable(strs[0], |strs[0]|, strs, pre)
  {
    hide LongestComparable;
  }

  lemma OvershootIsTooLong(strs: seq<string>, n: nat, pre: bool)
    requires strs != [] && Shortest(strs, n) && Overshoots(strs, n, pre)
    ensures |Shared(strs, pre)| > n && !LongestCommon(strs, Shared(strs, pre), pre)
  {
    OvershootsIsComparable(strs, n, pre);
    SharedOfMany(strs, n, pre);
    LongestReaches(strs[0], strs, pre, n + 1);
    hide Shared, LongestComparable, Comparable, Overshoots, Part;
    var s :| s in strs && |s| == n;
  }

  /** The longest comparable affix is common, and no common one is longer, where the next character after
      the shortest strings is not comparable. */
  lemma ComparableIsLongestCommon(strs: seq<string>, n: nat, pre: bool, x: string)
    requires strs != [] && Shortest(strs, n) && n > 0 && !Overshoots(strs, n, pre)
    requires x == LongestComparable(strs[0], |strs[0]|, strs, pre)
    ensures LongestCommon(strs, x, pre)
  {
    var first := strs[0];
    hide Comparable, Overshoots, LongestComparable, Part, Common;
    if |x| > n {
      forall s | s in strs ensures Comparable(Part(first, n + 1, pre), s, pre) {
        ShorterStaysComparable(first, |x|, n + 1, s, pre);
      }
      OvershootsIsComparable(strs, n, pre);
    }
    assert |x| <= n;
    CommonIsComparable(strs, n, |x|, pre);
    forall k: nat | Common(strs, k, pre) ensures k <= |x| {
      NoLongerThanShortest(strs, n, k, pre);
      CommonIsComparable(strs, n, k, pre);
    }
  }

  lemma NoLongerThanShortest(strs: seq<string>, n: nat, k: nat, pre: bool)
    requires strs != [] && Shortest(strs, n) && Common(strs, k, pre)
    ensures k <= n && k <= |strs[0]|
  {
    hide Part;
    var s :| s in strs && |s| == n;
  }

  lemma SharedWithEmpty(strs: seq<string>, pre: bool)
    requires "" in strs
    ensures Shared(strs, pre) == "" && LongestCommon(strs, "", pre)
  {
    hide LongestComparable, Part;
    assert Part(strs[0], 0, pre) == "";
    assert forall s :: s in strs ==> Part(s, 0, pre) == "";
    assert Common(strs, 0, pre);
  }

  /** With a first string of minimal length it is the longest common affix. */
  lemma ShortestFirstIsEnough(strs: seq<string>, pre: bool)
    requires strs != [] && forall s :: s in strs ==> |strs[0]| <= |s|
    ensures LongestCommon(strs, Shared(strs, pre), pre)
  {
    SharedIsLongestCommon(strs, |strs[0]|, pre);
  }

  /** When it overshoots, the answer is longer than the shortest strings, and those are what it should
      have been. */
  lemma OvershootMissesTheShortest(strs: seq<string>, n: nat, pre: bool)
    requires strs != [] && Shortest(strs, n) && Overshoots(strs, n, pre)
    ensures |Shared(strs, pre)| > n && LongestCommon(strs, Part(strs[0], n, pre), pre) && Part(strs[0], n, pre) in strs
  {
    var first := strs[0];
    OvershootsIsComparable(strs, n, pre);
    assert "" !in strs;
    LongestReaches(first, strs, pre, n + 1);
    forall s | s in strs ensures Comparable(Part(first, n, pre), s, pre) {
      ShorterStaysComparable(first, n + 1, n, s, pre);
    }
    CommonIsComparable(strs, n, n, pre);
    var s :| s in strs && |s| == n;
    assert forall k: nat :: Common(strs, k, pre) ==> k <= |s|;
  }

  // ---------------------------------------------------------------- the domain check

  /** The byte order of sort.Strings. */
  predicate Before(a: string, b: string) {
    a == "" || (b != "" && (a[0] < b[0] || (a[0] == b[0] && Before(a[1..], b[1..]))))
  }

  lemma {:induction false} BeforeIsTotal(a: string, b: string)
    ensures Before(a, b) || Before(b, a)
  {
    if a != "" && b != "" {
      BeforeIsTotal(a[1..], b[1..]);
    }
  }

  lemma {:induction false} BeforeIsTransitive(a: string, b: string, c: string)
    requires Before(a, b) && Before(b, c)
    ensures Before(a, c)
  {
    if a != "" && b != "" && c != "" && a[0] == b[0] == c[0] {
      BeforeIsTransitive(a[1..], b[1..], c[1..]);
    }
  }

  ghost predicate IsSorted(s: seq<string>) {
    forall i, j :: 0 <= i < j < |s| ==> Before(s[i], s[j])
  }

  function Insert(x: string, s: seq<string>): (r: seq<string>)
    requires IsSorted(s)
    ensures IsSorted(r) && multiset(r) == multiset(s) + multiset{x}
  {
    if s == [] then [x]
    else
      assert s == [s[0]] + s[1..];
      BeforeIsTotal(x, s[0]);
      if Before(x, s[0]) then
        assert forall j :: 0 < j < |s| ==> Before(x, s[j]) by {
          forall j | 0 < j < |s| ensures Before(x, s[j]) { BeforeIsTransitive(x, s[0], s[j]); }
        }
        [x] + s
      else
        var t := Insert(x, s[1..]);
        assert forall j :: 0 <= j < |t| ==> Before(s[0], t[j]) by {
          forall j | 0 <= j < |t| ensures Before(s[0], t[j]) {
            assert t[j] in multiset(t);
            assert t[j] == x || t[j] in s[1..];
          }
        }
        [s[0]] + t
  }

  /** sort.Strings. */
  function SortStrings(s: seq<string>): (r: seq<string>)
    ensures IsSorted(r) && multiset(r) == multiset(s)
  {
    if s == [] then []
    else
      assert s == [s[0]] + s[1..];
      Insert(s[0], SortStrings(s[1..]))
  }

  lemma SortKeepsMembers(s: seq<string>)
    ensures |SortStrings(s)| == |s| && forall x :: x in SortStrings(s) <==> x in s
  {
    var r := SortStrings(s);
    assert |multiset(r)| == |r| && |multiset(s)| == |s|;
    assert forall x :: x in r <==> x in multiset(r);
  }

  ghost predicate Rejected(hosts: seq<string>) {
    |hosts| > 1 && Shared(SortStrings(hosts), false) in hosts
  }

  datatype DomainError = BadURL(domain: string) | InvalidDomain(domain: string) | Overlap(host: string)

  /** A domain without a scheme gets the tenant's. */
  function WithScheme(domain: string, tls: bool): string {
    if "http" <= domain then domain else (if tls then "https" else "http") + "://" + domain
  }

  /** URL parsing and the DNS name check, as the libraries have them. */
  datatype Rules = Rules(parseHost: string -> Option<string>, isDomainName: string -> bool)

  predicate Parses(domain: string, tls: bool, rules: Rules) {
    rules.parseHost(WithScheme(domain, tls)).Some? && rules.isDomainName(WithScheme(domain, tls))
  }

  /** The host of a domain, without its port. */
  function HostOf(domain: string, tls: bool, rules: Rules): string
    requires Parses(domain, tls, rules)
  {
    Split(rules.parseHost(WithScheme(domain, tls)).value, ':')[0]
  }

  predicate AllParse(domains: seq<string>, tls: bool, rules: Rules) {
    forall i :: 0 <= i < |domains| ==> Parses(domains[i], tls, rules)
  }

  function HostsOf(domains: seq<string>, tls: bool, rules: Rules): seq<string>
    requires AllParse(domains, tls, rules)
  {
    seq(|domains|, i requires 0 <= i < |domains| => HostOf(domains[i], tls, rules))
  }

  /** The first domain that does not parse, with what is wrong with it. */
  ghost predicate FirstBad(domains: seq<string>, tls: bool, rules: Rules, i: int, e: DomainError) {
    && 0 <= i < |domains| && AllParse(domains[..i], tls, rules) && !Parses(domains[i], tls, rules)
    && var d := WithScheme(domains[i], tls);
       if rules.parseHost(d).None? then e == BadURL(d) else e == InvalidDomain(d)
  }

  /** No host that is compared has a port. */
  lemma HostsHaveNoPort(domains: seq<string>, tls: bool, rules: Rules)
    requires AllParse(domains, tls, rules)
    ensures forall h :: h in HostsOf(domains, tls, rules) ==> ':' !in h
  {
    forall i | 0 <= i < |domains| ensures ':' !in HostOf(domains[i], tls, rules) {
      assert Parses(domains[i], tls, rules);
      SplitHead(rules.parseHost(WithScheme(domains[i], tls)).value, ':');
    }
  }

  /** The one parses to a host, the other to the same host with or without a port. */
  ghost predicate SameButForPorts(plain: Rules, ported: Rules) {
    && (forall d :: plain.isDomainName(d) == ported.isDomainName(d))
    && (forall d :: plain.parseHost(d).Some? <==> ported.parseHost(d).Some?)
    && (forall d :: plain.parseHost(d).Some? ==>
          var h, p := plain.parseHost(d).value, ported.parseHost(d).value;
          ':' !in h && (p == h || exists port :: p == h + ":" + port))
  }

  /** Ports never change the answer of the domain check. */
  lemma PortsDoNotMatter(domains: seq<string>, tls: bool, plain: Rules, ported: Rules)
    requires SameButForPorts(plain, ported)
    ensures AllParse(domains, tls, plain) <==> AllParse(domains, tls, ported)
    ensures AllParse(domains, tls, plain) ==>
      HostsOf(domains, tls, plain) == HostsOf(domains, tls, ported)
      && forall i :: 0 <= i < |domains| ==> HostsOf(domains, tls, plain)[i] == plain.parseHost(WithScheme(domains[i], tls)).value
    ensures DomainsValid(domains, tls, plain) <==> DomainsValid(domains, tls, ported)
  {
    assert forall d :: Parses(d, tls, plain) <==> Parses(d, tls, ported);
    if AllParse(domains, tls, plain) {
      forall i | 0 <= i < |domains|
        ensures HostOf(domains[i], tls, plain) == HostOf(domains[i], tls, ported) == plain.parseHost(WithScheme(domains[i], tls)).value
      {
        assert Parses(domains[i], tls, plain);
        var d := WithScheme(domains[i], tls);
        SplitHead(plain.parseHost(d).value, ':');
        SplitHead(ported.parseHost(d).value, ':');
      }
      assert HostsOf(domains, tls, plain) == HostsOf(domains, tls, ported);
    }
    hide Rejected, HostOf, Parses;
  }

  /** A domain without a scheme is checked as with the one of the tenant's TLS setting, and one with a
      scheme as it is, whatever that setting. */
  lemma SchemeIsInferred(domain: string, rules: Rules)
    ensures !("http" <= domain) ==>
      && (Parses(domain, true, rules) <==> Parses("https://" + domain, true, rules))
      && (Parses(domain, false, rules) <==> Parses("http://" + domain, false, rules))
      && (Parses(domain, true, rules) ==> HostOf(domain, true, rules) == HostOf("https://" + domain, true, rules))
      && (Parses(domain, false, rules) ==> HostOf(domain, false, rules) == HostOf("http://" + domain, false, rules))
    ensures "http" <= domain ==>
      && (Parses(domain, true, rules) <==> rules.parseHost(domain).Some? && rules.isDomainName(domain))
      && (Parses(domain, true, rules) <==> Parses(domain, false, rules))
  {
    assert "https" + "://" == "https://" && "http" + "://" == "http://";
    assert "http" <= "https://" + domain && "http" <= "http://" + domain;
    assert WithScheme("https://" + domain, true) == "https://" + domain;
    assert WithScheme("http://" + domain, false) == "http://" + domain;
    assert !("http" <= domain) ==> WithScheme(domain, true) == "https://" + domain;
    assert !("http" <= domain) ==> WithScheme(domain, false) == "http://" + domain;
    if "http" <= domain {
      KeptScheme(domain);
    }
    hide Split, WithScheme;
  }

  lemma KeptScheme(domain: string)
    requires "http" <= domain
    ensures WithScheme(domain, true) == domain && WithScheme(domain, false) == domain
  {
  }

  ghost predicate DomainsValid(domains: seq<string>, tls: bool, rules: Rules) {
    AllParse(domains, tls, rules) && !Rejected(HostsOf(domains, tls, rules))
  }

  lemma HostsOfNone(tls: bool, rules: Rules)
    ensures AllParse([], tls, rules) && HostsOf([], tls, rules) == [] && !Rejected([])
  {
  }

  lemma HostsOfOneMore(domains: seq<string>, i: nat, tls: bool, rules: Rules)
    requires i < |domains|
    ensures AllParse(domains[..i + 1], tls, rules) <==> AllParse(domains[..i], tls, rules) && Parses(domains[i], tls, rules)
    ensures AllParse(domains[..i + 1], tls, rules) ==>
      HostsOf(domains[..i + 1], tls, rules) == HostsOf(domains[..i], tls, rules) + [HostOf(domains[i], tls, rules)]
    ensures AllParse(domains, tls, rules) ==> Parses(domains[i], tls, rules)
  {
    hide Parses, HostOf;
    assert domains[..i + 1] == domains[..i] + [domains[i]];
  }

  /** What an error says: the first domain that is not in order, or the overlapping host where all are. */
  ghost predicate Explains(e: DomainError, domains: seq<string>, tls: bool, rules: Rules) {
    if e.Overlap? then AllParse(domains, tls, rules) && e.host == Shared(SortStrings(HostsOf(domains, tls, rules)), false)
    else exists i :: FirstBad(domains, tls, rules, i, e)
  }

  /** ValidateDomains. */
  method ValidateDomains(domains: seq<string>, tls: bool, rules: Rules) returns (err: Option<DomainError>)
    ensures err.None? <==> DomainsValid(domains, tls, rules)
    ensures err.Some? ==> Explains(err.value, domains, tls, rules)
  {
    hide Split, AllParse, HostsOf, Rejected, Shared, SortStrings;
    HostsOfNone(tls, rules);
    if |domains| != 0 {
      var globalDomains: seq<string> := [];
      for i := 0 to |domains|
        invariant AllParse(domains[..i], tls, rules)
        invariant globalDomains == HostsOf(domains[..i], tls, rules)
      {
        var domain := domains[i];
        if !("http" <= domain) {
          var useSchema := "http";
          if tls {
            useSchema := "https";
          }
          domain := useSchema + "://" + domain;
        }
        assert domain == WithScheme(domains[i], tls);
        HostsOfOneMore(domains, i, tls, rules);
        var host := rules.parseHost(domain);
        if host.None? {
          assert FirstBad(domains, tls, rules, i, BadURL(domain));
          return Some(BadURL(domain));
        }
        if !rules.isDomainName(domain) {
          assert FirstBad(domains, tls, rules, i, InvalidDomain(domain));
          return Some(InvalidDomain(domain));
        }
        globalDomains := globalDomains + [Split(host.value, ':')[0]];
      }
      assert domains[..|domains|] == domains;
      err := Overlapped(globalDomains);
    } else {
      err := None;
    }
  }

  /** The rest of ValidateDomains: the host named by the error, if there is one. */
  method Overlapped(domains: seq<string>) returns (err: Option<DomainError>)
    ensures err.Some? <==> Rejected(domains)
    ensures err.Some? ==> err.value == Overlap(Shared(SortStrings(domains), false))
  {
    hide SortStrings, Shared;
    var globalDomains := SortStrings(domains);
    SortKeepsMembers(domains);
    var lcpSuf := Lcp(globalDomains, false);
    for i := 0 to |globalDomains|
      invariant forall j :: 0 <= j < i ==> globalDomains[j] != lcpSuf || |globalDomains| <= 1
    {
      if globalDomains[i] == lcpSuf && |globalDomains| > 1 {
        assert globalDomains[i] in globalDomains;
        return Some(Overlap(globalDomains[i]));
      }
    }
    return None;
  }

  predicate SuffixComparable(a: string, b: string) {
    HasSuffix(a, b) || HasSuffix(b, a)
  }

  lemma ComparableMeansSuffix(a: string, b: string)
    ensures Comparable(a, b, false) <==> SuffixComparable(a, b)
  {
    if |a| <= |b| {
      assert a[|a| - |a|..] == a;
    }
    if |b| <= |a| {
      assert b[|b| - |b|..] == b;
    }
  }

  lemma SharedIsComparable(strs: seq<string>, pre: bool, s: string)
    requires s in strs
    ensures Comparable(Shared(strs, pre), s, pre)
  {
    if |strs| > 1 && "" in strs {
      assert Part("", 0, pre) == Part(s, 0, pre);
    }
  }

  /** A rejection names a host that is a suffix of, or ends with, every other. */
  lemma RejectionNamesAComparableHost(hosts: seq<string>, h: string)
    requires Rejected(hosts) && h in hosts
    ensures SuffixComparable(Shared(SortStrings(hosts), false), h)
  {
    SortKeepsMembers(hosts);
    SharedIsComparable(SortStrings(hosts), false, h);
    ComparableMeansSuffix(Shared(SortStrings(hosts), false), h);
  }

  lemma RejectionNeedsAPair(hosts: seq<string>)
    requires Rejected(hosts)
    ensures exists i, j :: 0 <= i < j < |hosts| && SuffixComparable(hosts[i], hosts[j])
  {
    var x := Shared(SortStrings(hosts), false);
    var i :| 0 <= i < |hosts| && hosts[i] == x;
    var j := if i == 0 then 1 else 0;
    assert hosts[j] in hosts;
    RejectionNamesAComparableHost(hosts, hosts[j]);
    hide *;
    SuffixComparableEitherWay(x, hosts[j]);
    if i == 0 {
      assert SuffixComparable(hosts[0], hosts[1]);
    } else {
      assert SuffixComparable(hosts[0], hosts[i]);
    }
  }

  lemma SuffixComparableEitherWay(a: string, b: string)
    ensures SuffixComparable(a, b) <==> SuffixComparable(b, a)
  {
  }

  /** Hosts that do not overlap at all are never rejected. */
  lemma IncomparableHostsPass(hosts: seq<string>)
    requires forall i, j :: 0 <= i < j < |hosts| ==> !SuffixComparable(hosts[i], hosts[j])
    ensures !Rejected(hosts)
  {
    if Rejected(hosts) {
      RejectionNeedsAPair(hosts);
    }
  }

  /** What the error is about: one host is a suffix of all. */
  ghost predicate Overlapping(hosts: seq<string>) {
    |hosts| > 1 && exists b :: b in hosts && forall h :: h in hosts ==> HasSuffix(h, b)
  }

  lemma SuffixOfSuffix(a: string, b: string, c: string)
    requires HasSuffix(a, b) && HasSuffix(b, c)
    ensures HasSuffix(a, c)
  {
    assert a[|a| - |c|..] == b[|b| - |c|..];
  }

  lemma {:induction false} ShortestMember(hosts: seq<string>) returns (b: string)
    requires hosts != []
    ensures b in hosts && forall h :: h in hosts ==> |b| <= |h|
  {
    b := hosts[0];
    if |hosts| > 1 {
      var c := ShortestMember(hosts[1..]);
      if |c| < |b| {
        b := c;
      }
      assert forall h :: h in hosts ==> h == hosts[0] || h in hosts[1..];
    }
  }

  /** Every rejection is right: some host is a suffix of all. */
  lemma RejectedHostsOverlap(hosts: seq<string>)
    requires Rejected(hosts)
    ensures Overlapping(hosts)
  {
    var x := Shared(SortStrings(hosts), false);
    var b := ShortestMember(hosts);
    RejectionNamesAComparableHost(hosts, b);
    assert HasSuffix(x, b);
    forall h | h in hosts ensures HasSuffix(h, b) {
      RejectionNamesAComparableHost(hosts, h);
      if HasSuffix(h, x) {
        SuffixOfSuffix(h, x, b);
      } else {
        SuffixesOfOne(x, h, b);
      }
    }
  }

  lemma SuffixesOfOne(x: string, a: string, b: string)
    requires HasSuffix(x, a) && HasSuffix(x, b) && |b| <= |a|
    ensures HasSuffix(a, b)
  {
    assert a[|a| - |b|..] == x[|x| - |b|..];
  }

  /** What decides: a host that the first host in sort order ends with, comparable with all, where the
      first host stops matching one of the others, or has no more to match. */
  ghost predicate Decides(hosts: seq<string>, first: string, g: string) {
    && g in hosts && HasSuffix(first, g)
    && (forall h :: h in hosts ==> SuffixComparable(g, h))
    && (g == first || exists h :: h in hosts && |h| > |g| && h[|h| - |g| - 1] != first[|first| - |g| - 1])
  }

  /** The check rejects exactly these lists, and no others. */
  lemma RejectedExactly(hosts: seq<string>)
    ensures Rejected(hosts) <==> |hosts| > 1 && exists g :: Decides(hosts, SortStrings(hosts)[0], g)
  {
    if |hosts| > 1 {
      SortKeepsMembers(hosts);
      hide SortStrings, Decides, Shared;
      if "" in hosts {
        EmptyHostIsRejected(hosts);
      } else {
        if Rejected(hosts) {
          LongestDecides(hosts);
        }
        if g :| Decides(hosts, SortStrings(hosts)[0], g) {
          DecidedIsLongest(hosts, g);
        }
      }
    }
  }

  lemma EmptyHostIsRejected(hosts: seq<string>)
    requires |hosts| > 1 && "" in hosts
    ensures Rejected(hosts) && |SortStrings(hosts)| > 0 && Decides(hosts, SortStrings(hosts)[0], "")
  {
    SortKeepsMembers(hosts);
    EmptySortsFirst(hosts);
    hide SortStrings;
  }

  lemma EmptySortsFirst(hosts: seq<string>)
    requires "" in hosts
    ensures SortStrings(hosts)[0] == ""
  {
    SortKeepsMembers(hosts);
    var strs := SortStrings(hosts);
    var i :| 0 <= i < |strs| && strs[i] == "";
    assert i > 0 ==> Before(strs[0], strs[i]);
  }

  lemma LongestDecides(hosts: seq<string>)
    requires Rejected(hosts) && "" !in hosts
    ensures |SortStrings(hosts)| > 0 && Decides(hosts, SortStrings(hosts)[0], Shared(SortStrings(hosts), false))
  {
    SortKeepsMembers(hosts);
    hide SortStrings, Shared, SuffixComparable, HasSuffix, LongestComparable, Decides;
    var strs := SortStrings(hosts);
    var x := Shared(strs, false);
    SharedIsSuffixOfFirst(strs);
    forall h | h in hosts ensures SuffixComparable(x, h) {
      RejectionNamesAComparableHost(hosts, h);
    }
    ComparableDecides(hosts, strs, x);
  }

  lemma ComparableDecides(hosts: seq<string>, strs: seq<string>, x: string)
    requires strs != [] && x in hosts && (forall s :: s in strs ==> s in hosts) && HasSuffix(strs[0], x)
    requires x == LongestComparable(strs[0], |strs[0]|, strs, false) && forall h :: h in hosts ==> SuffixComparable(x, h)
    ensures Decides(hosts, strs[0], x)
  {
    hide SuffixComparable, HasSuffix, LongestComparable;
    if x != strs[0] {
      var h := StoppedBy(strs[0], strs, x);
      assert h in hosts;
    }
  }

  lemma SharedIsSuffixOfFirst(strs: seq<string>)
    requires |strs| > 1 && "" !in strs
    ensures var x := Shared(strs, false); HasSuffix(strs[0], x) && x == LongestComparable(strs[0], |strs[0]|, strs, false)
  {
    var x := Shared(strs, false);
    assert x == Part(strs[0], |x|, false);
  }

  lemma StoppedBy(first: string, strs: seq<string>, x: string) returns (h: string)
    requires x == LongestComparable(first, |first|, strs, false) && x != first
    ensures h in strs && |h| > |x| && |first| > |x| && h[|h| - |x| - 1] != first[|first| - |x| - 1]
  {
    assert Part(first, |first|, false) == first;
    hide Comparable, Part, LongestComparable;
    assert |x| < |first|;
    assert !ComparableWithAll(Part(first, |x| + 1, false), strs, false);
    h :| h in strs && !Comparable(Part(first, |x| + 1, false), h, false);
    OneMore(first, |x|, h, false);
  }

  lemma DecidedIsLongest(hosts: seq<string>, g: string)
    requires |hosts| > 1 && "" !in hosts && |SortStrings(hosts)| > 0 && Decides(hosts, SortStrings(hosts)[0], g)
    ensures Rejected(hosts)
  {
    SortKeepsMembers(hosts);
    hide SortStrings, SuffixComparable, HasSuffix, LongestComparable;
    StopsAt(SortStrings(hosts), g);
  }

  lemma StopsAt(strs: seq<string>, g: string)
    requires strs != [] && HasSuffix(strs[0], g) && forall s :: s in strs ==> SuffixComparable(g, s)
    requires g == strs[0] || exists h :: h in strs && |h| > |g| && h[|h| - |g| - 1] != strs[0][|strs[0]| - |g| - 1]
    ensures LongestComparable(strs[0], |strs[0]|, strs, false) == g
  {
    var first := strs[0];
    assert g == Part(first, |g|, false);
    assert g != first ==> |g| < |first|;
    hide LongestComparable, Comparable, Part, SuffixComparable, HasSuffix;
    forall s | s in strs ensures Comparable(g, s, false) {
      ComparableMeansSuffix(g, s);
    }
    if g != first {
      var h :| h in strs && |h| > |g| && h[|h| - |g| - 1] != first[|first| - |g| - 1];
      OneMore(first, |g|, h, false);
    }
    LongestIsWhereItStops(first, strs, false, |g|);
  }

  /** A host that every other ends with is always found when it sorts first. */
  lemma BaseHostFirstIsRejected(hosts: seq<string>)
    requires |hosts| > 1 && |SortStrings(hosts)| > 0
    requires forall h :: h in hosts ==> HasSuffix(h, SortStrings(hosts)[0])
    ensures Rejected(hosts)
  {
    SortKeepsMembers(hosts);
    var b := SortStrings(hosts)[0];
    assert b in SortStrings(hosts);
    assert Decides(hosts, b, b);
    RejectedExactly(hosts);
  }

  /** Two hosts are rejected exactly when one is a suffix of the other. */
  lemma TwoHosts(a: string, b: string)
    ensures Rejected([a, b]) <==> SuffixComparable(a, b)
  {
    var hosts := [a, b];
    SortKeepsMembers(hosts);
    var first := SortStrings(hosts)[0];
    assert first in SortStrings(hosts);
    if SuffixComparable(a, b) {
      assert forall h :: h in hosts ==> SuffixComparable(first, h);
      assert Decides(hosts, first, first);
      RejectedExactly(hosts);
    } else {
      assert hosts[0] == a && hosts[1] == b;
      IncomparableHostsPass(hosts);
    }
  }

  /** Three hosts can overlap and pass: the check looks only at suffixes of the one that sorts first. */
  lemma OverlapCanPass()
    ensures var hosts := ["a.b.com", "b.com", "c.b.com"]; Overlapping(hosts) && !Rejected(hosts)
  {
    var a, b, c := "a.b.com", "b.com", "c.b.com";
    var hosts := [a, b, c];
    AlreadySorted();
    RejectedExactly(hosts);
    SuffixesOfThree();
    hide HasSuffix, SortStrings, Rejected, SuffixComparable;
    assert forall h :: h in hosts <==> h == a || h == b || h == c;
    assert b in hosts && forall h :: h in hosts ==> HasSuffix(h, b);
    assert !Decides(hosts, a, a) && !Decides(hosts, a, b) && !Decides(hosts, a, c);
  }

  lemma SuffixesOfThree()
    ensures var a, b, c := "a.b.com", "b.com", "c.b.com";
            && HasSuffix(a, b) && HasSuffix(b, b) && HasSuffix(c, b)
            && !HasSuffix(a, c) && !SuffixComparable(a, c)
  {
    var a, b, c := "a.b.com", "b.com", "c.b.com";
    assert a[2..] == b && c[2..] == b && b[0..] == b && a[0..] == a && c[0..] == c;
    assert a[0] != c[0];
  }

  lemma AlreadySorted()
    ensures SortStrings(["a.b.com", "b.com", "c.b.com"]) == ["a.b.com", "b.com", "c.b.com"]
  {
    assert Before("a.b.com", "b.com") && Before("b.com", "c.b.com");
    hide Before, SortStrings;
    SortedStays("a.b.com", "b.com", "c.b.com");
  }

  lemma SortedStays(a: string, b: string, c: string)
    requires Before(a, b) && Before(b, c)
    ensures SortStrings([a, b, c]) == [a, b, c]
  {
    hide Before, IsSorted;
    assert [a, b, c][1..] == [b, c] && [b, c][1..] == [c] && [c][1..] == [];
    assert SortStrings([c]) == [c];
    assert SortStrings([b, c]) == [b, c];
  }
}
