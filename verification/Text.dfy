/** Go's string helpers as the controller and the MinIO helpers use them: decimal printing,
    prefixes and suffixes, splitting at one character, and trimming of white space. */
module Text {

  datatype Option<+T> = None | Some(value: T)

  predicate IsDigit(c: char) {
    '0' <= c <= '9'
  }

  predicate AlphaNumeric(c: char) {
    'A' <= c <= 'Z' || 'a' <= c <= 'z' || IsDigit(c)
  }

  ghost predicate Distinct(s: seq<string>) {
    forall i, j :: 0 <= i < j < |s| ==> s[i] != s[j]
  }

  predicate AllDigits(s: string) {
    forall i :: 0 <= i < |s| ==> IsDigit(s[i])
  }

  function DigitChar(d: nat): (c: char)
    requires d < 10
    ensures IsDigit(c) && c as int == '0' as int + d
  {
    ('0' as int + d) as char
  }

  /** strconv.Itoa on a number that is not negative. */
  function Decimal(n: nat): (s: string)
    ensures s != "" && AllDigits(s)
  {
    if n < 10 then [DigitChar(n)] else Decimal(n / 10) + [DigitChar(n % 10)]
  }

  /** strconv.Itoa. */
  function Itoa(n: int): string {
    if n < 0 then "-" + Decimal(-n) else Decimal(n)
  }

  /** strconv.Atoi on digits. */
  function Atoi(s: string): nat
    requires AllDigits(s)
  {
    if s == "" then 0
    else Atoi(s[..|s| - 1]) * 10 + (s[|s| - 1] as int - '0' as int)
  }

  lemma {:induction false} AtoiOfDecimal(n: nat)
    ensures Atoi(Decimal(n)) == n
  {
    var s := Decimal(n);
    if n >= 10 {
      AtoiOfDecimal(n / 10);
      assert s[..|s| - 1] == Decimal(n / 10);
    } else {
      assert s[..0] == "";
    }
  }

  lemma DecimalInjective(m: nat, n: nat)
    requires Decimal(m) == Decimal(n)
    ensures m == n
  {
    AtoiOfDecimal(m);
    AtoiOfDecimal(n);
  }

  predicate HasSuffix(s: string, w: string) {
    |w| <= |s| && s[|s| - |w|..] == w
  }

  /** The place of the first c in s, or |s| when there is none. */
  function IndexOf(s: string, c: char): (i: nat)
    ensures i <= |s|
    ensures forall j :: 0 <= j < i ==> s[j] != c
    ensures i < |s| ==> s[i] == c
  {
    if s == "" then 0
    else if s[0] == c then 0
    else
      var r := IndexOf(s[1..], c);
      assert forall j :: 1 <= j < r + 1 ==> s[j] == s[1..][j - 1];
      r + 1
  }

  lemma IndexOfConcat(a: string, c: char, b: string)
    requires c !in a
    ensures IndexOf(a + [c] + b, c) == |a|
  {
    var s := a + [c] + b;
    assert s[|a|] == c;
    assert forall j :: 0 <= j < |a| ==> s[j] == a[j] && a[j] in a;
  }

  lemma CutAtFirst(a: string, c: char, b: string)
    requires c !in a
    ensures var s := a + [c] + b; IndexOf(s, c) == |a| && s[..|a|] == a && s[|a| + 1..] == b
  {
    IndexOfConcat(a, c, b);
  }

  /** strings.Split at a one-character separator. */
  function Split(s: string, c: char): (parts: seq<string>)
    ensures |parts| >= 1
    decreases |s|
  {
    var i := IndexOf(s, c);
    if i == |s| then [s] else [s[..i]] + Split(s[i + 1..], c)
  }

  /** The first part of a split is what comes before the separator, or all of it. */
  lemma SplitHead(s: string, c: char)
    ensures c !in Split(s, c)[0] && Split(s, c)[0] <= s
    ensures c !in s ==> Split(s, c)[0] == s
    ensures forall a, b :: s == a + [c] + b && c !in a ==> Split(s, c)[0] == a
  {
    var i := IndexOf(s, c);
    assert Split(s, c)[0] == s[..i];
    forall a, b | s == a + [c] + b && c !in a ensures s[..i] == a {
      CutAtFirst(a, c, b);
    }
  }

  /** unicode.IsSpace. */
  predicate IsSpace(c: char) {
    || c == '\t' || c == '\n' || c == '\U{0B}' || c == '\U{0C}' || c == '\r' || c == ' '
    || c == '\U{85}' || c == '\U{A0}' || c == '\U{1680}' || '\U{2000}' <= c <= '\U{200A}'
    || c == '\U{2028}' || c == '\U{2029}' || c == '\U{202F}' || c == '\U{205F}' || c == '\U{3000}'
  }

  /** The white space of Unicode, character by character. */
  lemma SpacesInFull(c: char)
    ensures IsSpace(c) <==> c in [
      '\U{9}', '\U{A}', '\U{B}', '\U{C}', '\U{D}', '\U{20}', '\U{85}', '\U{A0}', '\U{1680}', '\U{2000}', '\U{2001}', '\U{2002}',
      '\U{2003}', '\U{2004}', '\U{2005}', '\U{2006}', '\U{2007}', '\U{2008}', '\U{2009}', '\U{200A}', '\U{2028}', '\U{2029}',
      '\U{202F}', '\U{205F}', '\U{3000}']
  {
  }

  function TrimLeft(s: string): (t: string)
    ensures t == "" || !IsSpace(t[0])
    ensures |t| <= |s| && forall j :: 0 <= j < |t| ==> t[j] == s[|s| - |t| + j]
  {
    if s != "" && IsSpace(s[0]) then TrimLeft(s[1..]) else s
  }

  function TrimRight(s: string): (t: string)
    ensures t == "" || !IsSpace(t[|t| - 1])
    ensures t <= s
  {
    if s != "" && IsSpace(s[|s| - 1]) then TrimRight(s[..|s| - 1]) else s
  }

  /** strings.TrimSpace. */
  function TrimSpace(s: string): (t: string)
    ensures t == "" || (!IsSpace(t[0]) && !IsSpace(t[|t| - 1]))
    ensures forall c :: c in t ==> c in s
  {
    var l := TrimLeft(s);
    var t := TrimRight(l);
    assert t != "" ==> t[0] == l[0];
    t
  }

  lemma TrimLeftDropsOneSpace(s: string)
    requires s != "" && !IsSpace(s[0])
    ensures TrimLeft(" " + s) == s
  {
    SpaceIsSpace();
    hide IsSpace;
    var t := " " + s;
    assert t[0] == ' ' && t[1..] == s;
    assert TrimLeft(s) == s;
    assert TrimLeft(t) == TrimLeft(t[1..]);
  }

  lemma SpaceIsSpace()
    ensures IsSpace(' ')
  {
  }

  lemma TrimSpaceDropsOneSpace(s: string)
    requires s != "" && !IsSpace(s[0]) && !IsSpace(s[|s| - 1])
    ensures TrimSpace(" " + s) == s
  {
    TrimLeftDropsOneSpace(s);
    hide IsSpace, TrimLeft;
    assert TrimRight(s) == s;
  }
}
