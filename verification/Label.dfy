/** The normaliser of label values: one pass over the runes, cut to 63 bytes first. */
module Label {
  import opened Text

  predicate Mark(c: char) {
    c == '.' || c == '_' || c == '-'
  }

  /** The bytes of a character in UTF-8. */
  function Width(c: char): (w: nat)
    ensures 1 <= w <= 4
  {
    if c as int < 0x80 then 1 else if c as int < 0x800 then 2 else if c as int < 0x10000 then 3 else 4
  }

  function Bytes(s: string): (n: nat)
    ensures n >= |s|
  {
    if s == "" then 0 else Bytes(s[..|s| - 1]) + Width(s[|s| - 1])
  }

  /** validation.IsValidLabelValue reports no error. */
  predicate Valid(s: string) {
    && Bytes(s) <= 63
    && (s != "" ==> AlphaNumeric(s[0]) && AlphaNumeric(s[|s| - 1]))
    && forall i :: 0 <= i < |s| ==> AlphaNumeric(s[i]) || Mark(s[i])
  }

  const REPLACEMENT: char := '\U{FFFD}'

  /** The runes of the first n bytes: whole characters, then one replacement rune for every byte left of
      the character that was cut. */
  function CutAt(s: string, n: nat): (t: string)
    ensures Bytes(s) <= n ==> t == s
    ensures Bytes(s) > n ==> |t| <= n
    ensures n > 0 && s != "" ==> t != ""
  {
    if Bytes(s) <= n then s
    else if Bytes(s[..|s| - 1]) <= n then s[..|s| - 1] + seq(n - Bytes(s[..|s| - 1]), _ => REPLACEMENT)
    else CutAt(s[..|s| - 1], n)
  }

  function Normal(i: nat, c: char): char {
    if AlphaNumeric(c) then c
    else if i != 0 && !Mark(c) then '-'
    else 'x'
  }

  function Normalized(s: string): (t: string)
    ensures |t| == |s| && forall i :: 0 <= i < |s| ==> t[i] == Normal(i, s[i])
  {
    seq(|s|, i requires 0 <= i < |s| => Normal(i, s[i]))
  }

  function LabelOf(value: string): string {
    if Valid(value) then value else Normalized(CutAt(value, 63))
  }

  /** ToLabelValue: the runes are rewritten in place. */
  method ToLabelValue(value: string) returns (converted: string)
    ensures converted == LabelOf(value)
  {
    if Valid(value) {
      return value;
    }
    var runes := CutAt(value, 63);
    var result := new char[|runes|](i requires 0 <= i < |runes| => runes[i]);
    for i := 0 to result.Length
      invariant forall j :: 0 <= j < i ==> result[j] == Normal(j, runes[j])
      invariant forall j :: i <= j < result.Length ==> result[j] == runes[j]
    {
      var r := result[i];
      if !('A' <= r <= 'Z') && !('a' <= r <= 'z') && !('0' <= r <= '9') {
        if i != 0 && r != '.' && r != '_' && r != '-' {
          result[i] := '-';
        } else {
          result[i] := 'x';
        }
      }
    }
    converted := result[..];
    assert converted == Normalized(runes);
  }

  // ---------------------------------------------------------------- what one pass gives

  lemma {:induction false} BytesOfAscii(s: string)
    requires forall i :: 0 <= i < |s| ==> AlphaNumeric(s[i]) || Mark(s[i])
    ensures Bytes(s) == |s|
  {
    if s != "" {
      BytesOfAscii(s[..|s| - 1]);
    }
  }

  /** A valid value is left alone. */
  lemma ValidIsKept(value: string)
    requires Valid(value)
    ensures LabelOf(value) == value
  {
  }

  predicate EndsWell(s: string) {
    |s| == 1 || (s != "" && (AlphaNumeric(s[|s| - 1]) || Mark(s[|s| - 1])))
  }

  /** One pass over an invalid value gives one to 63 permitted characters, the first alphanumeric, and no
      mark but '-'. The result is valid exactly when the cut value is a single rune or its last rune is
      not one that becomes '-'. */
  lemma OnePass(value: string)
    requires !Valid(value)
    ensures var r := LabelOf(value);
            && 1 <= |r| <= 63 && Bytes(r) == |r|
            && AlphaNumeric(r[0])
            && (forall i :: 0 <= i < |r| ==> AlphaNumeric(r[i]) || r[i] == '-')
            && (Valid(r) <==> r[|r| - 1] != '-')
            && (Valid(r) <==> EndsWell(CutAt(value, 63)))
  {
    var cut := CutAt(value, 63);
    var r := LabelOf(value);
    assert |cut| <= 63;
    BytesOfAscii(r);
  }

  /** A second pass always ends well, and a third changes nothing. */
  lemma TwoPassesAreEnough(value: string)
    ensures Valid(LabelOf(LabelOf(value)))
    ensures LabelOf(LabelOf(LabelOf(value))) == LabelOf(LabelOf(value))
  {
    var r := LabelOf(value);
    if !Valid(value) && !Valid(r) {
      OnePass(value);
      OnePass(r);
      assert CutAt(r, 63) == r;
    }
  }

  /** Characters of one to four bytes. */
  lemma WidthsOfUtf8()
    ensures Width('z') == 1 && Width('\U{E9}') == 2 && Width('\U{20AC}') == 3 && Width('\U{1F600}') == 4
    ensures forall c: char :: Width(c) == 1 <==> c <= '\U{7F}'
    ensures forall c: char :: Width(c) <= 2 <==> c <= '\U{7FF}'
    ensures forall c: char :: Width(c) <= 3 <==> c <= '\U{FFFF}'
  {
  }

  /** The first n bytes of a longer text: the most characters that fit, and for the bytes left over, fewer
      than the next character has, one replacement rune each. */
  lemma {:induction false} CutInFull(s: string, n: nat)
    requires Bytes(s) > n
    ensures exists k: nat :: CutsAfter(s, n, k)
  {
    var k: nat := |s| - 1;
    var init := s[..k];
    if Bytes(init) <= n {
      assert CutsAfter(s, n, k);
    } else {
      CutInFull(init, n);
      var j: nat :| CutsAfter(init, n, j);
      assert init[..j] == s[..j];
      assert CutsAfter(s, n, j);
    }
  }

  ghost predicate CutsAfter(s: string, n: nat, k: nat) {
    && k < |s| && Bytes(s[..k]) <= n < Bytes(s[..k]) + Width(s[k])
    && var cut := CutAt(s, n);
       |cut| == k + n - Bytes(s[..k]) && s[..k] <= cut && forall j :: k <= j < |cut| ==> cut[j] == '\U{FFFD}'
  }

  /** What becomes of every rune of an invalid value: letters and digits stay, marks become 'x' as does
      whatever else stands first, and all the rest becomes '-'. */
  lemma EachRune(value: string, i: nat)
    requires !Valid(value) && i < |CutAt(value, 63)|
    ensures var cut, r := CutAt(value, 63), LabelOf(value);
      && |r| == |cut|
      && (AlphaNumeric(cut[i]) ==> r[i] == cut[i])
      && (cut[i] == '.' || cut[i] == '_' || cut[i] == '-' ==> r[i] == 'x')
      && (!AlphaNumeric(cut[i]) && cut[i] != '.' && cut[i] != '_' && cut[i] != '-' ==> r[i] == if i == 0 then 'x' else '-')
  {
  }

  /** Whatever the value, one pass gives at most 63 bytes of permitted characters, the first a letter or a
      digit. */
  lemma LabelsArePermitted(value: string)
    ensures var r := LabelOf(value);
      && Bytes(r) == |r| <= 63
      && (r == "" <==> value == "")
      && (r != "" ==> 'a' <= r[0] <= 'z' || 'A' <= r[0] <= 'Z' || '0' <= r[0] <= '9')
      && forall i :: 0 <= i < |r| ==>
           'a' <= r[i] <= 'z' || 'A' <= r[i] <= 'Z' || '0' <= r[i] <= '9' || r[i] == '-' || r[i] == '_' || r[i] == '.'
  {
    if Valid(value) {
      BytesOfAscii(value);
    } else {
      OnePass(value);
    }
  }

  /** One pass leaves a value alone only if it was valid: an invalid value always changes. */
  lemma KeptOnlyIfValid(value: string)
    ensures LabelOf(value) == value <==> Valid(value)
  {
    if !Valid(value) && LabelOf(value) == value {
      OnePass(value);
      OnlyAlphaNumericIsKept(value);
    }
  }

  lemma OnlyAlphaNumericIsKept(s: string)
    requires Normalized(s) == s
    ensures forall i :: 0 <= i < |s| ==> AlphaNumeric(s[i])
  {
    assert forall i :: 0 <= i < |s| ==> s[i] == Normal(i, s[i]);
  }

  /** Different values can share a label. */
  lemma LabelsMeet()
    ensures LabelOf("/a") == LabelOf("_a") == "xa" == LabelOf("xa")
    ensures LabelOf("sd/") == "sd-" && !Valid("sd-")
  {
    assert !Valid("/a") && !Valid("_a") && !Valid("sd/");
    assert Bytes("/a") == 2 by { assert "/a"[..1] == "/" && "/"[..0] == ""; }
    assert Bytes("_a") == 2 by { assert "_a"[..1] == "_" && "_"[..0] == ""; }
    BytesOfAscii("xa");
    assert Bytes("sd/") == 3 by { assert "sd/"[..2] == "sd" && "sd"[..1] == "s" && "s"[..0] == ""; }
    assert Normalized("/a") == "xa" && Normalized("_a") == "xa" && Normalized("sd/") == "sd-";
  }
}
