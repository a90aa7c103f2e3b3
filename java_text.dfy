/**
 * The few java.lang.String and java.lang.Integer operations the service relies on:
 * upper-casing in the English locale and decimal rendering of an int, with its parser.
 * IndexOf is a helper for the model's own readers of composed texts; the service itself
 * does not search strings.
 */
module JavaText {
  import opened Wrappers

  /** The English-locale upper-case form of one basic Latin character. */
  function UpperChar(c: char): char {
    if 'a' <= c <= 'z' then (c as int - 32) as char else c
  }

  /** String.toUpperCase(Locale.ENGLISH), on the basic Latin letters: a character-by-character mapping. */
  function ToUpperEnglish(s: string): (r: string)
    ensures |r| == |s|
    ensures forall i :: 0 <= i < |s| ==> r[i] == UpperChar(s[i])
  {
    if s == [] then [] else [UpperChar(s[0])] + ToUpperEnglish(s[1..])
  }

  /** Upper-casing twice is upper-casing once. */
  lemma ToUpperIdempotent(s: string)
    ensures ToUpperEnglish(ToUpperEnglish(s)) == ToUpperEnglish(s)
  {
    var u := ToUpperEnglish(s);
    assert forall i :: 0 <= i < |u| ==> UpperChar(u[i]) == u[i];
  }

  function DigitChar(d: nat): (c: char)
    requires d < 10
  {
    ('0' as int + d) as char
  }

  /** The decimal digits of a natural number, most significant first, with no leading zero. */
  function NatDigits(n: nat): (r: string)
    ensures |r| >= 1
    ensures forall i :: 0 <= i < |r| ==> '0' <= r[i] <= '9'
    ensures |r| > 1 ==> r[0] != '0'
    decreases n
  {
    if n < 10 then [DigitChar(n)] else NatDigits(n / 10) + [DigitChar(n % 10)]
  }

  /** Integer.toString: an optional minus sign followed by the decimal digits. */
  function IntToString(i: int): (r: string)
  {
    if i < 0 then "-" + NatDigits(-i) else NatDigits(i)
  }

  function DigitValue(c: char): (d: nat)
    requires '0' <= c <= '9'
  {
    c as int - '0' as int
  }

  /** Reads a non-empty string of decimal digits back into its value. */
  function ParseNat(s: string): (r: Option<nat>)
    decreases |s|
  {
    if s == [] || !('0' <= s[|s| - 1] <= '9') then None
    else if |s| == 1 then Some(DigitValue(s[0]))
    else match ParseNat(s[..|s| - 1])
      case None => None
      case Some(m) => Some(m * 10 + DigitValue(s[|s| - 1]))
  }

  /** Reads an optionally signed decimal string back into its value. */
  function ParseInt(s: string): (r: Option<int>)
  {
    if |s| > 0 && s[0] == '-' then
      match ParseNat(s[1..])
      case None => None
      case Some(m) => Some(-(m as int))
    else match ParseNat(s)
      case None => None
      case Some(m) => Some(m)
  }

  lemma {:induction false} ParseNatDigits(n: nat)
    ensures ParseNat(NatDigits(n)) == Some(n)
    decreases n
  {
    if n >= 10 {
      var s := NatDigits(n);
      assert s[..|s| - 1] == NatDigits(n / 10);
      ParseNatDigits(n / 10);
    }
  }

  /** Integer.toString is undone by parsing: the rendered code can be read back. */
  lemma ParseIntToString(i: int)
    ensures ParseInt(IntToString(i)) == Some(i)
  {
    var s := IntToString(i);
    if i < 0 {
      var d := NatDigits(-i);
      assert s == "-" + d;
      assert s[1..] == d;
      ParseNatDigits(-i);
      assert ParseNat(s[1..]) == Some(-i);
    } else {
      assert s == NatDigits(i);
      assert '0' <= s[0] <= '9';
      ParseNatDigits(i);
    }
  }

  /** Distinct integers render as distinct strings. */
  lemma IntToStringInjective(i: int, j: int)
    ensures IntToString(i) == IntToString(j) <==> i == j
  {
    ParseIntToString(i);
    ParseIntToString(j);
  }

  /** String.indexOf(c), written as the length when c does not occur. */
  function IndexOf(s: string, c: char): (k: nat)
    ensures k <= |s|
    ensures forall i :: 0 <= i < k ==> s[i] != c
    ensures k < |s| ==> s[k] == c
    ensures k == |s| <==> c !in s
  {
    if s == [] then 0
    else if s[0] == c then 0
    else 1 + IndexOf(s[1..], c)
  }

  /** The first c of a string made of a c-free part, c, and anything is right after that part. */
  lemma IndexOfAfter(a: string, c: char, b: string)
    requires c !in a
    ensures IndexOf(a + [c] + b, c) == |a|
  {
    var s := a + [c] + b;
    assert s[|a|] == c;
    assert forall i :: 0 <= i < |a| ==> s[i] == a[i];
  }

  /**
   * A string made of a part free of mid's first character, then mid, then anything, is cut
   * back into those three pieces at the first occurrence of that character.
   */
  lemma SplitAtFirst(first: string, mid: string, second: string)
    requires |mid| >= 1 && mid[0] !in first
    ensures var s := first + mid + second;
      IndexOf(s, mid[0]) == |first| && s[..|first|] == first &&
      s[|first|..|first| + |mid|] == mid && s[|first| + |mid|..] == second
  {
    var s := first + mid + second;
    assert s == first + [mid[0]] + (mid[1..] + second) by {
      assert mid == [mid[0]] + mid[1..];
    }
    IndexOfAfter(first, mid[0], mid[1..] + second);
    SliceOfSum(first, mid, second);
  }

  lemma SliceOfSum(a: string, b: string, c: string)
    ensures var s := a + b + c;
      s[..|a|] == a && s[|a|..|a| + |b|] == b && s[|a| + |b|..] == c
  {
  }
}
