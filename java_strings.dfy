/** The few java.lang.String and Integer operations the loaders rely on, stated over
    `seq<char>`: trim, split on a literal separator, startsWith, and Integer.valueOf. */
module JavaStrings {
  import opened Common

  /** A character String.trim removes: any code point up to and including the space. */
  predicate IsTrimmed(c: char) { c <= ' ' }

  function TrimStart(s: string): (r: string)
    ensures |r| <= |s| && r == s[|s| - |r|..]
    ensures forall i :: 0 <= i < |s| - |r| ==> IsTrimmed(s[i])
    ensures r == [] || !IsTrimmed(r[0])
  {
    if |s| > 0 && IsTrimmed(s[0]) then TrimStart(s[1..]) else s
  }

  function TrimEnd(s: string): (r: string)
    ensures |r| <= |s| && r == s[..|r|]
    ensures forall i :: |r| <= i < |s| ==> IsTrimmed(s[i])
    ensures r == [] || !IsTrimmed(r[|r| - 1])
  {
    if |s| > 0 && IsTrimmed(s[|s| - 1]) then TrimEnd(s[..|s| - 1]) else s
  }

  /** String.trim: the longest infix that neither starts nor ends with a trimmed character. */
  function Trim(s: string): (r: string)
    ensures |r| <= |s|
    ensures r == [] || (!IsTrimmed(r[0]) && !IsTrimmed(r[|r| - 1]))
    ensures (|s| == 0 || (!IsTrimmed(s[0]) && !IsTrimmed(s[|s| - 1]))) ==> r == s
  {
    TrimEnd(TrimStart(s))
  }

  predicate StartsWith(s: string, prefix: string) {
    |prefix| <= |s| && s[..|prefix|] == prefix
  }

  /** The pieces of `cur + s` between the leftmost non-overlapping occurrences of `sep`,
      scanning left to right; `cur` is the piece being accumulated. */
  function Pieces(s: string, sep: string, cur: string): (r: seq<string>)
    requires |sep| > 0
    ensures |r| >= 1
    ensures |r| == 1 ==> r[0] == cur + s
    decreases |s|
  {
    if |s| == 0 then [cur]
    else if |sep| <= |s| && s[..|sep|] == sep then [cur] + Pieces(s[|sep|..], sep, [])
    else Pieces(s[1..], sep, cur + [s[0]])
  }

  function Join(pieces: seq<string>, sep: string): string
    decreases |pieces|
  {
    if |pieces| == 0 then []
    else if |pieces| == 1 then pieces[0]
    else pieces[0] + sep + Join(pieces[1..], sep)
  }

  /** Joining the pieces with the separator gives back the text that was split. */
  lemma {:induction false} PiecesJoin(s: string, sep: string, cur: string)
    requires |sep| > 0
    ensures Join(Pieces(s, sep, cur), sep) == cur + s
    decreases |s|
  {
    if |s| == 0 {
    } else if |sep| <= |s| && s[..|sep|] == sep {
      var rest := Pieces(s[|sep|..], sep, []);
      PiecesJoin(s[|sep|..], sep, []);
      assert ([cur] + rest)[1..] == rest;
      assert s == sep + s[|sep|..];
    } else {
      PiecesJoin(s[1..], sep, cur + [s[0]]);
      assert s == [s[0]] + s[1..];
    }
  }

  function DropTrailingEmpty(pieces: seq<string>): (r: seq<string>)
    ensures |r| <= |pieces| && r == pieces[..|r|]
    ensures forall i :: |r| <= i < |pieces| ==> pieces[i] == []
    ensures r == [] || r[|r| - 1] != []
  {
    if |pieces| > 0 && pieces[|pieces| - 1] == [] then DropTrailingEmpty(pieces[..|pieces| - 1])
    else pieces
  }

  /** String.split with a literal separator and no limit: the text itself when the
      separator never occurs, otherwise the pieces with trailing empty pieces removed. */
  function Split(s: string, sep: string): (r: seq<string>)
    requires |sep| > 0
    ensures |Pieces(s, sep, [])| == 1 ==> r == [s]
    ensures |Pieces(s, sep, [])| > 1 ==> r == DropTrailingEmpty(Pieces(s, sep, []))
  {
    var p := Pieces(s, sep, []);
    if |p| == 1 then [s] else DropTrailingEmpty(p)
  }

  predicate IsDigit(c: char) { '0' <= c <= '9' }

  predicate AllDigits(s: string) { forall i :: 0 <= i < |s| ==> IsDigit(s[i]) }

  function DigitValue(c: char): nat
    requires IsDigit(c)
  {
    c as int - '0' as int
  }

  /** The value of a decimal digit string, most significant digit first. */
  function DigitsValue(s: string): nat
    requires AllDigits(s)
  {
    if |s| == 0 then 0 else DigitsValue(s[..|s| - 1]) * 10 + DigitValue(s[|s| - 1])
  }

  /** Integer.valueOf: an optional sign followed by at least one decimal digit, whose
      value must fit in a 32-bit int; anything else is a NumberFormatException. */
  function ParseInt(s: string): (r: Option<int>)
    ensures r.Some? ==> INT_MIN <= r.value <= INT_MAX
    ensures |s| == 0 ==> r.None?
  {
    if |s| == 0 then None
    else
      var digits := if s[0] == '-' || s[0] == '+' then s[1..] else s;
      if |digits| == 0 || !AllDigits(digits) then None
      else
        var v: int := if s[0] == '-' then -(DigitsValue(digits) as int) else DigitsValue(digits);
        if INT_MIN <= v <= INT_MAX then Some(v) else None
  }

  function NatToString(n: nat): (r: string)
    ensures |r| > 0
  {
    if n < 10 then ['0' + n as char] else NatToString(n / 10) + ['0' + (n % 10) as char]
  }

  /** Integer.toString: the inverse ParseInt undoes (see ParseIntToString). */
  function IntToString(n: int): string {
    if n < 0 then "-" + NatToString(-n) else NatToString(n)
  }

  lemma {:induction false} NatToStringValue(n: nat)
    ensures AllDigits(NatToString(n)) && DigitsValue(NatToString(n)) == n
  {
    if n >= 10 {
      var s := NatToString(n / 10);
      var t := s + ['0' + (n % 10) as char];
      NatToStringValue(n / 10);
      assert t[..|t| - 1] == s;
      assert AllDigits(t) by {
        forall i | 0 <= i < |t| ensures IsDigit(t[i]) {
          if i < |s| { assert t[i] == s[i]; }
        }
      }
    }
  }

  /** Every 32-bit int reads back from its decimal text. */
  lemma ParseIntToString(n: int)
    requires INT_MIN <= n <= INT_MAX
    ensures ParseInt(IntToString(n)) == Some(n)
  {
    var s := IntToString(n);
    if n < 0 {
      var digits := NatToString(-n);
      NatToStringValue(-n);
      assert s[0] == '-' && s[1..] == digits;
      assert -(DigitsValue(digits) as int) == n;
    } else {
      NatToStringValue(n);
      assert IsDigit(s[0]);
    }
  }
}
