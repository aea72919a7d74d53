/** The string built-ins the controllers lean on, with their JavaScript
    meaning: `split`, `join`, `trim`, `startsWith` and `parseInt(v, 10)`. */
module Text {
  import opened Common

  /** The whitespace that `trim` and `parseInt` skip: ECMAScript's
      WhiteSpace and LineTerminator code points (tab to carriage return,
      space, and the Unicode spaces from U+00A0 on). */
  predicate IsSpace(c: char)
  {
    || (c <= ' ' && (c == ' ' || '\t' <= c <= '\r'))
    || ('\U{A0}' <= c && IsWideSpace(c))
  }

  /** The whitespace code points above U+007F. */
  predicate IsWideSpace(c: char)
  {
    || c == '\U{A0}' || c == '\U{1680}' || '\U{2000}' <= c <= '\U{200A}'
    || c == '\U{2028}' || c == '\U{2029}' || c == '\U{202F}' || c == '\U{205F}'
    || c == '\U{3000}' || c == '\U{FEFF}'
  }

  predicate IsDigit(c: char)
  {
    '0' <= c <= '9'
  }

  function DigitValue(c: char): (d: int)
    requires IsDigit(c)
    ensures 0 <= d <= 9
  {
    c as int - '0' as int
  }

  /** The first position of `c` in `s`. */
  function IndexOf(s: string, c: char): (i: nat)
    requires c in s
    ensures i < |s| && s[i] == c && c !in s[..i]
  {
    if s[0] == c then 0
    else
      assert s == [s[0]] + s[1..];
      var j := IndexOf(s[1..], c);
      assert s[..j + 1] == [s[0]] + s[1..][..j];
      j + 1
  }

  /** `parts.join(sep)`: the parts with `sep` between neighbours. */
  function Join(parts: seq<string>, sep: string): string
  {
    if |parts| == 0 then ""
    else if |parts| == 1 then parts[0]
    else parts[0] + sep + Join(parts[1..], sep)
  }

  /** `s.split(sep)` for a one-character separator: the maximal pieces of `s`
      free of `sep`, in order; joining them back with `sep` gives `s`. */
  function Split(s: string, sep: char): (parts: seq<string>)
    ensures |parts| >= 1
    ensures forall i :: 0 <= i < |parts| ==> sep !in parts[i]
    ensures sep !in s ==> parts == [s]
    decreases |s|
  {
    if sep in s then
      var i := IndexOf(s, sep);
      [s[..i]] + Split(s[i + 1..], sep)
    else
      [s]
  }

  /** Joining the pieces of a split back with the separator gives the
      original string: `split` loses nothing but the separators. */
  lemma {:induction false} SplitJoin(s: string, sep: char)
    ensures Join(Split(s, sep), [sep]) == s
    decreases |s|
  {
    if sep in s {
      var i := IndexOf(s, sep);
      var rest := Split(s[i + 1..], sep);
      assert Split(s, sep) == [s[..i]] + rest;
      SplitJoin(s[i + 1..], sep);
      JoinCons(s[..i], rest, [sep]);
      Around(s, i);
    }
  }

  /** Joining a part in front of at least one other puts the separator
      between them. */
  lemma JoinCons(part: string, rest: seq<string>, sep: string)
    requires |rest| > 0
    ensures Join([part] + rest, sep) == part + sep + Join(rest, sep)
  {
    assert ([part] + rest)[1..] == rest;
  }

  /** A string is what comes before a position, the character there, and
      what comes after. */
  lemma Around(s: string, i: nat)
    requires i < |s|
    ensures s[..i] + [s[i]] + s[i + 1..] == s
  {
  }

  /** A position holding `c` with no `c` before it is `IndexOf`'s answer. */
  lemma {:induction false} IndexOfAt(s: string, c: char, k: nat)
    requires k < |s| && s[k] == c && c !in s[..k]
    ensures IndexOf(s, c) == k
    decreases k
  {
    if k > 0 {
      assert s[..k][0] == s[0];
      assert s[1..][..k - 1] == s[..k][1..];
      IndexOfAt(s[1..], c, k - 1);
    }
  }

  /** The first piece of a split is everything before the first separator. */
  lemma {:induction false} SplitHead(s: string, sep: char, k: nat)
    requires k < |s| && s[k] == sep && sep !in s[..k]
    ensures Split(s, sep)[0] == s[..k]
  {
    IndexOfAt(s, sep, k);
  }

  /** Splitting on a separator that occurs once gives the two sides. */
  lemma {:induction false} SplitOnce(s: string, sep: char, k: nat)
    requires k < |s| && s[k] == sep && sep !in s[..k] && sep !in s[k + 1..]
    ensures Split(s, sep) == [s[..k], s[k + 1..]]
  {
    IndexOfAt(s, sep, k);
  }

  /** The number of leading whitespace characters. */
  function LeadingSpaces(s: string): (k: nat)
    ensures k <= |s|
    ensures forall j :: 0 <= j < k ==> IsSpace(s[j])
    ensures k < |s| ==> !IsSpace(s[k])
  {
    if |s| == 0 || !IsSpace(s[0]) then 0
    else 1 + LeadingSpaces(s[1..])
  }

  /** The number of trailing whitespace characters. */
  function TrailingSpaces(s: string): (k: nat)
    ensures k <= |s|
    ensures forall j :: |s| - k <= j < |s| ==> IsSpace(s[j])
    ensures k < |s| ==> !IsSpace(s[|s| - k - 1])
  {
    if |s| == 0 || !IsSpace(s[|s| - 1]) then 0
    else 1 + TrailingSpaces(s[..|s| - 1])
  }

  /** `s.trim()`: `s` without its leading and trailing whitespace. */
  function Trim(s: string): (r: string)
    ensures |r| <= |s|
    ensures r == [] || (!IsSpace(r[0]) && !IsSpace(r[|r| - 1]))
    ensures forall c :: c in r ==> c in s
    ensures (forall j :: 0 <= j < |s| ==> IsSpace(s[j])) <==> r == []
    ensures exists i, j ::
              && 0 <= i <= j <= |s| && r == s[i..j]
              && (forall k :: 0 <= k < i ==> IsSpace(s[k]))
              && (forall k :: j <= k < |s| ==> IsSpace(s[k]))
  {
    var lead := LeadingSpaces(s);
    var trail := TrailingSpaces(s[lead..]);
    TrimShape(s, lead, trail);
    assert forall k :: |s| - trail <= k < |s| ==> IsSpace(s[k]) by {
      forall k | |s| - trail <= k < |s|
        ensures IsSpace(s[k])
      {
        assert s[k] == s[lead..][k - lead];
      }
    }
    s[lead..|s| - trail]
  }

  /** What is left between the leading and the trailing whitespace. */
  lemma TrimShape(s: string, lead: nat, trail: nat)
    requires lead == LeadingSpaces(s) && trail == TrailingSpaces(s[lead..])
    ensures lead + trail <= |s|
    ensures var r := s[lead..|s| - trail];
      && (r == [] || (!IsSpace(r[0]) && !IsSpace(r[|r| - 1])))
      && (forall c :: c in r ==> c in s)
      && ((forall j :: 0 <= j < |s| ==> IsSpace(s[j])) <==> r == [])
  {
    var t := s[lead..];
    var r := s[lead..|s| - trail];
    assert r == t[..|t| - trail];
    forall c | c in r
      ensures c in s
    {
      var j :| 0 <= j < |r| && r[j] == c;
      assert s[lead + j] == c;
    }
    if r == [] {
      // the first character after the leading whitespace would have to be
      // trailing whitespace
      assert lead == |s|;
    }
  }

  /** The length of the longest prefix made of decimal digits. */
  function DigitPrefix(s: string): (k: nat)
    ensures k <= |s|
    ensures forall j :: 0 <= j < k ==> IsDigit(s[j])
    ensures k < |s| ==> !IsDigit(s[k])
  {
    if |s| == 0 || !IsDigit(s[0]) then 0
    else 1 + DigitPrefix(s[1..])
  }

  /** The decimal value of a string of digits. */
  function DigitsValue(ds: string): (v: int)
    requires forall j :: 0 <= j < |ds| ==> IsDigit(ds[j])
    ensures v >= 0
  {
    if |ds| == 0 then 0
    else DigitsValue(ds[..|ds| - 1]) * 10 + DigitValue(ds[|ds| - 1])
  }

  /** `parseInt(s, 10)`: skip leading whitespace, read an optional sign and the
      longest run of digits; with no digit the result is `NaN` (here `None`). */
  function ParseInt(s: string): Option<int>
  {
    var t := s[LeadingSpaces(s)..];
    var negative := |t| > 0 && t[0] == '-';
    var u := if |t| > 0 && (t[0] == '-' || t[0] == '+') then t[1..] else t;
    var k := DigitPrefix(u);
    if k == 0 then None
    else if negative then Some(-DigitsValue(u[..k]))
    else Some(DigitsValue(u[..k]))
  }

  /** Two digits parse to their two-digit value, as "08" gives 8. */
  lemma {:induction false} ParseTwoDigits(s: string)
    requires |s| == 2 && IsDigit(s[0]) && IsDigit(s[1])
    ensures ParseInt(s) == Some(10 * DigitValue(s[0]) + DigitValue(s[1]))
  {
    assert LeadingSpaces(s) == 0;
    assert s[0..] == s;
    assert DigitPrefix(s[1..]) == 1 by {
      assert DigitPrefix(s[1..][1..]) == 0;
    }
    assert DigitPrefix(s) == 2;
    assert s[..2] == s;
    assert s[..1][..0] == [];
    assert DigitsValue(s[..1]) == DigitValue(s[0]);
  }

  /** `s.startsWith(prefix)`. */
  predicate StartsWith(s: string, prefix: string)
  {
    |prefix| <= |s| && s[..|prefix|] == prefix
  }

  /** The decimal digits of a natural number, as template literals print it. */
  function Decimal(n: nat): (s: string)
    ensures |s| >= 1 && forall j :: 0 <= j < |s| ==> IsDigit(s[j])
    decreases n
  {
    var d := ['0' + (n % 10) as char];
    if n < 10 then d else Decimal(n / 10) + d
  }

  /** Reading the printed digits back gives the number. */
  lemma {:induction false} DecimalValue(n: nat)
    ensures DigitsValue(Decimal(n)) == n
    decreases n
  {
    var s := Decimal(n);
    assert DigitValue(s[|s| - 1]) == n % 10;
    if n >= 10 {
      DecimalValue(n / 10);
      assert s[..|s| - 1] == Decimal(n / 10);
    } else {
      assert s[..|s| - 1] == [];
    }
  }

  /** `${n}` for an integer: a minus sign before the digits of a negative. */
  function IntString(n: int): string
  {
    if n < 0 then "-" + Decimal(-n) else Decimal(n)
  }

  /** `parseInt` reads a printed integer back unchanged. */
  lemma IntStringParses(n: int)
    ensures ParseInt(IntString(n)) == Some(n)
  {
    var s := IntString(n);
    var u := Decimal(if n < 0 then -n else n);
    DecimalValue(if n < 0 then -n else n);
    assert LeadingSpaces(s) == 0;
    assert s[0..] == s;
    assert DigitPrefix(u) == |u|;
    assert u[..|u|] == u;
    if n < 0 {
      assert s[1..] == u;
    }
  }
}
