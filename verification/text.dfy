/** The few Rust `str` operations the interpreter's parsers rely on, over
    `string` (a sequence of Unicode scalar values, like Rust's `char`s). */
module StrOps {
  import opened Results

  /** `char::is_whitespace`: the Unicode White_Space property. */
  predicate IsWhitespace(c: char) {
    var n := c as int;
    (0x09 <= n <= 0x0D) || n == 0x20 || n == 0x85 || n == 0xA0 || n == 0x1680
    || (0x2000 <= n <= 0x200A) || n == 0x2028 || n == 0x2029 || n == 0x202F
    || n == 0x205F || n == 0x3000
  }

  /** `char::is_digit(10)`: ASCII decimal digits only. */
  predicate IsDigit(c: char) {
    '0' <= c <= '9'
  }

  predicate AllWhitespace(s: string) {
    forall k :: 0 <= k < |s| ==> IsWhitespace(s[k])
  }

  predicate AllDigits(s: string) {
    forall k :: 0 <= k < |s| ==> IsDigit(s[k])
  }

  /** `s` ends with `t`. */
  predicate IsSuffix(t: string, s: string) {
    |t| <= |s| && t == s[|s| - |t|..]
  }

  /** `str::trim_start`: drops the leading whitespace and nothing else. */
  function TrimStart(s: string): (r: string)
    ensures IsSuffix(r, s)
    ensures AllWhitespace(s[..|s| - |r|])
    ensures |r| == 0 || !IsWhitespace(r[0])
  {
    if |s| > 0 && IsWhitespace(s[0]) then TrimStart(s[1..]) else s
  }

  /** `str::trim_end`: drops the trailing whitespace and nothing else. */
  function TrimEnd(s: string): (r: string)
    ensures |r| <= |s| && r == s[..|r|]
    ensures AllWhitespace(s[|r|..])
    ensures |r| == 0 || !IsWhitespace(r[|r| - 1])
  {
    if |s| > 0 && IsWhitespace(s[|s| - 1]) then TrimEnd(s[..|s| - 1]) else s
  }

  /** `str::trim`: drops whitespace at both ends. */
  function Trim(s: string): (r: string)
    ensures |r| == 0 || (!IsWhitespace(r[0]) && !IsWhitespace(r[|r| - 1]))
    ensures r == TrimStart(TrimEnd(s))
  {
    TrimStartEndCommute(s);
    TrimEnd(TrimStart(s))
  }

  /** A string that starts with a non-whitespace character is its own trim_start. */
  lemma TrimStartNoOp(s: string)
    requires |s| == 0 || !IsWhitespace(s[0])
    ensures TrimStart(s) == s
  {
  }

  /** A string that ends with a non-whitespace character is its own trim_end. */
  lemma TrimEndNoOp(s: string)
    requires |s| == 0 || !IsWhitespace(s[|s| - 1])
    ensures TrimEnd(s) == s
  {
  }

  /** Trimming whitespace off either end first gives the same string. */
  lemma {:induction false} TrimStartEndCommute(s: string)
    ensures TrimEnd(TrimStart(s)) == TrimStart(TrimEnd(s))
    decreases |s|
  {
    if |s| > 0 && IsWhitespace(s[0]) {
      TrimStartEndCommute(s[1..]);
      if |TrimEnd(s)| == 0 {
        assert AllWhitespace(s[1..]) by {
          assert s[|TrimEnd(s)|..] == s;
        }
        assert TrimEnd(s[1..]) == [];
      } else {
        TrimEndTail(s);
        assert TrimEnd(s)[0] == s[0];
      }
    } else if |s| > 0 {
      TrimStartNoOp(TrimEnd(s));
    }
  }

  /** Dropping a leading whitespace character commutes with trim_end, unless
      the whole string is whitespace. */
  lemma {:induction false} TrimEndTail(s: string)
    requires |s| > 0 && IsWhitespace(s[0]) && |TrimEnd(s)| > 0
    ensures TrimEnd(s[1..]) == TrimEnd(s)[1..]
    decreases |s|
  {
    if IsWhitespace(s[|s| - 1]) {
      var t := s[..|s| - 1];
      assert s[1..][..|s[1..]| - 1] == t[1..];
      TrimEndTail(t);
    }
  }

  /** The index of the first character of `s` satisfying `p`, as `str::find`. */
  function FindFirst(s: string, p: char -> bool): (r: Option<nat>)
    ensures r.Some? ==> r.value < |s| && p(s[r.value])
    ensures r.Some? ==> forall j :: 0 <= j < r.value ==> !p(s[j])
    ensures r.None? ==> forall j :: 0 <= j < |s| ==> !p(s[j])
  {
    if |s| == 0 then None
    else if p(s[0]) then Some(0)
    else match FindFirst(s[1..], p)
      case None => None
      case Some(i) => Some(i + 1)
  }

  /** `str::split_once(sep)`: the text before and after the first `sep`. */
  function SplitOnce(s: string, sep: char): (r: Option<(string, string)>)
    ensures r.None? <==> sep !in s
    ensures r.Some? ==> s == r.value.0 + [sep] + r.value.1 && sep !in r.value.0
  {
    match FindFirst(s, c => c == sep)
    case None => None
    case Some(i) =>
      assert s == s[..i] + [sep] + s[i + 1..];
      Some((s[..i], s[i + 1..]))
  }

  /** `str::split(sep)`: the pieces between separators, never fewer than one. */
  function Split(s: string, sep: char): (r: seq<string>)
    ensures |r| >= 1
    ensures forall k :: 0 <= k < |r| ==> sep !in r[k]
    ensures Join(r, sep) == s
    decreases |s|
  {
    match SplitOnce(s, sep)
    case None => [s]
    case Some((before, after)) =>
      var rest := Split(after, sep);
      assert ([before] + rest)[1..] == rest;
      [before] + rest
  }

  /** The pieces glued back together with `sep` between neighbours. */
  function Join(pieces: seq<string>, sep: char): string
  {
    if |pieces| == 0 then []
    else if |pieces| == 1 then pieces[0]
    else pieces[0] + [sep] + Join(pieces[1..], sep)
  }

  /** Splitting undoes joining, as long as no piece holds the separator. */
  lemma {:induction false} SplitJoin(pieces: seq<string>, sep: char)
    requires |pieces| >= 1
    requires forall k :: 0 <= k < |pieces| ==> sep !in pieces[k]
    ensures Split(Join(pieces, sep), sep) == pieces
  {
    if |pieces| > 1 {
      var rest := Join(pieces[1..], sep);
      var s := pieces[0] + [sep] + rest;
      assert s[|pieces[0]|] == sep;
      var split := SplitOnce(s, sep);
      assert split.Some?;
      SplitOnceUnique(s, sep, pieces[0], rest);
      SplitJoin(pieces[1..], sep);
    } else {
      assert Join(pieces, sep) == pieces[0];
    }
  }

  lemma SplitOnceUnique(s: string, sep: char, a: string, b: string)
    requires s == a + [sep] + b && sep !in a
    ensures SplitOnce(s, sep) == Some((a, b))
  {
    var r := SplitOnce(s, sep);
    var a', b' := r.value.0, r.value.1;
    assert forall j :: 0 <= j < |a| ==> s[j] != sep by {
      forall j | 0 <= j < |a| ensures s[j] != sep {
        assert s[j] == a[j];
      }
    }
    assert forall j :: 0 <= j < |a'| ==> s[j] != sep by {
      forall j | 0 <= j < |a'| ensures s[j] != sep {
        assert s[j] == a'[j];
      }
    }
    assert s[|a|] == sep && s[|a'|] == sep;
    assert a' == s[..|a|] == a;
    assert b' == s[|a| + 1..] == b;
  }

  /** The value of one decimal digit. */
  function DigitValue(c: char): nat
    requires IsDigit(c)
  {
    c as int - '0' as int
  }

  /** `str::parse::<usize>` on a run of decimal digits (no overflow: see README). */
  function ParseNat(s: string): (r: nat)
    requires AllDigits(s)
    ensures r < Pow10(|s|)
  {
    if |s| == 0 then 0 else 10 * ParseNat(s[..|s| - 1]) + DigitValue(s[|s| - 1])
  }

  function Pow10(n: nat): (r: nat)
    ensures r >= 1
  {
    if n == 0 then 1 else 10 * Pow10(n - 1)
  }

  /** The value of a numeral is positional: the digits before a split count
      `10^|t|` times what they count alone. */
  lemma {:induction false} ParseNatAppend(s: string, t: string)
    requires AllDigits(s) && AllDigits(t)
    ensures AllDigits(s + t)
    ensures ParseNat(s + t) == ParseNat(s) * Pow10(|t|) + ParseNat(t)
    decreases |t|
  {
    if |t| > 0 {
      var u := s + t;
      var t' := t[..|t| - 1];
      var d := DigitValue(t[|t| - 1]);
      assert u[..|u| - 1] == s + t';
      assert u[|u| - 1] == t[|t| - 1];
      ParseNatAppend(s, t');
      assert ParseNat(u) == 10 * ParseNat(s + t') + d;
      assert ParseNat(t) == 10 * ParseNat(t') + d;
      Shift(ParseNat(s), Pow10(|t'|), ParseNat(t'), d);
    } else {
      assert s + t == s;
    }
  }

  lemma Shift(a: int, p: int, b: int, d: int)
    ensures 10 * (a * p + b) + d == a * (10 * p) + (10 * b + d)
  {
  }

  /** Leading zeros do not change the value, as for `str::parse::<usize>`. */
  lemma LeadingZero(s: string)
    requires AllDigits(s)
    ensures AllDigits("0" + s) && ParseNat("0" + s) == ParseNat(s)
  {
    ParseNatAppend("0", s);
    assert ParseNat("0") == 10 * ParseNat("") + DigitValue('0');
  }

  /** The decimal rendering of a natural number, without leading zeros. */
  function ShowNat(n: nat): (r: string)
    ensures |r| >= 1 && AllDigits(r)
  {
    var d := ['0' + (n % 10) as char];
    if n < 10 then d else ShowNat(n / 10) + d
  }

  /** Parsing a rendered number gives the number back. */
  lemma {:induction false} ParseShowNat(n: nat)
    ensures ParseNat(ShowNat(n)) == n
  {
    var s := ShowNat(n);
    if n >= 10 {
      ParseShowNat(n / 10);
      assert s[..|s| - 1] == ShowNat(n / 10);
    }
  }
}
