/** The slice of Python's runtime that the property helpers and the colour loader
    rely on: argument values, exceptions, `str()` of a value, and the string methods
    `lower`, `upper`, `strip`, `rstrip`, `partition` and `split`, and `int()` of a string. */
module PyText {

  datatype Option<+T> = None | Some(value: T)

  datatype Result<+T, +E> = Ok(value: T) | Err(error: E)

  /** The Python exceptions the modelled code can let escape. */
  datatype PyError = ValueError | TypeError | KeyError | IndexError | AttributeError

  /** A Python argument value: None, a bool, an int or a str. */
  datatype Value = PyNone | PyBool(b: bool) | PyInt(i: int) | PyStr(s: string)

  /** How a property setter ended: it wrote, it printed a message and returned,
      or it let an exception escape. */
  datatype Outcome = Done | Rejected | Raised(error: PyError)

  // ---------------------------------------------------------------------------
  // Digits and `str()` of integers

  predicate IsDigit(c: char) { '0' <= c <= '9' }

  function DigitValue(c: char): (d: nat)
    requires IsDigit(c)
    ensures d < 10
  {
    c as int - '0' as int
  }

  function DigitChar(d: nat): (c: char)
    requires d < 10
    ensures IsDigit(c) && DigitValue(c) == d
  {
    (d + '0' as int) as char
  }

  /** The decimal text of a non-negative integer, without leading zeros. */
  function NatToString(n: nat): (r: string)
    ensures |r| > 0
    ensures forall k :: 0 <= k < |r| ==> IsDigit(r[k])
  {
    if n < 10 then [DigitChar(n)] else NatToString(n / 10) + [DigitChar(n % 10)]
  }

  /** `str(i)` for a Python int: a minus sign exactly for a negative number, then
      at least one digit. */
  function IntToString(i: int): (r: string)
    ensures |r| > 0 && (r[0] == '-' <==> i < 0)
    ensures i < 0 ==> |r| > 1
    ensures forall k :: 0 < k < |r| ==> IsDigit(r[k])
    ensures i >= 0 ==> IsDigit(r[0])
  {
    if i < 0 then "-" + NatToString(-i) else NatToString(i)
  }

  /** `str(v)`: note that booleans print capitalised and None prints as "None"; only
      a str can print as the empty text. */
  function Str(v: Value): (r: string)
    ensures v.PyStr? ==> r == v.s
    ensures !v.PyStr? ==> |r| > 0
  {
    match v
    case PyNone => "None"
    case PyBool(b) => if b then "True" else "False"
    case PyInt(i) => IntToString(i)
    case PyStr(s) => s
  }

  // ---------------------------------------------------------------------------
  // Case mapping (ASCII letters only)

  function LowerChar(c: char): char {
    if 'A' <= c <= 'Z' then (c as int + 32) as char else c
  }

  function UpperChar(c: char): char {
    if 'a' <= c <= 'z' then (c as int - 32) as char else c
  }

  /** `s.lower()` */
  function Lower(s: string): string {
    seq(|s|, k requires 0 <= k < |s| => LowerChar(s[k]))
  }

  /** `s.upper()`: the same letters in the same places, none of them lower case. */
  function Upper(s: string): (r: string)
    ensures |r| == |s|
    ensures forall k :: 0 <= k < |r| ==> !('a' <= r[k] <= 'z') && LowerChar(r[k]) == LowerChar(s[k])
  {
    seq(|s|, k requires 0 <= k < |s| => UpperChar(s[k]))
  }

  /** `s` spells the lower-case word `w` with any mix of upper and lower case. */
  predicate SpellsIgnoringCase(s: string, w: string) {
    |s| == |w| && forall k :: 0 <= k < |s| ==> s[k] == w[k] || s[k] == UpperChar(w[k])
  }

  /** `s.lower() == w` holds exactly when `s` spells `w` ignoring case, for a word
      `w` without upper-case letters. */
  lemma LowerEqualsIff(s: string, w: string)
    requires forall k :: 0 <= k < |w| ==> !('A' <= w[k] <= 'Z')
    ensures Lower(s) == w <==> SpellsIgnoringCase(s, w)
  {
    if Lower(s) == w {
      forall k | 0 <= k < |s| ensures s[k] == w[k] || s[k] == UpperChar(w[k]) {
        assert LowerChar(s[k]) == w[k];
      }
    }
    if SpellsIgnoringCase(s, w) {
      forall k | 0 <= k < |s| ensures Lower(s)[k] == w[k] {
        assert LowerChar(s[k]) == w[k];
      }
    }
  }

  // ---------------------------------------------------------------------------
  // Whitespace stripping

  /** The characters Python's `str.isspace` accepts, which `strip()` and `rstrip()`
      remove. */
  predicate IsSpace(c: char) {
    c == ' ' || ('\t' <= c <= '\r') || ('\U{1C}' <= c <= '\U{1F}') || c == '\U{85}'
    || c == '\U{A0}' || c == '\U{1680}' || ('\U{2000}' <= c <= '\U{200A}')
    || c == '\U{2028}' || c == '\U{2029}' || c == '\U{202F}' || c == '\U{205F}'
    || c == '\U{3000}'
  }

  /** `s.lstrip()`: the suffix of `s` left after its leading whitespace. */
  function LStrip(s: string): (r: string)
    ensures |r| <= |s| && r == s[|s| - |r|..]
    ensures forall k :: 0 <= k < |s| - |r| ==> IsSpace(s[k])
    ensures r == [] || !IsSpace(r[0])
  {
    if s != [] && IsSpace(s[0]) then LStrip(s[1..]) else s
  }

  /** `s.rstrip()`: the prefix of `s` left after its trailing whitespace. */
  function RStrip(s: string): (r: string)
    ensures |r| <= |s| && r == s[..|r|]
    ensures forall k :: |r| <= k < |s| ==> IsSpace(s[k])
    ensures r == [] || !IsSpace(r[|r| - 1])
  {
    if s != [] && IsSpace(s[|s| - 1]) then RStrip(s[..|s| - 1]) else s
  }

  /** `s.strip()` */
  function Strip(s: string): string {
    LStrip(RStrip(s))
  }

  /** Stripping after `rstrip()` is the same as stripping. */
  lemma StripAfterRStrip(s: string)
    ensures Strip(RStrip(s)) == Strip(s)
  {
    var r := RStrip(s);
    assert RStrip(r) == r;
  }

  /** `rstrip()` of `a + b` only touches `b` when `a` ends in a non-space. */
  lemma {:induction false} RStripConcat(a: string, b: string)
    requires |a| > 0 && !IsSpace(a[|a| - 1])
    ensures RStrip(a + b) == a + RStrip(b)
    decreases |b|
  {
    if b == [] {
      assert a + b == a;
    } else if IsSpace(b[|b| - 1]) {
      assert (a + b)[..|a + b| - 1] == a + b[..|b| - 1];
      RStripConcat(a, b[..|b| - 1]);
    } else {
      assert RStrip(b) == b;
    }
  }

  // ---------------------------------------------------------------------------
  // `partition` and `split`

  /** `s.partition(c)[0]`: the text before the first `c`, or all of `s`. */
  function Before(s: string, c: char): (r: string)
    ensures |r| <= |s| && r == s[..|r|] && c !in r
    ensures |r| == |s| || s[|r|] == c
  {
    if s == [] || s[0] == c then []
    else
      var rest := Before(s[1..], c);
      assert [s[0]] + rest == s[..|rest| + 1];
      [s[0]] + rest
  }

  /** The number of occurrences of `c` in `s`. */
  function Occurrences(s: string, c: char): nat {
    if s == [] then 0 else (if s[0] == c then 1 else 0) + Occurrences(s[1..], c)
  }

  /** `s.split(sep)` for a one-character separator. */
  function Split(s: string, sep: char): (r: seq<string>)
    ensures |r| > 0
  {
    if s == [] then [""]
    else
      var rest := Split(s[1..], sep);
      if s[0] == sep then [""] + rest else [[s[0]] + rest[0]] + rest[1..]
  }

  /** `sep.join(pieces)` for a one-character separator. */
  function Join(pieces: seq<string>, sep: char): string {
    if |pieces| == 0 then ""
    else if |pieces| == 1 then pieces[0]
    else pieces[0] + [sep] + Join(pieces[1..], sep)
  }

  /** Splitting yields one piece more than there are separators, no piece holds a
      separator, and joining the pieces gives the text back. */
  lemma {:induction false} SplitJoin(s: string, sep: char)
    ensures |Split(s, sep)| == Occurrences(s, sep) + 1
    ensures forall k :: 0 <= k < |Split(s, sep)| ==> sep !in Split(s, sep)[k]
    ensures Join(Split(s, sep), sep) == s
  {
    if s != [] {
      var rest := Split(s[1..], sep);
      SplitJoin(s[1..], sep);
      if s[0] == sep {
        assert Join(Split(s, sep), sep) == "" + [sep] + Join(rest, sep);
      } else {
        var r := Split(s, sep);
        assert r[1..] == rest[1..];
        if |rest| == 1 {
          assert Join(r, sep) == [s[0]] + rest[0];
        } else {
          assert Join(rest, sep) == rest[0] + [sep] + Join(rest[1..], sep);
          assert Join(r, sep) == [s[0]] + rest[0] + [sep] + Join(rest[1..], sep);
        }
        assert s == [s[0]] + s[1..];
      }
    }
  }

  /** Splitting the join of separator-free pieces gives the pieces back. */
  lemma {:induction false} JoinSplit(pieces: seq<string>, sep: char)
    requires |pieces| > 0
    requires forall k :: 0 <= k < |pieces| ==> sep !in pieces[k]
    ensures Split(Join(pieces, sep), sep) == pieces
  {
    if |pieces| == 1 {
      SplitNoSeparator(pieces[0], sep);
    } else {
      JoinSplit(pieces[1..], sep);
      SplitAtFirst(pieces[0], Join(pieces[1..], sep), sep);
      assert Join(pieces, sep) == pieces[0] + [sep] + Join(pieces[1..], sep);
      assert pieces == [pieces[0]] + pieces[1..];
    }
  }

  lemma {:induction false} SplitNoSeparator(s: string, sep: char)
    requires sep !in s
    ensures Split(s, sep) == [s]
  {
    if s != [] {
      SplitNoSeparator(s[1..], sep);
      assert s == [s[0]] + s[1..];
    }
  }

  lemma {:induction false} SplitAtFirst(a: string, b: string, sep: char)
    requires sep !in a
    ensures Split(a + [sep] + b, sep) == [a] + Split(b, sep)
  {
    if a == [] {
      assert a + [sep] + b == [sep] + b;
      assert ([sep] + b)[1..] == b;
    } else {
      var s := a + [sep] + b;
      assert s[1..] == a[1..] + [sep] + b;
      SplitAtFirst(a[1..], b, sep);
      assert a == [a[0]] + a[1..];
    }
  }

  /** `partition` stops at the first separator, so what follows it is ignored. */
  lemma {:induction false} BeforeConcat(a: string, b: string, c: char)
    requires c !in a
    ensures Before(a + [c] + b, c) == a
  {
    if a != [] {
      assert (a + [c] + b)[1..] == a[1..] + [c] + b;
      BeforeConcat(a[1..], b, c);
      assert a == [a[0]] + a[1..];
    } else {
      assert a + [c] + b == [c] + b;
    }
  }

  /** Text without the separator is its own first part. */
  lemma {:induction false} BeforeAbsent(a: string, c: char)
    requires c !in a
    ensures Before(a, c) == a
  {
    if a != [] {
      BeforeAbsent(a[1..], c);
      assert a == [a[0]] + a[1..];
    }
  }

  // ---------------------------------------------------------------------------
  // `int()` of a string

  /** A run of decimal digits in which single underscores may separate digits. */
  predicate WellFormedDigits(d: string) {
    && |d| > 0 && IsDigit(d[0])
    && (forall k :: 0 <= k < |d| ==> IsDigit(d[k]) || d[k] == '_')
    && (forall k :: 0 <= k < |d| - 1 && d[k] == '_' ==> IsDigit(d[k + 1]))
    && d[|d| - 1] != '_'
  }

  /** The value of a run of digits, underscores ignored. */
  function DigitsValue(d: string): nat
    requires forall k :: 0 <= k < |d| ==> IsDigit(d[k]) || d[k] == '_'
  {
    if d == [] then 0
    else if d[|d| - 1] == '_' then DigitsValue(d[..|d| - 1])
    else 10 * DigitsValue(d[..|d| - 1]) + DigitValue(d[|d| - 1])
  }

  /** The whitespace `int()` skips around its digits: that of `str.isspace` except
      U+001C to U+001F, which `int()` passes on as ASCII characters and then refuses. */
  predicate IsIntSpace(c: char) {
    IsSpace(c) && !('\U{1C}' <= c <= '\U{1F}')
  }

  /** `s` without the leading whitespace `int()` skips. */
  function IntLStrip(s: string): (r: string)
    ensures |r| <= |s| && r == s[|s| - |r|..]
    ensures r == [] || !IsIntSpace(r[0])
  {
    if s != [] && IsIntSpace(s[0]) then IntLStrip(s[1..]) else s
  }

  /** `s` without the trailing whitespace `int()` skips. */
  function IntRStrip(s: string): (r: string)
    ensures |r| <= |s| && r == s[..|r|]
    ensures forall k :: |r| <= k < |s| ==> IsIntSpace(s[k])
    ensures r == [] || !IsIntSpace(r[|r| - 1])
  {
    if s != [] && IsIntSpace(s[|s| - 1]) then IntRStrip(s[..|s| - 1]) else s
  }

  /** `int(s)` for a str in base 10: surrounding whitespace, an optional sign, then
      digits with optional single underscores between them; `None` where Python
      raises ValueError. */
  function ParseInt(s: string): (r: Option<int>)
    ensures (forall k :: 0 <= k < |s| ==> !IsDigit(s[k])) ==> r == None
  {
    var t := IntLStrip(IntRStrip(s));
    var signed := |t| > 0 && (t[0] == '+' || t[0] == '-');
    var digits := if signed then t[1..] else t;
    if WellFormedDigits(digits) then
      assert digits[0] in s by {
        var u := IntRStrip(s);
        assert t == u[|u| - |t|..] && u == s[..|u|];
        assert digits[0] in t;
      }
      var n: int := DigitsValue(digits);
      Some(if signed && t[0] == '-' then -n else n)
    else
      None
  }

  /** Text that starts with one of U+001C to U+001F is not a number for `int()`,
      although `str.isspace` counts that character as whitespace. */
  lemma ParseIntRefusesSeparators(c: char, s: string)
    requires '\U{1C}' <= c <= '\U{1F}'
    ensures IsSpace(c) && !IsIntSpace(c)
    ensures ParseInt([c] + s) == None
  {
    var u := IntRStrip([c] + s);
    assert ([c] + s)[0] == c;
    assert |u| > 0 && u[0] == c;
    assert IntLStrip(u) == u;
  }

  lemma {:induction false} NatToStringValue(n: nat)
    ensures WellFormedDigits(NatToString(n))
    ensures DigitsValue(NatToString(n)) == n
  {
    if n >= 10 {
      NatToStringValue(n / 10);
      var d := NatToString(n);
      assert d[..|d| - 1] == NatToString(n / 10);
    }
  }

  lemma NotIntSpace(c: char)
    requires IsDigit(c) || c == '-'
    ensures !IsIntSpace(c)
  {
  }

  lemma IntStripNoSpace(s: string)
    requires s == [] || (!IsIntSpace(s[0]) && !IsIntSpace(s[|s| - 1]))
    ensures IntLStrip(IntRStrip(s)) == s
  {
    assert IntRStrip(s) == s;
  }

  /** A sign and well-formed digits with nothing around them read as that number. */
  lemma ParseIntSignedDigits(s: string, digits: string, negative: bool)
    requires WellFormedDigits(digits) && s == (if negative then "-" else "") + digits
    ensures ParseInt(s) == Some(if negative then -(DigitsValue(digits) as int) else DigitsValue(digits))
  {
    assert s[|s| - 1] == digits[|digits| - 1];
    assert s[0] == '-' || s[0] == digits[0];
    NotIntSpace(s[0]);
    NotIntSpace(s[|s| - 1]);
    IntStripNoSpace(s);
    if negative {
      assert s[1..] == digits;
    } else {
      assert IsDigit(s[0]);
    }
  }

  /** `int(str(i)) == i`: the decimal text of an integer reads back as that integer. */
  lemma IntToStringRoundTrip(i: int)
    ensures ParseInt(IntToString(i)) == Some(i)
  {
    var n: nat := if i < 0 then -i else i;
    NatToStringValue(n);
    ParseIntSignedDigits(IntToString(i), NatToString(n), i < 0);
  }
  /** Of the texts `str()` gives, only an int's reads back through `int()`, as that
      int; None and the booleans print as words without digits. */
  lemma StrReadsBack(v: Value)
    ensures v.PyInt? ==> ParseInt(Str(v)) == Some(v.i)
    ensures v.PyNone? || v.PyBool? ==> ParseInt(Str(v)) == None
  {
    match v
    case PyInt(i) =>
      IntToStringRoundTrip(i);
    case PyStr(_) =>
    case _ =>
      var t := Str(v);
      assert t == "None" || t == "True" || t == "False";
      assert forall k :: 0 <= k < |t| ==> !IsDigit(t[k]);
  }

}
