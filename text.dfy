/** String helpers the core relies on: the parts of Go's `strings` and
    `strconv` packages it calls, written out over `seq<char>`. */
module Text {

  /** `strings.HasPrefix`. */
  predicate HasPrefix(s: string, p: string)
  {
    |p| <= |s| && s[..|p|] == p
  }

  /** `strings.HasSuffix`. */
  predicate HasSuffix(s: string, t: string)
  {
    |t| <= |s| && s[|s| - |t|..] == t
  }

  /** True when `sep` occurs somewhere in `s`. */
  predicate Contains(s: string, sep: char)
  {
    exists i :: 0 <= i < |s| && s[i] == sep
  }

  /** Index of the first `sep` in `s`, or `|s|` when there is none. */
  function IndexOf(s: string, sep: char): (k: nat)
    ensures k <= |s|
    ensures forall i :: 0 <= i < k ==> s[i] != sep
    ensures k < |s| ==> s[k] == sep
  {
    if |s| == 0 then 0
    else if s[0] == sep then 0
    else 1 + IndexOf(s[1..], sep)
  }

  /** `strings.Split(s, string(sep))`: the pieces between separators, in order;
      the empty string splits into one empty piece. */
  function Split(s: string, sep: char): (parts: seq<string>)
    ensures |parts| >= 1
    decreases |s|
  {
    var k := IndexOf(s, sep);
    if k == |s| then [s] else [s[..k]] + Split(s[k + 1..], sep)
  }

  /** `strings.Join(parts, string(sep))`. */
  function Join(parts: seq<string>, sep: char): string
  {
    if |parts| == 0 then ""
    else if |parts| == 1 then parts[0]
    else parts[0] + [sep] + Join(parts[1..], sep)
  }

  lemma {:induction false} SplitPiecesHaveNoSeparator(s: string, sep: char)
    ensures forall j :: 0 <= j < |Split(s, sep)| ==> !Contains(Split(s, sep)[j], sep)
    decreases |s|
  {
    var k := IndexOf(s, sep);
    if k < |s| {
      SplitPiecesHaveNoSeparator(s[k + 1..], sep);
      var rest := Split(s[k + 1..], sep);
      assert Split(s, sep) == [s[..k]] + rest;
      forall j | 0 <= j < |Split(s, sep)| ensures !Contains(Split(s, sep)[j], sep) {
        if j > 0 { assert Split(s, sep)[j] == rest[j - 1]; }
      }
    }
  }

  /** Joining the pieces of a split restores the original string. */
  lemma {:induction false} JoinSplit(s: string, sep: char)
    ensures Join(Split(s, sep), sep) == s
    decreases |s|
  {
    var k := IndexOf(s, sep);
    if k < |s| {
      var rest := Split(s[k + 1..], sep);
      JoinSplit(s[k + 1..], sep);
      var parts := [s[..k]] + rest;
      assert Split(s, sep) == parts;
      assert parts[0] == s[..k] && parts[1..] == rest;
      assert Join(parts, sep) == s[..k] + [sep] + Join(rest, sep);
      assert s == s[..k] + [sep] + s[k + 1..];
    }
  }

  /** A string without the separator splits into itself alone. */
  lemma SplitWithoutSeparator(s: string, sep: char)
    requires !Contains(s, sep)
    ensures Split(s, sep) == [s]
  {
    assert IndexOf(s, sep) == |s|;
  }

  /** Splitting a joined list of separator-free pieces gives the pieces back. */
  lemma {:induction false} SplitJoin(parts: seq<string>, sep: char)
    requires |parts| >= 1
    requires forall j :: 0 <= j < |parts| ==> !Contains(parts[j], sep)
    ensures Split(Join(parts, sep), sep) == parts
    decreases |parts|
  {
    if |parts| == 1 {
      SplitWithoutSeparator(parts[0], sep);
    } else {
      var s := Join(parts, sep);
      var tail := Join(parts[1..], sep);
      assert s == parts[0] + [sep] + tail;
      assert !Contains(parts[0], sep);
      assert s == parts[0] + ([sep] + tail);
      IndexOfPrefix(parts[0], sep, [sep] + tail);
      assert s[..|parts[0]|] == parts[0];
      assert s[|parts[0]| + 1..] == tail;
      SplitJoin(parts[1..], sep);
    }
  }

  lemma {:induction false} IndexOfPrefix(a: string, sep: char, b: string)
    requires !Contains(a, sep)
    requires |b| > 0 && b[0] == sep
    ensures IndexOf(a + b, sep) == |a|
    decreases |a|
  {
    if |a| > 0 {
      assert a[0] != sep;
      assert (a + b)[1..] == a[1..] + b;
      assert !Contains(a[1..], sep) by {
        forall i | 0 <= i < |a[1..]| ensures a[1..][i] != sep { assert a[1..][i] == a[i + 1]; }
      }
      IndexOfPrefix(a[1..], sep, b);
    } else {
      assert a + b == b;
    }
  }

  /** `strings.Replace(s, pat, rep, -1)` for a non-empty `pat`: every
      non-overlapping occurrence, scanning left to right, is replaced. */
  function ReplaceAll(s: string, pat: string, rep: string): (r: string)
    requires |pat| > 0
    decreases |s|
  {
    if |s| < |pat| then s
    else if s[..|pat|] == pat then rep + ReplaceAll(s[|pat|..], pat, rep)
    else [s[0]] + ReplaceAll(s[1..], pat, rep)
  }

  /** True when `pat` occurs in `s` at some position. */
  predicate Occurs(s: string, pat: string)
  {
    exists i :: 0 <= i <= |s| && OccursAt(s, pat, i)
  }

  predicate OccursAt(s: string, pat: string, i: nat)
  {
    i + |pat| <= |s| && s[i..i + |pat|] == pat
  }

  /** Replacing a pattern that does not occur changes nothing. */
  lemma {:induction false} ReplaceAbsent(s: string, pat: string, rep: string)
    requires |pat| > 0
    requires !Occurs(s, pat)
    ensures ReplaceAll(s, pat, rep) == s
    decreases |s|
  {
    if |s| >= |pat| {
      assert s[0..|pat|] == s[..|pat|];
      assert !OccursAt(s, pat, 0);
      assert !Occurs(s[1..], pat) by {
        forall i: nat | i <= |s[1..]| && OccursAt(s[1..], pat, i) ensures false {
          assert s[1..][i..i + |pat|] == s[i + 1..i + 1 + |pat|];
          assert OccursAt(s, pat, i + 1);
        }
      }
      ReplaceAbsent(s[1..], pat, rep);
    }
  }

  /** Replacing a whole string that is exactly the pattern yields the replacement. */
  lemma ReplaceWhole(pat: string, rep: string)
    requires |pat| > 0
    ensures ReplaceAll(pat, pat, rep) == rep
  {
    assert pat[..|pat|] == pat;
    assert pat[|pat|..] == "";
  }

  /** A pattern at the front whose first character does not occur after it is replaced once. */
  lemma ReplaceLeading(pat: string, post: string, rep: string)
    requires |pat| > 0
    requires !Contains(post, pat[0])
    ensures ReplaceAll(pat + post, pat, rep) == rep + post
  {
    var s := pat + post;
    assert s[..|pat|] == pat;
    assert s[|pat|..] == post;
    assert ReplaceAll(s, pat, rep) == rep + ReplaceAll(post, pat, rep);
    ReplaceAbsent(post, pat, rep);
  }

  /** A pattern whose first character occurs neither before nor after its one
      occurrence is replaced exactly there. */
  lemma {:induction false} ReplaceSingle(pre: string, pat: string, post: string, rep: string)
    requires |pat| > 0
    requires !Contains(pre, pat[0]) && !Contains(post, pat[0])
    ensures ReplaceAll(pre + pat + post, pat, rep) == pre + rep + post
    decreases |pre|
  {
    if |pre| == 0 {
      assert pre + pat + post == pat + post;
      ReplaceLeading(pat, post, rep);
    } else {
      var s := pre + pat + post;
      var tail := pre[1..] + pat + post;
      assert pre[0] != pat[0];
      assert s[0] == pre[0];
      assert s[..|pat|] != pat by { assert s[..|pat|][0] == s[0]; }
      assert s[1..] == tail;
      assert ReplaceAll(s, pat, rep) == [pre[0]] + ReplaceAll(tail, pat, rep);
      assert !Contains(pre[1..], pat[0]) by {
        forall i | 0 <= i < |pre[1..]| ensures pre[1..][i] != pat[0] { assert pre[1..][i] == pre[i + 1]; }
      }
      ReplaceSingle(pre[1..], pat, post, rep);
      assert [pre[0]] + (pre[1..] + rep + post) == pre + rep + post;
    }
  }

  /** ASCII letters are lower-cased; every other character is kept (`strings.ToLower` on ASCII text). */
  function LowerChar(c: char): char
  {
    if 'A' <= c <= 'Z' then (c as int + 32) as char else c
  }

  function ToLower(s: string): (r: string)
    ensures |r| == |s|
    ensures forall i :: 0 <= i < |s| ==> r[i] == LowerChar(s[i])
  {
    if |s| == 0 then "" else [LowerChar(s[0])] + ToLower(s[1..])
  }

  /** The white-space characters `strings.TrimSpace` removes (`unicode.IsSpace`):
      the ASCII spaces, U+0085 and U+00A0, and the other White_Space characters
      of Unicode (U+1680, U+2000 to U+200A, U+2028, U+2029, U+202F, U+205F, U+3000). */
  predicate IsSpace(c: char)
  {
    c == ' ' || c == '\t' || c == '\n' || c == '\r' || c == '\U{000B}' || c == '\U{000C}' ||
    c == '\U{0085}' || c == '\U{00A0}' || c == '\U{1680}' || ('\U{2000}' <= c <= '\U{200A}') ||
    c == '\U{2028}' || c == '\U{2029}' || c == '\U{202F}' || c == '\U{205F}' || c == '\U{3000}'
  }

  function TrimLeft(s: string): (r: string)
    ensures |r| <= |s|
    ensures |r| > 0 ==> !IsSpace(r[0])
    ensures r == s[|s| - |r|..]
    ensures forall i :: 0 <= i < |s| - |r| ==> IsSpace(s[i])
  {
    if |s| > 0 && IsSpace(s[0]) then TrimLeft(s[1..]) else s
  }

  function TrimRight(s: string): (r: string)
    ensures |r| <= |s|
    ensures |r| > 0 ==> !IsSpace(r[|r| - 1])
    ensures r == s[..|r|]
    ensures forall i :: |r| <= i < |s| ==> IsSpace(s[i])
  {
    if |s| > 0 && IsSpace(s[|s| - 1]) then TrimRight(s[..|s| - 1]) else s
  }

  /** `strings.TrimSpace`. */
  function TrimSpace(s: string): string
  {
    TrimRight(TrimLeft(s))
  }

  /** The test Go code writes as `strings.ToLower(strings.TrimSpace(s)) == "true"`. */
  predicate IsTrueText(s: string)
  {
    ToLower(TrimSpace(s)) == "true"
  }

  function DigitChar(d: nat): (c: char)
    requires d < 10
    ensures '0' <= c <= '9' && c as int - '0' as int == d
  {
    ('0' as int + d) as char
  }

  /** Decimal text of a natural number, as `fmt.Sprintf("%v", n)` prints it. */
  function NatToString(n: nat): (r: string)
    ensures |r| >= 1
    ensures forall i :: 0 <= i < |r| ==> '0' <= r[i] <= '9'
    decreases n
  {
    if n < 10 then [DigitChar(n)] else NatToString(n / 10) + [DigitChar(n % 10)]
  }

  /** Decimal text of an integer, with a leading '-' when negative. */
  function IntToString(i: int): string
  {
    if i < 0 then "-" + NatToString(-i) else NatToString(i)
  }

  predicate IsDigit(c: char)
  {
    '0' <= c <= '9'
  }

  /** Value of a string of decimal digits. */
  function DigitsValue(s: string): nat
    requires forall i :: 0 <= i < |s| ==> IsDigit(s[i])
  {
    if |s| == 0 then 0
    else
      assert IsDigit(s[|s| - 1]);
      10 * DigitsValue(s[..|s| - 1]) + (s[|s| - 1] as int - '0' as int)
  }

  const MaxInt64: int := 0x7FFF_FFFF_FFFF_FFFF
  const MinInt64: int := -0x8000_0000_0000_0000

  datatype Option<T> = None | Some(value: T)

  /** `strconv.ParseInt(s, 10, 64)`: an optional sign, then at least one digit,
      and the value must fit in 64 bits; anything else is a parse error (None). */
  function ParseInt64(s: string): (r: Option<int>)
    ensures r.Some? ==> MinInt64 <= r.value <= MaxInt64
  {
    var neg := |s| > 0 && s[0] == '-';
    var body := if |s| > 0 && (s[0] == '-' || s[0] == '+') then s[1..] else s;
    if |body| == 0 || !(forall i :: 0 <= i < |body| ==> IsDigit(body[i])) then None
    else
      var v: int := if neg then -(DigitsValue(body) as int) else DigitsValue(body);
      if MinInt64 <= v <= MaxInt64 then Some(v) else None
  }

  lemma {:induction false} DigitsOfNat(n: nat)
    ensures forall i :: 0 <= i < |NatToString(n)| ==> IsDigit(NatToString(n)[i])
    ensures DigitsValue(NatToString(n)) == n
    decreases n
  {
    if n >= 10 {
      DigitsOfNat(n / 10);
      var s := NatToString(n);
      assert s == NatToString(n / 10) + [DigitChar(n % 10)];
      assert s[..|s| - 1] == NatToString(n / 10);
      assert DigitsValue(s) == 10 * DigitsValue(NatToString(n / 10)) + n % 10;
    }
  }

  /** Formatting a 64-bit natural number and parsing it back gives the number. */
  lemma ParseFormattedNat(n: nat)
    requires n <= MaxInt64
    ensures ParseInt64(NatToString(n)) == Some(n)
  {
    DigitsOfNat(n);
    var s := NatToString(n);
    assert s[0] != '-' && s[0] != '+';
  }

  /** Strict lexicographic order on strings by code point (Go compares the UTF-8
      bytes, which orders the same way). */
  predicate Less(a: string, b: string)
    decreases |a|
  {
    if |a| == 0 then |b| > 0
    else if |b| == 0 then false
    else a[0] < b[0] || (a[0] == b[0] && Less(a[1..], b[1..]))
  }

  lemma {:induction false} LessIrreflexive(a: string)
    ensures !Less(a, a)
    decreases |a|
  {
    if |a| > 0 { LessIrreflexive(a[1..]); }
  }

  lemma {:induction false} LessAsymmetric(a: string, b: string)
    ensures Less(a, b) ==> !Less(b, a)
    decreases |a|
  {
    if |a| > 0 && |b| > 0 && a[0] == b[0] { LessAsymmetric(a[1..], b[1..]); }
  }

  lemma {:induction false} LessTotal(a: string, b: string)
    ensures a == b || Less(a, b) || Less(b, a)
    decreases |a|
  {
    if |a| > 0 && |b| > 0 && a[0] == b[0] {
      LessTotal(a[1..], b[1..]);
      if a[1..] == b[1..] { assert a == [a[0]] + a[1..] && b == [b[0]] + b[1..]; }
    }
  }

  lemma {:induction false} LessTransitive(a: string, b: string, c: string)
    requires Less(a, b) && Less(b, c)
    ensures Less(a, c)
    decreases |a|
  {
    if |a| > 0 && a[0] == b[0] && b[0] == c[0] { LessTransitive(a[1..], b[1..], c[1..]); }
  }

  predicate IsLeast(m: string, s: set<string>)
  {
    m in s && forall x :: x in s ==> x == m || Less(m, x)
  }

  lemma {:induction false} LeastExists(s: set<string>)
    requires s != {}
    ensures exists m :: IsLeast(m, s)
    decreases |s|
  {
    var x :| x in s;
    if s - {x} == {} {
      assert s == {x};
      LessIrreflexive(x);
      assert IsLeast(x, s);
    } else {
      LeastExists(s - {x});
      var m :| IsLeast(m, s - {x});
      LessTotal(m, x);
      if Less(m, x) {
        assert IsLeast(m, s);
      } else {
        forall y | y in s ensures y == x || Less(x, y) {
          if y != x && y != m { LessTransitive(x, m, y); }
        }
        assert IsLeast(x, s);
      }
    }
  }

  lemma LeastUnique(s: set<string>)
    ensures forall m, n :: IsLeast(m, s) && IsLeast(n, s) ==> m == n
  {
    forall m, n | IsLeast(m, s) && IsLeast(n, s) ensures m == n {
      LessAsymmetric(m, n);
    }
  }

  predicate StrictlySorted(r: seq<string>)
  {
    forall i, j :: 0 <= i < j < |r| ==> Less(r[i], r[j])
  }

  /** The strings of `s` in ascending order. Go iterates maps in an unspecified
      order; the model iterates map keys in this order wherever the source loops
      over a map. */
  function SortedKeys(s: set<string>): (r: seq<string>)
    ensures |r| == |s|
    ensures forall x :: x in s <==> x in r
    ensures StrictlySorted(r)
    decreases |s|
  {
    if s == {} then []
    else
      LeastExists(s);
      LeastUnique(s);
      var m :| IsLeast(m, s);
      var rest := SortedKeys(s - {m});
      assert forall x :: x in rest ==> Less(m, x);
      [m] + rest
  }

  /** Sorted keys hold no duplicates. */
  lemma SortedDistinct(r: seq<string>)
    requires StrictlySorted(r)
    ensures forall i, j :: 0 <= i < j < |r| ==> r[i] != r[j]
  {
    forall i, j | 0 <= i < j < |r| ensures r[i] != r[j] { LessIrreflexive(r[i]); }
  }

  // ------------------------------------------------------------------ bytes

  /** A byte of a Go string. Go strings are byte sequences holding UTF-8 text. */
  type Byte = b: int | 0 <= b < 256

  /** The UTF-8 encoding of one character: one byte below U+0080, otherwise a
      lead byte from 0xC0 on followed by continuation bytes 0x80 to 0xBF. */
  function Utf8Char(c: char): (r: seq<Byte>)
    ensures 1 <= |r| <= 4
    ensures (c as int < 0x80) <==> |r| == 1
    ensures c as int < 0x80 ==> r == [c as int]
    ensures c as int >= 0x80 ==> r[0] >= 0xC0 && 0x80 <= r[|r| - 1] < 0xC0
  {
    var n := c as int;
    if n < 0x80 then [n]
    else if n < 0x800 then [0xC0 + n / 64, 0x80 + n % 64]
    else if n < 0x10000 then [0xE0 + n / 4096, 0x80 + (n / 64) % 64, 0x80 + n % 64]
    else [0xF0 + n / 262144, 0x80 + (n / 4096) % 64, 0x80 + (n / 64) % 64, 0x80 + n % 64]
  }

  /** The first byte of a character's encoding is never a continuation byte
      (0x80 to 0xBF), and every later byte is one. */
  lemma Utf8CharBytes(c: char)
    ensures var r := Utf8Char(c); r[0] < 0x80 || r[0] >= 0xC0
    ensures var r := Utf8Char(c); forall i :: 1 <= i < |r| ==> 0x80 <= r[i] < 0xC0
  {
  }

  /** Two numbers with the same quotient and remainder by 64 are equal. */
  lemma SameDigits(n: int, m: int)
    requires n / 64 == m / 64 && n % 64 == m % 64
    ensures n == m
  {
    assert n == 64 * (n / 64) + n % 64;
    assert m == 64 * (m / 64) + m % 64;
  }

  /** Dividing by 64 twice is dividing by 4096. */
  lemma DivideTwice(n: nat)
    ensures n / 64 / 64 == n / 4096
  {
    var q := n / 4096;
    var r := n % 4096;
    assert n == 4096 * q + r && 0 <= r < 4096;
    assert n / 64 == 64 * q + r / 64;
    assert (64 * q + r / 64) / 64 == q;
  }

  /** Three-byte encodings: the lead byte and the two continuation bytes fix the number. */
  lemma SameThreeBytes(n: nat, m: nat)
    requires n / 4096 == m / 4096 && (n / 64) % 64 == (m / 64) % 64 && n % 64 == m % 64
    ensures n == m
  {
    DivideTwice(n);
    DivideTwice(m);
    SameDigits(n / 64, m / 64);
    SameDigits(n, m);
  }

  /** Four-byte encodings: the lead byte and the three continuation bytes fix the number. */
  lemma SameFourBytes(n: nat, m: nat)
    requires n / 262144 == m / 262144 && (n / 4096) % 64 == (m / 4096) % 64
    requires (n / 64) % 64 == (m / 64) % 64 && n % 64 == m % 64
    ensures n == m
  {
    DivideTwice(n / 64);
    DivideTwice(m / 64);
    DivideTwice(n);
    DivideTwice(m);
    assert n / 64 / 4096 == n / 262144 && m / 64 / 4096 == m / 262144;
    SameDigits(n / 4096, m / 4096);
    SameThreeBytes(n, m);
  }

  /** Different characters have different encodings. */
  lemma Utf8CharInjective(c: char, d: char)
    requires Utf8Char(c) == Utf8Char(d)
    ensures c == d
  {
    var n, m := c as int, d as int;
    var r := Utf8Char(c);
    if n < 0x80 {
    } else if n < 0x800 {
      assert m >= 0x80 && m < 0x800 by { assert |r| == 2; }
      SameDigits(n, m);
    } else if n < 0x10000 {
      assert m >= 0x800 && m < 0x10000 by { assert |r| == 3; }
      SameThreeBytes(n, m);
    } else {
      assert m >= 0x10000 by { assert |r| == 4; }
      SameFourBytes(n, m);
    }
  }

  /** The bytes Go holds for a string of characters. */
  function Utf8(s: string): (r: seq<Byte>)
    ensures |r| >= |s|
    decreases |s|
  {
    if |s| == 0 then [] else Utf8(s[..|s| - 1]) + Utf8Char(s[|s| - 1])
  }

  lemma {:induction false} Utf8Append(a: string, b: string)
    ensures Utf8(a + b) == Utf8(a) + Utf8(b)
    decreases |b|
  {
    if |b| == 0 {
      assert a + b == a;
    } else {
      assert (a + b)[..|a + b| - 1] == a + b[..|b| - 1];
      Utf8Append(a, b[..|b| - 1]);
    }
  }

  /** The first byte of a non-empty string is the first byte of its first character. */
  lemma Utf8First(s: string)
    requires |s| > 0
    ensures Utf8(s) == Utf8Char(s[0]) + Utf8(s[1..])
  {
    var head := [s[0]];
    assert s == head + s[1..];
    assert head[..0] == [];
    assert Utf8(head) == Utf8Char(s[0]);
    Utf8Append(head, s[1..]);
  }
}
