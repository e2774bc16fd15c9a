/**
 * The JavaScript string primitives the client relies on, over `string`
 * (a sequence of characters): white space and `trim`, ASCII lower-casing,
 * `join`, `split` on a run of separator characters, the default `sort`
 * order of strings, and the decimal rendering of a whole number.
 */
module Text {
  import opened Optional

  /** The characters JavaScript's `\s` class and `String.prototype.trim` treat as white space. */
  predicate IsSpace(c: char) {
    || '\t' <= c <= '\r' || c == ' ' || c == '\U{00A0}' || c == '\U{1680}'
    || '\U{2000}' <= c <= '\U{200A}'
    || c == '\U{2028}' || c == '\U{2029}' || c == '\U{202F}' || c == '\U{205F}'
    || c == '\U{3000}' || c == '\U{FEFF}'
  }

  /** The same characters as a set, for the separator arguments of `SplitRuns`. */
  const Whitespace: set<char> := set c: char | '\t' <= c <= '\U{FEFF}' && IsSpace(c)

  /** A printable ASCII character other than the space is not white space. */
  lemma GraphicNotSpace(c: char)
    requires '!' <= c <= '~'
    ensures !IsSpace(c)
  {
  }

  /** No character of `t` belongs to `chars`. */
  predicate Free(t: string, chars: set<char>) {
    forall i :: 0 <= i < |t| ==> t[i] !in chars
  }

  // ---------------------------------------------------------------------------
  // trim

  /** How many white-space characters `s` starts with. */
  function LeadingSpace(s: string): (n: nat)
    ensures n <= |s|
    ensures forall i :: 0 <= i < n ==> IsSpace(s[i])
    ensures n == |s| || !IsSpace(s[n])
  {
    if s != [] && IsSpace(s[0]) then 1 + LeadingSpace(s[1..]) else 0
  }

  /** How many white-space characters `s` ends with. */
  function TrailingSpace(s: string): (n: nat)
    ensures n <= |s|
    ensures forall i :: |s| - n <= i < |s| ==> IsSpace(s[i])
    ensures n == |s| || !IsSpace(s[|s| - n - 1])
  {
    if s != [] && IsSpace(s[|s| - 1]) then 1 + TrailingSpace(s[..|s| - 1]) else 0
  }

  /** JavaScript's `String.prototype.trim`: the leading white space goes,
    * then the trailing white space of what is left. */
  function Trim(s: string): (r: string)
    ensures |r| <= |s|
    ensures r == [] || (!IsSpace(r[0]) && !IsSpace(r[|r| - 1]))
    ensures s == [] || (!IsSpace(s[0]) && !IsSpace(s[|s| - 1])) ==> r == s
  {
    var a := LeadingSpace(s);
    var t := s[a..];
    t[..|t| - TrailingSpace(t)]
  }

  /** `trim` cuts out a slice: white space before it and after it, nothing else. */
  lemma TrimOffset(s: string) returns (a: nat)
    ensures a + |Trim(s)| <= |s| && Trim(s) == s[a..a + |Trim(s)|]
    ensures forall i :: 0 <= i < a ==> IsSpace(s[i])
    ensures forall i :: a + |Trim(s)| <= i < |s| ==> IsSpace(s[i])
  {
    a := LeadingSpace(s);
    var t := s[a..];
    var n := TrailingSpace(t);
    assert Trim(s) == t[..|t| - n];
    forall i | a + |t| - n <= i < |s| ensures IsSpace(s[i]) {
      assert s[i] == t[i - a];
    }
  }

  /** `trim` leaves nothing exactly when the text is all white space. */
  lemma TrimBlank(s: string)
    ensures Trim(s) == [] <==> forall i :: 0 <= i < |s| ==> IsSpace(s[i])
  {
    if exists i :: 0 <= i < |s| && !IsSpace(s[i]) {
      var i :| 0 <= i < |s| && !IsSpace(s[i]);
      TrimKeeps(s, i);
    } else {
      var a := TrimOffset(s);
    }
  }

  /** `trim` keeps every character that is not white space. */
  lemma TrimKeeps(s: string, i: nat)
    requires i < |s| && !IsSpace(s[i])
    ensures s[i] in Trim(s)
  {
    var a := TrimOffset(s);
    assert Trim(s)[i - a] == s[i];
  }

  // ---------------------------------------------------------------------------
  // toLowerCase

  /** Lower-cases an ASCII capital; every other character is kept. */
  function LowerChar(c: char): (d: char)
    ensures 'A' <= c <= 'Z' ==> 'a' <= d <= 'z'
    ensures !('A' <= c <= 'Z') ==> d == c
  {
    if 'A' <= c <= 'Z' then (c as int - 'A' as int + 'a' as int) as char else c
  }

  /** `String.prototype.toLowerCase`, restricted to ASCII capitals. */
  function Lower(s: string): (r: string)
    ensures |r| == |s|
    ensures forall i :: 0 <= i < |s| ==> r[i] == LowerChar(s[i])
  {
    seq(|s|, i requires 0 <= i < |s| => LowerChar(s[i]))
  }

  // ---------------------------------------------------------------------------
  // join and split

  /** `parts.join(sep)`. */
  function Join(parts: seq<string>, sep: char): string {
    if |parts| == 0 then ""
    else if |parts| == 1 then parts[0]
    else parts[0] + [sep] + Join(parts[1..], sep)
  }

  /** Length of the longest prefix of `s` holding no character of `seps`. */
  function SegmentLength(s: string, seps: set<char>): (n: nat)
    ensures n <= |s| && Free(s[..n], seps)
    ensures n < |s| ==> s[n] in seps
  {
    if s == [] || s[0] in seps then 0 else 1 + SegmentLength(s[1..], seps)
  }

  /** `s` without its leading run of characters of `seps`. */
  function DropRun(s: string, seps: set<char>): (r: string)
    ensures |r| <= |s| && r == s[|s| - |r|..]
    ensures r == [] || r[0] !in seps
  {
    if s != [] && s[0] in seps then DropRun(s[1..], seps) else s
  }

  /**
   * `s.split(/[seps]+/)`: the pieces between maximal runs of separator
   * characters. A separator at either end yields an empty first or last piece,
   * and the empty string splits into one empty piece.
   */
  function SplitRuns(s: string, seps: set<char>): (r: seq<string>)
    ensures |r| >= 1
    ensures forall k :: 0 <= k < |r| ==> Free(r[k], seps)
    decreases |s|
  {
    var n := SegmentLength(s, seps);
    if n == |s| then [s] else [s[..n]] + SplitRuns(DropRun(s[n..], seps), seps)
  }

  /** Splitting undoes joining when the pieces are non-empty and free of separators. */
  lemma {:induction false} SplitJoin(parts: seq<string>, sep: char, seps: set<char>)
    requires |parts| >= 1 && sep in seps
    requires forall k :: 0 <= k < |parts| ==> parts[k] != [] && Free(parts[k], seps)
    ensures SplitRuns(Join(parts, sep), seps) == parts
  {
    var s := Join(parts, sep);
    if |parts| == 1 {
      assert SegmentLength(s, seps) == |s|;
    } else {
      var p0, rest := parts[0], Join(parts[1..], sep);
      assert s == p0 + [sep] + rest;
      var n := SegmentLength(s, seps);
      assert s[|p0|] == sep;
      assert n == |p0|;
      assert s[..n] == p0;
      assert s[n..] == [sep] + rest;
      JoinStartsWithFirst(parts[1..], sep);
      assert rest[0] == parts[1][0] && rest[0] !in seps;
      assert ([sep] + rest)[1..] == rest;
      assert DropRun([sep] + rest, seps) == DropRun(rest, seps) == rest;
      SplitJoin(parts[1..], sep, seps);
    }
  }

  /** A join of non-empty pieces begins with the first piece's first character. */
  lemma {:induction false} JoinStartsWithFirst(parts: seq<string>, sep: char)
    requires |parts| >= 1 && parts[0] != []
    ensures |Join(parts, sep)| >= 1 && Join(parts, sep)[0] == parts[0][0]
  {
  }

  /** A join of non-empty pieces ends with the last piece's last character. */
  lemma {:induction false} JoinEndsWithLast(parts: seq<string>, sep: char)
    requires |parts| >= 1 && parts[|parts| - 1] != []
    ensures var j := Join(parts, sep); |j| >= 1 && j[|j| - 1] == parts[|parts| - 1][|parts[|parts| - 1]| - 1]
    decreases |parts|
  {
    if |parts| > 1 {
      JoinEndsWithLast(parts[1..], sep);
    }
  }

  // ---------------------------------------------------------------------------
  // the default sort order of strings

  /** JavaScript's default comparison of strings: lexicographic by character code. */
  predicate LexLe(a: string, b: string)
    decreases |a|
  {
    a == [] || (b != [] && (a[0] < b[0] || (a[0] == b[0] && LexLe(a[1..], b[1..]))))
  }

  lemma {:induction false} LexLeTotal(a: string, b: string)
    ensures LexLe(a, b) || LexLe(b, a)
    decreases |a|
  {
    if a != [] && b != [] && a[0] == b[0] {
      LexLeTotal(a[1..], b[1..]);
    }
  }

  lemma {:induction false} LexLeTransitive(a: string, b: string, c: string)
    requires LexLe(a, b) && LexLe(b, c)
    ensures LexLe(a, c)
    decreases |a|
  {
    if a != [] && a[0] == b[0] && b[0] == c[0] {
      LexLeTransitive(a[1..], b[1..], c[1..]);
    }
  }

  predicate SortedLex(s: seq<string>) {
    forall i, j :: 0 <= i < j < |s| ==> LexLe(s[i], s[j])
  }

  /** Inserts `x` before the first element it does not exceed. */
  function Insert(x: string, s: seq<string>): (r: seq<string>)
    ensures multiset(r) == multiset(s) + multiset{x}
  {
    if s == [] || LexLe(x, s[0]) then [x] + s
    else
      assert s == [s[0]] + s[1..];
      [s[0]] + Insert(x, s[1..])
  }

  lemma {:induction false} InsertSorted(x: string, s: seq<string>)
    requires SortedLex(s)
    ensures SortedLex(Insert(x, s))
  {
    if s == [] {
    } else if LexLe(x, s[0]) {
      forall j | 0 < j < |s| ensures LexLe(x, s[j]) {
        LexLeTransitive(x, s[0], s[j]);
      }
    } else {
      LexLeTotal(x, s[0]);
      InsertSorted(x, s[1..]);
      var t := Insert(x, s[1..]);
      forall j | 0 <= j < |t| ensures LexLe(s[0], t[j]) {
        assert t[j] in multiset(t);
        assert t[j] == x || t[j] in multiset(s[1..]);
        if t[j] != x {
          var k :| 1 <= k < |s| && s[k] == t[j];
        }
      }
    }
  }

  /** `Array.prototype.sort()` on strings (default comparison). */
  function SortStrings(s: seq<string>): (r: seq<string>)
    ensures multiset(r) == multiset(s)
  {
    if s == [] then []
    else
      assert s == [s[0]] + s[1..];
      Insert(s[0], SortStrings(s[1..]))
  }

  lemma {:induction false} SortStringsSorted(s: seq<string>)
    ensures SortedLex(SortStrings(s))
  {
    if s != [] {
      SortStringsSorted(s[1..]);
      InsertSorted(s[0], SortStrings(s[1..]));
    }
  }

  /** Sorting a sorted list changes nothing. */
  lemma {:induction false} SortStringsOfSorted(s: seq<string>)
    requires SortedLex(s)
    ensures SortStrings(s) == s
  {
    if s != [] {
      assert SortedLex(s[1..]) by {
        forall i, j | 0 <= i < j < |s| - 1 ensures LexLe(s[1..][i], s[1..][j]) {
          assert s[1..][i] == s[i + 1] && s[1..][j] == s[j + 1];
        }
      }
      SortStringsOfSorted(s[1..]);
      if |s| > 1 {
        assert LexLe(s[0], s[1]);
      }
    }
  }

  lemma {:induction false} LexLeAntisymmetric(a: string, b: string)
    requires LexLe(a, b) && LexLe(b, a)
    ensures a == b
    decreases |a|
  {
    if a != [] {
      LexLeAntisymmetric(a[1..], b[1..]);
      assert a == [a[0]] + a[1..] && b == [b[0]] + b[1..];
    }
  }

  /** The first element of a sorted list is at most every element of it. */
  lemma SortedHeadLeast(s: seq<string>, x: string)
    requires SortedLex(s) && x in s
    ensures LexLe(s[0], x)
  {
    var k :| 0 <= k < |s| && s[k] == x;
    if k == 0 {
      LexLeTotal(x, x);
    }
  }

  lemma SortedTail(s: seq<string>)
    requires SortedLex(s) && s != []
    ensures SortedLex(s[1..])
  {
    forall i, j | 0 <= i < j < |s| - 1 ensures LexLe(s[1..][i], s[1..][j]) {
      assert s[1..][i] == s[i + 1] && s[1..][j] == s[j + 1];
    }
  }

  /** Two sorted lists holding the same strings start alike. */
  lemma SortedSameHead(p: seq<string>, q: seq<string>)
    requires SortedLex(p) && SortedLex(q) && multiset(p) == multiset(q) && p != []
    ensures q != [] && p[0] == q[0]
    ensures multiset(p[1..]) == multiset(q[1..])
  {
    assert q != [] && p[0] == q[0] by {
      assert p[0] in multiset(q);
      assert q[0] in multiset(p);
      SortedHeadLeast(q, p[0]);
      SortedHeadLeast(p, q[0]);
      LexLeAntisymmetric(p[0], q[0]);
    }
    MultisetTail(p);
    MultisetTail(q);
  }

  /** The multiset of a nonempty list's tail is the list's without its head. */
  lemma MultisetTail<T>(s: seq<T>)
    requires s != []
    ensures multiset(s[1..]) == multiset(s) - multiset{s[0]}
  {
    assert s == [s[0]] + s[1..];
  }

  /** Two sorted lists holding the same strings are the same list. */
  lemma {:induction false} SortedUnique(p: seq<string>, q: seq<string>)
    requires SortedLex(p) && SortedLex(q) && multiset(p) == multiset(q)
    ensures p == q
    decreases |p|
  {
    if p != [] {
      SortedSameHead(p, q);
      SortedTail(p);
      SortedTail(q);
      SortedUnique(p[1..], q[1..]);
      assert p == [p[0]] + p[1..] && q == [q[0]] + q[1..];
    } else {
      assert |q| == |multiset(q)| == 0;
    }
  }

  /** Sorting forgets the original order: lists with the same strings sort alike. */
  lemma SortStringsOrderFree(p: seq<string>, q: seq<string>)
    requires multiset(p) == multiset(q)
    ensures SortStrings(p) == SortStrings(q)
  {
    SortStringsSorted(p);
    SortStringsSorted(q);
    SortedUnique(SortStrings(p), SortStrings(q));
  }

  // ---------------------------------------------------------------------------
  // decimal numerals

  predicate IsDigit(c: char) {
    '0' <= c <= '9'
  }

  predicate AllDigits(s: string) {
    forall i :: 0 <= i < |s| ==> IsDigit(s[i])
  }

  function DigitChar(d: nat): (c: char)
    requires d < 10
    ensures IsDigit(c)
  {
    ('0' as int + d) as char
  }

  /** `n.toString()` for a whole number: decimal digits without leading zeros. */
  function DecimalString(n: nat): (r: string)
    ensures |r| >= 1 && AllDigits(r)
    ensures r[0] == '0' ==> n == 0
    decreases n
  {
    if n < 10 then [DigitChar(n)] else DecimalString(n / 10) + [DigitChar(n % 10)]
  }

  /** The number a string of decimal digits denotes. */
  function DigitsValue(s: string): nat
    requires AllDigits(s)
  {
    if s == [] then 0 else DigitsValue(s[..|s| - 1]) * 10 + (s[|s| - 1] as int - '0' as int)
  }

  /** Reads a decimal numeral back; `None` for the empty string or any non-digit. */
  function ParseDecimal(s: string): Option<nat> {
    if s != [] && AllDigits(s) then Some(DigitsValue(s)) else None
  }

  lemma {:induction false} DecimalStringValue(n: nat)
    ensures DigitsValue(DecimalString(n)) == n
    decreases n
  {
    if n >= 10 {
      var d := DecimalString(n / 10);
      assert (d + [DigitChar(n % 10)])[..|d|] == d;
      DecimalStringValue(n / 10);
    }
  }

  /** A leading zero does not change the value of a numeral. */
  lemma {:induction false} LeadingZeroValue(s: string)
    requires AllDigits(s)
    ensures DigitsValue("0" + s) == DigitsValue(s)
    decreases |s|
  {
    if s != [] {
      var t := "0" + s;
      assert t[..|t| - 1] == "0" + s[..|s| - 1];
      LeadingZeroValue(s[..|s| - 1]);
    }
  }

  /** `n.toString().padStart(2, '0')`. */
  function Pad2(n: nat): (r: string)
    ensures |r| >= 2 && AllDigits(r)
    ensures ParseDecimal(r) == Some(n)
    ensures n < 100 ==> |r| == 2
  {
    var d := DecimalString(n);
    DecimalStringValue(n);
    if |d| < 2 then
      LeadingZeroValue(d);
      "0" + d
    else
      assert n < 100 ==> |d| <= 2 by {
        if n < 100 && n >= 10 { assert DecimalString(n / 10) == [DigitChar(n / 10)]; }
      }
      d
  }
}
