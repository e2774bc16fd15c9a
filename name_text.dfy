/**
 * The name of an account as posts and lists show it
 * (src/components/name-text.jsx): the display name in bold, followed by the
 * `@username` unless the display name already says it, the username alone
 * when there is no display name or the short form is asked for, and the full
 * `@acct` on its own line when requested.
 */
module Names {
  import opened Optional
  import opened Text

  /** `\w`, `+` and `-`: the characters of an emoji shortcode between its colons. */
  predicate ShortcodeChar(c: char) {
    'a' <= c <= 'z' || 'A' <= c <= 'Z' || '0' <= c <= '9' || c == '_' || c == '+' || c == '-'
  }

  /** No ASCII capital. */
  predicate NoCapital(s: string) {
    forall i :: 0 <= i < |s| ==> !('A' <= s[i] <= 'Z')
  }

  /** The number of shortcode characters `s` starts with. */
  function ShortcodeRun(s: string): (n: nat)
    ensures n <= |s| && forall i :: 0 <= i < n ==> ShortcodeChar(s[i])
    ensures n < |s| ==> !ShortcodeChar(s[n])
  {
    if s != [] && ShortcodeChar(s[0]) then 1 + ShortcodeRun(s[1..]) else 0
  }

  /** The length of the `:shortcode:` token `s` starts with, 0 when there is none. */
  function ShortcodeAt(s: string): (n: nat)
    ensures n == 0 || (3 <= n <= |s| && s[0] == ':' && s[n - 1] == ':')
  {
    if s != [] && s[0] == ':' then
      var run := ShortcodeRun(s[1..]);
      if run > 0 && 1 + run < |s| && s[1 + run] == ':' then run + 2 else 0
    else 0
  }

  /**
   * `replace(/(\:(\w|\+|\-)+\:)(?=|[\!\.\?]|$)/g, '')`: scanning from the
   * left, every `:shortcode:` token is cut out. (The look-ahead has an empty
   * alternative, so it accepts any position.)
   */
  function RemoveShortcodes(s: string): (r: string)
    ensures |r| <= |s|
    ensures NoCapital(s) ==> NoCapital(r)
    decreases |s|
  {
    if s == [] then []
    else
      var n := ShortcodeAt(s);
      if n > 0 then RemoveShortcodes(s[n..]) else [s[0]] + RemoveShortcodes(s[1..])
  }

  /** Text without a colon holds no shortcode and is kept whole. */
  lemma {:induction false} RemoveShortcodesPlain(s: string)
    requires ':' !in s
    ensures RemoveShortcodes(s) == s
    decreases |s|
  {
    if s != [] {
      assert ShortcodeAt(s) == 0;
      RemoveShortcodesPlain(s[1..]);
      assert s == [s[0]] + s[1..];
    }
  }

  /** A token at the front is cut out and scanning resumes right after it. */
  lemma ShortcodeTokenRemoved(code: string, rest: string)
    requires code != [] && forall i :: 0 <= i < |code| ==> ShortcodeChar(code[i])
    ensures RemoveShortcodes(":" + code + ":" + rest) == RemoveShortcodes(rest)
  {
    var s := ":" + code + ":" + rest;
    assert s[1..] == code + (":" + rest);
    RunOf(code, ":" + rest);
    assert s[1 + |code|] == ':';
    assert ShortcodeAt(s) == |code| + 2;
    assert s[|code| + 2..] == rest;
  }

  lemma {:induction false} RunOf(code: string, rest: string)
    requires forall i :: 0 <= i < |code| ==> ShortcodeChar(code[i])
    requires rest != [] && !ShortcodeChar(rest[0])
    ensures ShortcodeRun(code + rest) == |code|
    decreases |code|
  {
    if code != [] {
      assert (code + rest)[1..] == code[1..] + rest;
      RunOf(code[1..], rest);
    }
  }

  /** `replace(/\s+/g, '')` */
  function RemoveWhitespace(s: string): (r: string)
    ensures NoCapital(s) ==> NoCapital(r)
    decreases |s|
  {
    if s == [] then []
    else (if IsSpace(s[0]) then [] else [s[0]]) + RemoveWhitespace(s[1..])
  }

  /** No white space is left, and text without white space is kept whole. */
  lemma {:induction false} RemoveWhitespaceSpec(s: string)
    ensures Free(RemoveWhitespace(s), Whitespace)
    ensures Free(s, Whitespace) ==> RemoveWhitespace(s) == s
    decreases |s|
  {
    if s != [] {
      RemoveWhitespaceSpec(s[1..]);
      assert s == [s[0]] + s[1..];
    }
  }

  predicate AsciiAlnum(c: char) {
    'a' <= c <= 'z' || 'A' <= c <= 'Z' || '0' <= c <= '9'
  }

  /** `replace(/[^a-z0-9]/gi, '')` */
  function KeepAlnum(s: string): (r: string)
    ensures forall i :: 0 <= i < |r| ==> AsciiAlnum(r[i])
    ensures NoCapital(s) ==> NoCapital(r)
    ensures (forall i :: 0 <= i < |s| ==> AsciiAlnum(s[i])) ==> r == s
    decreases |s|
  {
    if s == [] then []
    else
      assert s == [s[0]] + s[1..];
      (if AsciiAlnum(s[0]) then [s[0]] else []) + KeepAlnum(s[1..])
  }

  /** `toLowerCase().trim()` */
  function Normalize(s: string): string {
    Trim(Lower(s))
  }

  /** A normalised string holds no ASCII capital. */
  lemma NormalizedHasNoCapital(s: string)
    ensures NoCapital(Normalize(s))
  {
    assert NoCapital(Lower(s));
    TrimKeepsNoCapital(Lower(s));
  }

  lemma TrimKeepsNoCapital(x: string)
    requires NoCapital(x)
    ensures NoCapital(Trim(x))
  {
    var a := TrimOffset(x);
    forall i | 0 <= i < |Trim(x)| ensures !('A' <= Trim(x)[i] <= 'Z') {
      assert Trim(x)[i] == x[a + i];
    }
  }

  /** Only lower-case ASCII letters and digits. */
  predicate LowerAlnum(s: string) {
    forall i :: 0 <= i < |s| ==> 'a' <= s[i] <= 'z' || '0' <= s[i] <= '9'
  }

  /** `shortenedDisplayName`: the normalised display name without shortcodes, white space or symbols. */
  function ShortenedDisplayName(displayName: string): (r: string)
    ensures LowerAlnum(r)
  {
    var n := Normalize(displayName);
    NormalizedHasNoCapital(displayName);
    KeepAlnum(RemoveWhitespace(RemoveShortcodes(n)))
  }

  lemma LowerAlnumHasNoSpace(d: string)
    requires LowerAlnum(d)
    ensures Free(d, Whitespace)
  {
    forall i | 0 <= i < |d| ensures d[i] !in Whitespace {
      GraphicNotSpace(d[i]);
    }
  }

  /** Every step of the shortening keeps a lower-case alphanumeric string as it is. */
  lemma LowerAlnumKept(d: string)
    requires LowerAlnum(d)
    ensures Normalize(d) == d && RemoveShortcodes(d) == d && RemoveWhitespace(d) == d && KeepAlnum(d) == d
  {
    LowerAlnumNormal(d);
    LowerAlnumHasNoColon(d);
    LowerAlnumHasNoSpace(d);
    RemoveWhitespaceSpec(d);
    assert forall i :: 0 <= i < |d| ==> AsciiAlnum(d[i]);
  }

  lemma LowerAlnumNormal(d: string)
    requires LowerAlnum(d)
    ensures Normalize(d) == d
  {
    assert Lower(d) == d;
    if d != [] {
      GraphicNotSpace(d[0]);
      GraphicNotSpace(d[|d| - 1]);
    }
  }

  lemma LowerAlnumHasNoColon(d: string)
    requires LowerAlnum(d)
    ensures RemoveShortcodes(d) == d
  {
    assert ':' !in d;
    RemoveShortcodesPlain(d);
  }

  /** Shortening a shortened name changes nothing. */
  lemma ShortenedIsFixed(displayName: string)
    ensures var d := ShortenedDisplayName(displayName); ShortenedDisplayName(d) == d
  {
    LowerAlnumKept(ShortenedDisplayName(displayName));
  }

  /** The fields of an account the name uses; a missing display name is "". */
  datatype Account = Account(username: string, acct: string, displayName: string)

  /**
   * The username is hidden, outside the short form, when it matches the
   * display name once both are lower-cased and trimmed, or matches the
   * shortened display name.
   */
  predicate HideUsername(a: Account, short: bool) {
    var u := Normalize(a.username);
    !short && (u == Normalize(a.displayName) || u == ShortenedDisplayName(a.displayName))
  }

  /** A piece of the rendered name: bold text, italic text, or a line break. */
  datatype Part = Bold(text: string) | Italic(text: string) | LineBreak

  /** What `@{username}` renders: a hidden (null) username renders as nothing. */
  function Handle(a: Account, short: bool): string {
    "@" + (if HideUsername(a, short) then "" else a.username)
  }

  /** The rendered name (the avatar and the emoji images are left out). */
  function Render(a: Account, showAcct: bool, short: bool): seq<Part> {
    var name :=
      if a.displayName != "" && !short then
        [Bold(a.displayName)]
        + (if !showAcct && !HideUsername(a, short) && a.username != "" then [Italic("@" + a.username)] else [])
      else if short then [Italic(Handle(a, short))]
      else [Bold(Handle(a, short))];
    name + (if showAcct then [LineBreak, Italic("@" + a.acct)] else [])
  }

  /** In the short form the username is never hidden and leads as `@username`. */
  lemma ShortShowsUsername(a: Account, showAcct: bool)
    ensures !HideUsername(a, true)
    ensures Render(a, showAcct, true)[0] == Italic("@" + a.username)
  {
  }

  /**
   * With a display name and not short, the name comes first in bold and the
   * `@username` follows exactly when the full handle is off and the username
   * is neither hidden nor empty.
   */
  lemma DisplayNameFirst(a: Account, showAcct: bool)
    requires a.displayName != ""
    ensures var r := Render(a, showAcct, false);
      && r[0] == Bold(a.displayName)
      && (|r| >= 2 && r[1] == Italic("@" + a.username) <==> !showAcct && !HideUsername(a, false) && a.username != "")
  {
  }

  /**
   * A display name that is a plain username followed by a space and an emoji
   * shortcode (`alice :blobcat:`) hides the username.
   */
  lemma ShortcodeSuffixHides(u: string, code: string, acct: string)
    requires u != [] && LowerAlnum(u)
    requires code != [] && forall i :: 0 <= i < |code| ==> ShortcodeChar(code[i])
    ensures HideUsername(Account(u, acct, u + " :" + code + ":"), false)
  {
    ShortenedSuffixed(u, code);
    LowerAlnumNormal(u);
  }

  /** Shortening `username :code:` gives the username back. */
  lemma ShortenedSuffixed(u: string, code: string)
    requires u != [] && LowerAlnum(u)
    requires code != [] && forall i :: 0 <= i < |code| ==> ShortcodeChar(code[i])
    ensures ShortenedDisplayName(u + " :" + code + ":") == u
  {
    var d := u + " :" + code + ":";
    var ld := u + " " + (":" + Lower(code) + ":" + "");
    assert Normalize(d) == ld by {
      NormalizeSuffixed(u, code);
    }
    assert RemoveShortcodes(ld) == u + " " by {
      LowerShortcode(code);
      TokenAfterNameRemoved(u, Lower(code));
    }
    assert RemoveWhitespace(u + " ") == u by {
      TrailingSpaceRemoved(u);
    }
    assert KeepAlnum(u) == u by {
      LowerAlnumKept(u);
    }
  }

  /** `name :code:` loses its token and keeps the name and the space. */
  lemma TokenAfterNameRemoved(u: string, lc: string)
    requires LowerAlnum(u)
    requires lc != [] && forall i :: 0 <= i < |lc| ==> ShortcodeChar(lc[i])
    ensures RemoveShortcodes(u + " " + (":" + lc + ":" + "")) == u + " "
  {
    assert ':' !in u + " " by {
      forall i | 0 <= i < |u| + 1 ensures (u + " ")[i] != ':' {
      }
    }
    RemoveShortcodesPrefix(u + " ", ":" + lc + ":" + "");
    ShortcodeTokenRemoved(lc, "");
  }

  /** The space after a lower-case alphanumeric name is dropped. */
  lemma TrailingSpaceRemoved(u: string)
    requires LowerAlnum(u)
    ensures RemoveWhitespace(u + " ") == u
  {
    RemoveWhitespaceAppend(u, " ");
    LowerAlnumHasNoSpace(u);
    RemoveWhitespaceSpec(u);
    assert RemoveWhitespace(" ") == "";
  }

  /** Lower-casing keeps a shortcode a shortcode. */
  lemma LowerShortcode(code: string)
    requires forall i :: 0 <= i < |code| ==> ShortcodeChar(code[i])
    ensures |Lower(code)| == |code| && forall i :: 0 <= i < |code| ==> ShortcodeChar(Lower(code)[i])
  {
  }

  /** The normalised `username :code:` is the username, a space and the lower-cased token. */
  lemma NormalizeSuffixed(u: string, code: string)
    requires u != [] && LowerAlnum(u)
    ensures Normalize(u + " :" + code + ":") == u + " " + (":" + Lower(code) + ":" + "")
  {
    var d := u + " :" + code + ":";
    var ld := u + " " + (":" + Lower(code) + ":" + "");
    assert Lower(d) == ld by {
      forall i | 0 <= i < |d| ensures Lower(d)[i] == ld[i] {
        if i < |u| {
          assert d[i] == u[i] && ld[i] == u[i];
        } else if i < |u| + 2 {
          assert d[i] == ld[i];
        } else if i < |u| + 2 + |code| {
          assert d[i] == code[i - |u| - 2] && ld[i] == Lower(code)[i - |u| - 2];
        } else {
          assert d[i] == ':' && ld[i] == ':';
        }
      }
    }
    GraphicNotSpace(ld[0]);
    GraphicNotSpace(ld[|ld| - 1]);
  }

  /** Text before the first colon is kept as it is. */
  lemma {:induction false} RemoveShortcodesPrefix(p: string, t: string)
    requires ':' !in p
    ensures RemoveShortcodes(p + t) == p + RemoveShortcodes(t)
    decreases |p|
  {
    if p == [] {
      assert p + t == t;
    } else {
      HeadTail(p, t);
      HeadTail(p, RemoveShortcodes(t));
      assert p[0] != ':' && ':' !in p[1..] by {
        HeadTail(p, []);
      }
      RemoveShortcodesCons(p[0], p[1..] + t);
      RemoveShortcodesPrefix(p[1..], t);
    }
  }

  lemma HeadTail<T>(p: seq<T>, t: seq<T>)
    requires p != []
    ensures p + t == [p[0]] + (p[1..] + t)
  {
  }

  /** A character other than a colon is kept and scanning goes on after it. */
  lemma RemoveShortcodesCons(c: char, t: string)
    requires c != ':'
    ensures RemoveShortcodes([c] + t) == [c] + RemoveShortcodes(t)
  {
    assert ([c] + t)[1..] == t;
  }

  /**
   * `replace(/\s+/g, '')` is a filter: it distributes over concatenation and
   * keeps a single character exactly when it is not white space, so every
   * other character of the text survives, in order.
   */
  lemma {:induction false} RemoveWhitespaceAppend(a: string, b: string)
    ensures RemoveWhitespace(a + b) == RemoveWhitespace(a) + RemoveWhitespace(b)
    ensures |a| == 1 ==> RemoveWhitespace(a) == if IsSpace(a[0]) then [] else a
    decreases |a|
  {
    if a == [] {
      assert a + b == b;
    } else if |a| == 1 {
      assert (a + b)[1..] == b && a[1..] == [];
    } else {
      HeadTail(a, b);
      RemoveWhitespaceAppend(a[1..], b);
    }
  }

  /**
   * `replace(/[^a-z0-9]/gi, '')` is a filter: it distributes over
   * concatenation and keeps a single character exactly when it is an ASCII
   * letter or digit, so every letter and digit survives, in order.
   */
  lemma {:induction false} KeepAlnumAppend(a: string, b: string)
    ensures KeepAlnum(a + b) == KeepAlnum(a) + KeepAlnum(b)
    ensures |a| == 1 ==> KeepAlnum(a) == if AsciiAlnum(a[0]) then a else []
    decreases |a|
  {
    if a == [] {
      assert a + b == b;
    } else if |a| == 1 {
      assert (a + b)[1..] == b && a[1..] == [];
    } else {
      HeadTail(a, b);
      KeepAlnumAppend(a[1..], b);
    }
  }
}
