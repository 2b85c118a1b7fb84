/** The `java.lang.String` operations the services rely on, with Java's
    semantics: `trim`, `contains`, `startsWith`, `split` (which drops trailing
    empty strings), `equalsIgnoreCase`, `toUpperCase`, `matches("\\d+")` and
    the decimal rendering of a `long` in a string concatenation. Case
    conversion covers the ASCII letters only. */
module Text {
  import opened Wrappers

  // ---------------------------------------------------------------------------
  // Case

  /** `Character.toUpperCase` on the ASCII range. */
  function UpperChar(c: char): char {
    if 'a' <= c <= 'z' then (c as int - 32) as char else c
  }

  /** `String.toUpperCase`, letter by letter. */
  function ToUpper(s: string): (r: string)
    ensures |r| == |s|
    ensures forall i :: 0 <= i < |s| ==> r[i] == UpperChar(s[i])
  {
    seq(|s|, i requires 0 <= i < |s| => UpperChar(s[i]))
  }

  /** `String.equalsIgnoreCase`: same length, and the same letters once upper-cased. */
  predicate EqualsIgnoreCase(a: string, b: string) {
    |a| == |b| && forall i :: 0 <= i < |a| ==> UpperChar(a[i]) == UpperChar(b[i])
  }

  /** Upper-casing leaves a string without lower-case ASCII letters alone. */
  lemma ToUpperOfUpper(s: string)
    requires forall i :: 0 <= i < |s| ==> !('a' <= s[i] <= 'z')
    ensures ToUpper(s) == s
  {
  }

  /** Comparing ignoring case is comparing the upper-cased strings, so the two
      spellings the services mix (`equalsIgnoreCase` and `toUpperCase().equals`)
      agree. */
  lemma EqualsIgnoreCaseIsUpperEquality(a: string, b: string)
    ensures EqualsIgnoreCase(a, b) <==> ToUpper(a) == ToUpper(b)
  {
    if ToUpper(a) == ToUpper(b) {
      assert |a| == |b|;
      forall i | 0 <= i < |a| ensures UpperChar(a[i]) == UpperChar(b[i]) {
        assert ToUpper(a)[i] == ToUpper(b)[i];
      }
    }
  }

  /** Ignoring case is symmetric, which the geocoder's two comparison
      directions (`city.equalsIgnoreCase(state)` against
      `state.equalsIgnoreCase(primary)`) rely on. */
  lemma EqualsIgnoreCaseSymmetric(a: string, b: string)
    ensures EqualsIgnoreCase(a, b) <==> EqualsIgnoreCase(b, a)
  {
  }

  /** How string concatenation and `String.format`'s `%s` render a possibly
      null string. */
  function Rendered(s: Option<string>): string {
    if s.Some? then s.value else "null"
  }

  // ---------------------------------------------------------------------------
  // Whitespace

  /** `String.trim` removes every character at or below U+0020. */
  predicate IsTrimmable(c: char) {
    c <= ' '
  }

  function TrimStart(s: string): (r: string)
    ensures |r| <= |s| && r == s[|s| - |r|..]
    ensures forall i :: 0 <= i < |s| - |r| ==> IsTrimmable(s[i])
    ensures r == [] || !IsTrimmable(r[0])
  {
    if s != [] && IsTrimmable(s[0]) then TrimStart(s[1..]) else s
  }

  function TrimEnd(s: string): (r: string)
    ensures |r| <= |s| && r == s[..|r|]
    ensures forall i :: |r| <= i < |s| ==> IsTrimmable(s[i])
    ensures r == [] || !IsTrimmable(r[|r| - 1])
  {
    if s != [] && IsTrimmable(s[|s| - 1]) then TrimEnd(s[..|s| - 1]) else s
  }

  /** `String.trim`: the result is empty exactly when every character is
      trimmable, it neither starts nor ends with a trimmable character, and it
      leaves an already trimmed string alone. */
  function Trim(s: string): (r: string)
    ensures |r| <= |s|
    ensures r == [] <==> forall i :: 0 <= i < |s| ==> IsTrimmable(s[i])
    ensures r != [] ==> !IsTrimmable(r[0]) && !IsTrimmable(r[|r| - 1])
    ensures (s == [] || (!IsTrimmable(s[0]) && !IsTrimmable(s[|s| - 1]))) ==> r == s
  {
    var t := TrimStart(s);
    var r := TrimEnd(t);
    assert r != [] ==> r[0] == t[0];
    assert t != [] && !IsTrimmable(t[0]) ==> r != [];
    r
  }

  /** `s.trim().isEmpty()`. */
  predicate IsBlank(s: string) {
    Trim(s) == []
  }

  /** `Character.isWhitespace` on a UTF-16 unit: the controls U+0009..U+000D
      and U+001C..U+001F, and the space, line and paragraph separators except
      the three non-breaking spaces U+00A0, U+2007 and U+202F. */
  predicate IsJavaWhitespace(c: char) {
    || ('\t' <= c <= '\r') || ('\U{1C}' <= c <= '\U{1F}') || c == ' '
    || c == '\U{1680}' || ('\U{2000}' <= c <= '\U{2006}') || ('\U{2008}' <= c <= '\U{200A}')
    || c == '\U{2028}' || c == '\U{2029}' || c == '\U{205F}' || c == '\U{3000}'
  }

  /** Spring's `StringUtils.hasText`: some character is not whitespace. */
  predicate HasText(s: string) {
    exists i :: 0 <= i < |s| && !IsJavaWhitespace(s[i])
  }

  // ---------------------------------------------------------------------------
  // Searching

  /** `sub` occurs in `s` starting at index `j`. */
  predicate MatchAt(s: string, sub: string, j: nat) {
    j + |sub| <= |s| && s[j..j + |sub|] == sub
  }

  /** `String.indexOf(sub, from)`: the first occurrence at or after `from`. */
  function FindFrom(s: string, sub: string, from: nat): (r: Option<nat>)
    decreases |s| - from
    ensures r.Some? ==> from <= r.value && r.value + |sub| <= |s|
    ensures r.Some? ==> MatchAt(s, sub, r.value)
    ensures r.Some? ==> forall j: nat :: from <= j < r.value ==> !MatchAt(s, sub, j)
    ensures r.None? ==> forall j: nat :: from <= j ==> !MatchAt(s, sub, j)
  {
    if from + |sub| > |s| then None
    else if s[from..from + |sub|] == sub then Some(from)
    else FindFrom(s, sub, from + 1)
  }

  /** The first match is the one `FindFrom` reports. */
  lemma FindFirstMatch(s: string, sub: string, k: nat)
    requires MatchAt(s, sub, k)
    requires forall j: nat :: j < k ==> !MatchAt(s, sub, j)
    ensures FindFrom(s, sub, 0) == Some(k)
  {
  }

  /** Text appended after a match does not move the first match. */
  lemma FindFromExtend(s: string, u: string, sub: string, k: nat)
    requires FindFrom(s, sub, 0) == Some(k)
    ensures FindFrom(s + u, sub, 0) == Some(k)
  {
    var w := s + u;
    assert w[k..k + |sub|] == s[k..k + |sub|];
    forall j: nat | j < k ensures !MatchAt(w, sub, j) {
      assert !MatchAt(s, sub, j);
      assert w[j..j + |sub|] == s[j..j + |sub|];
    }
    FindFirstMatch(w, sub, k);
  }

  /** A string without the character `c`, followed by `c`: the first `c` is
      the appended one. */
  lemma FindCharAfter(s: string, c: char, u: string)
    requires FindFrom(s, [c], 0).None?
    ensures FindFrom(s + [c] + u, [c], 0) == Some(|s|)
  {
    var w := s + [c] + u;
    assert w[|s|..|s| + 1] == [c];
    forall j: nat | j < |s| ensures !MatchAt(w, [c], j) {
      assert !MatchAt(s, [c], j);
      assert w[j..j + 1] == s[j..j + 1];
    }
    FindFirstMatch(w, [c], |s|);
  }

  /** A string without the character `c` has no match of `[c]`. */
  lemma NoCharNoMatch(t: string, c: char)
    requires c !in t
    ensures FindFrom(t, [c], 0).None?
  {
    forall j: nat | j + 1 <= |t| ensures !MatchAt(t, [c], j) {
      assert t[j..j + 1] == [t[j]];
      assert t[j] in t;
    }
  }

  /** `String.contains`. */
  predicate Contains(s: string, sub: string) {
    FindFrom(s, sub, 0).Some?
  }

  lemma ContainsIffMatch(s: string, sub: string)
    ensures Contains(s, sub) <==> exists j: nat :: MatchAt(s, sub, j)
  {
  }

  /** A string that has `sub` at its end contains it. */
  lemma ContainsSuffix(s: string, sub: string)
    ensures Contains(s + sub, sub)
  {
    assert (s + sub)[|s|..|s| + |sub|] == sub;
    assert MatchAt(s + sub, sub, |s|);
  }

  /** `String.startsWith`. */
  predicate StartsWith(s: string, prefix: string) {
    |prefix| <= |s| && s[..|prefix|] == prefix
  }

  // ---------------------------------------------------------------------------
  // Splitting

  /** Cutting `s` at every occurrence of `sep`, left to right, keeping empty
      pieces: the raw list `String.split` starts from. */
  function SplitOn(s: string, sep: string): (r: seq<string>)
    requires |sep| > 0
    decreases |s|
    ensures |r| >= 1
  {
    match FindFrom(s, sep, 0)
    case None => [s]
    case Some(k) => [s[..k]] + SplitOn(s[k + |sep|..], sep)
  }

  /** The cut at a first separator found at `k`. */
  lemma SplitOnStep(s: string, sep: string, k: nat)
    requires |sep| > 0 && FindFrom(s, sep, 0) == Some(k)
    ensures SplitOn(s, sep) == [s[..k]] + SplitOn(s[k + |sep|..], sep)
  {
    match FindFrom(s, sep, 0)
    case Some(j) =>
      assert j == k;
  }

  /** Text appended after the first separator only changes the cut after it. */
  lemma SplitOnExtend(s: string, u: string, sep: string, k: nat)
    requires |sep| > 0 && FindFrom(s, sep, 0) == Some(k)
    ensures k + |sep| <= |s|
    ensures SplitOn(s + u, sep) == [s[..k]] + SplitOn(s[k + |sep|..] + u, sep)
  {
    SplitOnStep(s, sep, k);
    FindFromExtend(s, u, sep, k);
    var w := s + u;
    SplitOnStep(w, sep, k);
    assert w[k + |sep|..] == s[k + |sep|..] + u;
    assert w[..k] == s[..k];
  }

  /** A string without the separator is cut into itself alone. */
  lemma SplitOnNoMatch(s: string, sep: string)
    requires |sep| > 0 && FindFrom(s, sep, 0).None?
    ensures SplitOn(s, sep) == [s]
  {
  }

  /** The inverse of cutting: the pieces glued back with the separator. */
  function Join(pieces: seq<string>, sep: string): string
    decreases |pieces|
  {
    if pieces == [] then ""
    else if |pieces| == 1 then pieces[0]
    else pieces[0] + sep + Join(pieces[1..], sep)
  }

  /** Gluing the pieces back together gives the string that was cut. */
  lemma {:induction false} JoinSplitOn(s: string, sep: string)
    requires |sep| > 0
    ensures Join(SplitOn(s, sep), sep) == s
    decreases |s|
  {
    var ps := SplitOn(s, sep);
    var f := FindFrom(s, sep, 0);
    if f.Some? {
      var k := f.value;
      var rest := s[k + |sep|..];
      var tail := SplitOn(rest, sep);
      JoinSplitOn(rest, sep);
      SplitOnStep(s, sep, k);
      assert ps == [s[..k]] + tail;
      assert ps[1..] == tail;
      assert Join(ps, sep) == s[..k] + sep + Join(tail, sep);
      assert s[k..k + |sep|] == sep;
      assert s == s[..k] + s[k..k + |sep|] + rest;
    }
  }

  /** Cutting at a one-character separator gives one piece more than there
      are separator characters. */
  lemma {:induction false} SplitOnCharCount(s: string, c: char)
    ensures |SplitOn(s, [c])| == multiset(s)[c] + 1
    decreases |s|
  {
    match FindFrom(s, [c], 0)
    case None =>
      forall j | 0 <= j < |s| ensures s[j] != c {
        assert !MatchAt(s, [c], j);
        assert s[j..j + 1] == [s[j]];
      }
      assert c !in multiset(s);
      SplitOnNoMatch(s, [c]);
    case Some(k) =>
      var rest := s[k + 1..];
      SplitOnCharCount(rest, c);
      SplitOnStep(s, [c], k);
      forall j | 0 <= j < k ensures s[j] != c {
        assert !MatchAt(s, [c], j);
        assert s[j..j + 1] == [s[j]];
      }
      assert s[k..k + 1] == [c];
      assert s == s[..k] + [c] + rest;
      assert c !in multiset(s[..k]);
      assert multiset(s) == multiset(s[..k]) + multiset{c} + multiset(rest);
  }

  /** No piece of a cut string contains the separator. */
  lemma {:induction false} SplitOnPiecesAvoidSeparator(s: string, sep: string)
    requires |sep| > 0
    ensures forall p :: p in SplitOn(s, sep) ==> !Contains(p, sep)
    decreases |s|
  {
    match FindFrom(s, sep, 0)
    case None =>
      SplitOnNoMatch(s, sep);
    case Some(k) =>
      var rest := s[k + |sep|..];
      SplitOnPiecesAvoidSeparator(rest, sep);
      SplitOnStep(s, sep, k);
      var head := s[..k];
      forall j: nat | MatchAt(head, sep, j) ensures false {
        assert head[j..j + |sep|] == s[j..j + |sep|];
        assert MatchAt(s, sep, j);
      }
      assert SplitOn(s, sep) == [head] + SplitOn(rest, sep);
  }

  /** Java's `split` with no limit: without any match the whole string is the
      only element; otherwise the pieces, with trailing empty pieces removed. */
  function JavaSplit(s: string, sep: string): (r: seq<string>)
    requires |sep| > 0
  {
    if FindFrom(s, sep, 0).None? then [s] else DropTrailingEmpty(SplitOn(s, sep))
  }

  function DropTrailingEmpty(pieces: seq<string>): (r: seq<string>)
    ensures |r| <= |pieces| && r == pieces[..|r|]
    ensures r == [] || r[|r| - 1] != []
    ensures forall i :: |r| <= i < |pieces| ==> pieces[i] == []
  {
    if pieces != [] && pieces[|pieces| - 1] == [] then DropTrailingEmpty(pieces[..|pieces| - 1]) else pieces
  }

  /** When the last piece is not empty, Java's `split` is the plain cut. */
  lemma JavaSplitIsSplitOn(s: string, sep: string)
    requires |sep| > 0
    requires SplitOn(s, sep)[|SplitOn(s, sep)| - 1] != []
    ensures JavaSplit(s, sep) == SplitOn(s, sep)
  {
    if FindFrom(s, sep, 0).None? {
      SplitOnNoMatch(s, sep);
    }
  }

  // ---------------------------------------------------------------------------
  // The ", " separator

  /** In `p + ", " + t` the first ", " is the one after `p` whenever `p` has
      none: a trailing comma of `p` is followed by another comma, not a space. */
  lemma FirstCommaSpaceAfter(p: string, t: string)
    requires !Contains(p, ", ")
    ensures FindFrom(p + ", " + t, ", ", 0) == Some(|p|)
  {
    var s := p + ", " + t;
    assert MatchAt(s, ", ", |p|) by {
      assert s[|p|..|p| + 2] == ", ";
    }
    forall j: nat | j < |p| ensures !MatchAt(s, ", ", j) {
      if j + 2 <= |p| {
        assert s[j..j + 2] == p[j..j + 2];
        assert !MatchAt(p, ", ", j);
      } else {
        assert s[j + 1] == ',';
      }
    }
  }

  /** Cutting at ", " undoes joining with ", " when no piece contains ", ". */
  lemma {:induction false} SplitOnJoinCommaSpace(pieces: seq<string>)
    requires |pieces| >= 1
    requires forall p :: p in pieces ==> !Contains(p, ", ")
    ensures SplitOn(Join(pieces, ", "), ", ") == pieces
    decreases |pieces|
  {
    var head := pieces[0];
    assert head in pieces;
    if |pieces| == 1 {
      assert Join(pieces, ", ") == head;
      assert FindFrom(head, ", ", 0).None?;
      SplitOnNoMatch(head, ", ");
      assert pieces == [head];
    } else {
      var rest := Join(pieces[1..], ", ");
      var s := head + ", " + rest;
      assert Join(pieces, ", ") == s;
      FirstCommaSpaceAfter(head, rest);
      SplitOnStep(s, ", ", |head|);
      assert s[|head| + 2..] == rest;
      assert s[..|head|] == head;
      assert forall p :: p in pieces[1..] ==> p in pieces;
      SplitOnJoinCommaSpace(pieces[1..]);
      assert pieces == [head] + pieces[1..];
    }
  }

  // ---------------------------------------------------------------------------
  // Digits

  predicate IsDigit(c: char) {
    '0' <= c <= '9'
  }

  /** `s.matches("\\d+")`: one or more ASCII digits and nothing else. */
  predicate AllDigits(s: string) {
    |s| > 0 && forall i :: 0 <= i < |s| ==> IsDigit(s[i])
  }

  function DigitChar(d: nat): (c: char)
    requires d < 10
    ensures IsDigit(c)
  {
    ('0' as int + d) as char
  }

  /** The decimal rendering of a non-negative `long` in a string
      concatenation: digits only, and no leading zero unless the number is 0. */
  function NatToString(n: nat): (r: string)
    ensures AllDigits(r)
    ensures r[0] == '0' ==> n == 0
  {
    if n < 10 then [DigitChar(n)] else NatToString(n / 10) + [DigitChar(n % 10)]
  }

  /** The number a string of digits denotes. */
  function DigitsValue(s: string): nat
    requires forall i :: 0 <= i < |s| ==> IsDigit(s[i])
  {
    if s == [] then 0
    else
      assert IsDigit(s[|s| - 1]);
      DigitsValue(s[..|s| - 1]) * 10 + (s[|s| - 1] as int - '0' as int)
  }

  /** Reading the decimal rendering back gives the number. */
  lemma {:induction false} DigitsValueOfNatToString(n: nat)
    ensures DigitsValue(NatToString(n)) == n
  {
    if n >= 10 {
      var r := NatToString(n);
      DigitsValueOfNatToString(n / 10);
      assert r[..|r| - 1] == NatToString(n / 10);
    }
  }

  /** Different numbers render differently. */
  lemma NatToStringInjective(m: nat, n: nat)
    requires NatToString(m) == NatToString(n)
    ensures m == n
  {
    DigitsValueOfNatToString(m);
    DigitsValueOfNatToString(n);
  }

  /** A run of digits ended by a non-digit marker can be read off
      unambiguously: `a + [c] + x == b + [c] + y` with `a` and `b` all digits and
      `c` not a digit forces `a == b` and `x == y`. */
  lemma DigitRunDelimited(a: string, b: string, c: char, x: string, y: string)
    requires AllDigits(a) && AllDigits(b) && !IsDigit(c)
    requires a + ([c] + x) == b + ([c] + y)
    ensures a == b && x == y
  {
    var s := a + ([c] + x);
    assert forall i :: 0 <= i < |a| ==> IsDigit(s[i]);
    assert s[|a|] == c;
    assert forall i :: 0 <= i < |b| ==> IsDigit((b + ([c] + y))[i]);
    assert (b + ([c] + y))[|b|] == c;
    assert |a| == |b|;
    assert a == s[..|a|] == b;
    assert x == s[|a| + 1..] == y;
  }
}
