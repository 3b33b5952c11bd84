/** The Kotlin string operations the plugin relies on, over `string == seq<char>`:
    prefix tests, `removePrefix`, `contains`, `isBlank`/`trim` (with Kotlin's
    `Char.isWhitespace`), `lines()` (CR, LF and CRLF separators) and `Int.toString`
    for non-negative numbers. */
module Text {

  /** Kotlin `s.startsWith(prefix)`. */
  predicate StartsWith(s: string, prefix: string) {
    |prefix| <= |s| && s[..|prefix|] == prefix
  }

  /** Kotlin `s.endsWith(suffix)`. */
  predicate EndsWith(s: string, suffix: string) {
    |suffix| <= |s| && s[|s| - |suffix|..] == suffix
  }

  /** Kotlin `s.contains(sub)`: `sub` occurs somewhere in `s`. */
  predicate Contains(s: string, sub: string)
    decreases |s|
  {
    StartsWith(s, sub) || (|s| > 0 && Contains(s[1..], sub))
  }

  /** `sub` occurs in `s` at offset `j`. */
  predicate OccursAt(s: string, sub: string, j: nat) {
    j + |sub| <= |s| && s[j..j + |sub|] == sub
  }

  /** `Contains` holds exactly when `sub` occurs at some offset. */
  lemma ContainsIffOccurs(s: string, sub: string)
    ensures Contains(s, sub) <==> exists j: nat :: OccursAt(s, sub, j)
  {
    if Contains(s, sub) {
      ContainsOccurs(s, sub);
    } else if exists j: nat :: OccursAt(s, sub, j) {
      var j: nat :| OccursAt(s, sub, j);
      OccursContains(s, sub, j);
    }
  }

  /** An occurrence at offset `k` makes `Contains` hold. */
  lemma {:induction false} OccursContains(s: string, sub: string, k: nat)
    requires OccursAt(s, sub, k)
    ensures Contains(s, sub)
    decreases k
  {
    if k == 0 {
      assert StartsWith(s, sub);
    } else {
      var t := s[1..];
      forall m | 0 <= m < |sub|
        ensures t[k - 1 + m] == sub[m]
      {
        assert t[k - 1 + m] == s[k + m] == s[k..k + |sub|][m];
      }
      assert OccursAt(t, sub, k - 1);
      OccursContains(t, sub, k - 1);
    }
  }

  /** `Contains` only holds where an occurrence exists. */
  lemma {:induction false} ContainsOccurs(s: string, sub: string)
    requires Contains(s, sub)
    ensures exists j: nat :: OccursAt(s, sub, j)
    decreases |s|
  {
    if StartsWith(s, sub) {
      assert OccursAt(s, sub, 0);
    } else {
      var t := s[1..];
      ContainsOccurs(t, sub);
      var j: nat :| OccursAt(t, sub, j);
      assert s[j + 1..j + 1 + |sub|] == t[j..j + |sub|];
      assert OccursAt(s, sub, j + 1);
    }
  }

  /** A string shorter than `sub` does not contain it. */
  lemma {:induction false} NoRoomNoContains(s: string, sub: string)
    requires |s| < |sub|
    ensures !Contains(s, sub)
    decreases |s|
  {
    if |s| > 0 {
      NoRoomNoContains(s[1..], sub);
    }
  }

  /** Kotlin `s.removePrefix(prefix)`: the rest of `s` when it starts with `prefix`,
      otherwise `s` itself. */
  function RemovePrefix(s: string, prefix: string): (r: string)
    ensures StartsWith(s, prefix) ==> prefix + r == s
    ensures !StartsWith(s, prefix) ==> r == s
  {
    if StartsWith(s, prefix) then s[|prefix|..] else s
  }

  /** Kotlin `Char.isWhitespace()` on the JVM: Java's `Character.isWhitespace` or
      `Character.isSpaceChar`, i.e. the ASCII controls TAB..CR and FS..US, and the
      Unicode space, line and paragraph separators (Zs, Zl, Zp). */
  predicate IsWhitespace(c: char) {
    || ('\t' <= c <= '\r')
    || ('\U{1C}' <= c <= '\U{1F}')
    || c == ' '
    || c == '\U{A0}'
    || c == '\U{1680}'
    || ('\U{2000}' <= c <= '\U{200A}')
    || c == '\U{2028}'
    || c == '\U{2029}'
    || c == '\U{202F}'
    || c == '\U{205F}'
    || c == '\U{3000}'
  }

  /** Kotlin `s.isBlank()`: every character is whitespace (so `""` is blank). */
  predicate IsBlank(s: string) {
    forall i :: 0 <= i < |s| ==> IsWhitespace(s[i])
  }

  /** Number of leading whitespace characters of `s`. */
  function LeadingWhitespace(s: string): (n: nat)
    ensures n <= |s|
    ensures forall i :: 0 <= i < n ==> IsWhitespace(s[i])
    ensures n < |s| ==> !IsWhitespace(s[n])
  {
    if |s| > 0 && IsWhitespace(s[0]) then 1 + LeadingWhitespace(s[1..]) else 0
  }

  /** Number of trailing whitespace characters of `s`. */
  function TrailingWhitespace(s: string): (n: nat)
    ensures n <= |s|
    ensures forall i :: |s| - n <= i < |s| ==> IsWhitespace(s[i])
    ensures n < |s| ==> !IsWhitespace(s[|s| - n - 1])
  {
    if |s| > 0 && IsWhitespace(s[|s| - 1]) then 1 + TrailingWhitespace(s[..|s| - 1]) else 0
  }

  /** Kotlin `s.trim()`: `s` without its leading and trailing whitespace. */
  function Trim(s: string): (r: string)
    ensures LeadingWhitespace(s) + |r| <= |s|
    ensures r == s[LeadingWhitespace(s)..LeadingWhitespace(s) + |r|]
    ensures IsBlank(s[..LeadingWhitespace(s)]) && IsBlank(s[LeadingWhitespace(s) + |r|..])
    ensures |r| > 0 ==> !IsWhitespace(r[0]) && !IsWhitespace(r[|r| - 1])
  {
    var lead := LeadingWhitespace(s);
    var rest := s[lead..];
    var trail := TrailingWhitespace(rest);
    if lead < |s| then
      assert trail < |rest|;
      rest[..|rest| - trail]
    else
      ""
  }

  /** A string is blank exactly when trimming it leaves nothing; a non-blank input
      therefore trims to a non-blank string. */
  lemma TrimBlank(s: string)
    ensures IsBlank(s) <==> Trim(s) == ""
    ensures !IsBlank(s) ==> !IsBlank(Trim(s))
  {
    var lead := LeadingWhitespace(s);
    if !IsBlank(s) {
      var i :| 0 <= i < |s| && !IsWhitespace(s[i]);
      assert lead <= i;
      assert Trim(s) != "";
      assert !IsWhitespace(Trim(s)[0]);
    }
  }

  /** Trimming is idempotent. */
  lemma TrimIdempotent(s: string)
    ensures Trim(Trim(s)) == Trim(s)
  {
    var t := Trim(s);
    if |t| > 0 {
      assert LeadingWhitespace(t) == 0;
      assert t[0..] == t;
      assert TrailingWhitespace(t) == 0;
    }
  }

  /** Kotlin `s.lines()`: `s` split at every CRLF, LF or CR (CRLF counting once).
      There is always at least one line, and no line holds a separator. */
  function SplitLines(s: string): (lines: seq<string>)
    ensures |lines| >= 1
    ensures forall i :: 0 <= i < |lines| ==> '\n' !in lines[i] && '\r' !in lines[i]
  {
    if |s| == 0 then
      [""]
    else if s[0] == '\r' && |s| > 1 && s[1] == '\n' then
      [""] + SplitLines(s[2..])
    else if s[0] == '\r' || s[0] == '\n' then
      [""] + SplitLines(s[1..])
    else
      var rest := SplitLines(s[1..]);
      [[s[0]] + rest[0]] + rest[1..]
  }

  /** Number of line separators in `s`, a CRLF pair counting as one. */
  function SeparatorCount(s: string): nat {
    if |s| == 0 then 0
    else if s[0] == '\r' && |s| > 1 && s[1] == '\n' then 1 + SeparatorCount(s[2..])
    else if s[0] == '\r' || s[0] == '\n' then 1 + SeparatorCount(s[1..])
    else SeparatorCount(s[1..])
  }

  /** Kotlin `s.lines().size`. */
  function LineCount(s: string): nat {
    |SplitLines(s)|
  }

  /** `lines().size` is one more than the number of separators, so it is at least 1
      even for the empty string. */
  lemma {:induction false} LineCountIsSeparatorsPlusOne(s: string)
    ensures LineCount(s) == SeparatorCount(s) + 1
    ensures LineCount(s) >= 1
  {
    if |s| == 0 {
    } else if s[0] == '\r' && |s| > 1 && s[1] == '\n' {
      LineCountIsSeparatorsPlusOne(s[2..]);
    } else if s[0] == '\r' || s[0] == '\n' {
      LineCountIsSeparatorsPlusOne(s[1..]);
    } else {
      LineCountIsSeparatorsPlusOne(s[1..]);
    }
  }

  /** Joins lines with LF between them (Kotlin `joinToString("\n")`). */
  function JoinLines(lines: seq<string>): string {
    if |lines| == 0 then ""
    else if |lines| == 1 then lines[0]
    else lines[0] + "\n" + JoinLines(lines[1..])
  }

  /** For text without CR, splitting into lines and joining them with LF gives the
      text back: `lines()` loses nothing but the separators. */
  lemma {:induction false} SplitJoinRoundTrip(s: string)
    requires '\r' !in s
    ensures JoinLines(SplitLines(s)) == s
  {
    if |s| == 0 {
    } else if s[0] == '\n' {
      assert '\r' !in s[1..];
      SplitJoinRoundTrip(s[1..]);
      assert s == "\n" + s[1..];
    } else {
      assert '\r' !in s[1..];
      SplitJoinRoundTrip(s[1..]);
      var rest := SplitLines(s[1..]);
      var lines := SplitLines(s);
      assert lines == [[s[0]] + rest[0]] + rest[1..];
      if |rest| == 1 {
        assert JoinLines(lines) == [s[0]] + rest[0];
      } else {
        assert lines[1..] == rest[1..];
        assert JoinLines(lines) == [s[0]] + rest[0] + "\n" + JoinLines(rest[1..]);
        assert JoinLines(rest) == rest[0] + "\n" + JoinLines(rest[1..]);
      }
      assert s == [s[0]] + s[1..];
    }
  }

  /** Number of LF characters in `s`. */
  function NewlineCount(s: string): nat {
    if |s| == 0 then 0 else (if s[|s| - 1] == '\n' then 1 else 0) + NewlineCount(s[..|s| - 1])
  }

  /** A prefix holds no more LFs than the whole text. */
  lemma {:induction false} NewlineCountPrefix(s: string, k: nat)
    requires k <= |s|
    ensures NewlineCount(s[..k]) <= NewlineCount(s)
    decreases |s|
  {
    if k < |s| {
      assert s[..|s| - 1][..k] == s[..k];
      NewlineCountPrefix(s[..|s| - 1], k);
    } else {
      assert s[..k] == s;
    }
  }

  /** In text without CR every LF separates two lines. */
  lemma {:induction false} NewlinesAreSeparators(s: string)
    requires '\r' !in s
    ensures SeparatorCount(s) == NewlineCount(s)
    decreases |s|
  {
    if |s| > 0 {
      assert '\r' !in s[1..];
      NewlinesAreSeparators(s[1..]);
      NewlineCountFront(s);
    }
  }

  /** `NewlineCount` read from the front. */
  lemma {:induction false} NewlineCountFront(s: string)
    requires |s| > 0
    ensures NewlineCount(s) == (if s[0] == '\n' then 1 else 0) + NewlineCount(s[1..])
    decreases |s|
  {
    if |s| > 1 {
      assert s[1..][..|s[1..]| - 1] == s[..|s| - 1][1..];
      NewlineCountFront(s[..|s| - 1]);
    } else {
      assert s[..|s| - 1] == [];
    }
  }

  /** Decimal digit for `d < 10`. */
  function Digit(d: nat): char
    requires d < 10
  {
    ('0' as int + d) as char
  }

  /** Kotlin `n.toString()` for a non-negative number: decimal, no leading zeros. */
  function NatToString(n: nat): string {
    if n < 10 then [Digit(n)] else NatToString(n / 10) + [Digit(n % 10)]
  }

  /** The decimal form is a non-empty string of digits without a leading zero. */
  lemma {:induction false} NatToStringDigits(n: nat)
    ensures |NatToString(n)| >= 1
    ensures forall i :: 0 <= i < |NatToString(n)| ==> '0' <= NatToString(n)[i] <= '9'
    ensures |NatToString(n)| > 1 ==> NatToString(n)[0] != '0'
  {
    if n >= 10 {
      NatToStringDigits(n / 10);
    }
  }

  /** Reads a string of decimal digits back as a number. */
  function ParseDigits(s: string): int {
    if |s| == 0 then 0 else 10 * ParseDigits(s[..|s| - 1]) + (s[|s| - 1] as int - '0' as int)
  }

  /** The number written in a header can be read back exactly. */
  lemma {:induction false} NatToStringRoundTrip(n: nat)
    ensures ParseDigits(NatToString(n)) == n
  {
    NatToStringDigits(n);
    if n >= 10 {
      NatToStringDigits(n / 10);
      var p := NatToString(n / 10);
      var s := NatToString(n);
      assert s == p + [Digit(n % 10)];
      assert s[..|s| - 1] == p;
      NatToStringRoundTrip(n / 10);
      assert ParseDigits(s) == 10 * ParseDigits(p) + n % 10;
    }
  }
}
