/** Values shared by every part of the model: an optional value and the integer minimum and maximum. */
module Common {
  /** A value that may be absent: Python's None, JavaScript's null or undefined. */
  datatype Option<+T> = None | Some(value: T)

  /** Math.min and Math.max of two integers. */
  function Min(a: int, b: int): int { if a <= b then a else b }
  function Max(a: int, b: int): int { if a >= b then a else b }
}

/**
 * The string operations the application relies on, written once: the two
 * whitespace classes (Python's and JavaScript's), trimming, prefixes and
 * substrings, splitting on one character, joining, JavaScript's slice(0, n)
 * and the decimal rendering of a clock reading.
 */
module Text {

  /** Python's str.isspace(), also the class that `\s` matches in a `re` pattern over str. */
  predicate IsPySpace(c: char) {
    c in "\t\n\U{000B}\U{000C}\r\U{001C}\U{001D}\U{001E}\U{001F} \U{0085}\U{00A0}\U{1680}\U{2028}\U{2029}\U{202F}\U{205F}\U{3000}"
    || '\U{2000}' <= c <= '\U{200A}'
  }

  /** ECMAScript WhiteSpace and LineTerminator: what String.prototype.trim removes. */
  predicate IsJsSpace(c: char) {
    c in "\t\n\U{000B}\U{000C}\r \U{00A0}\U{1680}\U{2028}\U{2029}\U{202F}\U{205F}\U{3000}\U{FEFF}"
    || '\U{2000}' <= c <= '\U{200A}'
  }

  /** ECMAScript LineTerminator: the characters `.` does not match and `^`/`$` break lines at. */
  predicate IsLineTerminator(c: char) {
    c == '\n' || c == '\r' || c == '\U{2028}' || c == '\U{2029}'
  }

  /** Drops the leading characters that satisfy `isWs`. */
  function TrimStart(s: string, isWs: char -> bool): (r: string)
    ensures |r| <= |s|
  {
    if s != [] && isWs(s[0]) then TrimStart(s[1..], isWs) else s
  }

  /** TrimStart keeps a suffix that starts with a non-space, and everything it dropped was space. */
  lemma {:induction false} TrimStartShape(s: string, isWs: char -> bool)
    ensures var r := TrimStart(s, isWs);
      && r == s[|s| - |r|..]
      && (r == [] || !isWs(r[0]))
      && (forall i :: 0 <= i < |s| - |r| ==> isWs(s[i]))
    decreases |s|
  {
    if s != [] && isWs(s[0]) {
      TrimStartShape(s[1..], isWs);
      var r := TrimStart(s, isWs);
      assert s[1..][|s| - 1 - |r|..] == s[|s| - |r|..];
      assert forall i :: 1 <= i < |s| - |r| ==> s[i] == s[1..][i - 1];
    }
  }

  /** Drops the trailing characters that satisfy `isWs`. */
  function TrimEnd(s: string, isWs: char -> bool): (r: string)
    ensures |r| <= |s|
  {
    if s != [] && isWs(s[|s| - 1]) then TrimEnd(s[..|s| - 1], isWs) else s
  }

  /** TrimEnd keeps a prefix that ends with a non-space, and everything it dropped was space. */
  lemma {:induction false} TrimEndShape(s: string, isWs: char -> bool)
    ensures var r := TrimEnd(s, isWs);
      && r == s[..|r|]
      && (r == [] || !isWs(r[|r| - 1]))
      && (forall i :: |r| <= i < |s| ==> isWs(s[i]))
    decreases |s|
  {
    if s != [] && isWs(s[|s| - 1]) {
      TrimEndShape(s[..|s| - 1], isWs);
      var r := TrimEnd(s, isWs);
      assert s[..|s| - 1][..|r|] == s[..|r|];
      assert forall i :: |r| <= i < |s| - 1 ==> s[i] == s[..|s| - 1][i];
    }
  }

  function Trim(s: string, isWs: char -> bool): string {
    TrimEnd(TrimStart(s, isWs), isWs)
  }

  /** Python's str.strip() with no argument. */
  function PyStrip(s: string): string { Trim(s, IsPySpace) }

  /** JavaScript's String.prototype.trim(). */
  function JsTrim(s: string): string { Trim(s, IsJsSpace) }

  /** A trimmed string neither starts nor ends with whitespace. */
  lemma TrimEnds(s: string, isWs: char -> bool)
    ensures var r := Trim(s, isWs); r == [] || (!isWs(r[0]) && !isWs(r[|r| - 1]))
  {
    var t := TrimStart(s, isWs);
    var r := TrimEnd(t, isWs);
    TrimStartShape(s, isWs);
    TrimEndShape(t, isWs);
    if r != [] {
      assert r[0] == t[0];
    }
  }

  /** Trimming keeps a prefix that starts and ends with non-whitespace. */
  lemma TrimKeepsPrefix(s: string, p: string, isWs: char -> bool)
    requires StartsWith(s, p) && p != [] && !isWs(p[0]) && !isWs(p[|p| - 1])
    ensures StartsWith(Trim(s, isWs), p)
  {
    assert s[0] == p[0];
    var t := TrimStart(s, isWs);
    assert t == s;
    var r := TrimEnd(t, isWs);
    TrimEndShape(t, isWs);
    assert s[|p| - 1] == p[|p| - 1];
    assert |r| >= |p|;
    assert r[..|p|] == s[..|p|];
  }

  /** A whitespace character appended to a string is kept by TrimStart only when something else is. */
  lemma {:induction false} TrimStartSnoc(s: string, c: char, isWs: char -> bool)
    requires isWs(c)
    ensures TrimStart(s + [c], isWs) == (if TrimStart(s, isWs) == [] then [] else TrimStart(s, isWs) + [c])
    decreases |s|
  {
    if s == [] {
      assert TrimStart([c], isWs) == TrimStart([c][1..], isWs);
      assert [c][1..] == [];
    } else if isWs(s[0]) {
      assert (s + [c])[1..] == s[1..] + [c];
      TrimStartSnoc(s[1..], c, isWs);
    }
  }

  /** A trailing whitespace character does not change the trimmed string. */
  lemma TrimTrailingSpace(s: string, c: char, isWs: char -> bool)
    requires isWs(c)
    ensures Trim(s + [c], isWs) == Trim(s, isWs)
  {
    TrimStartSnoc(s, c, isWs);
    var t := TrimStart(s, isWs);
    if t != [] {
      assert (t + [c])[..|t|] == t;
    }
  }

  /** A string trims to "" exactly when every character in it is whitespace. */
  lemma TrimEmptyIff(s: string, isWs: char -> bool)
    ensures Trim(s, isWs) == [] <==> forall i :: 0 <= i < |s| ==> isWs(s[i])
  {
    var t := TrimStart(s, isWs);
    TrimStartShape(s, isWs);
    TrimEndShape(t, isWs);
    if t != [] {
      assert !isWs(t[0]) && t[0] == s[|s| - |t|];
      assert TrimEnd(t, isWs) != [] by {
        assert forall i :: |TrimEnd(t, isWs)| <= i < |t| ==> isWs(t[i]);
      }
    }
  }

  predicate StartsWith(s: string, prefix: string) {
    |prefix| <= |s| && s[..|prefix|] == prefix
  }

  /** `t` occurs somewhere in `s` (Python's `in`, JavaScript's includes). */
  predicate Contains(s: string, t: string) {
    exists i :: 0 <= i <= |s| - |t| && OccursAt(s, t, i)
  }

  /** `t` occurs in `s` starting at index `i`. */
  predicate OccursAt(s: string, t: string, i: int) {
    0 <= i <= |s| - |t| && s[i..i + |t|] == t
  }

  lemma ContainsMiddle(a: string, t: string, b: string)
    ensures Contains(a + t + b, t)
  {
    var s := a + t + b;
    assert OccursAt(s, t, |a|) by { assert s[|a|..|a| + |t|] == t; }
  }

  lemma ContainsSelf(t: string)
    ensures Contains(t, t)
  {
    assert OccursAt(t, t, 0) by { assert t[0..|t|] == t; }
  }

  /** A string that contains `t` still does when text is added in front. */
  lemma ContainsPrepend(a: string, s: string, t: string)
    requires Contains(s, t)
    ensures Contains(a + s, t)
  {
    var i :| 0 <= i <= |s| - |t| && OccursAt(s, t, i);
    assert OccursAt(a + s, t, |a| + i) by { assert (a + s)[|a| + i..|a| + i + |t|] == s[i..i + |t|]; }
  }

  /** A string that contains `t` still does when text is added behind. */
  lemma ContainsAppend(s: string, b: string, t: string)
    requires Contains(s, t)
    ensures Contains(s + b, t)
  {
    var i :| 0 <= i <= |s| - |t| && OccursAt(s, t, i);
    assert OccursAt(s + b, t, i) by { assert (s + b)[i..i + |t|] == s[i..i + |t|]; }
  }

  /** Concatenates `parts` with `sep` between neighbours (Array.prototype.join, str.join). */
  function Join(parts: seq<string>, sep: string): string {
    if |parts| == 0 then ""
    else if |parts| == 1 then parts[0]
    else parts[0] + sep + Join(parts[1..], sep)
  }

  /** Number of occurrences of `c` in `s`. */
  function Count(s: string, c: char): nat {
    if s == [] then 0 else (if s[0] == c then 1 else 0) + Count(s[1..], c)
  }

  /**
   * Splitting on one separator character, as Python's str.split(',') and
   * JavaScript's split(",") both do: the pieces between separators, empty ones included.
   */
  function Split(s: string, sep: char): (parts: seq<string>)
    ensures |parts| >= 1
  {
    if s == [] then [""]
    else
      var rest := Split(s[1..], sep);
      if s[0] == sep then [""] + rest else [[s[0]] + rest[0]] + rest[1..]
  }

  /** Splitting yields one piece more than there are separators. */
  lemma {:induction false} SplitCount(s: string, sep: char)
    ensures |Split(s, sep)| == Count(s, sep) + 1
  {
    if s != [] { SplitCount(s[1..], sep); }
  }

  /** Joining the pieces back with the separator gives the input. */
  lemma {:induction false} SplitJoin(s: string, sep: char)
    ensures Join(Split(s, sep), [sep]) == s
  {
    if s != [] {
      var rest := Split(s[1..], sep);
      SplitJoin(s[1..], sep);
      if s[0] != sep {
        var parts := Split(s, sep);
        assert parts[0] == [s[0]] + rest[0];
        if |rest| == 1 {
          assert Join(parts, [sep]) == [s[0]] + rest[0];
        } else {
          assert parts[1..] == rest[1..];
          assert Join(parts, [sep]) == [s[0]] + (rest[0] + [sep] + Join(rest[1..], [sep]));
        }
      }
    }
  }

  /** No piece contains the separator. */
  lemma {:induction false} SplitNoSeparator(s: string, sep: char)
    ensures forall k :: 0 <= k < |Split(s, sep)| ==> sep !in Split(s, sep)[k]
  {
    if s != [] {
      SplitNoSeparator(s[1..], sep);
    }
  }

  /** JavaScript's s.slice(0, n) for a non-negative n: at most the first n characters. */
  function Take(s: string, n: nat): (r: string)
    ensures |r| <= n && StartsWith(s, r)
    ensures |s| <= n ==> r == s
    ensures |s| >= n ==> |r| == n
  {
    if |s| <= n then s else s[..n]
  }

  /** ASCII lower-casing of one character. */
  function LowerChar(c: char): char {
    if 'A' <= c <= 'Z' then (c as int + 32) as char else c
  }

  /** ASCII upper-casing of one character. */
  function UpperChar(c: char): char {
    if 'a' <= c <= 'z' then (c as int - 32) as char else c
  }

  function Lower(s: string): (r: string)
    ensures |r| == |s| && forall i :: 0 <= i < |s| ==> r[i] == LowerChar(s[i])
  {
    if s == [] then [] else [LowerChar(s[0])] + Lower(s[1..])
  }

  function Upper(s: string): (r: string)
    ensures |r| == |s| && forall i :: 0 <= i < |s| ==> r[i] == UpperChar(s[i])
  {
    if s == [] then [] else [UpperChar(s[0])] + Upper(s[1..])
  }

  /** The decimal digit character for 0 to 9. */
  function Digit(d: nat): (c: char)
    requires d < 10
    ensures '0' <= c <= '9' && c as int - '0' as int == d
  {
    ('0' as int + d) as char
  }

  /** Number.prototype.toString() for a non-negative integer: its decimal digits. */
  function NatToString(n: nat): (r: string)
    ensures |r| >= 1
    ensures forall i :: 0 <= i < |r| ==> '0' <= r[i] <= '9'
  {
    if n < 10 then [Digit(n)] else NatToString(n / 10) + [Digit(n % 10)]
  }

  /** Different numbers print differently, so clock readings that differ give different ids. */
  lemma {:induction false} NatToStringInjective(m: nat, n: nat)
    requires m != n
    ensures NatToString(m) != NatToString(n)
  {
    var a, b := NatToString(m), NatToString(n);
    if m < 10 && n < 10 {
      assert a == [Digit(m)] && b == [Digit(n)];
      assert a[0] != b[0];
    } else if m < 10 {
      assert |a| == 1;
      assert b == NatToString(n / 10) + [Digit(n % 10)];
    } else if n < 10 {
      assert |b| == 1;
      assert a == NatToString(m / 10) + [Digit(m % 10)];
    } else {
      assert a == NatToString(m / 10) + [Digit(m % 10)];
      assert b == NatToString(n / 10) + [Digit(n % 10)];
      if m % 10 != n % 10 {
        assert a[|a| - 1] != b[|b| - 1];
      } else {
        NatToStringInjective(m / 10, n / 10);
        assert a[..|a| - 1] == NatToString(m / 10);
        assert b[..|b| - 1] == NatToString(n / 10);
      }
    }
  }
}
