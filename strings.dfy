/**
 * String operations the server code (Python `str`) and the browser code
 * (JavaScript `String`) rely on: prefix and substring tests, replacing every
 * occurrence, trimming white space, lower-casing and joining.
 */
module Strings {

  /** Python `s.startswith(prefix)`. */
  predicate StartsWith(s: string, prefix: string)
  {
    |prefix| <= |s| && s[..|prefix|] == prefix
  }

  /** JavaScript `s.includes(sub)`: `sub` occurs at some position of `s`. */
  predicate Contains(s: string, sub: string)
    decreases |s|
  {
    StartsWith(s, sub) || (s != [] && Contains(s[1..], sub))
  }

  /** The empty string occurs in every string. */
  lemma ContainsEmpty(s: string)
    ensures Contains(s, [])
  {
  }

  /** `sub` occurs in `s` starting at index `i`. */
  predicate OccursAt(s: string, sub: string, i: int)
  {
    0 <= i <= |s| - |sub| && s[i..i + |sub|] == sub
  }

  /** `Contains` means what its name says: an occurrence at some index. */
  lemma {:induction false} ContainsAt(s: string, sub: string)
    ensures Contains(s, sub) <==> exists i :: OccursAt(s, sub, i)
  {
    if StartsWith(s, sub) {
      assert OccursAt(s, sub, 0);
    } else if s != [] {
      ContainsAt(s[1..], sub);
      if Contains(s[1..], sub) {
        var j :| OccursAt(s[1..], sub, j);
        assert s[j + 1..j + 1 + |sub|] == s[1..][j..j + |sub|];
        assert OccursAt(s, sub, j + 1);
      }
      if i :| OccursAt(s, sub, i) {
        assert i != 0;
        assert s[1..][i - 1..i - 1 + |sub|] == s[i..i + |sub|];
        assert OccursAt(s[1..], sub, i - 1);
      }
    }
  }

  /**
   * Python `s.replace(pat, rep)` and JavaScript `s.replace(/pat/g, rep)`:
   * scanning from the left, every non-overlapping occurrence of `pat` is
   * replaced by `rep`.
   */
  function ReplaceAll(s: string, pat: string, rep: string): string
    requires pat != []
    decreases |s|
  {
    if s == [] then []
    else if StartsWith(s, pat) then rep + ReplaceAll(s[|pat|..], pat, rep)
    else [s[0]] + ReplaceAll(s[1..], pat, rep)
  }

  /** An occurrence at the front is replaced and scanning resumes after it. */
  lemma ReplaceAllFront(pat: string, s: string, rep: string)
    requires pat != []
    ensures ReplaceAll(pat + s, pat, rep) == rep + ReplaceAll(s, pat, rep)
  {
    assert (pat + s)[..|pat|] == pat;
    assert (pat + s)[|pat|..] == s;
  }

  /** A character that cannot start `pat` is copied and scanning moves on by one. */
  lemma ReplaceAllSkip(c: char, s: string, pat: string, rep: string)
    requires pat != [] && pat[0] != c
    ensures ReplaceAll([c] + s, pat, rep) == [c] + ReplaceAll(s, pat, rep)
  {
    assert ([c] + s)[1..] == s;
  }

  /**
   * When `pat`'s first character does not recur inside it, an occurrence of
   * `pat` cannot begin in a non-empty prefix free of `pat` and run on into a
   * following `pat`.
   */
  lemma NoOccurrenceAcross(a: string, t: string, pat: string)
    requires a != [] && pat != [] && pat[0] !in pat[1..]
    requires !Contains(a, pat)
    ensures !StartsWith(a + pat + t, pat)
  {
    var s := a + pat + t;
    if |pat| <= |a| {
      assert s[..|pat|] == a[..|pat|];
    } else {
      assert s[|a|] == pat[0];
      assert pat[1..][|a| - 1] == pat[|a|];
    }
  }

  /** So the prefix is copied and the next occurrence is replaced. */
  lemma {:induction false} ReplaceAllUpTo(a: string, t: string, pat: string, rep: string)
    requires pat != [] && pat[0] !in pat[1..]
    requires !Contains(a, pat)
    ensures ReplaceAll(a + pat + t, pat, rep) == a + rep + ReplaceAll(t, pat, rep)
  {
    if a == [] {
      assert a + pat + t == pat + t;
      ReplaceAllFront(pat, t, rep);
    } else {
      NoOccurrenceAcross(a, t, pat);
      assert (a + pat + t)[1..] == a[1..] + pat + t;
      ReplaceAllUpTo(a[1..], t, pat, rep);
    }
  }

  /**
   * Removing a pattern whose first character does not recur inside it
   * deletes both occurrences in `pat + a + pat + b` when `a` and `b` are free
   * of it.
   */
  lemma RemoveBothOccurrences(pat: string, a: string, b: string)
    requires pat != [] && pat[0] !in pat[1..]
    requires !Contains(a, pat) && !Contains(b, pat)
    ensures ReplaceAll(pat + (a + pat + b), pat, []) == a + b
  {
    ReplaceAllFront(pat, a + pat + b, []);
    ReplaceAllUpTo(a, b, pat, []);
    ReplaceAllNoOccurrence(b, pat, []);
  }

  /** A string without an occurrence of `pat` is left as it is. */
  lemma {:induction false} ReplaceAllNoOccurrence(s: string, pat: string, rep: string)
    requires pat != []
    requires !Contains(s, pat)
    ensures ReplaceAll(s, pat, rep) == s
  {
    if s != [] {
      ReplaceAllNoOccurrence(s[1..], pat, rep);
    }
  }

  /** A one-character pattern occurs exactly where that character does. */
  lemma {:induction false} ContainsChar(s: string, c: char)
    ensures Contains(s, [c]) <==> c in s
  {
    if s != [] {
      ContainsChar(s[1..], c);
      assert StartsWith(s, [c]) <==> s[0] == c by {
        assert s[..1] == [s[0]];
      }
      assert c in s <==> s[0] == c || c in s[1..] by {
        assert s == [s[0]] + s[1..];
      }
    }
  }

  /** Replacing a single character by another one removes it entirely and keeps the length. */
  lemma {:induction false} ReplaceCharRemoves(s: string, c: char, d: char)
    requires c != d
    ensures |ReplaceAll(s, [c], [d])| == |s|
    ensures c !in ReplaceAll(s, [c], [d])
  {
    if s != [] {
      ReplaceCharRemoves(s[1..], c, d);
    }
  }

  /** The characters JavaScript `trim` removes (ASCII white space, line terminators, NBSP, BOM). */
  predicate IsSpace(c: char)
  {
    c == ' ' || c == '\t' || c == '\n' || c == '\r' || c == '\U{000B}' || c == '\U{000C}'
    || c == '\U{00A0}' || c == '\U{FEFF}' || c == '\U{2028}' || c == '\U{2029}'
  }

  /** The string without its leading white space. */
  function TrimStart(s: string): (r: string)
    ensures |r| <= |s| && r == s[|s| - |r|..]
    ensures forall k :: 0 <= k < |s| - |r| ==> IsSpace(s[k])
    ensures r == [] || !IsSpace(r[0])
    decreases |s|
  {
    if s != [] && IsSpace(s[0]) then TrimStart(s[1..]) else s
  }

  /** The string without its trailing white space. */
  function TrimEnd(s: string): (r: string)
    ensures |r| <= |s| && r == s[..|r|]
    ensures forall k :: |r| <= k < |s| ==> IsSpace(s[k])
    ensures r == [] || !IsSpace(r[|r| - 1])
    decreases |s|
  {
    if s != [] && IsSpace(s[|s| - 1]) then TrimEnd(s[..|s| - 1]) else s
  }

  /** JavaScript `s.trim()`. */
  function Trim(s: string): (r: string)
    ensures |r| <= |s|
    ensures r == [] || (!IsSpace(r[0]) && !IsSpace(r[|r| - 1]))
  {
    TrimEnd(TrimStart(s))
  }

  /** A string without white space at its ends is its own trim. */
  lemma TrimUnspaced(s: string)
    requires s == [] || (!IsSpace(s[0]) && !IsSpace(s[|s| - 1]))
    ensures Trim(s) == s
  {
  }

  /**
   * JavaScript `toLowerCase` on one character, for the ASCII and Latin-1
   * letters (A-Z and the accented capitals used in Spanish text).
   */
  function LowerChar(c: char): (d: char)
  {
    if 'A' <= c <= 'Z' || ('\U{00C0}' <= c <= '\U{00DE}' && c != '\U{00D7}')
    then (c as int + 32) as char
    else c
  }

  /** JavaScript `s.toLowerCase()`, character by character. */
  function Lower(s: string): (r: string)
    ensures |r| == |s|
    ensures forall i :: 0 <= i < |s| ==> r[i] == LowerChar(s[i])
  {
    seq(|s|, i requires 0 <= i < |s| => LowerChar(s[i]))
  }

  /** Lower-casing twice is lower-casing once. */
  lemma LowerIdempotent(s: string)
    ensures Lower(Lower(s)) == Lower(s)
  {
  }

  /** Lower-casing keeps every occurrence: a match stays a match ignoring case. */
  lemma {:induction false} ContainsLower(s: string, sub: string)
    requires Contains(s, sub)
    ensures Contains(Lower(s), Lower(sub))
  {
    ContainsAt(s, sub);
    var i :| OccursAt(s, sub, i);
    assert Lower(s)[i..i + |sub|] == Lower(sub);
    assert OccursAt(Lower(s), Lower(sub), i);
    ContainsAt(Lower(s), Lower(sub));
  }

  /** JavaScript `parts.join(sep)`. */
  function Join(parts: seq<string>, sep: string): string
    decreases |parts|
  {
    if |parts| == 0 then []
    else if |parts| == 1 then parts[0]
    else parts[0] + sep + Join(parts[1..], sep)
  }

  /** Number of occurrences of the character `c` in `s`. */
  function CountChar(s: string, c: char): nat
    decreases |s|
  {
    if s == [] then 0 else (if s[0] == c then 1 else 0) + CountChar(s[1..], c)
  }

  lemma {:induction false} CountCharConcat(a: string, b: string, c: char)
    ensures CountChar(a + b, c) == CountChar(a, c) + CountChar(b, c)
  {
    if a != [] {
      assert (a + b)[0] == a[0];
      assert (a + b)[1..] == a[1..] + b;
      CountCharConcat(a[1..], b, c);
    } else {
      assert a + b == b;
    }
  }

  lemma {:induction false} CountCharAbsent(s: string, c: char)
    requires c !in s
    ensures CountChar(s, c) == 0
  {
    if s != [] {
      CountCharAbsent(s[1..], c);
    }
  }

  /**
   * Joining n >= 1 parts that do not contain `c` with the one-character
   * separator `c` yields exactly n - 1 occurrences of `c`.
   */
  lemma {:induction false} JoinSeparatorCount(parts: seq<string>, c: char)
    requires |parts| >= 1
    requires forall i :: 0 <= i < |parts| ==> c !in parts[i]
    ensures CountChar(Join(parts, [c]), c) == |parts| - 1
  {
    CountCharAbsent(parts[0], c);
    if |parts| > 1 {
      JoinSeparatorCount(parts[1..], c);
      CountCharConcat(parts[0], [c], c);
      CountCharConcat(parts[0] + [c], Join(parts[1..], [c]), c);
    }
  }
}
