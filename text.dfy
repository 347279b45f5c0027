/**
 * The handful of Python string operations the pipeline relies on, with
 * Python's semantics: `sub in s`, `s[:n] == p`, `s.split(' ')[0]` and `[1]`,
 * `s.replace(pat, rep)` and `s.lower()` (on ASCII letters).
 */
module Text {
  import opened Wrappers

  /** `s[:|p|] == p`, also false when `s` is shorter than `p`. */
  predicate StartsWith(s: string, p: string)
  {
    |p| <= |s| && s[..|p|] == p
  }

  /** `sub` occurs in `s` at position `i`. */
  predicate OccursAt(s: string, sub: string, i: int)
  {
    0 <= i && i + |sub| <= |s| && s[i..i + |sub|] == sub
  }

  /** Python's `sub in s`; the empty string occurs in every string. */
  predicate Contains(s: string, sub: string)
  {
    exists i :: 0 <= i <= |s| - |sub| && OccursAt(s, sub, i)
  }

  /** An occurrence fixes the characters at its start. */
  lemma LeadingChars(s: string, sub: string, i: int)
    requires OccursAt(s, sub, i) && |sub| >= 2
    ensures s[i] == sub[0] && s[i + 1] == sub[1]
  {
    assert s[i..i + |sub|][0] == s[i] && s[i..i + |sub|][1] == s[i + 1];
  }

  /** A string contains each of its prefixes. */
  lemma PrefixContained(s: string, p: string)
    requires StartsWith(s, p)
    ensures Contains(s, p)
  {
    assert OccursAt(s, p, 0);
  }

  /** A string contains whatever a substring of it contains. */
  lemma ContainsInSlice(s: string, i: int, j: int, sub: string)
    requires 0 <= i <= j <= |s|
    requires Contains(s[i..j], sub)
    ensures Contains(s, sub)
  {
    var k :| 0 <= k <= j - i - |sub| && OccursAt(s[i..j], sub, k);
    var n := |sub|;
    forall t | 0 <= t < n ensures s[i + k + t] == sub[t] {
      assert s[i..j][k..k + n][t] == s[i..j][k + t];
    }
    assert s[i + k..i + k + n] == sub;
    assert OccursAt(s, sub, i + k);
  }

  /** The index of the first occurrence of `c`, if any. */
  function IndexOf(s: string, c: char): (r: Option<nat>)
    ensures r.None? <==> c !in s
    ensures r.Some? ==> r.value < |s| && s[r.value] == c && c !in s[..r.value]
  {
    if s == [] then None
    else if s[0] == c then Some(0)
    else match IndexOf(s[1..], c)
      case None => None
      case Some(i) => assert s[..i + 1] == [s[0]] + s[1..][..i]; Some(i + 1)
  }

  /** `s.split(' ')[0]`: everything before the first space. */
  function FirstWord(s: string): (w: string)
    ensures ' ' !in w && StartsWith(s, w)
    ensures |w| < |s| ==> s[|w|] == ' '
  {
    match IndexOf(s, ' ')
    case None => s
    case Some(i) => s[..i]
  }

  /** What follows the first space, when there is one; `s.split(' ')[1:]` joined back. */
  function AfterFirstSpace(s: string): (r: Option<string>)
    ensures r.None? <==> ' ' !in s
    ensures r.Some? ==> s == FirstWord(s) + " " + r.value
  {
    match IndexOf(s, ' ')
    case None => None
    case Some(i) => assert s == s[..i] + " " + s[i + 1..]; Some(s[i + 1..])
  }

  /** `s.split(' ')[1]`, which raises `IndexError` (here `None`) when `s` has no space. */
  function SecondWord(s: string): (r: Option<string>)
    ensures r.None? <==> ' ' !in s
  {
    match AfterFirstSpace(s)
    case None => None
    case Some(rest) => Some(FirstWord(rest))
  }

  /** `s.replace('\n', '')`. */
  function StripNewlines(s: string): (r: string)
    ensures '\n' !in r && |r| <= |s|
  {
    if s == [] then []
    else (if s[0] == '\n' then [] else [s[0]]) + StripNewlines(s[1..])
  }

  /**
   * Python's `s.replace(pat, rep)`: every non-overlapping occurrence of `pat`,
   * scanning left to right, becomes `rep`; an empty `pat` inserts `rep`
   * before every character and at the end.
   */
  function ReplaceAll(s: string, pat: string, rep: string): string
    decreases |s|, |pat|
  {
    if pat == [] then
      if s == [] then rep else rep + [s[0]] + ReplaceAll(s[1..], pat, rep)
    else if StartsWith(s, pat) then rep + ReplaceAll(s[|pat|..], pat, rep)
    else if s == [] then []
    else [s[0]] + ReplaceAll(s[1..], pat, rep)
  }

  /** A match at the head is replaced and the scan resumes after it. */
  lemma ReplaceAllMatch(s: string, pat: string, rep: string)
    requires pat != [] && StartsWith(s, pat)
    ensures ReplaceAll(s, pat, rep) == rep + ReplaceAll(s[|pat|..], pat, rep)
  {
  }

  /** A head character that cannot start a match is kept. */
  lemma ReplaceAllSkip(s: string, pat: string, rep: string)
    requires pat != [] && s != [] && s[0] != pat[0]
    ensures ReplaceAll(s, pat, rep) == [s[0]] + ReplaceAll(s[1..], pat, rep)
  {
  }

  function LowerChar(c: char): char
  {
    if 'A' <= c <= 'Z' then (c as int - 'A' as int + 'a' as int) as char else c
  }

  /** `s.lower()` on ASCII letters; other characters are left as they are. */
  function Lower(s: string): (r: string)
    ensures |r| == |s| && forall i :: 0 <= i < |s| ==> r[i] == LowerChar(s[i])
  {
    seq(|s|, i requires 0 <= i < |s| => LowerChar(s[i]))
  }

  /** Lower-casing twice is lower-casing once. */
  lemma LowerIdempotent(s: string)
    ensures Lower(Lower(s)) == Lower(s)
  {
  }

  /** An occurrence of `c` with none before it is the one `IndexOf` finds. */
  lemma IndexOfFirst(s: string, c: char, k: nat)
    requires k < |s| && s[k] == c && c !in s[..k]
    ensures IndexOf(s, c) == Some(k)
  {
    assert s[k] in s;
    var j := IndexOf(s, c).value;
    assert s[..j + 1][j] == c;
    assert s[..k + 1][k] == c;
  }

  /** The first occurrence in a concatenation whose left part lacks `c` is found in the right part. */
  lemma IndexOfConcat(a: string, b: string, c: char)
    requires c !in a
    ensures IndexOf(a + b, c) == match IndexOf(b, c) case None => None case Some(i) => Some(|a| + i)
  {
    match IndexOf(b, c)
    case None =>
      assert c !in a + b;
    case Some(i) =>
      assert (a + b)[..|a| + i] == a + b[..i];
      IndexOfFirst(a + b, c, |a| + i);
  }

  /** Splitting `w + " " + rest` at spaces gives `w` first when `w` has no space. */
  lemma WordsOfJoined(w: string, rest: string)
    requires ' ' !in w
    ensures FirstWord(w + " " + rest) == w
    ensures AfterFirstSpace(w + " " + rest) == Some(rest)
  {
    IndexOfConcat(w, " " + rest, ' ');
    assert w + " " + rest == w + (" " + rest);
    assert (w + " " + rest)[..|w|] == w;
  }

  /** The words of a line "w rest" that has no newline. */
  lemma JoinedLineWords(w: string, rest: string)
    requires ' ' !in w && '\n' !in w && '\n' !in rest
    ensures StripNewlines(w + " " + rest) == w + " " + rest
    ensures FirstWord(StripNewlines(w + " " + rest)) == w
    ensures AfterFirstSpace(StripNewlines(w + " " + rest)) == Some(rest)
    ensures SecondWord(StripNewlines(w + " " + rest)) == Some(FirstWord(rest))
  {
    assert '\n' !in w + " " + rest;
    StripNewlinesNoop(w + " " + rest);
    WordsOfJoined(w, rest);
  }

  /** A newline-free body with or without its terminator is a file line that strips to the body. */
  lemma TerminatedLine(b: string, l: string)
    requires '\n' !in b && (l == b || l == b + "\n")
    ensures IsFileLine(l) && StripNewlines(l) == b
  {
    StripNewlinesNoop(b);
    if l != b {
      StripNewlinesConcat(b, "\n");
      assert StripNewlines("\n") == [];
      assert forall i :: 0 <= i < |l| - 1 ==> l[i] == b[i];
    }
  }

  /** A space-free prefix stays at the head of the first word. */
  lemma FirstWordShift(w: string, rest: string)
    requires ' ' !in w
    ensures FirstWord(w + rest) == w + FirstWord(rest)
  {
    IndexOfConcat(w, rest, ' ');
    match IndexOf(rest, ' ')
    case None =>
    case Some(i) => assert (w + rest)[..|w| + i] == w + rest[..i];
  }

  /** A string without a newline is left as it is. */
  lemma {:induction false} StripNewlinesNoop(s: string)
    requires '\n' !in s
    ensures StripNewlines(s) == s
  {
    if s != [] {
      assert s[0] in s && s == [s[0]] + s[1..];
      StripNewlinesNoop(s[1..]);
    }
  }

  /** Removing newlines distributes over concatenation. */
  lemma {:induction false} StripNewlinesConcat(a: string, b: string)
    ensures StripNewlines(a + b) == StripNewlines(a) + StripNewlines(b)
  {
    if a == [] {
      assert a + b == b;
    } else {
      var h: string := if a[0] == '\n' then [] else [a[0]];
      assert (a + b)[0] == a[0] && (a + b)[1..] == a[1..] + b;
      assert StripNewlines(a + b) == h + StripNewlines(a[1..] + b);
      StripNewlinesConcat(a[1..], b);
      assert h + (StripNewlines(a[1..]) + StripNewlines(b)) == (h + StripNewlines(a[1..])) + StripNewlines(b);
    }
  }

  /**
   * A line as iterating over a text file yields it: a newline can only be
   * its last character.
   */
  predicate IsFileLine(l: string)
  {
    forall i :: 0 <= i < |l| - 1 ==> l[i] != '\n'
  }

  /** A line without its terminating newline. */
  function Body(l: string): string
  {
    if l != [] && l[|l| - 1] == '\n' then l[..|l| - 1] else l
  }

  /** On a file line, removing every newline removes just the terminator. */
  lemma FileLineStrip(l: string)
    requires IsFileLine(l)
    ensures StripNewlines(l) == Body(l)
    ensures l == Body(l) || l == Body(l) + "\n"
  {
    if l != [] && l[|l| - 1] == '\n' {
      var b := l[..|l| - 1];
      assert l == b + "\n";
      assert '\n' !in b by {
        forall i | 0 <= i < |b| ensures b[i] != '\n' {
          assert b[i] == l[i];
        }
      }
      StripNewlinesConcat(b, "\n");
      StripNewlinesNoop(b);
      assert StripNewlines("\n") == [];
    } else {
      assert '\n' !in l by {
        forall i | 0 <= i < |l| ensures l[i] != '\n' {
          if i < |l| - 1 {
            assert IsFileLine(l);
          }
        }
      }
      StripNewlinesNoop(l);
    }
  }
}
