/** The JavaScript string primitives the application relies on:
    `toLowerCase`, `trim`, the `\s` character class, `includes` and a
    global replace of a literal pattern. */
module Text {

  /** LineTerminator of ECMAScript: the characters `.` in a regular
      expression does not match. */
  const LineTerminators: set<char> := {'\n', '\r', '\U{2028}', '\U{2029}'}

  /** WhiteSpace of ECMAScript: tab, vertical tab, form feed, space,
      no-break space, the byte order mark and the Unicode space separators. */
  const WhiteSpaces: set<char> := {
    ' ', '\t', '\U{000B}', '\U{000C}', '\U{00A0}', '\U{FEFF}', '\U{1680}',
    '\U{2000}', '\U{2001}', '\U{2002}', '\U{2003}', '\U{2004}', '\U{2005}',
    '\U{2006}', '\U{2007}', '\U{2008}', '\U{2009}', '\U{200A}',
    '\U{202F}', '\U{205F}', '\U{3000}'}

  predicate IsLineTerminator(c: char) {
    c in LineTerminators
  }

  /** The `\s` class of ECMAScript regular expressions, which is also the set
      of characters `String.prototype.trim` strips. */
  predicate IsSpace(c: char) {
    c in WhiteSpaces || c in LineTerminators
  }

  function LowerChar(c: char): char {
    if 'A' <= c <= 'Z' then (c as int + 32) as char else c
  }

  /** `s.toLowerCase()` on the letters A to Z. */
  function Lower(s: string): (r: string)
    ensures |r| == |s|
    ensures forall i :: 0 <= i < |s| ==> r[i] == LowerChar(s[i])
  {
    seq(|s|, i requires 0 <= i < |s| => LowerChar(s[i]))
  }

  lemma LowerKeepsSpace(c: char)
    ensures IsSpace(LowerChar(c)) == IsSpace(c)
  {
  }

  lemma LowerIdempotent(s: string)
    ensures Lower(Lower(s)) == Lower(s)
  {
  }

  /** Drops the leading `\s` characters. */
  function TrimStart(s: string): (r: string)
    ensures |r| <= |s| && r == s[|s| - |r|..]
    ensures forall i :: 0 <= i < |s| - |r| ==> IsSpace(s[i])
    ensures r != [] ==> !IsSpace(r[0])
    decreases |s|
  {
    if |s| > 0 && IsSpace(s[0]) then TrimStart(s[1..]) else s
  }

  /** Drops the trailing `\s` characters. */
  function TrimEnd(s: string): (r: string)
    ensures |r| <= |s| && r == s[..|r|]
    ensures forall i :: |r| <= i < |s| ==> IsSpace(s[i])
    ensures r != [] ==> !IsSpace(r[|r| - 1])
    decreases |s|
  {
    if |s| > 0 && IsSpace(s[|s| - 1]) then TrimEnd(s[..|s| - 1]) else s
  }

  /** `s.trim()`: the longest infix of `s` that neither starts nor ends with
      white space, reached by dropping only white space. */
  function Trim(s: string): (r: string)
    ensures |r| <= |s|
    ensures r != [] ==> !IsSpace(r[0]) && !IsSpace(r[|r| - 1])
  {
    TrimBothEndsClean(s);
    TrimEnd(TrimStart(s))
  }

  /** Only white space is dropped, from both ends. */
  lemma TrimSpec(s: string)
    ensures exists i :: InfixAmidSpace(s, i, Trim(s))
  {
    InfixOfTrims(s, TrimStart(s), TrimEnd(TrimStart(s)));
    assert InfixAmidSpace(s, |s| - |TrimStart(s)|, Trim(s));
  }

  /** Dropping white space from the front and then from the back leaves an
      infix surrounded by white space only. */
  lemma InfixOfTrims(s: string, t: string, r: string)
    requires |t| <= |s| && t == s[|s| - |t|..]
    requires forall k :: 0 <= k < |s| - |t| ==> IsSpace(s[k])
    requires |r| <= |t| && r == t[..|r|]
    requires forall k :: |r| <= k < |t| ==> IsSpace(t[k])
    ensures InfixAmidSpace(s, |s| - |t|, r)
  {
    var i := |s| - |t|;
    assert r == s[i..i + |r|];
    forall k | i + |r| <= k < |s| ensures IsSpace(s[k]) {
      assert s[k] == t[k - i];
    }
  }

  /** The trimmed string neither starts nor ends with white space. */
  lemma TrimBothEndsClean(s: string)
    ensures var r := TrimEnd(TrimStart(s)); r != [] ==> !IsSpace(r[0]) && !IsSpace(r[|r| - 1])
  {
    var t := TrimStart(s);
    var r := TrimEnd(t);
    if r != [] {
      assert r[0] == t[0];
    }
  }

  /** `r` is the infix of `s` at `i`, and only white space surrounds it. */
  predicate InfixAmidSpace(s: string, i: int, r: string) {
    && 0 <= i <= i + |r| <= |s| && r == s[i..i + |r|]
    && (forall k :: 0 <= k < i ==> IsSpace(s[k]))
    && (forall k :: i + |r| <= k < |s| ==> IsSpace(s[k]))
  }

  lemma TrimOfTrimmed(s: string)
    requires s != [] ==> !IsSpace(s[0]) && !IsSpace(s[|s| - 1])
    ensures Trim(s) == s
  {
  }

  lemma TrimIdempotent(s: string)
    ensures Trim(Trim(s)) == Trim(s)
  {
    TrimOfTrimmed(Trim(s));
  }

  /** A string JavaScript treats as false after `trim()`. */
  predicate IsBlank(s: string) {
    Trim(s) == []
  }

  lemma {:induction false} BlankIffAllSpace(s: string)
    ensures IsBlank(s) <==> forall i :: 0 <= i < |s| ==> IsSpace(s[i])
  {
    if IsBlank(s) {
      var t := TrimStart(s);
      assert t == [];
    } else {
      var r := Trim(s);
      TrimSpec(s);
      var i :| InfixAmidSpace(s, i, r);
      assert s[i] == r[0];
    }
  }

  lemma {:induction false} LowerTrimStart(s: string)
    ensures Lower(TrimStart(s)) == TrimStart(Lower(s))
    decreases |s|
  {
    if |s| > 0 {
      LowerKeepsSpace(s[0]);
      assert Lower(s)[1..] == Lower(s[1..]);
      if IsSpace(s[0]) {
        LowerTrimStart(s[1..]);
      }
    }
  }

  /** `TrimEnd` keeps exactly the prefix after which only white space
      follows and which does not itself end with white space. */
  lemma TrimEndUnique(s: string, n: nat)
    requires n <= |s|
    requires forall i :: n <= i < |s| ==> IsSpace(s[i])
    requires n > 0 ==> !IsSpace(s[n - 1])
    ensures TrimEnd(s) == s[..n]
  {
    var r := TrimEnd(s);
    if |r| > 0 {
      assert r[|r| - 1] == s[|r| - 1];
    }
    assert |r| == n;
  }

  lemma LowerTrimEnd(s: string)
    ensures Lower(TrimEnd(s)) == TrimEnd(Lower(s))
  {
    var n := |TrimEnd(s)|;
    var l := Lower(s);
    forall i | n <= i < |s| ensures IsSpace(l[i]) {
      LowerKeepsSpace(s[i]);
    }
    if n > 0 {
      LowerKeepsSpace(s[n - 1]);
    }
    TrimEndUnique(l, n);
  }

  /** Lower-casing and trimming commute, since lower-casing maps white space
      to itself. */
  lemma LowerTrim(s: string)
    ensures Lower(Trim(s)) == Trim(Lower(s))
  {
    LowerTrimStart(s);
    LowerTrimEnd(TrimStart(s));
  }

  /** `q` occurs in `s` at index `i`. */
  predicate OccursAt(s: string, i: int, q: string) {
    0 <= i && i + |q| <= |s| && s[i..i + |q|] == q
  }

  /** `s.includes(q)`. */
  predicate Includes(s: string, q: string) {
    exists i | 0 <= i <= |s| - |q| :: OccursAt(s, i, q)
  }

  lemma IncludesEmpty(s: string)
    ensures Includes(s, [])
  {
    assert OccursAt(s, 0, []);
  }

  /** `s.replace(/pat/g, rep)` for a pattern with no special characters and a
      replacement with no `$` patterns: occurrences are found left to right,
      without overlap, and scanning resumes after each replaced one. */
  function ReplaceAll(s: string, pat: string, rep: string): string
    requires pat != []
    decreases |s|
  {
    if |s| < |pat| then s
    else if s[..|pat|] == pat then rep + ReplaceAll(s[|pat|..], pat, rep)
    else [s[0]] + ReplaceAll(s[1..], pat, rep)
  }

  /** A string without an occurrence of the pattern is left as it is. */
  lemma {:induction false} ReplaceAllAbsent(s: string, pat: string, rep: string)
    requires pat != [] && !Includes(s, pat)
    ensures ReplaceAll(s, pat, rep) == s
    decreases |s|
  {
    if |s| >= |pat| {
      assert !OccursAt(s, 0, pat);
      if Includes(s[1..], pat) {
        var i :| 0 <= i <= |s[1..]| - |pat| && OccursAt(s[1..], i, pat);
        assert s[1..][i..i + |pat|] == s[i + 1..i + 1 + |pat|];
        assert OccursAt(s, i + 1, pat);
      }
      ReplaceAllAbsent(s[1..], pat, rep);
    }
  }

  /** Replacing a pattern by itself changes nothing. */
  lemma {:induction false} ReplaceAllSelf(s: string, pat: string)
    requires pat != []
    ensures ReplaceAll(s, pat, pat) == s
    decreases |s|
  {
    if |s| >= |pat| {
      if s[..|pat|] == pat {
        ReplaceAllSelf(s[|pat|..], pat);
        assert s == pat + s[|pat|..];
      } else {
        ReplaceAllSelf(s[1..], pat);
        assert s == [s[0]] + s[1..];
      }
    }
  }

  /** When the first occurrence of the pattern starts after the prefix `x`,
      replacing in `x + pat + y` keeps `x`, replaces that occurrence and goes
      on in `y`. */
  lemma {:induction false} ReplaceAllFirst(x: string, pat: string, y: string, rep: string)
    requires pat != []
    requires forall i :: 0 <= i < |x| ==> !OccursAt(x + pat + y, i, pat)
    ensures ReplaceAll(x + pat + y, pat, rep) == x + rep + ReplaceAll(y, pat, rep)
    decreases |x|
  {
    var s := x + pat + y;
    if x == [] {
      assert s == pat + y;
      assert s[..|pat|] == pat && s[|pat|..] == y;
    } else {
      var t := x[1..] + pat + y;
      assert s == [x[0]] + t;
      assert !OccursAt(s, 0, pat);
      assert s[..|pat|] != pat;
      assert s[1..] == t;
      forall i | 0 <= i < |x[1..]| ensures !OccursAt(t, i, pat) {
        assert !OccursAt(s, i + 1, pat);
        assert s[i + 1..i + 1 + |pat|] == t[i..i + |pat|];
      }
      ReplaceAllFirst(x[1..], pat, y, rep);
      assert ReplaceAll(s, pat, rep) == [x[0]] + ReplaceAll(t, pat, rep);
      assert x + rep + ReplaceAll(y, pat, rep) == [x[0]] + (x[1..] + rep + ReplaceAll(y, pat, rep));
    }
  }
}
