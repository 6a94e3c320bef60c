/**
 * String primitives the assistant relies on, written out for ASCII text:
 * Python's str.lower, str.strip and argument-less str.split, the ' '.join
 * family, substring membership (`needle in haystack`) and the code-point
 * ordering that sorted() uses on strings.
 */
module Text {

  /** Whitespace as str.split() and str.strip() see it, restricted to ASCII:
      the controls 9..13, the separators 28..31 and the space. */
  predicate IsSpace(c: char)
  {
    var n := c as int; 9 <= n <= 13 || 28 <= n <= 32
  }

  predicate NoSpace(s: string)
  {
    forall i :: 0 <= i < |s| ==> !IsSpace(s[i])
  }

  predicate AllSpace(s: string)
  {
    forall i :: 0 <= i < |s| ==> IsSpace(s[i])
  }

  predicate HasNonSpace(s: string)
  {
    exists i :: 0 <= i < |s| && !IsSpace(s[i])
  }

  // ---------------------------------------------------------------------
  // Case folding
  // ---------------------------------------------------------------------

  /** str.lower() on one character: only 'A'..'Z' change. */
  function LowerChar(c: char): char
  {
    if 'A' <= c <= 'Z' then (c as int + 32) as char else c
  }

  function Lower(s: string): string
  {
    seq(|s|, i requires 0 <= i < |s| => LowerChar(s[i]))
  }

  lemma LowerCharKeepsSpace(c: char)
    ensures IsSpace(LowerChar(c)) <==> IsSpace(c)
  {
  }

  lemma LowerIdempotent(s: string)
    ensures Lower(Lower(s)) == Lower(s)
  {
  }

  // ---------------------------------------------------------------------
  // str.strip()
  // ---------------------------------------------------------------------

  /** Number of whitespace characters at the start of s. */
  function LeadingSpaces(s: string): (n: nat)
    ensures n <= |s|
    ensures forall i :: 0 <= i < n ==> IsSpace(s[i])
    ensures n < |s| ==> !IsSpace(s[n])
  {
    if |s| > 0 && IsSpace(s[0]) then 1 + LeadingSpaces(s[1..]) else 0
  }

  /** Number of whitespace characters at the end of s. */
  function TrailingSpaces(s: string): (n: nat)
    ensures n <= |s|
    ensures forall i :: |s| - n <= i < |s| ==> IsSpace(s[i])
    ensures n < |s| ==> !IsSpace(s[|s| - 1 - n])
  {
    if |s| > 0 && IsSpace(s[|s| - 1]) then 1 + TrailingSpaces(s[..|s| - 1]) else 0
  }

  /** str.lstrip(): s without its leading whitespace. */
  function TrimStart(s: string): string
  {
    s[LeadingSpaces(s)..]
  }

  /** str.rstrip(): s without its trailing whitespace. */
  function TrimEnd(s: string): string
  {
    s[..|s| - TrailingSpaces(s)]
  }

  /** str.strip(). */
  function Strip(s: string): string
  {
    TrimEnd(TrimStart(s))
  }

  /** Stripping leaves nothing exactly when s is all whitespace. */
  lemma TrimStartEmptyIff(s: string)
    ensures TrimStart(s) == [] <==> !HasNonSpace(s)
  {
    if HasNonSpace(s) {
      var i :| 0 <= i < |s| && !IsSpace(s[i]);
      assert LeadingSpaces(s) <= i;
    }
  }

  /** The stripped string is empty exactly when s is all whitespace, and
      otherwise it starts and ends with a non-whitespace character. */
  lemma StripShape(s: string)
    ensures Strip(s) == [] <==> !HasNonSpace(s)
    ensures Strip(s) != [] ==> !IsSpace(Strip(s)[0]) && !IsSpace(Strip(s)[|Strip(s)| - 1])
  {
    var u := TrimStart(s);
    var b := TrailingSpaces(u);
    TrimStartEmptyIff(s);
    if u != [] {
      assert !IsSpace(u[0]);
      assert b < |u|;
    }
  }

  /** Stripping a string that neither starts nor ends with whitespace is the identity. */
  lemma StripTrimmed(t: string)
    requires t == [] || (!IsSpace(t[0]) && !IsSpace(t[|t| - 1]))
    ensures Strip(t) == t
  {
    assert t[0..] == t;
    assert t[..|t|] == t;
  }

  // ---------------------------------------------------------------------
  // str.split() and str.join()
  // ---------------------------------------------------------------------

  /** Length of the leading run of non-whitespace characters. */
  function WordEnd(s: string): (n: nat)
    ensures n <= |s|
    ensures NoSpace(s[..n])
    ensures n < |s| ==> IsSpace(s[n])
  {
    if |s| == 0 || IsSpace(s[0]) then 0 else 1 + WordEnd(s[1..])
  }

  /** str.split() without arguments: the maximal runs of non-whitespace. */
  function Split(s: string): (words: seq<string>)
    ensures forall w :: w in words ==> IsWord(w)
    decreases |s|
  {
    var t := TrimStart(s);
    if t == [] then []
    else
      var n := WordEnd(t);
      assert n >= 1 && IsWord(t[..n]);
      var rest := Split(t[n..]);
      assert forall w :: w in [t[..n]] + rest ==> w == t[..n] || w in rest;
      [t[..n]] + rest
  }

  function Join(sep: string, parts: seq<string>): string
  {
    if |parts| == 0 then ""
    else if |parts| == 1 then parts[0]
    else parts[0] + sep + Join(sep, parts[1..])
  }

  /** A word, i.e. what Split produces. */
  predicate IsWord(w: string)
  {
    w != [] && NoSpace(w)
  }

  lemma WordEndOfWord(w: string, rest: string)
    requires NoSpace(w)
    requires rest == [] || IsSpace(rest[0])
    ensures WordEnd(w + rest) == |w|
  {
    if w != [] {
      assert (w + rest)[1..] == w[1..] + rest;
      WordEndOfWord(w[1..], rest);
    }
  }

  lemma SplitSkipsSpace(c: char, s: string)
    requires IsSpace(c)
    ensures Split([c] + s) == Split(s)
  {
    var cs := [c] + s;
    assert cs[1..] == s;
    assert LeadingSpaces(cs) == 1 + LeadingSpaces(s);
    assert TrimStart(cs) == TrimStart(s);
  }

  /** A word followed by nothing or by whitespace splits off as the first word. */
  lemma SplitCons(w: string, rest: string)
    requires IsWord(w)
    requires rest == [] || IsSpace(rest[0])
    ensures Split(w + rest) == [w] + Split(rest)
  {
    var j := w + rest;
    WordEndOfWord(w, rest);
    assert j[0] == w[0];
    assert LeadingSpaces(j) == 0;
    assert TrimStart(j) == j;
    assert j[..|w|] == w;
    assert j[|w|..] == rest;
  }

  /** Splitting words joined by single spaces gives the words back. */
  lemma {:induction false} SplitJoin(ws: seq<string>)
    requires forall w :: w in ws ==> IsWord(w)
    ensures Split(Join(" ", ws)) == ws
  {
    if |ws| == 1 {
      SplitCons(ws[0], []);
      assert ws[0] + [] == ws[0];
    } else if |ws| > 1 {
      var w, rest := ws[0], Join(" ", ws[1..]);
      assert Join(" ", ws) == w + ([' '] + rest);
      SplitCons(w, [' '] + rest);
      SplitSkipsSpace(' ', rest);
      SplitJoin(ws[1..]);
      assert ws == [w] + ws[1..];
    }
  }

  /** With a separator made only of whitespace, the joined string has a
      non-whitespace character exactly when some part has one. */
  lemma {:induction false} JoinHasNonSpace(sep: string, parts: seq<string>)
    requires AllSpace(sep)
    ensures HasNonSpace(Join(sep, parts)) <==> exists k :: 0 <= k < |parts| && HasNonSpace(parts[k])
  {
    if |parts| >= 2 {
      var j := Join(sep, parts);
      var rest := Join(sep, parts[1..]);
      JoinHasNonSpace(sep, parts[1..]);
      assert j == parts[0] + sep + rest;
      if HasNonSpace(j) {
        var i :| 0 <= i < |j| && !IsSpace(j[i]);
        if i < |parts[0]| {
          assert j[i] == parts[0][i];
        } else if i >= |parts[0]| + |sep| {
          assert j[i] == rest[i - |parts[0]| - |sep|];
          var k :| 0 <= k < |parts[1..]| && HasNonSpace(parts[1..][k]);
          assert parts[k + 1] == parts[1..][k];
        }
      }
      if exists k :: 0 <= k < |parts| && HasNonSpace(parts[k]) {
        var k :| 0 <= k < |parts| && HasNonSpace(parts[k]);
        if k == 0 {
          var i :| 0 <= i < |parts[0]| && !IsSpace(parts[0][i]);
          assert j[i] == parts[0][i];
        } else {
          assert parts[1..][k - 1] == parts[k];
          var i :| 0 <= i < |rest| && !IsSpace(rest[i]);
          assert j[|parts[0]| + |sep| + i] == rest[i];
        }
      }
    }
  }

  /** Every part occurs in the joined string. */
  lemma {:induction false} JoinContainsPart(sep: string, parts: seq<string>, k: nat)
    requires k < |parts|
    ensures Contains(Join(sep, parts), parts[k])
  {
    var j := Join(sep, parts);
    if |parts| == 1 {
      assert OccursAt(j, parts[0], 0);
    } else {
      var rest := Join(sep, parts[1..]);
      assert j == parts[0] + sep + rest;
      if k == 0 {
        assert OccursAt(j, parts[0], 0);
      } else {
        JoinContainsPart(sep, parts[1..], k - 1);
        assert j[|parts[0]| + |sep|..] == rest;
        assert OccursAt(j, rest, |parts[0]| + |sep|);
        ContainsTransitive(j, rest, parts[k]);
      }
    }
  }

  /** The joined string starts with the first part. */
  lemma JoinStartsWith(sep: string, parts: seq<string>)
    requires |parts| >= 1
    ensures StartsWith(Join(sep, parts), parts[0])
  {
    if |parts| > 1 {
      assert Join(sep, parts) == parts[0] + (sep + Join(sep, parts[1..]));
    }
  }

  /** The joined string ends with the last part. */
  lemma {:induction false} JoinEndsWith(sep: string, parts: seq<string>)
    requires |parts| >= 1
    ensures EndsWith(Join(sep, parts), parts[|parts| - 1])
  {
    if |parts| > 1 {
      var rest := Join(sep, parts[1..]);
      JoinEndsWith(sep, parts[1..]);
      assert Join(sep, parts) == (parts[0] + sep) + rest;
      assert parts[1..][|parts[1..]| - 1] == parts[|parts| - 1];
    }
  }

  /** Splitting yields nothing exactly for all-whitespace text. */
  lemma SplitEmptyIff(s: string)
    ensures Split(s) == [] <==> !HasNonSpace(s)
  {
    TrimStartEmptyIff(s);
  }

  // ---------------------------------------------------------------------
  // Substrings and prefixes
  // ---------------------------------------------------------------------

  predicate OccursAt(s: string, t: string, i: int)
  {
    0 <= i && i + |t| <= |s| && s[i..i + |t|] == t
  }

  /** Python's `t in s` on strings. */
  predicate Contains(s: string, t: string)
  {
    exists i :: 0 <= i <= |s| - |t| && OccursAt(s, t, i)
  }

  /** Python's s.startswith(p). */
  predicate StartsWith(s: string, p: string)
  {
    |p| <= |s| && s[..|p|] == p
  }

  /** Python's s.endswith(p). */
  predicate EndsWith(s: string, p: string)
  {
    |p| <= |s| && s[|s| - |p|..] == p
  }

  lemma ContainsEmpty(s: string)
    ensures Contains(s, "")
  {
    assert OccursAt(s, "", 0);
  }

  /** A substring of a substring is a substring. */
  lemma ContainsTransitive(s: string, u: string, t: string)
    requires Contains(s, u) && Contains(u, t)
    ensures Contains(s, t)
  {
    var i :| 0 <= i <= |s| - |u| && OccursAt(s, u, i);
    var j :| 0 <= j <= |u| - |t| && OccursAt(u, t, j);
    forall k | 0 <= k < |t| ensures s[i + j + k] == t[k] {
      assert u[j + k] == t[k];
      assert s[i + j + k] == u[j + k];
    }
    assert s[i + j..i + j + |t|] == t;
    assert OccursAt(s, t, i + j);
  }

  lemma ContainsPrefix(s: string, t: string)
    requires StartsWith(s, t)
    ensures Contains(s, t)
  {
    assert OccursAt(s, t, 0);
  }

  // ---------------------------------------------------------------------
  // Counting keywords
  // ---------------------------------------------------------------------

  /** How many entries of keys (duplicates counted separately) occur in hay. */
  function CountIn(hay: string, keys: seq<string>): (n: nat)
    ensures n <= |keys|
    ensures n == 0 <==> forall k :: k in keys ==> !Contains(hay, k)
    ensures n == |keys| <==> forall k :: k in keys ==> Contains(hay, k)
  {
    if keys == [] then 0
    else
      var front := keys[..|keys| - 1];
      assert keys == front + [keys[|keys| - 1]];
      CountIn(hay, front) + (if Contains(hay, keys[|keys| - 1]) then 1 else 0)
  }

  /** Counting the keys of a prefix one key further. */
  lemma CountInPrefixStep(hay: string, keys: seq<string>, j: nat)
    requires j < |keys|
    ensures CountIn(hay, keys[..j + 1]) == CountIn(hay, keys[..j]) + (if Contains(hay, keys[j]) then 1 else 0)
  {
    assert keys[..j + 1][..j] == keys[..j];
  }

  /** The keyword list with every entry passed through str.lower(). */
  function LowerAll(keys: seq<string>): (r: seq<string>)
    ensures |r| == |keys|
  {
    seq(|keys|, i requires 0 <= i < |keys| => Lower(keys[i]))
  }

  // ---------------------------------------------------------------------
  // The order sorted() imposes on strings
  // ---------------------------------------------------------------------

  /** Python's a < b on strings: lexicographic by code point, with a proper
      prefix ordered first. */
  predicate LexLess(a: string, b: string)
  {
    |b| > 0 && (|a| == 0 || a[0] < b[0] || (a[0] == b[0] && LexLess(a[1..], b[1..])))
  }

  lemma {:induction false} LexLessIrreflexive(a: string)
    ensures !LexLess(a, a)
  {
    if |a| > 0 {
      LexLessIrreflexive(a[1..]);
    }
  }

  lemma {:induction false} LexLessTransitive(a: string, b: string, c: string)
    requires LexLess(a, b) && LexLess(b, c)
    ensures LexLess(a, c)
  {
    if |a| > 0 && a[0] == b[0] && b[0] == c[0] {
      LexLessTransitive(a[1..], b[1..], c[1..]);
    }
  }

  lemma {:induction false} LexLessTotal(a: string, b: string)
    requires a != b
    ensures LexLess(a, b) || LexLess(b, a)
  {
    if |a| > 0 && |b| > 0 && a[0] == b[0] {
      assert a == [a[0]] + a[1..] && b == [b[0]] + b[1..];
      LexLessTotal(a[1..], b[1..]);
    }
  }

  /** m comes before every other element of s. */
  predicate IsLeast(m: string, s: set<string>)
  {
    m in s && forall x :: x in s && x != m ==> LexLess(m, x)
  }

  predicate StrictlyAscending(r: seq<string>)
  {
    forall i, j :: 0 <= i < j < |r| ==> LexLess(r[i], r[j])
  }

  /** A non-empty finite set of strings has a least element. */
  lemma {:induction false} LeastExists(s: set<string>)
    requires s != {}
    ensures exists m :: IsLeast(m, s)
    decreases |s|
  {
    var y :| y in s;
    var rest := s - {y};
    if rest == {} {
      forall x | x in s ensures x == y {
        assert x !in rest;
      }
      assert IsLeast(y, s);
    } else {
      LeastExists(rest);
      var m :| IsLeast(m, rest);
      if LexLess(y, m) {
        forall x | x in s && x != y ensures LexLess(y, x) {
          if x != m {
            LexLessTransitive(y, m, x);
          }
        }
        assert IsLeast(y, s);
      } else {
        LexLessTotal(y, m);
        assert IsLeast(m, s);
      }
    }
  }

  /** Two least elements of the same set coincide. */
  lemma LeastUnique(s: set<string>)
    ensures forall a, b :: IsLeast(a, s) && IsLeast(b, s) ==> a == b
  {
    forall a, b | IsLeast(a, s) && IsLeast(b, s) ensures a == b {
      if a != b {
        LexLessTransitive(a, b, a);
        LexLessIrreflexive(a);
      }
    }
  }

  /** sorted(s) for a set of strings: its elements in ascending order. */
  function SortSet(s: set<string>): (r: seq<string>)
    ensures |r| == |s|
    ensures forall x :: x in r <==> x in s
    ensures StrictlyAscending(r)
    decreases |s|
  {
    if s == {} then []
    else
      LeastExists(s);
      LeastUnique(s);
      var m :| IsLeast(m, s);
      var rest := SortSet(s - {m});
      forall j | 0 <= j < |rest| ensures LexLess(m, rest[j]) {
        assert rest[j] in s - {m};
      }
      [m] + rest
  }

  // ---------------------------------------------------------------------
  // Decimal notation
  // ---------------------------------------------------------------------

  function DigitChar(d: nat): char
    requires d < 10
  {
    ('0' as int + d) as char
  }

  /** str(n) for a natural number. */
  function NatToString(n: nat): (s: string)
    ensures |s| >= 1
  {
    if n < 10 then [DigitChar(n)] else NatToString(n / 10) + [DigitChar(n % 10)]
  }
}
