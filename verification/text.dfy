/**
 * The JavaScript string operations the application relies on: `trim`, `toLowerCase`,
 * `toUpperCase`, `split` on one character, `join`, `includes` and `slice`.
 */
module Text {

  /** ECMAScript WhiteSpace and LineTerminator code points: what `trim()` strips and `\s` matches. */
  predicate IsSpace(c: char) {
    c == ' ' || c == '\t' || c == '\n' || c == '\r' || c == '\U{000B}' || c == '\U{000C}'
    || c == '\U{00A0}' || c == '\U{1680}' || ('\U{2000}' <= c <= '\U{200A}')
    || c == '\U{2028}' || c == '\U{2029}' || c == '\U{202F}' || c == '\U{205F}'
    || c == '\U{3000}' || c == '\U{FEFF}'
  }

  /** A string that `trim()` turns into "" (JavaScript: `!s.trim()`). */
  predicate IsBlank(s: string) {
    forall i :: 0 <= i < |s| ==> IsSpace(s[i])
  }

  /** `trimStart()`: the suffix left after dropping every leading space. */
  function TrimStart(s: string): string
    decreases |s|
  {
    if s != [] && IsSpace(s[0]) then TrimStart(s[1..]) else s
  }

  /** `trimStart()` keeps a suffix that does not start with a space, and drops only spaces. */
  lemma {:induction false} TrimStartShape(s: string)
    ensures var r := TrimStart(s);
            |r| <= |s| && r == s[|s| - |r|..] && (r != [] ==> !IsSpace(r[0]))
            && forall i :: 0 <= i < |s| - |r| ==> IsSpace(s[i])
    decreases |s|
  {
    if s != [] && IsSpace(s[0]) {
      TrimStartShape(s[1..]);
    }
  }

  /** `trimEnd()`: the prefix left after dropping every trailing space. */
  function TrimEnd(s: string): string
    decreases |s|
  {
    if s != [] && IsSpace(s[|s| - 1]) then TrimEnd(s[..|s| - 1]) else s
  }

  /** `trimEnd()` keeps a prefix that does not end with a space, and drops only spaces. */
  lemma {:induction false} TrimEndShape(s: string)
    ensures var r := TrimEnd(s);
            |r| <= |s| && r == s[..|r|] && (r != [] ==> !IsSpace(r[|r| - 1]))
            && forall i :: |r| <= i < |s| ==> IsSpace(s[i])
    decreases |s|
  {
    if s != [] && IsSpace(s[|s| - 1]) {
      TrimEndShape(s[..|s| - 1]);
    }
  }

  /** `trim()`. */
  function Trim(s: string): (r: string)
  {
    TrimEnd(TrimStart(s))
  }

  /** Trimming never lengthens a string. */
  lemma TrimLength(s: string)
    ensures |Trim(s)| <= |s|
  {
    TrimStartShape(s);
    TrimEndShape(TrimStart(s));
  }

  /** A trimmed string neither starts nor ends with a space. */
  lemma TrimEnds(s: string)
    ensures Trim(s) != [] ==> !IsSpace(Trim(s)[0]) && !IsSpace(Trim(s)[|Trim(s)| - 1])
  {
    var a := TrimStart(s);
    TrimStartShape(s);
    TrimEndShape(a);
    if Trim(s) != [] {
      assert Trim(s)[0] == a[0];
    }
  }

  /** `!s.trim()` holds exactly when every character is a space. */
  lemma {:induction false} TrimEmptyIffBlank(s: string)
    ensures Trim(s) == [] <==> IsBlank(s)
  {
    var a := TrimStart(s);
    TrimStartShape(s);
    TrimEndShape(a);
    if IsBlank(s) {
    } else {
      var i :| 0 <= i < |s| && !IsSpace(s[i]);
      assert |s| - |a| <= i;
      assert a[i - (|s| - |a|)] == s[i];
      assert a != [] && !IsSpace(a[0]);
      assert TrimEnd(a) != [];
    }
  }

  /** A string that neither starts nor ends with a space is left alone by `trim()`. */
  lemma TrimNoop(s: string)
    requires s != [] ==> !IsSpace(s[0]) && !IsSpace(s[|s| - 1])
    ensures Trim(s) == s
  {
  }

  /** Trimming twice is trimming once. */
  lemma TrimIdempotent(s: string)
    ensures Trim(Trim(s)) == Trim(s)
  {
    TrimEnds(s);
    TrimNoop(Trim(s));
  }

  function LowerChar(c: char): char {
    if 'A' <= c <= 'Z' then (c as int + 32) as char else c
  }

  function UpperChar(c: char): char {
    if 'a' <= c <= 'z' then (c as int - 32) as char else c
  }

  /** `toLowerCase()` on the ASCII letters. */
  function ToLower(s: string): (r: string)
    ensures |r| == |s|
    ensures forall i :: 0 <= i < |s| ==> r[i] == LowerChar(s[i])
  {
    seq(|s|, i requires 0 <= i < |s| => LowerChar(s[i]))
  }

  /** Lower-casing works character by character, so it distributes over concatenation. */
  lemma ToLowerAppend(a: string, b: string)
    ensures ToLower(a + b) == ToLower(a) + ToLower(b)
  {
  }

  /** Every piece lower-cased. */
  function LowerAll(parts: seq<string>): (r: seq<string>)
    ensures |r| == |parts|
    ensures forall i :: 0 <= i < |parts| ==> r[i] == ToLower(parts[i])
  {
    seq(|parts|, i requires 0 <= i < |parts| => ToLower(parts[i]))
  }

  /** Lower-casing a join lower-cases each piece and the separator. */
  lemma {:induction false} ToLowerJoin(parts: seq<string>, sep: string)
    ensures ToLower(Join(parts, sep)) == Join(LowerAll(parts), ToLower(sep))
    decreases |parts|
  {
    if |parts| > 1 {
      ToLowerJoin(parts[1..], sep);
      assert LowerAll(parts)[1..] == LowerAll(parts[1..]);
      ToLowerAppend(parts[0] + sep, Join(parts[1..], sep));
      ToLowerAppend(parts[0], sep);
    }
  }

  /** `toUpperCase()` on the ASCII letters. */
  function ToUpper(s: string): (r: string)
    ensures |r| == |s|
    ensures forall i :: 0 <= i < |s| ==> r[i] == UpperChar(s[i])
  {
    seq(|s|, i requires 0 <= i < |s| => UpperChar(s[i]))
  }

  /** No lower-case ASCII letter occurs in `s`. */
  predicate NoLowerAscii(s: string) {
    forall i :: 0 <= i < |s| ==> !('a' <= s[i] <= 'z')
  }

  /** Upper-casing leaves no lower-case letter and is idempotent. */
  lemma ToUpperNormal(s: string)
    ensures NoLowerAscii(ToUpper(s))
    ensures ToUpper(ToUpper(s)) == ToUpper(s)
  {
  }

  /** `s.slice(0, n)`. */
  function Take(s: string, n: nat): (r: string)
    ensures |r| == if |s| < n then |s| else n
    ensures r <= s
  {
    if |s| <= n then s else s[..n]
  }

  /** `s.split(sep)` for a one-character separator: the pieces between separators, in order.
      An empty string splits into one empty piece, as in JavaScript. */
  function Split(s: string, sep: char): (r: seq<string>)
    ensures |r| >= 1
    ensures forall i :: 0 <= i < |r| ==> sep !in r[i]
    decreases |s|
  {
    if s == [] then [[]]
    else
      var rest := Split(s[1..], sep);
      if s[0] == sep then [[]] + rest else [[s[0]] + rest[0]] + rest[1..]
  }

  /** `parts.join(sep)`. */
  function Join(parts: seq<string>, sep: string): string
  {
    if parts == [] then [] else if |parts| == 1 then parts[0] else parts[0] + sep + Join(parts[1..], sep)
  }

  /** A piece without the separator splits into itself. */
  lemma {:induction false} SplitNoSep(s: string, sep: char)
    requires sep !in s
    ensures Split(s, sep) == [s]
    decreases |s|
  {
    if s != [] {
      SplitNoSep(s[1..], sep);
      assert [s[0]] + s[1..] == s;
    }
  }

  /** Splitting `p + sep + rest` yields `p` followed by the pieces of `rest`. */
  lemma {:induction false} SplitCons(p: string, sep: char, rest: string)
    requires sep !in p
    ensures Split(p + [sep] + rest, sep) == [p] + Split(rest, sep)
    decreases |p|
  {
    var s := p + [sep] + rest;
    if p == [] {
      assert s[1..] == rest;
    } else {
      assert s[1..] == p[1..] + [sep] + rest;
      SplitCons(p[1..], sep, rest);
      assert [p[0]] + p[1..] == p;
    }
  }

  /** Split undoes Join when no piece holds the separator. */
  lemma {:induction false} SplitJoin(parts: seq<string>, sep: char)
    requires |parts| >= 1
    requires forall i :: 0 <= i < |parts| ==> sep !in parts[i]
    ensures Split(Join(parts, [sep]), sep) == parts
    decreases |parts|
  {
    if |parts| == 1 {
      SplitNoSep(parts[0], sep);
    } else {
      SplitJoin(parts[1..], sep);
      SplitCons(parts[0], sep, Join(parts[1..], [sep]));
      assert [parts[0]] + parts[1..] == parts;
    }
  }

  /** Join undoes Split. */
  lemma {:induction false} JoinSplit(s: string, sep: char)
    ensures Join(Split(s, sep), [sep]) == s
    decreases |s|
  {
    if s != [] {
      JoinSplit(s[1..], sep);
      if s[0] != sep {
        JoinPrepend(s[0], Split(s[1..], sep), [sep]);
        assert [s[0]] + s[1..] == s;
      }
    }
  }

  /** Prepending a character to the first piece prepends it to the join. */
  lemma JoinPrepend(c: char, parts: seq<string>, sep: string)
    requires |parts| >= 1
    ensures Join([[c] + parts[0]] + parts[1..], sep) == [c] + Join(parts, sep)
  {
    var longer := [[c] + parts[0]] + parts[1..];
    if |parts| > 1 {
      assert longer[1..] == parts[1..];
    }
  }

  /** A character occurs in a join only if it occurs in a piece or in the separator. */
  lemma {:induction false} JoinExcludes(parts: seq<string>, sep: string, c: char)
    requires c !in sep
    requires forall i :: 0 <= i < |parts| ==> c !in parts[i]
    ensures c !in Join(parts, sep)
    decreases |parts|
  {
    if |parts| > 1 {
      JoinExcludes(parts[1..], sep, c);
    }
  }

  /** A join of pieces starts with the first piece and ends with the last. */
  lemma {:induction false} JoinEnds(parts: seq<string>, sep: string)
    requires |parts| >= 1
    ensures parts[0] <= Join(parts, sep)
    ensures var j := Join(parts, sep); var last := parts[|parts| - 1];
            |last| <= |j| && j[|j| - |last|..] == last
    decreases |parts|
  {
    if |parts| > 1 {
      JoinEnds(parts[1..], sep);
    }
  }

  /** A join whose first piece starts, and whose last piece ends, with a non-space is left
      alone by `trim()`. */
  lemma JoinUntrimmed(parts: seq<string>, sep: string)
    requires |parts| >= 1 && parts[0] != [] && parts[|parts| - 1] != []
    requires !IsSpace(parts[0][0]) && !IsSpace(parts[|parts| - 1][|parts[|parts| - 1]| - 1])
    ensures Trim(Join(parts, sep)) == Join(parts, sep)
  {
    var j := Join(parts, sep);
    var last := parts[|parts| - 1];
    JoinEnds(parts, sep);
    assert j[0] == parts[0][0];
    assert j[|j| - 1] == j[|j| - |last|..][|last| - 1];
    TrimNoop(j);
  }

  /** `s.startsWith(p)`. */
  predicate StartsWith(s: string, p: string) {
    |p| <= |s| && s[..|p|] == p
  }

  /** `s.includes(sub)`. */
  predicate Contains(s: string, sub: string)
    decreases |s|
  {
    StartsWith(s, sub) || (s != [] && Contains(s[1..], sub))
  }

  /** `sub` occurs in `s` at offset `k`. */
  predicate OccursAt(s: string, sub: string, k: int) {
    0 <= k <= |s| - |sub| && s[k..k + |sub|] == sub
  }

  /** `includes` holds exactly when `sub` occurs at some offset of `s`. */
  lemma {:induction false} ContainsAt(s: string, sub: string)
    ensures Contains(s, sub) <==> exists k :: OccursAt(s, sub, k)
    decreases |s|
  {
    if s != [] {
      ContainsAt(s[1..], sub);
      if Contains(s[1..], sub) {
        var k :| OccursAt(s[1..], sub, k);
        assert s[k + 1..k + 1 + |sub|] == s[1..][k..k + |sub|];
        assert OccursAt(s, sub, k + 1);
      }
      if StartsWith(s, sub) {
        assert OccursAt(s, sub, 0);
      }
      if k :| OccursAt(s, sub, k) {
        if k > 0 {
          assert s[1..][k - 1..k - 1 + |sub|] == s[k..k + |sub|];
          assert OccursAt(s[1..], sub, k - 1);
        } else {
          assert StartsWith(s, sub);
        }
      }
    } else {
      if StartsWith(s, sub) {
        assert OccursAt(s, sub, 0);
      }
      if k :| OccursAt(s, sub, k) {
        assert StartsWith(s, sub);
      }
    }
  }

  /** Every string includes the empty string. */
  lemma ContainsEmpty(s: string)
    ensures Contains(s, [])
  {
  }
}
