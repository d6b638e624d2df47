/** The string operations of Python that the authorization layer relies on:
    `str.split` with an explicit one-character separator, `str.lower` on the
    characters that matter here, and the substring test `x in s`. */
module Text {

  /** Python's `s.split(sep)` for a one-character `sep`. Unlike the argument-less
      `split()`, every occurrence of `sep` ends a part: adjacent separators give an
      empty part, and a leading or trailing separator gives an empty first or last
      part. */
  function Split(s: string, sep: char): (parts: seq<string>)
    ensures |parts| == multiset(s)[sep] + 1
    ensures forall i :: 0 <= i < |parts| ==> sep !in parts[i]
  {
    if |s| == 0 then [""]
    else
      var rest := Split(s[1..], sep);
      assert s == [s[0]] + s[1..];
      if s[0] == sep then [""] + rest
      else [[s[0]] + rest[0]] + rest[1..]
  }

  /** Python's `sep.join(parts)` on a non-empty list: the reference against which
      `Split` is checked. */
  function Join(parts: seq<string>, sep: char): string
    requires |parts| >= 1
  {
    if |parts| == 1 then parts[0] else parts[0] + [sep] + Join(parts[1..], sep)
  }

  /** Joining the parts of a split with the same separator gives back the string. */
  lemma {:induction false} JoinSplit(s: string, sep: char)
    ensures Join(Split(s, sep), sep) == s
  {
    if |s| > 0 {
      var rest := Split(s[1..], sep);
      JoinSplit(s[1..], sep);
      if s[0] == sep {
        assert ([""] + rest)[1..] == rest;
      } else {
        var parts := [[s[0]] + rest[0]] + rest[1..];
        if |rest| > 1 {
          assert parts[1..] == rest[1..];
        }
      }
    }
  }

  /** A part without separators, a separator and the rest split into that part
      followed by the split of the rest. */
  lemma {:induction false} SplitAfterPart(p: string, r: string, sep: char)
    requires sep !in p
    ensures Split(p + [sep] + r, sep) == [p] + Split(r, sep)
  {
    var s := p + [sep] + r;
    if |p| == 0 {
      assert s[1..] == r;
    } else {
      assert s[1..] == p[1..] + [sep] + r;
      SplitAfterPart(p[1..], r, sep);
      assert [p[0]] + p[1..] == p;
    }
  }

  /** A string without separators splits into itself alone. */
  lemma {:induction false} SplitWithoutSeparator(p: string, sep: char)
    requires sep !in p
    ensures Split(p, sep) == [p]
  {
    if |p| > 0 {
      assert p == [p[0]] + p[1..];
      SplitWithoutSeparator(p[1..], sep);
    }
  }

  /** Splitting a join of separator-free parts gives back exactly those parts. */
  lemma {:induction false} SplitJoin(parts: seq<string>, sep: char)
    requires |parts| >= 1
    requires forall i :: 0 <= i < |parts| ==> sep !in parts[i]
    ensures Split(Join(parts, sep), sep) == parts
  {
    if |parts| == 1 {
      SplitWithoutSeparator(parts[0], sep);
    } else {
      SplitJoin(parts[1..], sep);
      SplitAfterPart(parts[0], Join(parts[1..], sep), sep);
      assert [parts[0]] + parts[1..] == parts;
    }
  }

  /** Python's `c.lower()` restricted to ASCII: `A`-`Z` become `a`-`z`, every other
      character is left as it is. */
  function LowerChar(c: char): (l: char)
    ensures 'a' <= l <= 'z' ==> c == l || c == (l as int - 32) as char
    ensures l == ' ' <==> c == ' '
  {
    if 'A' <= c <= 'Z' then (c as int + 32) as char else c
  }

  /** Python's `s.lower()` for ASCII case mapping, character by character. */
  function Lower(s: string): (r: string)
    ensures |r| == |s|
    ensures forall i :: 0 <= i < |s| ==> r[i] == LowerChar(s[i])
  {
    seq(|s|, i requires 0 <= i < |s| => LowerChar(s[i]))
  }

  /** `Lower(s) == "bearer"` holds exactly for the spellings of "bearer" with each
      letter in either case, such as "Bearer" or "bEaReR". */
  lemma LowerIsBearer(s: string)
    ensures Lower(s) == "bearer" <==>
      |s| == 6 && forall i :: 0 <= i < 6 ==> s[i] == "bearer"[i] || s[i] == "BEARER"[i]
  {
    if |s| == 6 && forall i :: 0 <= i < 6 ==> s[i] == "bearer"[i] || s[i] == "BEARER"[i] {
      forall i | 0 <= i < 6 ensures Lower(s)[i] == "bearer"[i] {
        assert s[i] == "bearer"[i] || s[i] == "BEARER"[i];
      }
    }
    if Lower(s) == "bearer" {
      forall i | 0 <= i < 6 ensures s[i] == "bearer"[i] || s[i] == "BEARER"[i] {
        assert LowerChar(s[i]) == "bearer"[i];
      }
    }
  }

  /** A string that lower-cases to a word without spaces has no spaces itself. */
  lemma LowerWithoutSpace(s: string)
    requires ' ' !in Lower(s)
    ensures ' ' !in s
  {
    forall i | 0 <= i < |s| ensures s[i] != ' ' {
      assert Lower(s)[i] == LowerChar(s[i]);
    }
  }

  /** Python's `x in s` for two strings: `x` occurs in `s` as a contiguous piece. */
  predicate OccursIn(x: string, s: string)
    ensures OccursIn(x, s) ==> |x| <= |s|
    decreases |s|
  {
    x <= s || (|s| > 0 && OccursIn(x, s[1..]))
  }

  /** `x` stands in `s` at position `k`. */
  predicate PieceAt(x: string, s: string, k: int)
  {
    0 <= k <= |s| - |x| && s[k..k + |x|] == x
  }

  /** `OccursIn` agrees with the positional definition of a substring. */
  lemma {:induction false} OccursInAtOffset(x: string, s: string)
    ensures OccursIn(x, s) <==> exists k :: PieceAt(x, s, k)
  {
    if x <= s {
      assert PieceAt(x, s, 0);
    } else if |s| > 0 {
      OccursInAtOffset(x, s[1..]);
      if OccursIn(x, s[1..]) {
        var k :| PieceAt(x, s[1..], k);
        assert s[1..][k..k + |x|] == s[k + 1..k + 1 + |x|];
        assert PieceAt(x, s, k + 1);
      }
      assert !PieceAt(x, s, 0);
      forall k | PieceAt(x, s, k) ensures PieceAt(x, s[1..], k - 1) {
        assert s[1..][k - 1..k - 1 + |x|] == s[k..k + |x|];
      }
    }
  }
}
