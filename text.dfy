/** ASCII string rules shared by the normalisers and the matcher: Python's
    `str.strip()`, `str.upper()` and `str.lower()` restricted to ASCII,
    a regular-expression character filter (`re.sub(r"[^...]", "", s)`), and
    `str.split(sep)` with its inverse `sep.join(parts)`. */
module Text {

  /** The ASCII characters Python's `str.isspace` accepts, hence the ones
      `str.strip()` removes: TAB, LF, VT, FF, CR, the four separators
      0x1C..0x1F, and SPACE. */
  predicate IsSpace(c: char) {
    (9 <= c as int <= 13) || (28 <= c as int <= 32)
  }

  predicate IsDigit(c: char) {
    '0' <= c <= '9'
  }

  predicate IsLowerLetter(c: char) {
    'a' <= c <= 'z'
  }

  predicate IsUpperLetter(c: char) {
    'A' <= c <= 'Z'
  }

  predicate AllSpace(s: string) {
    forall i :: 0 <= i < |s| ==> IsSpace(s[i])
  }

  /** No leading and no trailing whitespace. */
  predicate IsTrimmed(s: string) {
    s == [] || (!IsSpace(s[0]) && !IsSpace(s[|s| - 1]))
  }

  predicate NoLowerLetter(s: string) {
    forall i :: 0 <= i < |s| ==> !IsLowerLetter(s[i])
  }

  predicate NoUpperLetter(s: string) {
    forall i :: 0 <= i < |s| ==> !IsUpperLetter(s[i])
  }

  // ---------------------------------------------------------------- strip

  function TrimLeft(s: string): (r: string)
    ensures |r| <= |s| && r == s[|s| - |r|..]
    ensures AllSpace(s[..|s| - |r|])
    ensures r == [] || !IsSpace(r[0])
  {
    if s != [] && IsSpace(s[0]) then
      var t := TrimLeft(s[1..]);
      TrimLeftStep(s, t);
      t
    else s
  }

  /** Dropping one leading space keeps the facts about the rest. */
  lemma TrimLeftStep(s: string, t: string)
    requires s != [] && IsSpace(s[0])
    requires |t| <= |s| - 1 && t == s[1..][|s| - 1 - |t|..]
    requires AllSpace(s[1..][..|s| - 1 - |t|])
    ensures t == s[|s| - |t|..]
    ensures AllSpace(s[..|s| - |t|])
  {
    assert s[1..][..|s| - 1 - |t|] == s[1..|s| - |t|];
    assert s[..|s| - |t|] == [s[0]] + s[1..|s| - |t|];
  }

  function TrimRight(s: string): (r: string)
    ensures |r| <= |s| && r == s[..|r|]
    ensures AllSpace(s[|r|..])
    ensures r == [] || !IsSpace(r[|r| - 1])
  {
    if s != [] && IsSpace(s[|s| - 1]) then
      var t := TrimRight(s[..|s| - 1]);
      TrimRightStep(s, t);
      t
    else s
  }

  /** Dropping one trailing space keeps the facts about the rest. */
  lemma TrimRightStep(s: string, t: string)
    requires s != [] && IsSpace(s[|s| - 1])
    requires |t| <= |s| - 1 && t == s[..|s| - 1][..|t|]
    requires AllSpace(s[..|s| - 1][|t|..])
    ensures t == s[..|t|]
    ensures AllSpace(s[|t|..])
  {
    assert s[..|s| - 1][|t|..] == s[|t|..|s| - 1];
    assert s[|t|..] == s[|t|..|s| - 1] + [s[|s| - 1]];
  }

  /** Python's `s.strip()` on ASCII text. */
  function Trim(s: string): string {
    TrimRight(TrimLeft(s))
  }

  /** `Trim(s)` is `s` with a run of whitespace removed from each end, and no
      further whitespace can be removed from either end. */
  lemma TrimSpec(s: string)
    ensures exists i, j :: 0 <= i <= j <= |s| && Trim(s) == s[i..j] && AllSpace(s[..i]) && AllSpace(s[j..])
    ensures IsTrimmed(Trim(s))
  {
    var i, j := TrimBounds(s);
    TrimEnds(s);
  }

  /** Where the kept part of `Trim(s)` starts and ends in `s`. */
  lemma TrimBounds(s: string) returns (i: nat, j: nat)
    ensures i <= j <= |s| && Trim(s) == s[i..j] && AllSpace(s[..i]) && AllSpace(s[j..])
  {
    var l := TrimLeft(s);
    var r := TrimRight(l);
    i := |s| - |l|;
    j := i + |r|;
    assert l[..|r|] == s[i..j];
    assert s[j..] == l[|r|..];
  }

  lemma TrimEnds(s: string)
    ensures IsTrimmed(Trim(s))
  {
    var l := TrimLeft(s);
    var r := TrimRight(l);
    if r != [] {
      assert r[0] == l[0];
    }
  }

  /** Trimming a trimmed string changes nothing. */
  lemma TrimmedIsFixpoint(s: string)
    requires IsTrimmed(s)
    ensures Trim(s) == s
  {
  }

  /** Trimming twice is trimming once. */
  lemma TrimIdempotent(s: string)
    ensures Trim(Trim(s)) == Trim(s)
  {
    TrimSpec(s);
    TrimmedIsFixpoint(Trim(s));
  }

  // ----------------------------------------------------------- upper/lower

  function UpperChar(c: char): (r: char) {
    if IsLowerLetter(c) then (c as int - 32) as char else c
  }

  function LowerChar(c: char): (r: char) {
    if IsUpperLetter(c) then (c as int + 32) as char else c
  }

  /** Python's `s.upper()` on ASCII: maps a..z to A..Z, keeps every other character. */
  function Upper(s: string): (r: string)
    ensures |r| == |s|
    ensures NoLowerLetter(r)
    ensures forall i :: 0 <= i < |s| ==> (IsLowerLetter(s[i]) ==> r[i] as int == s[i] as int - 32)
    ensures forall i :: 0 <= i < |s| ==> (!IsLowerLetter(s[i]) ==> r[i] == s[i])
  {
    seq(|s|, i requires 0 <= i < |s| => UpperChar(s[i]))
  }

  /** Python's `s.lower()` on ASCII: maps A..Z to a..z, keeps every other character. */
  function Lower(s: string): (r: string)
    ensures |r| == |s|
    ensures NoUpperLetter(r)
    ensures forall i :: 0 <= i < |s| ==> (IsUpperLetter(s[i]) ==> r[i] as int == s[i] as int + 32)
    ensures forall i :: 0 <= i < |s| ==> (!IsUpperLetter(s[i]) ==> r[i] == s[i])
  {
    seq(|s|, i requires 0 <= i < |s| => LowerChar(s[i]))
  }

  /** Case mapping leaves whitespace where it is, so it commutes with strip. */
  lemma {:induction false} TrimLeftUpper(s: string)
    ensures TrimLeft(Upper(s)) == Upper(TrimLeft(s))
    decreases |s|
  {
    if s != [] {
      var u := Upper(s);
      assert IsSpace(u[0]) <==> IsSpace(s[0]);
      if IsSpace(s[0]) {
        assert u[1..] == Upper(s[1..]);
        TrimLeftUpper(s[1..]);
      }
    }
  }

  lemma {:induction false} TrimRightUpper(s: string)
    ensures TrimRight(Upper(s)) == Upper(TrimRight(s))
    decreases |s|
  {
    if s != [] && IsSpace(s[|s| - 1]) {
      assert Upper(s)[..|s| - 1] == Upper(s[..|s| - 1]);
      TrimRightUpper(s[..|s| - 1]);
    }
  }

  /** `s.upper().strip()` (the matcher's order) equals `s.strip().upper()`
      (the invoice normaliser's order). */
  lemma UpperTrimCommute(s: string)
    ensures Trim(Upper(s)) == Upper(Trim(s))
  {
    TrimLeftUpper(s);
    TrimRightUpper(TrimLeft(s));
  }

  lemma LowerIdempotent(s: string)
    ensures Lower(Lower(s)) == Lower(s)
  {
  }

  /** Case mapping changes no character's whitespace status. */
  lemma UpperKeepsTrimmed(s: string)
    requires IsTrimmed(s)
    ensures IsTrimmed(Upper(s))
  {
  }

  lemma LowerKeepsTrimmed(s: string)
    requires IsTrimmed(s)
    ensures IsTrimmed(Lower(s))
  {
  }

  // --------------------------------------------------------------- filter

  /** `re.sub("[^K]", "", s)`: the characters of `s` that `keep` accepts, in order. */
  function Filter(s: string, keep: char -> bool): (r: string)
    ensures |r| <= |s|
    ensures forall i :: 0 <= i < |r| ==> keep(r[i])
    decreases |s|
  {
    if s == [] then []
    else
      var t := Filter(s[1..], keep);
      if keep(s[0]) then [s[0]] + t else t
  }

  /** The filter keeps every occurrence of every accepted character and no
      occurrence of any other. */
  lemma {:induction false} FilterCounts(s: string, keep: char -> bool)
    ensures forall c :: keep(c) ==> multiset(Filter(s, keep))[c] == multiset(s)[c]
    ensures forall c :: !keep(c) ==> multiset(Filter(s, keep))[c] == 0
    decreases |s|
  {
    if s != [] {
      FilterCounts(s[1..], keep);
      assert s == [s[0]] + s[1..];
    }
  }

  /** `sub` is obtained from `s` by deleting elements. */
  predicate IsSubsequence<T(==)>(sub: seq<T>, s: seq<T>)
    decreases |s|
  {
    if sub == [] then true
    else if s == [] then false
    else (sub[0] == s[0] && IsSubsequence(sub[1..], s[1..])) || IsSubsequence(sub, s[1..])
  }

  lemma {:induction false} FilterIsSubsequence(s: string, keep: char -> bool)
    ensures IsSubsequence(Filter(s, keep), s)
    decreases |s|
  {
    if s != [] {
      FilterIsSubsequence(s[1..], keep);
    }
  }

  /** A string whose every character is kept passes the filter unchanged. */
  lemma {:induction false} FilterKeepsAllKept(s: string, keep: char -> bool)
    requires forall i :: 0 <= i < |s| ==> keep(s[i])
    ensures Filter(s, keep) == s
    decreases |s|
  {
    if s != [] {
      FilterKeepsAllKept(s[1..], keep);
    }
  }

  /** Filtering twice is filtering once. */
  lemma FilterIdempotent(s: string, keep: char -> bool)
    ensures Filter(Filter(s, keep), keep) == Filter(s, keep)
  {
    FilterKeepsAllKept(Filter(s, keep), keep);
  }

  // --------------------------------------------------------- split / join

  /** Python's `s.split(d)`: the maximal pieces between occurrences of `d`;
      always at least one piece (`"".split(",") == [""]`). */
  function Split(s: string, d: char): (r: seq<string>)
    ensures |r| >= 1
    decreases |s|
  {
    if s == [] then [""]
    else
      var rest := Split(s[1..], d);
      if s[0] == d then [""] + rest
      else [[s[0]] + rest[0]] + rest[1..]
  }

  /** Python's `d.join(parts)` for a non-empty list. */
  function Join(parts: seq<string>, d: char): string
    requires |parts| >= 1
    decreases |parts|
  {
    if |parts| == 1 then parts[0] else parts[0] + [d] + Join(parts[1..], d)
  }

  predicate NoPieceHas(parts: seq<string>, d: char) {
    forall k :: 0 <= k < |parts| ==> d !in parts[k]
  }

  /** The number of occurrences of `d` in `s`. */
  function Occurrences(s: string, d: char): nat {
    multiset(s)[d]
  }

  /** Splitting loses nothing: joining the pieces restores the text. */
  lemma {:induction false} SplitJoin(s: string, d: char)
    ensures Join(Split(s, d), d) == s
    decreases |s|
  {
    if s != [] {
      SplitJoin(s[1..], d);
      var rest := Split(s[1..], d);
      var r := Split(s, d);
      assert s == [s[0]] + s[1..];
      if s[0] == d {
        assert r == [""] + rest && r[1..] == rest;
        assert Join(r, d) == [d] + Join(rest, d);
      } else if |rest| == 1 {
        assert r == [[s[0]] + rest[0]];
      } else {
        assert r[0] == [s[0]] + rest[0] && r[1..] == rest[1..];
        calc {
          Join(r, d);
          r[0] + [d] + Join(r[1..], d);
          [s[0]] + (rest[0] + [d] + Join(rest[1..], d));
          [s[0]] + Join(rest, d);
        }
      }
    }
  }

  /** No piece of a split holds the separator. */
  lemma {:induction false} SplitPiecesFree(s: string, d: char)
    ensures NoPieceHas(Split(s, d), d)
    decreases |s|
  {
    if s != [] {
      SplitPiecesFree(s[1..], d);
      var rest := Split(s[1..], d);
      var r := Split(s, d);
      forall k | 0 <= k < |r|
        ensures d !in r[k]
      {
        if s[0] != d {
          if k > 0 {
            assert r[k] == rest[k];
          } else {
            assert r[0] == [s[0]] + rest[0];
          }
        } else if k > 0 {
          assert r[k] == rest[k - 1];
        }
      }
    }
  }

  /** A split has one piece more than there are separators. */
  lemma {:induction false} SplitCount(s: string, d: char)
    ensures |Split(s, d)| == Occurrences(s, d) + 1
    decreases |s|
  {
    if s != [] {
      SplitCount(s[1..], d);
      assert s == [s[0]] + s[1..];
      assert multiset(s) == multiset([s[0]]) + multiset(s[1..]);
    }
  }

  /** Joining pieces that do not hold the separator and splitting again gives
      the same pieces back. */
  lemma {:induction false} JoinSplit(parts: seq<string>, d: char)
    requires |parts| >= 1 && NoPieceHas(parts, d)
    ensures Split(Join(parts, d), d) == parts
    decreases |parts|, |parts[0]|
  {
    if |parts| == 1 {
      SplitPlain(parts[0], [], d);
      assert parts[0] + [] == parts[0];
    } else {
      var tail := Join(parts[1..], d);
      JoinSplit(parts[1..], d);
      SplitPlainThenSep(parts[0], tail, d);
      assert [parts[0]] + parts[1..] == parts;
    }
  }

  /** A separator-free prefix is glued onto the first piece of what follows. */
  lemma {:induction false} SplitPlain(p: string, rest: string, d: char)
    requires d !in p
    ensures Split(p + rest, d) == [p + Split(rest, d)[0]] + Split(rest, d)[1..]
    decreases |p|
  {
    if p != [] {
      assert (p + rest)[1..] == p[1..] + rest;
      SplitPlain(p[1..], rest, d);
      assert [p[0]] + (p[1..] + Split(rest, d)[0]) == p + Split(rest, d)[0];
    } else {
      var r := Split(rest, d);
      assert p + rest == rest;
      assert p + r[0] == r[0];
      assert [r[0]] + r[1..] == r;
    }
  }

  lemma SplitPlainThenSep(p: string, tail: string, d: char)
    requires d !in p
    ensures Split(p + [d] + tail, d) == [p] + Split(tail, d)
  {
    assert p + [d] + tail == p + ([d] + tail);
    SplitPlain(p, [d] + tail, d);
    assert ([d] + tail)[1..] == tail;
    assert Split([d] + tail, d) == [""] + Split(tail, d);
    assert p + "" == p;
  }
}
