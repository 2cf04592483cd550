/** Strings as the source treats them: Python's `str.strip()`, `str < str`
    (code-point lexicographic order, used on dates, finish times and exercise
    names), `str.split(",")` / `",".join(...)`, `str.isdigit()` / `int(...)`,
    and iteration over `sorted(d.items())`. */
module Text {

  // ---------------------------------------------------------------------------
  // Whitespace and strip()

  /** The characters Python's `str.strip()` removes: those for which
      `str.isspace()` holds, ASCII separators U+001C to U+001F included. */
  predicate IsSpace(c: char) {
    c == ' ' || c == '\t' || c == '\n' || c == '\r' || c == '\U{000B}' || c == '\U{000C}' ||
    ('\U{001C}' <= c <= '\U{001F}') || c == '\U{0085}' || c == '\U{00A0}' || c == '\U{1680}' ||
    ('\U{2000}' <= c <= '\U{200A}') || c == '\U{2028}' || c == '\U{2029}' || c == '\U{202F}' ||
    c == '\U{205F}' || c == '\U{3000}'
  }

  function StripLeft(s: string): (r: string)
    ensures |r| <= |s|
    ensures r == [] || !IsSpace(r[0])
  {
    if s == [] || !IsSpace(s[0]) then s else StripLeft(s[1..])
  }

  function StripRight(s: string): (r: string)
    ensures |r| <= |s|
    ensures forall k :: 0 <= k < |r| ==> r[k] == s[k]
    ensures r == [] || !IsSpace(r[|r| - 1])
  {
    if s == [] || !IsSpace(s[|s| - 1]) then s else StripRight(s[..|s| - 1])
  }

  /** `s.strip()`: the longest infix of `s` without leading or trailing whitespace. */
  function Strip(s: string): (r: string)
    ensures |r| <= |s|
    ensures r == [] || (!IsSpace(r[0]) && !IsSpace(r[|r| - 1]))
  {
    StripRight(StripLeft(s))
  }

  /** What `lstrip` keeps is a suffix, and what it removes is whitespace. */
  lemma {:induction false} StripLeftSplits(s: string)
    ensures StripLeft(s) == s[|s| - |StripLeft(s)|..]
    ensures forall k :: 0 <= k < |s| - |StripLeft(s)| ==> IsSpace(s[k])
  {
    if s != [] && IsSpace(s[0]) {
      var t := s[1..];
      StripLeftSplits(t);
      assert t[|t| - |StripLeft(t)|..] == s[|s| - |StripLeft(t)|..];
      forall k | 0 <= k < |s| - |StripLeft(t)| ensures IsSpace(s[k]) {
        if k > 0 {
          assert s[k] == t[k - 1];
        }
      }
    }
  }

  /** What `rstrip` keeps is a prefix, and what it removes is whitespace. */
  lemma {:induction false} StripRightSplits(s: string)
    ensures StripRight(s) == s[..|StripRight(s)|]
    ensures forall k :: |StripRight(s)| <= k < |s| ==> IsSpace(s[k])
  {
    if s != [] && IsSpace(s[|s| - 1]) {
      var t := s[..|s| - 1];
      StripRightSplits(t);
      assert t[..|StripRight(t)|] == s[..|StripRight(t)|];
    }
  }

  /** `strip()` keeps the middle of the string: the result is the infix
      between a leading and a trailing run of whitespace. */
  lemma StripSplits(s: string)
    ensures exists i, j :: 0 <= i <= j <= |s| && Strip(s) == s[i..j] &&
              (forall k :: 0 <= k < i ==> IsSpace(s[k])) &&
              (forall k :: j <= k < |s| ==> IsSpace(s[k]))
  {
    var left := StripLeft(s);
    StripLeftSplits(s);
    StripRightSplits(left);
    var right := StripRight(left);
    var i := |s| - |left|;
    var j := i + |right|;
    assert left == s[i..];
    assert right == left[..|right|];
    assert Strip(s) == right;
    assert right == s[i..j];
    assert forall k :: 0 <= k < i ==> IsSpace(s[k]);
    forall k | j <= k < |s| ensures IsSpace(s[k]) {
      assert s[k] == left[k - i];
    }
  }

  /** A string that neither starts nor ends with whitespace is left alone,
      so stripping twice is the same as stripping once. */
  lemma StripKeepsTrimmed(s: string)
    requires s == [] || (!IsSpace(s[0]) && !IsSpace(s[|s| - 1]))
    ensures Strip(s) == s
  {
  }

  lemma StripIdempotent(s: string)
    ensures Strip(Strip(s)) == Strip(s)
  {
    StripKeepsTrimmed(Strip(s));
  }

  /** Python truthiness of a string: only the empty string is falsy. */
  function Or(a: string, b: string): (r: string)
    ensures r == "" <==> a == "" && b == ""
    ensures a != "" ==> r == a
    ensures a == "" ==> r == b
  {
    if a != "" then a else b
  }

  // ---------------------------------------------------------------------------
  // Python's ordering on str

  /** `a < b` on Python strings: code-point lexicographic order. */
  predicate LexLess(a: string, b: string) {
    if a == [] then b != []
    else if b == [] then false
    else if a[0] != b[0] then a[0] < b[0]
    else LexLess(a[1..], b[1..])
  }

  predicate LexLe(a: string, b: string) {
    a == b || LexLess(a, b)
  }

  lemma {:induction false} LexLessIrreflexive(a: string)
    ensures !LexLess(a, a)
  {
    if a != [] {
      LexLessIrreflexive(a[1..]);
    }
  }

  lemma {:induction false} LexLessAsymmetric(a: string, b: string)
    ensures !(LexLess(a, b) && LexLess(b, a))
  {
    if a != [] && b != [] && a[0] == b[0] {
      LexLessAsymmetric(a[1..], b[1..]);
    }
  }

  lemma {:induction false} LexLessTransitive(a: string, b: string, c: string)
    requires LexLess(a, b) && LexLess(b, c)
    ensures LexLess(a, c)
  {
    if a != [] && b != [] && c != [] && a[0] == b[0] && b[0] == c[0] {
      LexLessTransitive(a[1..], b[1..], c[1..]);
    }
  }

  lemma {:induction false} LexLessTotal(a: string, b: string)
    requires a != b
    ensures LexLess(a, b) || LexLess(b, a)
  {
    if a != [] && b != [] && a[0] == b[0] {
      assert a == [a[0]] + a[1..] && b == [b[0]] + b[1..];
      LexLessTotal(a[1..], b[1..]);
    }
  }

  lemma LexLeTransitive(a: string, b: string, c: string)
    requires LexLe(a, b) && LexLe(b, c)
    ensures LexLe(a, c)
  {
    if a != b && b != c {
      LexLessTransitive(a, b, c);
    }
  }

  /** `not (a < b)` in Python means `b <= a`. */
  lemma NotLessIsGreaterOrEqual(a: string, b: string)
    ensures !LexLess(a, b) <==> LexLe(b, a)
  {
    if a != b {
      LexLessTotal(a, b);
      LexLessAsymmetric(a, b);
    } else {
      LexLessIrreflexive(a);
    }
  }

  // ---------------------------------------------------------------------------
  // sorted(d.items()) for a dictionary with string keys

  predicate StrictlyAscending(s: seq<string>) {
    forall i, j :: 0 <= i < j < |s| ==> LexLess(s[i], s[j])
  }

  /** Every non-empty finite set of strings has a least element. */
  lemma {:induction false} MinimumExists(s: set<string>)
    requires s != {}
    ensures exists m :: m in s && forall k :: k in s ==> LexLe(m, k)
  {
    var y :| y in s;
    var rest := s - {y};
    if rest == {} {
      forall k | k in s ensures LexLe(y, k) {
        assert k !in rest;
      }
    } else {
      MinimumExists(rest);
      var m :| m in rest && forall k :: k in rest ==> LexLe(m, k);
      if LexLess(y, m) {
        forall k | k in s ensures LexLe(y, k) {
          if k != y {
            assert k in rest;
            LexLeTransitive(y, m, k);
          }
        }
      } else {
        assert m != y;
        LexLessTotal(y, m);
        forall k | k in s ensures LexLe(m, k) {
          if k != y {
            assert k in rest;
          }
        }
        assert m in s;
      }
    }
  }

  /** The keys of a dictionary in the order `sorted(d.items())` visits them. */
  method SortedKeys(keys: set<string>) returns (r: seq<string>)
    ensures StrictlyAscending(r)
    ensures forall k :: k in r <==> k in keys
    ensures |r| == |keys|
  {
    r := [];
    var rest := keys;
    while rest != {}
      invariant StrictlyAscending(r)
      invariant forall k :: k in keys <==> k in r || k in rest
      invariant forall i, k :: 0 <= i < |r| && k in rest ==> LexLess(r[i], k)
      invariant |r| + |rest| == |keys|
      decreases rest
    {
      MinimumExists(rest);
      var m :| m in rest && forall k :: k in rest ==> LexLe(m, k);
      forall i, k | 0 <= i < |r| + 1 && k in rest - {m}
        ensures LexLess((r + [m])[i], k)
      {
        if i < |r| {
          assert LexLess(r[i], k);
        }
      }
      r := r + [m];
      rest := rest - {m};
    }
    SortedKeysUnique(r, keys);
  }

  /** A strictly ascending sequence has no repeated element, so its length is
      the size of its set of elements. */
  lemma {:induction false} SortedKeysUnique(r: seq<string>, keys: set<string>)
    requires StrictlyAscending(r)
    requires forall k :: k in r <==> k in keys
    ensures |r| == |keys|
  {
    if r != [] {
      var last := r[|r| - 1];
      var init := r[..|r| - 1];
      forall k | k in init ensures k != last {
        var i :| 0 <= i < |init| && init[i] == k;
        assert LexLess(r[i], r[|r| - 1]);
        LexLessIrreflexive(k);
      }
      assert forall k :: k in init <==> k in keys - {last} by {
        assert r == init + [last];
      }
      SortedKeysUnique(init, keys - {last});
    }
  }

  /** Two strictly ascending sequences with the same elements are equal: the
      iteration order of `sorted(...)` is determined by the keys alone. */
  lemma {:induction false} AscendingUnique(a: seq<string>, b: seq<string>)
    requires StrictlyAscending(a) && StrictlyAscending(b)
    requires forall k :: k in a <==> k in b
    ensures a == b
  {
    assert a != [] ==> a[0] in a;
    assert b != [] ==> b[0] in b;
    if a != [] && b != [] {
      if a[0] != b[0] {
        assert b[0] in b && a[0] in a;
        var ia :| 0 <= ia < |a| && a[ia] == b[0];
        var ib :| 0 <= ib < |b| && b[ib] == a[0];
        assert ia > 0 && ib > 0;
        assert LexLess(a[0], b[0]) && LexLess(b[0], a[0]);
        LexLessAsymmetric(a[0], b[0]);
      }
      forall k ensures k in a[1..] <==> k in b[1..] {
        if k in a[1..] {
          var i :| 1 <= i < |a| && a[i] == k;
          assert LexLess(a[0], k);
          LexLessIrreflexive(k);
          assert k in b;
        }
        if k in b[1..] {
          var i :| 1 <= i < |b| && b[i] == k;
          assert LexLess(b[0], k);
          LexLessIrreflexive(k);
          assert k in a;
        }
      }
      AscendingUnique(a[1..], b[1..]);
      assert a == [a[0]] + a[1..] && b == [b[0]] + b[1..];
    }
  }

  // ---------------------------------------------------------------------------
  // split(",") and ",".join(...)

  /** `s.split(",")`: always at least one piece, pieces hold no comma. */
  function Split(s: string): (r: seq<string>)
    ensures |r| >= 1
  {
    if s == [] then [""]
    else
      var rest := Split(s[1..]);
      if s[0] == ',' then [""] + rest else [[s[0]] + rest[0]] + rest[1..]
  }

  /** `",".join(parts)` for a non-empty list. */
  function Join(parts: seq<string>): string
    requires |parts| >= 1
  {
    if |parts| == 1 then parts[0] else parts[0] + "," + Join(parts[1..])
  }

  function CommaCount(s: string): nat {
    if s == [] then 0 else (if s[0] == ',' then 1 else 0) + CommaCount(s[1..])
  }

  predicate CommaFree(parts: seq<string>) {
    forall k :: 0 <= k < |parts| ==> ',' !in parts[k]
  }

  /** Splitting yields one piece more than there are commas, and no piece
      holds a comma. */
  lemma {:induction false} SplitShape(s: string)
    ensures |Split(s)| == CommaCount(s) + 1
    ensures CommaFree(Split(s))
  {
    if s != [] {
      SplitShape(s[1..]);
      var rest := Split(s[1..]);
      if s[0] != ',' {
        assert ',' !in [s[0]] + rest[0];
        assert forall k :: 1 <= k < |rest| ==> ',' !in rest[k];
      }
    }
  }

  /** Joining the pieces of a split gives the original string back. */
  lemma {:induction false} JoinSplit(s: string)
    ensures Join(Split(s)) == s
  {
    if s != [] {
      JoinSplit(s[1..]);
      var rest := Split(s[1..]);
      if s[0] == ',' {
        assert Split(s) == [""] + rest;
        assert Split(s)[1..] == rest;
      } else {
        var r := [[s[0]] + rest[0]] + rest[1..];
        if |rest| == 1 {
          assert Join(r) == [s[0]] + rest[0];
        } else {
          assert r[1..] == rest[1..];
          assert Join(r) == [s[0]] + rest[0] + "," + Join(rest[1..]);
          assert Join(rest) == rest[0] + "," + Join(rest[1..]);
        }
        assert s == [s[0]] + s[1..];
      }
    }
  }

  lemma {:induction false} SplitPieceNoComma(p: string)
    requires ',' !in p
    ensures Split(p) == [p]
  {
    if p != [] {
      SplitPieceNoComma(p[1..]);
      assert [p[0]] + p[1..] == p;
    }
  }

  lemma {:induction false} SplitPrepend(p: string, t: string)
    requires ',' !in p
    ensures Split(p + "," + t) == [p] + Split(t)
  {
    if p == [] {
      assert p + "," + t == [','] + t;
      assert (p + "," + t)[1..] == t;
    } else {
      assert (p + "," + t)[1..] == p[1..] + "," + t;
      SplitPrepend(p[1..], t);
      assert [p[0]] + p[1..] == p;
    }
  }

  /** Splitting a join of comma-free pieces gives the pieces back. */
  lemma {:induction false} SplitJoin(parts: seq<string>)
    requires |parts| >= 1 && CommaFree(parts)
    ensures Split(Join(parts)) == parts
  {
    if |parts| == 1 {
      SplitPieceNoComma(parts[0]);
    } else {
      assert CommaFree(parts[1..]) by {
        forall k | 0 <= k < |parts| - 1 ensures ',' !in parts[1..][k] {
          assert parts[1..][k] == parts[k + 1];
        }
      }
      SplitJoin(parts[1..]);
      assert ',' !in parts[0];
      SplitPrepend(parts[0], Join(parts[1..]));
      assert parts == [parts[0]] + parts[1..];
    }
  }

  /** `lst[i] if i < len(lst) else ""`: index-aligned access to a CSV column. */
  function At(parts: seq<string>, i: nat): (r: string)
    ensures i < |parts| ==> r == parts[i]
    ensures i >= |parts| ==> r == ""
  {
    if i < |parts| then parts[i] else ""
  }

  // ---------------------------------------------------------------------------
  // isdigit() and int()

  predicate IsDigit(c: char) {
    '0' <= c <= '9'
  }

  /** `s.isdigit()` for ASCII digits: non-empty and every character a digit. */
  predicate IsDigits(s: string) {
    s != [] && forall k :: 0 <= k < |s| ==> IsDigit(s[k])
  }

  /** `int(s)` on a string of decimal digits (most significant first). */
  function DigitsValue(s: string): (n: nat)
    requires forall k :: 0 <= k < |s| ==> IsDigit(s[k])
  {
    if s == [] then 0
    else
      var d := s[|s| - 1] as int - '0' as int;
      assert IsDigit(s[|s| - 1]);
      10 * DigitsValue(s[..|s| - 1]) + d
  }
}
