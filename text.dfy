/**
 * The Python string operations the servers and the client apply to their
 * inputs: `str.strip()`, `str.split(sep)` with a one-character separator,
 * `sep.join(parts)`, `str.replace(old, new)`, `str(int)`, `int(str)` and the
 * ASCII part of `str.lower()`.
 */
module Text {
  import opened Wrappers

  /** The characters for which Python's `str.isspace()` holds, i.e. those `str.strip()` removes. */
  predicate IsSpace(c: char) {
    c == ' ' || ('\t' <= c <= '\r') || ('\U{1C}' <= c <= '\U{1F}')
    || c == '\U{85}' || c == '\U{A0}' || c == '\U{1680}'
    || ('\U{2000}' <= c <= '\U{200A}') || c == '\U{2028}' || c == '\U{2029}'
    || c == '\U{202F}' || c == '\U{205F}' || c == '\U{3000}'
  }

  /** `s.lstrip()`: drops the leading whitespace. */
  function TrimStart(s: string): (r: string)
    ensures |r| <= |s|
  {
    if s != [] && IsSpace(s[0]) then TrimStart(s[1..]) else s
  }

  /** `s.rstrip()`: drops the trailing whitespace. */
  function TrimEnd(s: string): (r: string)
    ensures |r| <= |s|
  {
    if s != [] && IsSpace(s[|s| - 1]) then TrimEnd(s[..|s| - 1]) else s
  }

  /**
   * What `lstrip()` leaves is a suffix of `s` that does not start with
   * whitespace, everything before it being whitespace.
   */
  lemma {:induction false} TrimStartShape(s: string)
    ensures var r := TrimStart(s);
            r == s[|s| - |r|..]
            && (forall i :: 0 <= i < |s| - |r| ==> IsSpace(s[i]))
            && (r == [] || !IsSpace(r[0]))
  {
    if s != [] && IsSpace(s[0]) {
      TrimStartShape(s[1..]);
      var r := TrimStart(s);
      assert s[1..][|s| - 1 - |r|..] == s[|s| - |r|..];
      forall i | 1 <= i < |s| - |r| ensures IsSpace(s[i]) {
        assert s[i] == s[1..][i - 1];
      }
    }
  }

  /**
   * What `rstrip()` leaves is a prefix of `s` that does not end with
   * whitespace, everything after it being whitespace.
   */
  lemma {:induction false} TrimEndShape(s: string)
    ensures var r := TrimEnd(s);
            r == s[..|r|]
            && (forall i :: |r| <= i < |s| ==> IsSpace(s[i]))
            && (r == [] || !IsSpace(r[|r| - 1]))
  {
    if s != [] && IsSpace(s[|s| - 1]) {
      var init := s[..|s| - 1];
      TrimEndShape(init);
      var r := TrimEnd(s);
      assert init[..|r|] == s[..|r|];
      forall i | |r| <= i < |s| - 1 ensures IsSpace(s[i]) {
        assert s[i] == init[i];
      }
    }
  }

  /** `s.strip()`. */
  function Strip(s: string): (r: string)
    ensures |r| <= |s|
  {
    TrimEnd(TrimStart(s))
  }

  /** The number of whitespace characters `s.strip()` removes from the front of `s`. */
  function LeadingSpace(s: string): nat {
    |s| - |TrimStart(s)|
  }

  /**
   * `s.strip()` is the slice of `s` that neither starts nor ends with
   * whitespace, everything outside it being whitespace.
   */
  lemma StripShape(s: string)
    ensures var r := Strip(s);
            LeadingSpace(s) + |r| <= |s|
            && r == s[LeadingSpace(s)..LeadingSpace(s) + |r|]
            && (forall i :: 0 <= i < LeadingSpace(s) ==> IsSpace(s[i]))
            && (forall i :: LeadingSpace(s) + |r| <= i < |s| ==> IsSpace(s[i]))
            && (r == [] || (!IsSpace(r[0]) && !IsSpace(r[|r| - 1])))
  {
    var t := TrimStart(s);
    var r := Strip(s);
    var k := LeadingSpace(s);
    TrimStartShape(s);
    TrimEndShape(t);
    assert r == t[..|r|] == s[k..k + |r|];
    forall i | k + |r| <= i < |s| ensures IsSpace(s[i]) {
      assert s[i] == t[i - k];
    }
    if r != [] {
      assert r[0] == t[0];
    }
  }

  /** A string whose `strip()` is empty, i.e. a falsy `s.strip()` in Python. */
  predicate IsBlank(s: string) {
    Strip(s) == []
  }

  /** A string that neither starts nor ends with whitespace is its own `strip()`. */
  lemma StripWithoutEdgeSpace(s: string)
    requires s != [] && !IsSpace(s[0]) && !IsSpace(s[|s| - 1])
    ensures Strip(s) == s
  {
  }

  /** Stripping twice is stripping once. */
  lemma StripIdempotent(s: string)
    ensures Strip(Strip(s)) == Strip(s)
  {
    StripShape(s);
    if Strip(s) != [] {
      StripWithoutEdgeSpace(Strip(s));
    }
  }

  /** A string is blank exactly when every character of it is whitespace. */
  lemma BlankIffAllSpace(s: string)
    ensures IsBlank(s) <==> forall i :: 0 <= i < |s| ==> IsSpace(s[i])
  {
    StripShape(s);
    if Strip(s) != [] {
      assert s[LeadingSpace(s)] == Strip(s)[0];
    }
  }

  /** A character that is a decimal digit `0`-`9`. */
  predicate IsDigit(c: char) {
    '0' <= c <= '9'
  }

  /** A non-empty run of decimal digits. */
  predicate IsDigits(s: string) {
    s != [] && forall i :: 0 <= i < |s| ==> IsDigit(s[i])
  }

  /**
   * `s.split(sep)` for a one-character separator: the fields between
   * separators, empty ones included, so one more field than separators.
   */
  function Split(s: string, sep: char): (r: seq<string>)
    ensures r != []
    ensures forall i :: 0 <= i < |r| ==> sep !in r[i]
  {
    if s == [] then [[]]
    else
      assert s == [s[0]] + s[1..];
      var rest := Split(s[1..], sep);
      if s[0] == sep then [[]] + rest
      else [[s[0]] + rest[0]] + rest[1..]
  }

  /** There is one more field than there are separators. */
  lemma {:induction false} SplitCount(s: string, sep: char)
    ensures |Split(s, sep)| == multiset(s)[sep] + 1
  {
    if s != [] {
      SplitCount(s[1..], sep);
      assert s == [s[0]] + s[1..];
      assert multiset(s) == multiset([s[0]]) + multiset(s[1..]);
    }
  }

  /** `sep.join(parts)`. */
  function Join(parts: seq<string>, sep: string): string {
    if parts == [] then []
    else if |parts| == 1 then parts[0]
    else parts[0] + sep + Join(parts[1..], sep)
  }

  /** Putting an empty field in front of a join adds one separator in front. */
  lemma JoinEmptyFirst(parts: seq<string>, sep: string)
    requires parts != []
    ensures Join([[]] + parts, sep) == sep + Join(parts, sep)
  {
    assert ([[]] + parts)[1..] == parts;
  }

  /** Extending the first field of a join by one character extends the join by it. */
  lemma JoinExtendFirst(a: char, parts: seq<string>, sep: string)
    requires parts != []
    ensures Join([[a] + parts[0]] + parts[1..], sep) == [a] + Join(parts, sep)
  {
    var q := [[a] + parts[0]] + parts[1..];
    assert q[1..] == parts[1..];
    if |parts| > 1 {
      assert Join(parts, sep) == parts[0] + sep + Join(parts[1..], sep);
    }
  }

  /** Joining the fields of `s.split(c)` with `c` gives `s` back. */
  lemma {:induction false} JoinSplit(s: string, c: char)
    ensures Join(Split(s, c), [c]) == s
  {
    if s != [] {
      var rest := Split(s[1..], c);
      JoinSplit(s[1..], c);
      assert s == [s[0]] + s[1..];
      if s[0] == c {
        JoinEmptyFirst(rest, [c]);
      } else {
        JoinExtendFirst(s[0], rest, [c]);
      }
    }
  }

  /** A string without the separator is a single field. */
  lemma {:induction false} SplitWithoutSeparator(x: string, c: char)
    requires c !in x
    ensures Split(x, c) == [x]
  {
    if x != [] {
      SplitWithoutSeparator(x[1..], c);
      assert x == [x[0]] + x[1..];
    }
  }

  /** A leading separator closes an empty first field. */
  lemma SplitSeparatorHead(c: char, t: string)
    ensures Split([c] + t, c) == [[]] + Split(t, c)
  {
    assert ([c] + t)[1..] == t;
  }

  /** A leading character other than the separator opens the first field. */
  lemma SplitOtherHead(a: char, t: string, c: char)
    requires a != c
    ensures Split([a] + t, c) == [[a] + Split(t, c)[0]] + Split(t, c)[1..]
  {
    assert ([a] + t)[1..] == t;
  }

  /** The first separator of `x + [c] + y` ends the first field. */
  lemma {:induction false} SplitAtFirstSeparator(x: string, c: char, y: string)
    requires c !in x
    ensures Split(x + [c] + y, c) == [x] + Split(y, c)
  {
    if x == [] {
      assert x + [c] + y == [c] + y;
      SplitSeparatorHead(c, y);
    } else {
      var t := x[1..] + [c] + y;
      var rest := Split(t, c);
      assert rest == [x[1..]] + Split(y, c) by {
        assert c !in x[1..];
        SplitAtFirstSeparator(x[1..], c, y);
      }
      assert Split(x + [c] + y, c) == [[x[0]] + rest[0]] + rest[1..] by {
        assert x + [c] + y == [x[0]] + t;
        assert x[0] != c;
        SplitOtherHead(x[0], t, c);
      }
      assert [[x[0]] + rest[0]] + rest[1..] == [x] + Split(y, c) by {
        assert [x[0]] + x[1..] == x;
      }
    }
  }

  /** Splitting a join of separator-free fields gives the fields back. */
  lemma {:induction false} SplitJoin(parts: seq<string>, c: char)
    requires parts != []
    requires forall i :: 0 <= i < |parts| ==> c !in parts[i]
    ensures Split(Join(parts, [c]), c) == parts
  {
    if |parts| == 1 {
      SplitWithoutSeparator(parts[0], c);
    } else {
      SplitJoin(parts[1..], c);
      SplitAtFirstSeparator(parts[0], c, Join(parts[1..], [c]));
      assert [parts[0]] + parts[1..] == parts;
    }
  }

  /** `pat` occurs in `t` starting at index `i`. */
  predicate OccursAt(t: string, pat: string, i: int) {
    0 <= i && i + |pat| <= |t| && t[i..i + |pat|] == pat
  }

  /**
   * `s.replace(pat, rep)`: every occurrence of `pat`, scanning left to right
   * without overlap, replaced by `rep`.
   */
  function Replace(s: string, pat: string, rep: string): string
    requires pat != []
    decreases |s|
  {
    if |s| < |pat| then s
    else if s[..|pat|] == pat then rep + Replace(s[|pat|..], pat, rep)
    else [s[0]] + Replace(s[1..], pat, rep)
  }

  /** A string in which `pat` does not occur is left unchanged by `replace`. */
  lemma {:induction false} ReplaceWithoutOccurrence(s: string, pat: string, rep: string)
    requires pat != []
    requires forall i :: !OccursAt(s, pat, i)
    ensures Replace(s, pat, rep) == s
    decreases |s|
  {
    if |s| >= |pat| {
      assert !OccursAt(s, pat, 0);
      forall i ensures !OccursAt(s[1..], pat, i) {
        if 0 <= i && i + |pat| <= |s| - 1 {
          assert s[1..][i..i + |pat|] == s[i + 1..i + 1 + |pat|];
          assert !OccursAt(s, pat, i + 1);
        }
      }
      ReplaceWithoutOccurrence(s[1..], pat, rep);
      assert [s[0]] + s[1..] == s;
    }
  }

  /**
   * Up to the first character of `rep` it writes, `replace` copies its input:
   * a prefix of the result either holds a character of `rep` or is a prefix of `u`.
   */
  lemma {:induction false} ReplaceCopiesPrefix(u: string, pat: string, rep: string, k: nat)
    requires pat != [] && rep != []
    requires k <= |Replace(u, pat, rep)|
    ensures (exists j :: 0 <= j < k && Replace(u, pat, rep)[j] in rep)
            || (k <= |u| && Replace(u, pat, rep)[..k] == u[..k])
    decreases |u|
  {
    var r := Replace(u, pat, rep);
    if |u| < |pat| || k == 0 {
    } else if u[..|pat|] == pat {
      assert r[0] == rep[0];
    } else {
      var r' := Replace(u[1..], pat, rep);
      assert r == [u[0]] + r';
      ReplaceCopiesPrefix(u[1..], pat, rep, k - 1);
      if exists j :: 0 <= j < k - 1 && r'[j] in rep {
        var j :| 0 <= j < k - 1 && r'[j] in rep;
        assert r[j + 1] in rep;
      } else {
        assert r[..k] == [u[0]] + r'[..k - 1];
        assert u[..k] == [u[0]] + u[1..][..k - 1];
      }
    }
  }

  /**
   * When no character of `rep` appears in `pat` and `rep` is not empty,
   * `pat` no longer occurs anywhere in the result of `replace`.
   */
  lemma {:induction false} ReplaceRemovesPattern(s: string, pat: string, rep: string)
    requires pat != [] && rep != []
    requires forall j :: 0 <= j < |pat| ==> pat[j] !in rep
    ensures forall i :: !OccursAt(Replace(s, pat, rep), pat, i)
    decreases |s|
  {
    var r := Replace(s, pat, rep);
    if |s| < |pat| {
    } else if s[..|pat|] == pat {
      var r' := Replace(s[|pat|..], pat, rep);
      ReplaceRemovesPattern(s[|pat|..], pat, rep);
      assert r == rep + r';
      forall i ensures !OccursAt(r, pat, i) {
        if 0 <= i < |rep| && i + |pat| <= |r| {
          assert r[i..i + |pat|][0] == rep[i];
        } else if |rep| <= i && i + |pat| <= |r| {
          assert r[i..i + |pat|] == r'[i - |rep|..i - |rep| + |pat|];
          assert !OccursAt(r', pat, i - |rep|);
        }
      }
    } else {
      var r' := Replace(s[1..], pat, rep);
      ReplaceRemovesPattern(s[1..], pat, rep);
      assert r == [s[0]] + r';
      forall i ensures !OccursAt(r, pat, i) {
        if i == 0 && |pat| <= |r| {
          ReplaceCopiesPrefix(s[1..], pat, rep, |pat| - 1);
          if exists j :: 0 <= j < |pat| - 1 && r'[j] in rep {
            var j :| 0 <= j < |pat| - 1 && r'[j] in rep;
            assert r[..|pat|][j + 1] == r'[j];
          } else {
            assert r[..|pat|] == [s[0]] + r'[..|pat| - 1];
            assert s[..|pat|] == [s[0]] + s[1..][..|pat| - 1];
          }
        } else if 1 <= i && i + |pat| <= |r| {
          assert r[i..i + |pat|] == r'[i - 1..i - 1 + |pat|];
          assert !OccursAt(r', pat, i - 1);
        }
      }
    }
  }

  /** A slice of a string in which `pat` never occurs has no occurrence either. */
  lemma SliceKeepsAbsence(t: string, pat: string, lo: nat, hi: nat)
    requires lo <= hi <= |t|
    requires forall i :: !OccursAt(t, pat, i)
    ensures forall i :: !OccursAt(t[lo..hi], pat, i)
  {
    var u := t[lo..hi];
    forall i: int | 0 <= i && i + |pat| <= |u|
      ensures !OccursAt(u, pat, i)
    {
      var a, b := u[i..i + |pat|], t[lo + i..lo + i + |pat|];
      forall m | 0 <= m < |pat| ensures a[m] == b[m] {
        assert u[i + m] == t[lo + i + m];
      }
      assert a == b;
      assert !OccursAt(t, pat, lo + i);
    }
  }

  /** Where the `k`-th field starts in `Join(parts, sep)`. */
  function FieldOffset(parts: seq<string>, sep: string, k: nat): nat
    requires k < |parts|
  {
    if k == 0 then 0 else |parts[0]| + |sep| + FieldOffset(parts[1..], sep, k - 1)
  }

  /** Every field of a join is the slice of it that starts at its offset. */
  lemma {:induction false} FieldIsSliceOfJoin(parts: seq<string>, sep: string, k: nat)
    requires k < |parts|
    ensures FieldOffset(parts, sep, k) + |parts[k]| <= |Join(parts, sep)|
    ensures Join(parts, sep)[FieldOffset(parts, sep, k)..FieldOffset(parts, sep, k) + |parts[k]|] == parts[k]
  {
    if k > 0 {
      var rest := Join(parts[1..], sep);
      FieldIsSliceOfJoin(parts[1..], sep, k - 1);
      assert parts[1..][k - 1] == parts[k];
      var lo := FieldOffset(parts[1..], sep, k - 1);
      assert Join(parts, sep) == (parts[0] + sep) + rest;
      SliceAfterPrefix(parts[0] + sep, rest, lo, lo + |parts[k]|);
    }
  }

  /** A join ends with its last field: its length is that field's offset plus the field's length. */
  lemma {:induction false} JoinEndsWithLastField(parts: seq<string>, sep: string)
    requires parts != []
    ensures |Join(parts, sep)| == FieldOffset(parts, sep, |parts| - 1) + |parts[|parts| - 1]|
  {
    if |parts| > 1 {
      JoinEndsWithLastField(parts[1..], sep);
      assert parts[1..][|parts| - 2] == parts[|parts| - 1];
    }
  }

  /** Right after every field but the last, a join holds the separator. */
  lemma {:induction false} SeparatorAfterField(parts: seq<string>, sep: string, k: nat)
    requires k + 1 < |parts|
    ensures var end := FieldOffset(parts, sep, k) + |parts[k]|;
            end + |sep| <= |Join(parts, sep)| && Join(parts, sep)[end..end + |sep|] == sep
  {
    var rest := Join(parts[1..], sep);
    assert Join(parts, sep) == (parts[0] + sep) + rest;
    if k == 0 {
      assert ((parts[0] + sep) + rest)[|parts[0]|..|parts[0]| + |sep|] == sep;
    } else {
      SeparatorAfterField(parts[1..], sep, k - 1);
      assert parts[1..][k - 1] == parts[k];
      var lo := FieldOffset(parts[1..], sep, k - 1) + |parts[k]|;
      SliceAfterPrefix(parts[0] + sep, rest, lo, lo + |sep|);
    }
  }

  /**
   * The layout of a join on one separator character: every field at its
   * offset, the separator right after every field but the last, and nothing
   * after the last field.
   */
  lemma JoinLayout(parts: seq<string>, c: char)
    requires parts != []
    ensures var j := Join(parts, [c]);
            forall k :: 0 <= k < |parts| ==>
              var off := FieldOffset(parts, [c], k);
              off + |parts[k]| <= |j| && j[off..off + |parts[k]|] == parts[k]
    ensures var j := Join(parts, [c]);
            forall k :: 0 <= k < |parts| - 1 ==>
              var end := FieldOffset(parts, [c], k) + |parts[k]|;
              end < |j| && j[end] == c
    ensures |Join(parts, [c])| == FieldOffset(parts, [c], |parts| - 1) + |parts[|parts| - 1]|
  {
    var j := Join(parts, [c]);
    forall k | 0 <= k < |parts|
      ensures var off := FieldOffset(parts, [c], k);
              off + |parts[k]| <= |j| && j[off..off + |parts[k]|] == parts[k]
    {
      FieldIsSliceOfJoin(parts, [c], k);
    }
    forall k | 0 <= k < |parts| - 1
      ensures var end := FieldOffset(parts, [c], k) + |parts[k]|;
              end < |j| && j[end] == c
    {
      SeparatorAfterField(parts, [c], k);
      var end := FieldOffset(parts, [c], k) + |parts[k]|;
      assert j[end] == j[end..end + 1][0];
    }
    JoinEndsWithLastField(parts, [c]);
  }

  /** A slice of the part after a prefix is the slice shifted by the prefix's length. */
  lemma SliceAfterPrefix(a: string, b: string, lo: nat, hi: nat)
    requires lo <= hi <= |b|
    ensures (a + b)[|a| + lo..|a| + hi] == b[lo..hi]
  {
  }

  /** The decimal digit character for `d`. */
  function DigitChar(d: nat): (c: char)
    requires d < 10
    ensures IsDigit(c)
  {
    (48 + d) as char
  }

  /** The decimal digits of `n`, most significant first, without leading zeros. */
  function NatDigits(n: nat): (r: string)
    ensures IsDigits(r)
    decreases n
  {
    if n < 10 then [DigitChar(n)] else NatDigits(n / 10) + [DigitChar(n % 10)]
  }

  /** `str(n)` for a Python `int`: a minus sign for negatives, then the digits. */
  function DecimalString(n: int): string {
    if n < 0 then "-" + NatDigits(-n) else NatDigits(n)
  }

  /** The value of a run of decimal digits. */
  function DigitsValue(s: string): nat
    requires forall i :: 0 <= i < |s| ==> IsDigit(s[i])
  {
    if s == [] then 0
    else
      assert IsDigit(s[|s| - 1]);
      DigitsValue(s[..|s| - 1]) * 10 + (s[|s| - 1] as int - '0' as int)
  }

  /**
   * `int(s)` for a string: surrounding whitespace, an optional sign and at
   * least one decimal digit; `None` where Python raises `ValueError`.
   */
  function ParseInt(s: string): Option<int> {
    var t := Strip(s);
    if t != [] && (t[0] == '-' || t[0] == '+') then
      if IsDigits(t[1..]) then
        var v: int := DigitsValue(t[1..]);
        Some(if t[0] == '-' then -v else v)
      else None
    else if IsDigits(t) then Some(DigitsValue(t))
    else None
  }

  /** Reading back the digits of `n` gives `n`. */
  lemma {:induction false} DigitsValueOfNatDigits(n: nat)
    ensures DigitsValue(NatDigits(n)) == n
    decreases n
  {
    if n >= 10 {
      DigitsValueOfNatDigits(n / 10);
      var ds := NatDigits(n / 10) + [DigitChar(n % 10)];
      assert ds[..|ds| - 1] == NatDigits(n / 10);
    }
  }

  /** `int(str(n)) == n`: the decimal rendering of an integer parses back to it. */
  lemma ParseDecimalString(n: int)
    ensures ParseInt(DecimalString(n)) == Some(n)
  {
    var s := DecimalString(n);
    var m: nat := if n < 0 then -n else n;
    DigitsValueOfNatDigits(m);
    assert TrimStart(s) == s;
    assert TrimEnd(s) == s;
    if n < 0 {
      assert s[1..] == NatDigits(m);
    }
  }

  /** Python's `c.lower()` on ASCII letters; every other character is kept. */
  function LowerChar(c: char): char {
    if 'A' <= c <= 'Z' then (c as int + 32) as char else c
  }

  /** `s.lower()` restricted to ASCII letters. */
  function Lower(s: string): string {
    seq(|s|, i requires 0 <= i < |s| => LowerChar(s[i]))
  }

  /** Strips every string of a list: `[x.strip() for x in parts]`. */
  function StripAll(parts: seq<string>): (r: seq<string>)
    ensures |r| == |parts|
  {
    seq(|parts|, i requires 0 <= i < |parts| => Strip(parts[i]))
  }

  /** A list of already stripped strings is left unchanged by stripping each. */
  lemma StripAllOfStripped(parts: seq<string>)
    requires forall i :: 0 <= i < |parts| ==> Strip(parts[i]) == parts[i]
    ensures StripAll(parts) == parts
  {
  }
}
