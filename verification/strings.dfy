/**
 * The Python string operations the scripts rely on, stated on `seq<char>`:
 * substring search (`sep in s`, `s.startswith(p)`), the second field of
 * `s.split(sep)`, `s.lstrip("./")`, `Path(p).name`, `str(n)` for a
 * non-negative integer and `int(s)` for a plain decimal literal.
 */
module Strings {
  import opened Common

  /** `sep` occurs in `s` starting at index `k`. */
  predicate OccursAt(s: string, sep: string, k: nat) {
    k + |sep| <= |s| && s[k..k + |sep|] == sep
  }

  /** The leftmost occurrence of `sep` in `s` at or after index `from`. */
  function FindFrom(s: string, sep: string, from: nat): (r: Option<nat>)
    ensures r.Some? ==> from <= r.value && OccursAt(s, sep, r.value)
    ensures r.Some? ==> forall j :: from <= j < r.value ==> !OccursAt(s, sep, j)
    ensures r.None? ==> forall j :: from <= j ==> !OccursAt(s, sep, j)
    decreases |s| - from
  {
    if from + |sep| > |s| then None
    else if s[from..from + |sep|] == sep then Some(from)
    else FindFrom(s, sep, from + 1)
  }

  /** The leftmost occurrence of `sep` in `s` (Python's `s.find(sep)`, with `None` for -1). */
  function Find(s: string, sep: string): (r: Option<nat>)
    ensures r.Some? ==> OccursAt(s, sep, r.value) && forall j :: 0 <= j < r.value ==> !OccursAt(s, sep, j)
    ensures r.None? ==> forall j :: !OccursAt(s, sep, j)
  {
    FindFrom(s, sep, 0)
  }

  /** Python's `sub in s`: `sub` occurs somewhere in `s`. */
  predicate Contains(s: string, sub: string)
    ensures Contains(s, sub) <==> exists k :: OccursAt(s, sub, k)
  {
    Find(s, sub).Some?
  }

  /** Python's `s.startswith(p)`: `p` occurs at index 0. */
  predicate StartsWith(s: string, p: string)
    ensures StartsWith(s, p) <==> OccursAt(s, p, 0)
  {
    |p| <= |s| && s[..|p|] == p
  }

  /** An occurrence that no earlier occurrence precedes is the one `Find` reports. */
  lemma FindIsFirst(s: string, sep: string, k: nat)
    requires OccursAt(s, sep, k)
    requires forall j :: 0 <= j < k ==> !OccursAt(s, sep, j)
    ensures Find(s, sep) == Some(k)
  {
  }

  /** An occurrence found in `a + b` that ends inside `a` is an occurrence in `a`. */
  lemma OccursInPrefix(a: string, b: string, sep: string, j: nat)
    requires OccursAt(a + b, sep, j) && j + |sep| <= |a|
    ensures OccursAt(a, sep, j)
  {
    assert (a + b)[j..j + |sep|] == a[j..j + |sep|];
  }

  /** Finding a separator after a prefix: an occurrence in `a` is still the first one in `a + b`. */
  lemma FindExtends(a: string, b: string, sep: string, k: nat)
    requires Find(a, sep) == Some(k)
    ensures Find(a + b, sep) == Some(k)
  {
    assert (a + b)[k..k + |sep|] == a[k..k + |sep|];
    forall j | 0 <= j < k
      ensures !OccursAt(a + b, sep, j)
    {
      if OccursAt(a + b, sep, j) {
        OccursInPrefix(a, b, sep, j);
      }
    }
    FindIsFirst(a + b, sep, k);
  }

  /** With a one-character separator, an occurrence is that character. */
  lemma OccursAtChar(s: string, c: char, j: nat)
    ensures OccursAt(s, [c], j) <==> j < |s| && s[j] == c
  {
    if j < |s| {
      assert s[j..j + 1] == [s[j]];
    }
  }

  /** A character absent from `a` is first found right after `a`. */
  lemma FindCharAfter(a: string, c: char, b: string)
    requires c !in a
    ensures Find(a + [c] + b, [c]) == Some(|a|)
  {
    var s := a + [c] + b;
    OccursAtChar(s, c, |a|);
    forall j | 0 <= j < |a|
      ensures !OccursAt(s, [c], j)
    {
      OccursAtChar(s, c, j);
      assert s[j] == a[j];
    }
    FindIsFirst(s, [c], |a|);
  }

  /** A character absent from `s` is not found in it. */
  lemma FindCharAbsent(s: string, c: char)
    requires c !in s
    ensures Find(s, [c]) == None
  {
    var r := Find(s, [c]);
    if r.Some? {
      OccursAtChar(s, c, r.value);
    }
  }

  /**
   * Python's `s.split(sep)[1]`: the text between the first and the second
   * occurrence of `sep` (or the end of `s`). `None` stands for the
   * IndexError raised when `sep` does not occur, and for the ValueError
   * raised on an empty separator.
   */
  function SplitSecond(s: string, sep: string): (r: Option<string>)
    ensures r.Some? <==> sep != [] && Contains(s, sep)
    ensures r.Some? ==> !Contains(r.value, sep)
  {
    if sep == [] then None
    else
      match Find(s, sep)
      case None => None
      case Some(i) =>
        var rest := s[i + |sep|..];
        match Find(rest, sep)
        case None => Some(rest)
        case Some(j) =>
          PrefixBeforeFirst(rest, sep, j);
          Some(rest[..j])
  }

  /** The text before the first occurrence of a separator does not contain it. */
  lemma PrefixBeforeFirst(s: string, sep: string, j: nat)
    requires sep != [] && Find(s, sep) == Some(j)
    ensures Find(s[..j], sep) == None
  {
    forall m: nat
      ensures !OccursAt(s[..j], sep, m)
    {
      if m + |sep| <= j {
        assert s[..j][m..m + |sep|] == s[m..m + |sep|];
        assert m < j && !OccursAt(s, sep, m);
      }
    }
  }

  /**
   * Once the first separator is known to end the prefix, the second field
   * is read off what follows it.
   */
  lemma SplitSecondAfter(prefix: string, sep: string, rest: string)
    requires sep != []
    requires Find(prefix + sep, sep) == Some(|prefix|)
    ensures SplitSecond(prefix + sep + rest, sep) ==
              match Find(rest, sep)
              case None => Some(rest)
              case Some(j) => Some(rest[..j])
  {
    FindExtends(prefix + sep, rest, sep, |prefix|);
    assert (prefix + sep + rest)[|prefix| + |sep|..] == rest;
  }

  /**
   * Splitting `a c b c h e` on the character `c`, absent from `a` and `b`,
   * gives `b` as field 1, whatever follows the second `c`.
   */
  lemma SplitSecondOfFields(a: string, c: char, b: string, h: string, e: string)
    requires c !in a && c !in b
    ensures SplitSecond(a + [c] + b + [c] + h + e, [c]) == Some(b)
  {
    var tail := b + [c] + (h + e);
    assert a + [c] + b + [c] + h + e == a + [c] + tail;
    SplitAfterChar(a, c, tail);
    FieldBeforeChar(b, c, h + e);
  }

  /** Splitting on a character absent from `a`: field 1 is read off what follows `a c`. */
  lemma SplitAfterChar(a: string, c: char, tail: string)
    requires c !in a
    ensures SplitSecond(a + [c] + tail, [c]) ==
              match Find(tail, [c])
              case None => Some(tail)
              case Some(j) => Some(tail[..j])
  {
    FindCharAfter(a, c, []);
    assert a + [c] + [] == a + [c];
    SplitSecondAfter(a, [c], tail);
  }

  /** In `b c rest` with `c` absent from `b`, the first `c` ends `b`. */
  lemma FieldBeforeChar(b: string, c: char, rest: string)
    requires c !in b
    ensures Find(b + [c] + rest, [c]) == Some(|b|)
    ensures (b + [c] + rest)[..|b|] == b
  {
    FindCharAfter(b, c, rest);
  }

  /** The characters `str.lstrip("./")` removes: a set of characters, not a prefix. */
  predicate IsDotOrSlash(c: char) {
    c == '.' || c == '/'
  }

  /**
   * Python's `s.lstrip("./")`: the longest suffix of `s` that does not
   * start with '.' or '/', everything before it being dots and slashes.
   */
  function LStripDotSlash(s: string): (r: string)
    ensures |r| <= |s| && r == s[|s| - |r|..]
    ensures r == [] || !IsDotOrSlash(r[0])
    ensures forall i :: 0 <= i < |s| - |r| ==> IsDotOrSlash(s[i])
  {
    if s != [] && IsDotOrSlash(s[0]) then LStripDotSlash(s[1..]) else s
  }

  /** Removes the trailing slashes `pathlib` ignores ("a/b/" names "b"). */
  function TrimTrailingSlashes(p: string): string {
    if p != [] && p[|p| - 1] == '/' then TrimTrailingSlashes(p[..|p| - 1]) else p
  }

  /** The text after the last '/'. */
  function AfterLastSlash(p: string): (r: string)
    ensures '/' !in r
  {
    if p == [] || p[|p| - 1] == '/' then [] else AfterLastSlash(p[..|p| - 1]) + [p[|p| - 1]]
  }

  /** `Path(p).name`: the last component of a POSIX path. */
  function BaseName(p: string): (r: string)
    ensures '/' !in r
  {
    AfterLastSlash(TrimTrailingSlashes(p))
  }

  /** The name of a file inside a directory is the file's own name. */
  lemma {:induction false} BaseNameOfChild(dir: string, name: string)
    requires name != [] && '/' !in name
    ensures BaseName(dir + "/" + name) == name
  {
    AfterLastSlashOfChild(dir, name);
  }

  lemma {:induction false} AfterLastSlashOfChild(dir: string, name: string)
    requires '/' !in name
    ensures AfterLastSlash(dir + "/" + name) == name
  {
    var p := dir + "/" + name;
    if name == [] {
      assert p[|p| - 1] == '/';
    } else {
      var init := name[..|name| - 1];
      assert p[..|p| - 1] == dir + "/" + init;
      assert name[|name| - 1] in name;
      AfterLastSlashOfChild(dir, init);
      assert init + [name[|name| - 1]] == name;
    }
  }

  predicate IsDigit(c: char) {
    '0' <= c <= '9'
  }

  predicate AllDigits(s: string) {
    forall i :: 0 <= i < |s| ==> IsDigit(s[i])
  }

  function DigitChar(d: nat): (c: char)
    requires d < 10
    ensures IsDigit(c)
  {
    (d + '0' as int) as char
  }

  function DigitValue(c: char): (d: nat)
    requires IsDigit(c)
    ensures d < 10
  {
    c as int - '0' as int
  }

  /** The value of a string of decimal digits, most significant first. */
  function DigitsValue(s: string): nat
    requires AllDigits(s)
  {
    if s == [] then 0 else DigitsValue(s[..|s| - 1]) * 10 + DigitValue(s[|s| - 1])
  }

  /** Python's `str(n)` for a non-negative integer: its decimal digits, no leading zero. */
  function NatToString(n: nat): (s: string)
    ensures |s| >= 1 && AllDigits(s)
    ensures |s| > 1 ==> s[0] != '0'
  {
    if n < 10 then [DigitChar(n)] else NatToString(n / 10) + [DigitChar(n % 10)]
  }

  /**
   * Python's `int(s)` on a decimal literal with an optional sign. `None`
   * stands for the ValueError it raises on anything else.
   */
  function ParseInt(s: string): (r: Option<int>)
    ensures r.Some? <==>
              s != [] && (AllDigits(s) || ((s[0] == '-' || s[0] == '+') && |s| > 1 && AllDigits(s[1..])))
    ensures r.Some? && r.value < 0 ==> s[0] == '-'
  {
    if s != [] && (s[0] == '-' || s[0] == '+') then
      var digits := s[1..];
      if digits != [] && AllDigits(digits) then
        var magnitude: int := DigitsValue(digits);
        Some(if s[0] == '-' then -magnitude else magnitude)
      else None
    else if s != [] && AllDigits(s) then Some(DigitsValue(s))
    else None
  }

  /** Reading back the decimal form of a number gives the number. */
  lemma {:induction false} DigitsValueOfNatToString(n: nat)
    ensures DigitsValue(NatToString(n)) == n
  {
    if n >= 10 {
      var s := NatToString(n / 10);
      DigitsValueOfNatToString(n / 10);
      assert (s + [DigitChar(n % 10)])[..|s|] == s;
    }
  }

  /** `int(str(n)) == n` for every non-negative integer. */
  lemma ParseIntOfNatToString(n: nat)
    ensures ParseInt(NatToString(n)) == Some(n)
  {
    DigitsValueOfNatToString(n);
  }
}
