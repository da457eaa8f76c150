/** Optional values: the model's stand-in for JavaScript's `undefined` / `null`. */
module Wrappers {

  datatype Option<+T> = None | Some(value: T) {

    /** The wrapped value, or `default` when there is none. */
    function GetOr(default: T): T {
      match this
      case Some(v) => v
      case None => default
    }
  }
}

/**
 * The few string operations of JavaScript's `String.prototype` that the
 * system uses, over `seq<char>`.  Case mapping is ASCII only.
 */
module Strings {
  import opened Wrappers

  predicate IsLower(c: char) { 'a' <= c <= 'z' }
  predicate IsUpper(c: char) { 'A' <= c <= 'Z' }
  predicate IsDigit(c: char) { '0' <= c <= '9' }

  /** The white space `String.prototype.trim` removes, restricted to ASCII. */
  predicate IsSpace(c: char) { c == ' ' || 9 <= c as int <= 13 }

  function UpperChar(c: char): char {
    if IsLower(c) then (c as int - 32) as char else c
  }

  function LowerChar(c: char): char {
    if IsUpper(c) then (c as int + 32) as char else c
  }

  /** `toUpperCase`, character by character. */
  function ToUpper(s: string): (r: string)
    ensures |r| == |s|
    ensures forall i :: 0 <= i < |s| ==> r[i] == UpperChar(s[i])
  {
    seq(|s|, i requires 0 <= i < |s| => UpperChar(s[i]))
  }

  /** `toLowerCase`, character by character. */
  function ToLower(s: string): (r: string)
    ensures |r| == |s|
    ensures forall i :: 0 <= i < |s| ==> r[i] == LowerChar(s[i])
  {
    seq(|s|, i requires 0 <= i < |s| => LowerChar(s[i]))
  }

  /**
   * The host's `String.prototype.capitalize`, and `replace(/^./, c =>
   * c.toUpperCase())`: the first character upper-cased, the rest kept.
   */
  function Capitalize(s: string): (r: string)
    ensures |r| == |s|
    ensures s != [] ==> r[0] == UpperChar(s[0]) && r[1..] == s[1..]
  {
    if s == [] then s else [UpperChar(s[0])] + s[1..]
  }

  /** Capitalising twice is capitalising once, and upper-casing afterwards forgets it. */
  lemma CapitalizeIdempotent(s: string)
    ensures Capitalize(Capitalize(s)) == Capitalize(s)
    ensures ToUpper(Capitalize(s)) == ToUpper(s)
  {
    if s != [] {
      assert ToUpper(Capitalize(s))[0] == UpperChar(UpperChar(s[0])) == UpperChar(s[0]);
      assert forall i :: 1 <= i < |s| ==> Capitalize(s)[i] == s[i];
    }
  }

  /** Upper-casing commutes with taking a slice. */
  lemma UpperSlice(s: string, i: int, j: int)
    requires 0 <= i <= j <= |s|
    ensures ToUpper(s)[i..j] == ToUpper(s[i..j])
  {
    assert forall k :: 0 <= k < j - i ==> ToUpper(s)[i..j][k] == UpperChar(s[i + k]);
  }

  /** Lower-casing forgets how a letter was cased. */
  lemma LowerOfUpper(s: string)
    ensures ToLower(ToUpper(s)) == ToLower(s)
  {
    forall i | 0 <= i < |s|
      ensures ToLower(ToUpper(s))[i] == ToLower(s)[i]
    {
      assert IsLower(s[i]) ==> IsUpper(UpperChar(s[i]));
    }
  }

  predicate StartsWith(s: string, prefix: string) {
    |prefix| <= |s| && s[..|prefix|] == prefix
  }

  /** `t` occurs in `s` starting at index `i`. */
  predicate OccursAt(s: string, t: string, i: int) {
    0 <= i && i + |t| <= |s| && s[i..i + |t|] == t
  }

  /** Occurrences in `s[1..]` are the occurrences in `s` past index 0, shifted by one. */
  lemma OccursShift(s: string, t: string)
    requires s != []
    ensures forall i :: 0 < i ==> (OccursAt(s, t, i) <==> OccursAt(s[1..], t, i - 1))
  {
    forall i | 0 < i
      ensures OccursAt(s, t, i) <==> OccursAt(s[1..], t, i - 1)
    {
      if i + |t| <= |s| {
        assert s[1..][i - 1..i - 1 + |t|] == s[i..i + |t|];
      }
    }
  }

  /** `s.includes(t)`. */
  function Includes(s: string, t: string): (r: bool)
    ensures r <==> exists i :: OccursAt(s, t, i)
    decreases |s|
  {
    if StartsWith(s, t) then
      assert OccursAt(s, t, 0);
      true
    else if |s| <= |t| then
      false
    else
      OccursShift(s, t);
      assert (exists i :: OccursAt(s, t, i)) ==> exists i :: OccursAt(s[1..], t, i) by {
        if exists i :: OccursAt(s, t, i) {
          var i :| OccursAt(s, t, i);
          assert i != 0 && OccursAt(s[1..], t, i - 1);
        }
      }
      assert Includes(s[1..], t) ==> exists i :: OccursAt(s, t, i) by {
        if Includes(s[1..], t) {
          var i :| OccursAt(s[1..], t, i);
          assert OccursAt(s, t, i + 1);
        }
      }
      Includes(s[1..], t)
  }

  /** The index of the first occurrence of `t` in `s`, as `indexOf` finds it. */
  function IndexOf(s: string, t: string): (r: Option<nat>)
    ensures r.Some? ==> OccursAt(s, t, r.value)
    ensures r.Some? ==> forall j :: 0 <= j < r.value ==> !OccursAt(s, t, j)
    ensures r.None? <==> !Includes(s, t)
    decreases |s|
  {
    if StartsWith(s, t) then
      assert OccursAt(s, t, 0);
      Some(0)
    else if |s| <= |t| then None
    else
      OccursShift(s, t);
      match IndexOf(s[1..], t)
      case None => None
      case Some(k) =>
        assert OccursAt(s, t, k + 1);
        assert forall j :: 1 <= j < k + 1 ==> !OccursAt(s, t, j) by {
          forall j | 1 <= j < k + 1
            ensures !OccursAt(s, t, j)
          {
            assert !OccursAt(s[1..], t, j - 1);
          }
        }
        Some(k + 1)
  }

  /**
   * `s.replaceAll(pat, rep)` for a non-empty string pattern: occurrences are
   * found left to right and do not overlap.
   */
  function ReplaceAll(s: string, pat: string, rep: string): (r: string)
    requires |pat| > 0
    ensures !Includes(s, pat) ==> r == s
    decreases |s|
  {
    if |s| < |pat| then s
    else if s[..|pat|] == pat then rep + ReplaceAll(s[|pat|..], pat, rep)
    else
      OccursShift(s, pat);
      assert !Includes(s, pat) ==> !Includes(s[1..], pat) by {
        if Includes(s[1..], pat) {
          var i :| OccursAt(s[1..], pat, i);
          assert OccursAt(s, pat, i + 1);
        }
      }
      [s[0]] + ReplaceAll(s[1..], pat, rep)
  }

  lemma ReplaceAllEmpty(pat: string, rep: string)
    requires |pat| > 0
    ensures ReplaceAll([], pat, rep) == []
  {
  }

  /** A match at the front is replaced, and the scan resumes after it. */
  lemma ReplaceAllHit(pat: string, s: string, rep: string)
    requires |pat| > 0
    ensures ReplaceAll(pat + s, pat, rep) == rep + ReplaceAll(s, pat, rep)
  {
    assert (pat + s)[..|pat|] == pat && (pat + s)[|pat|..] == s;
  }

  /**
   * The scan copies a prefix that cannot start a match, puts the replacement
   * where the pattern stood, and goes on after it.
   */
  lemma ReplaceAllAfterPrefix(p: string, pat: string, s: string, rep: string)
    requires |pat| > 0
    requires forall k :: 0 <= k < |p| ==> p[k] != pat[0]
    ensures ReplaceAll(p + pat + s, pat, rep) == p + rep + ReplaceAll(s, pat, rep)
  {
    hide ReplaceAll;
    var t := pat + s;
    var tail := ReplaceAll(s, pat, rep);
    assert p + pat + s == p + t;
    ReplaceAllSkip(p, t, pat, rep);
    ReplaceAllHit(pat, s, rep);
    assert p + (rep + tail) == p + rep + tail;
  }

  /** A character that cannot start a match is copied, and the scan moves on. */
  lemma ReplaceAllMiss(c: char, s: string, pat: string, rep: string)
    requires |pat| > 0 && c != pat[0]
    ensures ReplaceAll([c] + s, pat, rep) == [c] + ReplaceAll(s, pat, rep)
  {
    var cs := [c] + s;
    assert cs[0] == c && cs[1..] == s;
    if |cs| >= |pat| {
      assert cs[..|pat|][0] == c;
    }
  }

  /** A prefix free of the pattern's first character is copied unchanged. */
  lemma {:induction false} ReplaceAllSkip(p: string, s: string, pat: string, rep: string)
    requires |pat| > 0
    requires forall k :: 0 <= k < |p| ==> p[k] != pat[0]
    ensures ReplaceAll(p + s, pat, rep) == p + ReplaceAll(s, pat, rep)
    decreases |p|
  {
    hide ReplaceAll;
    if p != [] {
      assert p + s == [p[0]] + (p[1..] + s);
      ReplaceAllMiss(p[0], p[1..] + s, pat, rep);
      ReplaceAllSkip(p[1..], s, pat, rep);
      assert [p[0]] + (p[1..] + ReplaceAll(s, pat, rep)) == p + ReplaceAll(s, pat, rep);
    } else {
      assert p + s == s && p + ReplaceAll(s, pat, rep) == ReplaceAll(s, pat, rep);
    }
  }

  /**
   * Every occurrence is replaced: when the replacement is non-empty and
   * shares no character with `q`, the result holds no `q`, given that `q`
   * either is the pattern or did not occur in `s` to begin with.  (With an
   * empty replacement the pieces around a removed match may join into a new
   * one: `"aabb".replaceAll("ab", "")` is `"ab"`.)
   */
  lemma {:induction false} ReplaceAllAvoids(s: string, pat: string, rep: string, q: string)
    requires |pat| > 0 && |rep| > 0 && |q| > 0
    requires forall c :: c in rep ==> c !in q
    requires q == pat || !Includes(s, q)
    ensures !Includes(ReplaceAll(s, pat, rep), q)
    decreases |s|
  {
    if |s| < |pat| {
      assert ReplaceAll(s, pat, rep) == s;
      assert q == pat ==> !OccursAt(s, q, 0);
    } else if s[..|pat|] == pat {
      assert ReplaceAll(s, pat, rep) == rep + ReplaceAll(s[|pat|..], pat, rep);
      if q != pat {
        SuffixExcludes(s, |pat|, q);
      }
      ReplaceAllAvoids(s[|pat|..], pat, rep, q);
      ForeignPrefixExcludes(rep, ReplaceAll(s[|pat|..], pat, rep), q);
    } else {
      assert ReplaceAll(s, pat, rep) == [s[0]] + ReplaceAll(s[1..], pat, rep);
      assert s == [s[0]] + s[1..];
      if q != pat {
        SuffixExcludes(s, 1, q);
      }
      ReplaceAllAvoids(s[1..], pat, rep, q);
      MatchCopied(s[0], s[1..], pat, rep, q);
      assert !StartsWith(s, q) by {
        assert q != pat ==> !OccursAt(s, q, 0);
      }
      ConsExcludes(s[0], ReplaceAll(s[1..], pat, rep), q);
    }
  }

  /** Characters foreign to `q` put in front of a `q`-free text leave it `q`-free. */
  lemma ForeignPrefixExcludes(p: string, t: string, q: string)
    requires |q| > 0 && !Includes(t, q)
    requires forall c :: c in p ==> c !in q
    ensures !Includes(p + t, q)
  {
    hide Includes;
    var r := p + t;
    assert q[0] in q;
    var head := q[0];
    assert head !in p;
    forall i | 0 <= i && i + |q| <= |r|
      ensures !OccursAt(r, q, i)
    {
      if i < |p| {
        assert p[i] in p;
        assert r[i..i + |q|][0] == p[i] != head;
      } else {
        SliceOfAppend(p, t, i, |q|);
        assert !OccursAt(t, q, i - |p|);
      }
    }
  }

  /** A slice of `p + t` that starts past `p` is a slice of `t`. */
  lemma SliceOfAppend(p: string, t: string, i: int, n: nat)
    requires |p| <= i && i + n <= |p| + |t|
    ensures (p + t)[i..i + n] == t[i - |p|..i - |p| + n]
  {}

  /** One character in front of a `q`-free text adds a `q` only at the front. */
  lemma ConsExcludes(c: char, t: string, q: string)
    requires !Includes(t, q) && !StartsWith([c] + t, q)
    ensures !Includes([c] + t, q)
  {
    hide Includes;
    var r := [c] + t;
    forall i | 0 < i && i + |q| <= |r|
      ensures !OccursAt(r, q, i)
    {
      assert r[i..i + |q|] == t[i - 1..i - 1 + |q|];
      assert !OccursAt(t, q, i - 1);
    }
    assert !OccursAt(r, q, 0);
  }

  /** A text free of `q` has every suffix free of `q`. */
  lemma SuffixExcludes(s: string, k: nat, q: string)
    requires k <= |s| && !Includes(s, q)
    ensures !Includes(s[k..], q)
  {
    forall i | OccursAt(s[k..], q, i)
      ensures OccursAt(s, q, i + k)
    {
      assert s[k..][i..i + |q|] == s[i + k..i + k + |q|];
    }
  }

  /**
   * A `q` at the front of what the scan emits after copying `c` was already
   * at the front of the input, since no character of `q` comes from the
   * replacement.
   */
  lemma MatchCopied(c: char, s: string, pat: string, rep: string, q: string)
    requires |pat| > 0 && |rep| > 0 && |q| > 0
    requires forall c :: c in rep ==> c !in q
    ensures StartsWith([c] + ReplaceAll(s, pat, rep), q) ==> StartsWith([c] + s, q)
  {
    var t := ReplaceAll(s, pat, rep);
    if StartsWith([c] + t, q) {
      forall k | 0 <= k < |q| - 1
        ensures t[k] in q
      {
        assert t[k] == ([c] + t)[..|q|][k + 1] == q[k + 1];
      }
      ReplaceAllCopied(s, pat, rep, q, |q| - 1);
      assert ([c] + s)[..|q|] == [c] + s[..|q| - 1];
      assert ([c] + t)[..|q|] == [c] + t[..|q| - 1];
    }
  }

  /**
   * A stretch at the front of the output made of characters of `q` alone
   * was copied from the input unchanged.
   */
  lemma {:induction false} ReplaceAllCopied(s: string, pat: string, rep: string, q: string, m: nat)
    requires |pat| > 0 && |rep| > 0
    requires forall c :: c in rep ==> c !in q
    requires m <= |ReplaceAll(s, pat, rep)|
    ensures (forall k :: 0 <= k < m ==> ReplaceAll(s, pat, rep)[k] in q) ==>
              m <= |s| && ReplaceAll(s, pat, rep)[..m] == s[..m]
    decreases |s|
  {
    var r := ReplaceAll(s, pat, rep);
    if m > 0 && |s| >= |pat| {
      if s[..|pat|] == pat {
        assert r == rep + ReplaceAll(s[|pat|..], pat, rep);
        hide ReplaceAll;
        assert r[0] == rep[0] && rep[0] in rep;
      } else {
        var t := ReplaceAll(s[1..], pat, rep);
        assert r == [s[0]] + t;
        hide ReplaceAll;
        ReplaceAllCopied(s[1..], pat, rep, q, m - 1);
        if forall k :: 0 <= k < m ==> r[k] in q {
          forall k | 0 <= k < m - 1
            ensures t[k] in q
          {
            assert t[k] == r[k + 1];
          }
          assert r[..m] == [s[0]] + t[..m - 1];
          assert s[..m] == [s[0]] + s[1..][..m - 1];
        }
      }
    }
  }

  /** `s.trim()`: white space removed from both ends. */
  function Trim(s: string): (r: string)
    ensures |r| <= |s|
    ensures r != [] ==> !IsSpace(r[0]) && !IsSpace(r[|r| - 1])
    ensures exists i, j ::
              && 0 <= i <= j <= |s| && r == s[i..j]
              && (forall k :: 0 <= k < i ==> IsSpace(s[k]))
              && (forall k :: j <= k < |s| ==> IsSpace(s[k]))
  {
    var i := SpacePrefix(s);
    var j := |s| - SpacePrefixOfReverse(s[i..]);
    s[i..j]
  }

  /** Trimming twice is trimming once. */
  lemma TrimIdempotent(s: string)
    ensures Trim(Trim(s)) == Trim(s)
  {
    var r := Trim(s);
    assert SpacePrefix(r) == 0;
    assert r[0..] == r;
    assert SpacePrefixOfReverse(r) == 0;
    TrimAt(r, 0, |r|);
    assert r[0..|r|] == r;
  }

  /** A space in front does not change what `trim` keeps. */
  lemma TrimLeadingSpace(t: string)
    ensures Trim([' '] + t) == Trim(t)
  {
    hide SpacePrefix, SpacePrefixOfReverse, Trim;
    var s := [' '] + t;
    var i := SpacePrefix(t);
    SpacePrefixCons(t);
    assert s[1 + i..] == t[i..];
    var n := SpacePrefixOfReverse(t[i..]);
    TrimAt(s, 1 + i, |s| - n);
    TrimAt(t, i, |t| - n);
    assert s[1 + i..|s| - n] == t[i..|t| - n];
  }

  lemma SpacePrefixCons(t: string)
    ensures SpacePrefix([' '] + t) == 1 + SpacePrefix(t)
  {
    assert ([' '] + t)[1..] == t;
  }

  /** What `Trim` cuts out, by the two space runs. */
  lemma TrimAt(s: string, i: nat, j: int)
    requires i == SpacePrefix(s) && j == |s| - SpacePrefixOfReverse(s[i..])
    ensures i <= j <= |s| && Trim(s) == s[i..j]
  {
    hide SpacePrefix, SpacePrefixOfReverse;
    assert |s[i..]| == |s| - i;
  }

  /** The length of the run of white space at the start of `s`. */
  function SpacePrefix(s: string): (n: nat)
    ensures n <= |s|
    ensures forall k :: 0 <= k < n ==> IsSpace(s[k])
    ensures n < |s| ==> !IsSpace(s[n])
  {
    if s == [] || !IsSpace(s[0]) then 0 else 1 + SpacePrefix(s[1..])
  }

  /** The length of the run of white space at the end of `s`. */
  function SpacePrefixOfReverse(s: string): (n: nat)
    ensures n <= |s|
    ensures forall k :: |s| - n <= k < |s| ==> IsSpace(s[k])
    ensures n < |s| ==> !IsSpace(s[|s| - 1 - n])
  {
    if s == [] || !IsSpace(s[|s| - 1]) then 0 else 1 + SpacePrefixOfReverse(s[..|s| - 1])
  }

  function DigitChar(d: nat): char
    requires d < 10
  {
    ('0' as int + d) as char
  }

  /** Decimal digits of `n`, most significant first, as `String(n)` prints them. */
  function NatToString(n: nat): (r: string)
    ensures |r| > 0
    ensures forall k :: 0 <= k < |r| ==> IsDigit(r[k])
    ensures r[0] == '0' <==> n == 0
    ensures |r| == 1 <==> n < 10
  {
    if n < 10 then [DigitChar(n)] else NatToString(n / 10) + [DigitChar(n % 10)]
  }

  /** A printed integer is made of digits and a minus sign. */
  lemma IntToStringChars(n: int)
    ensures forall c :: c in IntToString(n) ==> IsDigit(c) || c == '-'
  {
    var s := IntToString(n);
    forall c | c in s
      ensures IsDigit(c) || c == '-'
    {
      var k :| 0 <= k < |s| && s[k] == c;
      if k == 0 && n >= 0 {
        assert s == NatToString(n);
      }
    }
  }

  /** `String(n)` for an integer. */
  function IntToString(n: int): (r: string)
    ensures |r| > 0
    ensures r[0] == '-' <==> n < 0
    ensures forall k :: 0 < k < |r| ==> IsDigit(r[k])
    ensures n >= 0 ==> r == NatToString(n)
  {
    if n < 0 then "-" + NatToString(-n) else NatToString(n)
  }
}
