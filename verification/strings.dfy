/** The JavaScript string operations the core relies on: `includes`, a
    global `replace` with the empty string, `trim` and `split`. Strings are
    sequences of Unicode scalar values. */
module Strings {

  /** `p` occurs in `s` starting at index `i`. */
  predicate OccursAt(s: string, p: string, i: nat) {
    i + |p| <= |s| && s[i..i + |p|] == p
  }

  /** `s.includes(p)`. */
  predicate Contains(s: string, p: string) {
    exists i: nat | i <= |s| :: OccursAt(s, p, i)
  }

  predicate IsPrefix(p: string, s: string) {
    |p| <= |s| && s[..|p|] == p
  }

  /** An occurrence in a suffix is an occurrence in the whole string. */
  lemma ContainsInSuffix(s: string, p: string, k: nat)
    requires k <= |s|
    requires Contains(s[k..], p)
    ensures Contains(s, p)
  {
    var i: nat :| i <= |s[k..]| && OccursAt(s[k..], p, i);
    assert i + |p| <= |s| - k;
    assert s[k + i..k + i + |p|] == s[k..][i..i + |p|];
    assert OccursAt(s, p, k + i);
  }

  /** `s.replace(/p/g, '')`: scan from the left, delete each occurrence of
      `p` that is found, and resume the scan right after it. */
  function RemoveAll(s: string, p: string): (r: string)
    requires |p| > 0
    ensures |r| <= |s|
    decreases |s|
  {
    if |s| == 0 then s
    else if IsPrefix(p, s) then RemoveAll(s[|p|..], p)
    else [s[0]] + RemoveAll(s[1..], p)
  }

  /** One step of the scan where no occurrence starts. */
  lemma RemoveAllStep(s: string, p: string)
    requires |p| > 0 && |s| > 0 && !IsPrefix(p, s)
    ensures RemoveAll(s, p) == [s[0]] + RemoveAll(s[1..], p)
  {
  }

  /** A character where no occurrence starts, in front of a text the scan
      leaves unchanged, is left unchanged too. */
  lemma RemoveAllKeepsHead(c: char, x: string, p: string)
    requires |p| > 0 && !IsPrefix(p, [c] + x)
    requires RemoveAll(x, p) == x
    ensures RemoveAll([c] + x, p) == [c] + x
  {
    RemoveAllStep([c] + x, p);
    assert ([c] + x)[1..] == x;
  }

  /** Replacing a pattern that does not occur changes nothing. */
  lemma {:induction false} RemoveAllAbsent(s: string, p: string)
    requires |p| > 0
    requires !Contains(s, p)
    ensures RemoveAll(s, p) == s
    decreases |s|
  {
    if |s| > 0 {
      if IsPrefix(p, s) {
        assert OccursAt(s, p, 0);
      } else {
        if Contains(s[1..], p) {
          ContainsInSuffix(s, p, 1);
        }
        RemoveAllAbsent(s[1..], p);
        assert s == [s[0]] + s[1..];
      }
    }
  }

  /** A leading stretch that cannot start an occurrence of `p` is kept
      verbatim, and the scan continues on the rest. */
  lemma {:induction false} RemoveAllSkipsPrefix(x: string, y: string, p: string)
    requires |p| > 0
    requires forall i :: 0 <= i < |x| ==> x[i] != p[0]
    ensures RemoveAll(x + y, p) == x + RemoveAll(y, p)
    decreases |x|
  {
    if |x| > 0 {
      assert (x + y)[0] == x[0];
      assert !IsPrefix(p, x + y);
      assert RemoveAll(x + y, p) == [x[0]] + RemoveAll((x + y)[1..], p);
      assert (x + y)[1..] == x[1..] + y;
      assert forall i :: 0 <= i < |x[1..]| ==> x[1..][i] == x[i + 1];
      RemoveAllSkipsPrefix(x[1..], y, p);
      calc {
        RemoveAll(x + y, p);
        [x[0]] + RemoveAll(x[1..] + y, p);
        [x[0]] + (x[1..] + RemoveAll(y, p));
        { assert x == [x[0]] + x[1..]; }
        x + RemoveAll(y, p);
      }
    } else {
      assert x + y == y;
    }
  }

  /** A text shorter than the pattern cannot contain it. */
  lemma ShortLacks(s: string, p: string)
    requires |s| < |p|
    ensures !Contains(s, p)
  {
  }

  /** The Markdown code-fence marker. */
  const Fence := "```"

  /** A scanned text that starts with a backtick but not with a whole fence
      cannot leave two backticks at the front of what follows it. */
  lemma NoTickPairAfterLoneTick(s: string)
    requires |s| > 0 && s[0] == '`' && !IsPrefix(Fence, s)
    ensures var rest := RemoveAll(s[1..], Fence);
      !(|rest| >= 2 && rest[0] == '`' && rest[1] == '`')
  {
    var t := s[1..];
    if |t| < 2 {
      ShortLacks(t, Fence);
      RemoveAllAbsent(t, Fence);
    } else if t[0] != '`' {
      assert !IsPrefix(Fence, t);
    } else {
      assert t[1] != '`';
      assert !IsPrefix(Fence, t);
      assert RemoveAll(t, Fence) == [t[0]] + RemoveAll(t[1..], Fence);
      assert !IsPrefix(Fence, t[1..]);
      assert RemoveAll(t[1..], Fence) == [t[1]] + RemoveAll(t[2..], Fence);
    }
  }

  /** Deleting every fence from left to right never joins the remaining
      backticks into a new fence, so no fence survives. */
  lemma {:induction false} RemoveFenceLeavesNone(s: string)
    ensures !Contains(RemoveAll(s, Fence), Fence)
    decreases |s|
  {
    if |s| == 0 {
      ShortLacks(s, Fence);
    } else if IsPrefix(Fence, s) {
      RemoveFenceLeavesNone(s[|Fence|..]);
    } else {
      RemoveFenceLeavesNone(s[1..]);
      RemoveAllStep(s, Fence);
      if s[0] == '`' {
        NoTickPairAfterLoneTick(s);
      }
      ConsKeepsAbsence(s[0], RemoveAll(s[1..], Fence));
    }
  }

  /** A character in front of a fence-free text creates no fence, unless
      it is a backtick before two more. */
  lemma ConsKeepsAbsence(c: char, rest: string)
    requires !Contains(rest, Fence)
    requires c == '`' ==> !(|rest| >= 2 && rest[0] == '`' && rest[1] == '`')
    ensures !Contains([c] + rest, Fence)
  {
    var r := [c] + rest;
    forall i: nat | i <= |r|
      ensures !OccursAt(r, Fence, i)
    {
      if i == 0 {
        FenceNotAtHead(c, rest);
      } else {
        OccurrenceShifts(c, rest, i);
      }
    }
  }

  lemma FenceNotAtHead(c: char, rest: string)
    requires c == '`' ==> !(|rest| >= 2 && rest[0] == '`' && rest[1] == '`')
    ensures !OccursAt([c] + rest, Fence, 0)
  {
    var r := [c] + rest;
    if |r| >= 3 {
      assert r[..3] == [c, rest[0], rest[1]];
    }
  }

  lemma OccurrenceShifts(c: char, rest: string, i: nat)
    requires 1 <= i <= |rest| + 1
    requires !Contains(rest, Fence)
    ensures !OccursAt([c] + rest, Fence, i)
  {
    assert !OccursAt(rest, Fence, i - 1);
    if i + 3 <= |rest| + 1 {
      assert ([c] + rest)[i..i + 3] == rest[i - 1..i + 2];
    }
  }

  /** The characters `String.prototype.trim` removes: ECMAScript WhiteSpace
      (tab, vertical tab, form feed, space, no-break space, byte-order mark
      and the Unicode space separators) and LineTerminator (line feed,
      carriage return, line and paragraph separators). */
  predicate IsSpace(c: char) {
    || c == '\t' || c == '\n' || c == '\U{000B}' || c == '\U{000C}' || c == '\r'
    || c == ' ' || c == '\U{00A0}' || c == '\U{1680}'
    || ('\U{2000}' <= c <= '\U{200A}')
    || c == '\U{2028}' || c == '\U{2029}' || c == '\U{202F}' || c == '\U{205F}'
    || c == '\U{3000}' || c == '\U{FEFF}'
  }

  predicate AllSpace(s: string) {
    forall i :: 0 <= i < |s| ==> IsSpace(s[i])
  }

  /** Neither end of `s` is a space. */
  predicate IsTrimmed(s: string) {
    |s| == 0 || (!IsSpace(s[0]) && !IsSpace(s[|s| - 1]))
  }

  function TrimStart(s: string): (r: string)
    ensures |r| <= |s| && r == s[|s| - |r|..]
    ensures AllSpace(s[..|s| - |r|])
    ensures |r| == 0 || !IsSpace(r[0])
  {
    if |s| > 0 && IsSpace(s[0]) then TrimStart(s[1..]) else s
  }

  function TrimEnd(s: string): (r: string)
    ensures |r| <= |s| && r == s[..|r|]
    ensures AllSpace(s[|r|..])
    ensures |r| == 0 || !IsSpace(r[|r| - 1])
  {
    if |s| > 0 && IsSpace(s[|s| - 1]) then TrimEnd(s[..|s| - 1]) else s
  }

  /** `r` sits at index `i` of `s` with only spaces around it. */
  predicate PaddedAt(s: string, r: string, i: nat) {
    OccursAt(s, r, i) && AllSpace(s[..i]) && AllSpace(s[i + |r|..])
  }

  /** `s.trim()`: the longest stretch of `s` that neither starts nor ends with
      a space, obtained by dropping only spaces at both ends. */
  function Trim(s: string): (r: string)
    ensures IsTrimmed(r)
    ensures exists i: nat :: PaddedAt(s, r, i)
  {
    var a := TrimStart(s);
    var r := TrimEnd(a);
    TrimIsPadded(s, a, r);
    r
  }

  /** Dropping spaces from the front of `s`, giving `a`, then from the back
      of `a`, giving `r`, leaves `r` padded with spaces inside `s`. */
  lemma TrimIsPadded(s: string, a: string, r: string)
    requires |a| <= |s| && a == s[|s| - |a|..] && AllSpace(s[..|s| - |a|])
    requires |r| <= |a| && r == a[..|r|] && AllSpace(a[|r|..])
    ensures PaddedAt(s, r, |s| - |a|)
  {
    SliceOfSuffix(s, |s| - |a|, |r|);
  }

  /** The first `n` characters of the suffix of `s` from `i`, and what
      follows them, as slices of `s`. */
  lemma SliceOfSuffix(s: string, i: nat, n: nat)
    requires i + n <= |s|
    ensures s[i..][..n] == s[i..i + n]
    ensures s[i..][n..] == s[i + n..]
  {
  }

  /** Trimming an already trimmed text changes nothing. */
  lemma TrimFixesTrimmed(s: string)
    requires IsTrimmed(s)
    ensures Trim(s) == s
  {
  }

  /** A stretch of a text contains nothing the text does not contain. */
  lemma SliceKeepsAbsence(s: string, r: string, i: nat, p: string)
    requires OccursAt(s, r, i)
    requires !Contains(s, p)
    ensures !Contains(r, p)
  {
    forall j: nat | j <= |r|
      ensures !OccursAt(r, p, j)
    {
      assert i + j <= |s|;
      assert !OccursAt(s, p, i + j);
      if j + |p| <= |r| {
        SliceOfSlice(s, r, i, j, |p|);
      }
    }
  }

  /** A stretch of a stretch of `s` is a stretch of `s`. */
  lemma SliceOfSlice(s: string, r: string, i: nat, j: nat, n: nat)
    requires OccursAt(s, r, i)
    requires j + n <= |r|
    ensures s[i + j..i + j + n] == r[j..j + n]
  {
    var a, b := s[i + j..i + j + n], r[j..j + n];
    forall k | 0 <= k < n
      ensures a[k] == b[k]
    {
      assert s[i..i + |r|][j + k] == r[j + k];
    }
  }

  /** Trimming never creates an occurrence that was not in the text. */
  lemma TrimKeepsAbsence(s: string, p: string)
    requires !Contains(s, p)
    ensures !Contains(Trim(s), p)
  {
    var r := Trim(s);
    var i: nat :| PaddedAt(s, r, i);
    SliceKeepsAbsence(s, r, i, p);
  }

  lemma {:induction false} TrimStartSkips(a: string, x: string)
    requires AllSpace(a)
    requires |x| == 0 || !IsSpace(x[0])
    ensures TrimStart(a + x) == x
    decreases |a|
  {
    if |a| == 0 {
      assert a + x == x;
    } else {
      assert (a + x)[1..] == a[1..] + x;
      TrimStartSkips(a[1..], x);
    }
  }

  lemma {:induction false} TrimEndSkips(x: string, b: string)
    requires AllSpace(b)
    requires |x| == 0 || !IsSpace(x[|x| - 1])
    ensures TrimEnd(x + b) == x
    decreases |b|
  {
    if |b| == 0 {
      assert x + b == x;
    } else {
      assert (x + b)[..|x + b| - 1] == x + b[..|b| - 1];
      TrimEndSkips(x, b[..|b| - 1]);
    }
  }

  /** Trimming removes exactly the spaces around a trimmed text. */
  lemma TrimPadding(a: string, j: string, b: string)
    requires AllSpace(a) && AllSpace(b) && IsTrimmed(j)
    ensures Trim(a + j + b) == j
  {
    if |j| == 0 {
      assert a + j + b == a + b;
      TrimStartSkips(a + b, "");
      assert a + b + "" == a + b;
    } else {
      assert a + j + b == a + (j + b);
      TrimStartSkips(a, j + b);
      TrimEndSkips(j, b);
    }
  }

  /** `s.split(sep)` for a one-character separator: the pieces between
      separators, in order, including empty pieces. */
  function Split(s: string, sep: char): (parts: seq<string>)
    ensures |parts| >= 1
    ensures forall k :: 0 <= k < |parts| ==> sep !in parts[k]
  {
    if |s| == 0 then [""]
    else
      var rest := Split(s[1..], sep);
      if s[0] == sep then [""] + rest
      else [[s[0]] + rest[0]] + rest[1..]
  }

  /** `parts.join(sep)`. */
  function Join(parts: seq<string>, sep: char): string
    requires |parts| >= 1
  {
    if |parts| == 1 then parts[0] else parts[0] + [sep] + Join(parts[1..], sep)
  }

  lemma JoinConsFirst(c: char, parts: seq<string>, sep: char)
    requires |parts| >= 1
    ensures Join([[c] + parts[0]] + parts[1..], sep) == [c] + Join(parts, sep)
  {
    var q := [[c] + parts[0]] + parts[1..];
    assert q[1..] == parts[1..];
  }

  /** Joining the pieces of a split gives back the original text. */
  lemma {:induction false} JoinSplit(s: string, sep: char)
    ensures Join(Split(s, sep), sep) == s
  {
    if |s| > 0 {
      var rest := Split(s[1..], sep);
      JoinSplit(s[1..], sep);
      if s[0] == sep {
        assert ([""] + rest)[1..] == rest;
      } else {
        JoinConsFirst(s[0], rest, sep);
      }
      assert s == [s[0]] + s[1..];
    }
  }

  /** A text without the separator splits into itself. */
  lemma {:induction false} SplitWithoutSeparator(s: string, sep: char)
    requires sep !in s
    ensures Split(s, sep) == [s]
  {
    if |s| > 0 {
      SplitWithoutSeparator(s[1..], sep);
      assert s == [s[0]] + s[1..];
    }
  }

  /** A separator-free head splits off as the first piece. */
  lemma {:induction false} SplitAtSeparator(a: string, b: string, sep: char)
    requires sep !in a
    ensures Split(a + [sep] + b, sep) == [a] + Split(b, sep)
  {
    if |a| == 0 {
      assert a + [sep] + b == [sep] + b;
      assert ([sep] + b)[1..] == b;
    } else {
      var s := a + [sep] + b;
      assert s[1..] == a[1..] + [sep] + b;
      SplitAtSeparator(a[1..], b, sep);
      assert a == [a[0]] + a[1..];
    }
  }

  /** Splitting a join of separator-free pieces gives back the pieces. */
  lemma {:induction false} SplitJoin(parts: seq<string>, sep: char)
    requires |parts| >= 1
    requires forall k :: 0 <= k < |parts| ==> sep !in parts[k]
    ensures Split(Join(parts, sep), sep) == parts
  {
    if |parts| == 1 {
      SplitWithoutSeparator(parts[0], sep);
    } else {
      SplitJoin(parts[1..], sep);
      SplitAtSeparator(parts[0], Join(parts[1..], sep), sep);
      assert parts == [parts[0]] + parts[1..];
    }
  }
}
