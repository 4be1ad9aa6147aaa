/**
 * The few functions of Go's `strings` and `unicode` packages that the
 * dashboard's parsers use, written over `string` (a sequence of Unicode
 * scalar values).
 */
module Text {
  import opened Wrappers

  /** `unicode.IsSpace`: the Latin-1 spaces plus the other White_Space characters. */
  predicate IsSpace(c: char) {
    || c == ' ' || c == '\t' || c == '\n' || c == '\U{B}' || c == '\U{C}' || c == '\r'
    || c == '\U{85}' || c == '\U{A0}' || c == '\U{1680}'
    || ('\U{2000}' <= c <= '\U{200A}')
    || c == '\U{2028}' || c == '\U{2029}' || c == '\U{202F}' || c == '\U{205F}' || c == '\U{3000}'
  }

  /** Every character of `s` is white space (the empty string included). */
  predicate IsBlank(s: string) {
    forall i :: 0 <= i < |s| ==> IsSpace(s[i])
  }

  /** The number of white-space characters that `s` starts with. */
  function LeadCount(s: string): (n: nat)
    ensures n <= |s|
    ensures forall i :: 0 <= i < n ==> IsSpace(s[i])
    ensures n == |s| || !IsSpace(s[n])
  {
    if s == [] || !IsSpace(s[0]) then 0
    else
      var n := LeadCount(s[1..]);
      assert forall i :: 1 <= i < n + 1 ==> s[i] == s[1..][i - 1];
      1 + n
  }

  /** The number of white-space characters that `s` ends with. */
  function TrailCount(s: string): (n: nat)
    ensures n <= |s|
    ensures forall i :: |s| - n <= i < |s| ==> IsSpace(s[i])
    ensures n == |s| || !IsSpace(s[|s| - n - 1])
  {
    if s == [] || !IsSpace(s[|s| - 1]) then 0
    else
      var n := TrailCount(s[..|s| - 1]);
      assert forall i :: 0 <= i < |s| - 1 ==> s[i] == s[..|s| - 1][i];
      1 + n
  }

  /** Drops the leading white space of `s`. */
  function TrimLeft(s: string): (r: string)
    ensures |r| <= |s| && r == s[|s| - |r|..]
    ensures r == [] <==> IsBlank(s)
    ensures r == [] || !IsSpace(r[0])
  {
    s[LeadCount(s)..]
  }

  /** `strings.TrimSpace`: drops the white space at both ends of `s`. */
  function TrimSpace(s: string): (r: string)
    ensures exists i :: 0 <= i <= |s| - |r| && OccursAt(s, r, i)
    ensures r == [] <==> IsBlank(s)
    ensures r == [] || (!IsSpace(r[0]) && !IsSpace(r[|r| - 1]))
  {
    var a := LeadCount(s);
    var l := s[a..];
    var r := l[..|l| - TrailCount(l)];
    assert r == s[a..a + |r|];
    assert OccursAt(s, r, a);
    r
  }

  /**
   * `strings.TrimSpace` removes white space and nothing else: what
   * `TrimLeft` cuts off is blank, and so is what follows the result in
   * `TrimLeft(s)`.
   */
  lemma TrimSpaceCuts(s: string)
    ensures IsBlank(s[..|s| - |TrimLeft(s)|])
    ensures var l, r := TrimLeft(s), TrimSpace(s); |r| <= |l| && r == l[..|r|] && IsBlank(l[|r|..])
  {
    var a := LeadCount(s);
    BlankSlice(s, 0, a);
    assert s[0..a] == s[..a];
    TrailBlank(TrimLeft(s));
  }

  lemma TrailBlank(l: string)
    ensures IsBlank(l[|l| - TrailCount(l)..])
  {
    BlankSlice(l, |l| - TrailCount(l), |l|);
    assert l[|l| - TrailCount(l)..|l|] == l[|l| - TrailCount(l)..];
  }

  /** A slice of characters that are all white space is blank. */
  lemma BlankSlice(s: string, i: nat, j: nat)
    requires i <= j <= |s|
    requires forall k :: i <= k < j ==> IsSpace(s[k])
    ensures IsBlank(s[i..j])
  {
    assert forall k :: 0 <= k < j - i ==> s[i..j][k] == s[i + k];
  }

  /** Text with no white space at either end is left as it is. */
  lemma TrimSpaceKeeps(s: string)
    requires s != [] && !IsSpace(s[0]) && !IsSpace(s[|s| - 1])
    ensures TrimSpace(s) == s
  {
    assert s[0..] == s;
  }

  /**
   * `strings.Split(s, string(sep))`: the pieces between separators.  There is
   * always at least one piece, so `Split("", sep) == [""]`.
   */
  function Split(s: string, sep: char): (r: seq<string>)
    ensures |r| >= 1
    ensures forall i :: 0 <= i < |r| ==> sep !in r[i]
  {
    if s == [] then [""]
    else
      var rest := Split(s[1..], sep);
      if s[0] == sep then [""] + rest else [[s[0]] + rest[0]] + rest[1..]
  }

  /** `strings.Join(parts, string(sep))`. */
  function JoinWith(parts: seq<string>, sep: char): string {
    if parts == [] then ""
    else if |parts| == 1 then parts[0]
    else parts[0] + [sep] + JoinWith(parts[1..], sep)
  }

  /** Joining what `Split` cut gives back the original text. */
  lemma {:induction false} JoinSplit(s: string, sep: char)
    ensures JoinWith(Split(s, sep), sep) == s
  {
    if s != [] {
      var rest := Split(s[1..], sep);
      JoinSplit(s[1..], sep);
      if s[0] == sep {
        assert Split(s, sep) == [""] + rest;
        assert ([""] + rest)[1..] == rest;
      } else {
        var r := Split(s, sep);
        assert r == [[s[0]] + rest[0]] + rest[1..];
        if |rest| > 1 {
          assert r[1..] == rest[1..];
          assert rest == [rest[0]] + rest[1..];
        }
      }
    }
  }

  /** Splitting at a separator that `a` does not contain cuts `a` off as one piece. */
  lemma {:induction false} SplitAfter(a: string, sep: char, b: string)
    requires sep !in a
    ensures Split(a + [sep] + b, sep) == [a] + Split(b, sep)
  {
    if a == [] {
      assert [] + [sep] + b == [sep] + b;
      assert ([sep] + b)[1..] == b;
    } else {
      assert (a + [sep] + b)[1..] == a[1..] + [sep] + b;
      SplitAfter(a[1..], sep, b);
      assert [a[0]] + a[1..] == a;
    }
  }

  /** A text without the separator is one piece. */
  lemma {:induction false} SplitNone(a: string, sep: char)
    requires sep !in a
    ensures Split(a, sep) == [a]
  {
    if a != [] {
      SplitNone(a[1..], sep);
      assert [a[0]] + a[1..] == a;
    }
  }

  /** Splitting what `JoinWith` glued gives back the pieces. */
  lemma {:induction false} SplitJoin(parts: seq<string>, sep: char)
    requires |parts| >= 1
    requires forall i :: 0 <= i < |parts| ==> sep !in parts[i]
    ensures Split(JoinWith(parts, sep), sep) == parts
  {
    if |parts| == 1 {
      SplitNone(parts[0], sep);
    } else {
      SplitJoin(parts[1..], sep);
      SplitAfter(parts[0], sep, JoinWith(parts[1..], sep));
      assert [parts[0]] + parts[1..] == parts;
    }
  }

  /** Joining two non-empty runs of pieces puts one separator between them. */
  lemma {:induction false} JoinAppend(p: seq<string>, q: seq<string>, sep: char)
    requires |p| >= 1 && |q| >= 1
    ensures JoinWith(p + q, sep) == JoinWith(p, sep) + [sep] + JoinWith(q, sep)
  {
    if |p| == 1 {
      assert (p + q)[1..] == q;
    } else {
      JoinAppend(p[1..], q, sep);
      assert (p + q)[1..] == p[1..] + q;
    }
  }

  /** Pieces joined, a separator, then any text: the pieces come back followed by the text's pieces. */
  lemma SplitJoinThen(p: seq<string>, sep: char, s: string)
    requires |p| >= 1
    requires forall i :: 0 <= i < |p| ==> sep !in p[i]
    ensures Split(JoinWith(p, sep) + [sep] + s, sep) == p + Split(s, sep)
  {
    var q := Split(s, sep);
    JoinSplit(s, sep);
    JoinAppend(p, q, sep);
    SplitJoin(p + q, sep);
  }

  /** A join of pieces starts with its first piece, followed by a separator when there are more. */
  lemma {:induction false} JoinWithHead(p: seq<string>, sep: char)
    requires |p| >= 1
    ensures HasPrefix(JoinWith(p, sep), p[0])
    ensures |p| > 1 ==> |JoinWith(p, sep)| > |p[0]| && JoinWith(p, sep)[|p[0]|] == sep
    ensures |p| == 1 ==> JoinWith(p, sep) == p[0]
  {
    if |p| > 1 {
      var j := JoinWith(p, sep);
      assert j == p[0] + [sep] + JoinWith(p[1..], sep);
      assert j[..|p[0]|] == p[0];
    }
  }

  /** The ASCII case mapping of one character. */
  function LowerChar(c: char): char {
    if 'A' <= c <= 'Z' then (c as int + 32) as char else c
  }

  /** `strings.ToLower`, restricted to the ASCII letters. */
  function ToLower(s: string): (r: string)
    ensures |r| == |s|
    ensures forall i :: 0 <= i < |s| ==> r[i] == LowerChar(s[i])
  {
    if s == [] then [] else [LowerChar(s[0])] + ToLower(s[1..])
  }

  /** `t` occurs in `s` starting at index `i`. */
  predicate OccursAt<T(==)>(s: seq<T>, t: seq<T>, i: int) {
    0 <= i <= |s| - |t| && s[i..i + |t|] == t
  }

  /** `strings.Contains`: `t` is a contiguous piece of `s`. */
  predicate Contains<T(==)>(s: seq<T>, t: seq<T>) {
    exists i :: 0 <= i <= |s| - |t| && OccursAt(s, t, i)
  }

  /** The case-insensitive containment test `Contains(ToLower(s), ToLower(t))`. */
  predicate ContainsFold(s: string, t: string) {
    Contains(ToLower(s), ToLower(t))
  }

  /** `strings.HasPrefix`. */
  predicate HasPrefix(s: string, p: string) {
    |p| <= |s| && s[..|p|] == p
  }

  /** `strings.HasSuffix`. */
  predicate HasSuffix(s: string, p: string) {
    |p| <= |s| && s[|s| - |p|..] == p
  }

  /** `strings.TrimSuffix`. */
  function TrimSuffix(s: string, p: string): (r: string)
    ensures HasSuffix(s, p) ==> r + p == s
    ensures !HasSuffix(s, p) ==> r == s
  {
    if HasSuffix(s, p) then s[..|s| - |p|] else s
  }

  /** The longest prefix of `s` without white space. */
  function Word(s: string): (w: string)
    ensures |w| <= |s| && w == s[..|w|]
    ensures forall i :: 0 <= i < |w| ==> !IsSpace(w[i])
    ensures |w| == |s| || IsSpace(s[|w|])
  {
    if s == [] || IsSpace(s[0]) then [] else [s[0]] + Word(s[1..])
  }

  /** `strings.Fields(s)[0]`, or `None` when `s` has no field at all. */
  function FirstField(s: string): (r: Option<string>)
    ensures r.None? <==> IsBlank(s)
    ensures r.Some? ==> r.value != [] && HasPrefix(TrimLeft(s), r.value)
    ensures r.Some? ==> var t := TrimLeft(s);
      (forall i :: 0 <= i < |r.value| ==> !IsSpace(r.value[i])) && (|r.value| == |t| || IsSpace(t[|r.value|]))
  {
    var t := TrimLeft(s);
    if t == [] then None else Some(Word(t))
  }
}
