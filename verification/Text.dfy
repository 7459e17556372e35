/** Helpers shared by the models: saturating decrement, whitespace, concatenation, trimming
    and substring search.  One `char` stands for one Unicode scalar value. */
module Text {

  datatype Option<+T> = None | Some(value: T)

  function Min(a: nat, b: nat): nat { if a < b then a else b }

  function Max(a: nat, b: nat): nat { if a < b then b else a }

  function SaturatingDec(n: nat): nat { if n == 0 then 0 else n - 1 }

  /** The Unicode White_Space property. */
  predicate IsWhitespace(c: char) {
    var n := c as int;
    || 0x9 <= n <= 0xD
    || n in {0x20, 0x85, 0xA0, 0x1680, 0x2028, 0x2029, 0x202F, 0x205F, 0x3000}
    || 0x2000 <= n <= 0x200A
  }

  predicate IsBlank(s: string) {
    forall i | 0 <= i < |s| :: IsWhitespace(s[i])
  }

  predicate HasVisible(s: string) {
    !IsBlank(s)
  }

  function Concat<T>(parts: seq<seq<T>>): seq<T> {
    if parts == [] then [] else parts[0] + Concat(parts[1..])
  }

  lemma {:induction false} ConcatAppend<T>(a: seq<seq<T>>, b: seq<seq<T>>)
    ensures Concat(a + b) == Concat(a) + Concat(b)
  {
    if a == [] {
      assert a + b == b;
    } else {
      assert (a + b)[1..] == a[1..] + b;
      ConcatAppend(a[1..], b);
    }
  }

  lemma ConcatSnoc<T>(a: seq<seq<T>>, x: seq<T>)
    ensures Concat(a + [x]) == Concat(a) + x
  {
    ConcatAppend(a, [x]);
    assert Concat([x]) == x + Concat<T>([]);
  }

  /** The number of leading whitespace characters. */
  function FirstVisible(s: string): (n: nat)
    ensures n <= |s|
    ensures IsBlank(s[..n])
    ensures n < |s| ==> !IsWhitespace(s[n])
  {
    if s == [] || !IsWhitespace(s[0]) then 0
    else
      var n := 1 + FirstVisible(s[1..]);
      assert s[..n] == [s[0]] + s[1..][..n - 1];
      n
  }

  lemma FirstVisibleUnique(s: string, n: nat)
    requires n < |s| && IsBlank(s[..n]) && !IsWhitespace(s[n])
    ensures FirstVisible(s) == n
  {
    var m := FirstVisible(s);
    BlankAt(s, n);
    BlankAt(s, m);
  }

  lemma BlankAt(s: string, n: nat)
    requires n <= |s|
    ensures IsBlank(s[..n]) <==> forall i | 0 <= i < n :: IsWhitespace(s[i])
  {
    assert forall i | 0 <= i < n :: s[..n][i] == s[i];
  }

  /** Bytes of a character, and of a text, in UTF-8. */
  function Utf8Len(c: char): nat {
    var n := c as int;
    if n < 0x80 then 1 else if n < 0x800 then 2 else if n < 0x1_0000 then 3 else 4
  }

  function ByteLen(s: string): (n: nat)
    ensures n == 0 <==> s == ""
  {
    if s == "" then 0 else Utf8Len(s[0]) + ByteLen(s[1..])
  }

  ghost predicate OccursAt<T>(hay: seq<T>, needle: seq<T>, i: nat) {
    i + |needle| <= |hay| && hay[i..i + |needle|] == needle
  }

  ghost predicate Occurs<T>(hay: seq<T>, needle: seq<T>) {
    exists i: nat :: OccursAt(hay, needle, i)
  }

  /** The first position at or after `from` where `needle` occurs. */
  function FindFrom(hay: string, needle: string, from: nat): (r: Option<nat>)
    requires from <= |hay|
    ensures r.Some? ==> from <= r.value && OccursAt(hay, needle, r.value)
    ensures r.Some? ==> forall k: nat | from <= k < r.value :: !OccursAt(hay, needle, k)
    ensures r.None? ==> forall k: nat | from <= k :: !OccursAt(hay, needle, k)
    decreases |hay| - from
  {
    if from + |needle| > |hay| then None
    else if hay[from..from + |needle|] == needle then Some(from)
    else FindFrom(hay, needle, from + 1)
  }

  function Find(hay: string, needle: string): (r: Option<nat>)
    ensures r.Some? ==> r.value + |needle| <= |hay| && OccursAt(hay, needle, r.value)
    ensures r.Some? ==> forall k: nat | k < r.value :: !OccursAt(hay, needle, k)
    ensures r.None? <==> !Occurs(hay, needle)
  {
    FindFrom(hay, needle, 0)
  }

  lemma FindUnique(hay: string, needle: string, i: nat)
    requires OccursAt(hay, needle, i)
    requires forall k: nat | k < i :: !OccursAt(hay, needle, k)
    ensures Find(hay, needle) == Some(i)
  {
  }

  lemma BlankAppend(a: string, b: string)
    ensures IsBlank(a + b) <==> IsBlank(a) && IsBlank(b)
  {
    assert forall i | 0 <= i < |a| :: (a + b)[i] == a[i];
    assert forall i | 0 <= i < |b| :: (a + b)[|a| + i] == b[i];
  }

  /** The number of characters left after dropping trailing whitespace. */
  function TrimmedEnd(s: string): (n: nat)
    ensures n <= |s|
    ensures n > 0 ==> !IsWhitespace(s[n - 1])
    ensures forall i | n <= i < |s| :: IsWhitespace(s[i])
  {
    if s == [] || !IsWhitespace(s[|s| - 1]) then |s| else TrimmedEnd(s[..|s| - 1])
  }

  function TrimStart(s: string): string { s[FirstVisible(s)..] }

  function TrimEnd(s: string): string { s[..TrimmedEnd(s)] }

  function Trim(s: string): string { TrimEnd(TrimStart(s)) }

  /** Neither end is whitespace. */
  predicate IsTrimmed(s: string) {
    s == "" || (!IsWhitespace(s[0]) && !IsWhitespace(s[|s| - 1]))
  }

  lemma TrimIsTrimmed(s: string)
    ensures IsTrimmed(Trim(s))
  {
  }

  lemma TrimOfTrimmed(s: string)
    requires IsTrimmed(s)
    ensures Trim(s) == s
  {
    if s != "" {
      assert s[..0] == "" && IsBlank(s[..0]);
      FirstVisibleUnique(s, 0);
      assert s[0..] == s;
      assert TrimmedEnd(s) == |s|;
    }
  }

  predicate Padded(s: string, before: string, t: string, after: string) {
    IsBlank(before) && IsBlank(after) && s == before + t + after
  }

  /** Trimming removes whitespace at the two ends, all of it, and nothing else. */
  lemma TrimIsExact(s: string) returns (before: string, after: string)
    ensures IsTrimmed(Trim(s)) && Padded(s, before, Trim(s), after)
  {
    hide IsBlank, IsTrimmed, FirstVisible, TrimmedEnd;
    var k := FirstVisible(s);
    var t := s[k..];
    var n := TrimmedEnd(t);
    TrimIsTrimmed(s);
    BlankTail(t, n);
    before, after := s[..k], t[n..];
    assert t == t[..n] + after;
  }

  lemma BlankTail(t: string, n: nat)
    requires n <= |t| && forall i | n <= i < |t| :: IsWhitespace(t[i])
    ensures IsBlank(t[n..])
  {
    assert forall i | 0 <= i < |t[n..]| :: t[n..][i] == t[n + i];
  }
}
