/** JavaScript string primitives used by the loader: `indexOf`, `split` on a
    single-character separator and `join`. Strings are sequences of UTF-16 code
    units in JavaScript; here they are `seq<char>`. */
module Text {

  /** `sub` occurs in `s` starting at index `i`. */
  predicate OccursAt(s: string, sub: string, i: int)
  {
    0 <= i && i + |sub| <= |s| && s[i..i + |sub|] == sub
  }

  /** `sub` is a substring of `s` somewhere. */
  predicate Contains(s: string, sub: string)
  {
    exists i :: 0 <= i <= |s| && OccursAt(s, sub, i)
  }

  /** `String.prototype.indexOf` started at index `from`: the first index at or
      after `from` where `sub` occurs, or -1. */
  function IndexFrom(s: string, sub: string, from: nat): (r: int)
    requires from <= |s| + 1
    ensures r == -1 || (from <= r && OccursAt(s, sub, r))
    ensures r == -1 ==> forall i :: from <= i <= |s| ==> !OccursAt(s, sub, i)
    ensures r != -1 ==> forall i :: from <= i < r ==> !OccursAt(s, sub, i)
    decreases |s| + 1 - from
  {
    if from + |sub| > |s| then
      -1
    else if s[from..from + |sub|] == sub then
      from
    else
      IndexFrom(s, sub, from + 1)
  }

  /** `s.indexOf(sub)`: the index of the first occurrence of `sub` in `s`, or
      -1 when there is none. */
  function IndexOf(s: string, sub: string): (r: int)
    ensures r == -1 <==> !Contains(s, sub)
    ensures r != -1 ==> OccursAt(s, sub, r) && forall i :: 0 <= i < r ==> !OccursAt(s, sub, i)
  {
    IndexFrom(s, sub, 0)
  }

  /** `indexOf` finds an occurrence at a positive index exactly when there is an
      occurrence and none of them is at index 0. */
  lemma IndexOfPositive(s: string, sub: string)
    ensures IndexOf(s, sub) > 0 <==> Contains(s, sub) && !OccursAt(s, sub, 0)
  {
    var r := IndexOf(s, sub);
    if r > 0 {
      assert !OccursAt(s, sub, 0);
    }
  }

  /** `s.split(sep)` for a one-character separator: the maximal runs between
      separators, so there is always at least one part. */
  function Split(s: string, sep: char): (parts: seq<string>)
    ensures |parts| >= 1
    ensures forall i :: 0 <= i < |parts| ==> sep !in parts[i]
  {
    if s == [] then
      [""]
    else
      var rest := Split(s[1..], sep);
      if s[0] == sep then [""] + rest else [[s[0]] + rest[0]] + rest[1..]
  }

  /** The lengths of `parts` added up. */
  function TotalLength(parts: seq<string>): nat
  {
    if parts == [] then 0 else |parts[0]| + TotalLength(parts[1..])
  }

  /** `parts.join(sep)`: the parts one after another, the first one leading,
      with one separator between each two of them. */
  function Join(parts: seq<string>, sep: string): (r: string)
    ensures parts == [] ==> r == ""
    ensures parts != [] ==> |r| == TotalLength(parts) + (|parts| - 1) * |sep|
    ensures parts != [] ==> r[..|parts[0]|] == parts[0]
  {
    if parts == [] then ""
    else if |parts| == 1 then parts[0]
    else parts[0] + sep + Join(parts[1..], sep)
  }

  /** Every occurrence of `c` in `s` replaced by `d`, character by character. */
  function ReplaceChar(s: string, c: char, d: char): (r: string)
    ensures |r| == |s|
    ensures forall i :: 0 <= i < |s| ==> r[i] == (if s[i] == c then d else s[i])
  {
    if s == [] then [] else [if s[0] == c then d else s[0]] + ReplaceChar(s[1..], c, d)
  }

  /** Prefixing the first part with a character prefixes the joined text. */
  lemma JoinConsFirst(ch: char, parts: seq<string>, sep: string)
    requires |parts| >= 1
    ensures Join([[ch] + parts[0]] + parts[1..], sep) == [ch] + Join(parts, sep)
  {
    var q := [[ch] + parts[0]] + parts[1..];
    if |parts| > 1 {
      assert q[1..] == parts[1..];
    }
  }

  /** `s.split(c).join(d)` replaces every `c` by `d`. */
  lemma {:induction false} SplitJoinReplaces(s: string, c: char, d: char)
    ensures Join(Split(s, c), [d]) == ReplaceChar(s, c, d)
  {
    if s != [] {
      var rest := Split(s[1..], c);
      SplitJoinReplaces(s[1..], c, d);
      if s[0] == c {
        var q := [""] + rest;
        assert q[1..] == rest;
        assert Join(q, [d]) == "" + [d] + Join(rest, [d]);
      } else {
        JoinConsFirst(s[0], rest, [d]);
      }
    }
  }

  /** Joining the parts of a split with the separator gives back the text. */
  lemma SplitJoinRoundTrip(s: string, sep: char)
    ensures Join(Split(s, sep), [sep]) == s
  {
    SplitJoinReplaces(s, sep, sep);
    var r := ReplaceChar(s, sep, sep);
    assert forall i :: 0 <= i < |s| ==> r[i] == s[i];
  }
}
