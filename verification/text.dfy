/** The few Foundation string operations the app relies on, over strings as code-point sequences. */
module Text {

  /** Stand-in for `CharacterSet.whitespacesAndNewlines`: the ASCII blanks and line breaks,
      NEL, no-break space, the Unicode space separators and the line/paragraph separators. */
  predicate IsWhitespace(c: char) {
    ('\U{0009}' <= c <= '\U{000D}') || c == ' ' || c == '\U{0085}' || c == '\U{00A0}'
    || c == '\U{1680}' || ('\U{2000}' <= c <= '\U{200A}') || c == '\U{2028}' || c == '\U{2029}'
    || c == '\U{202F}' || c == '\U{205F}' || c == '\U{3000}'
  }

  ghost predicate AllWhitespace(s: string) {
    forall i :: 0 <= i < |s| ==> IsWhitespace(s[i])
  }

  /** `r` is `s` with its leading and trailing whitespace, and nothing else, removed. */
  ghost predicate IsTrimOf(r: string, s: string) {
    exists i, j :: 0 <= i <= j <= |s| && r == s[i..j]
      && AllWhitespace(s[..i]) && AllWhitespace(s[j..])
      && (|r| == 0 || (!IsWhitespace(r[0]) && !IsWhitespace(r[|r| - 1])))
  }

  /** Number of whitespace characters at the front of `s`. */
  function LeadingCount(s: string): (k: nat)
    ensures k <= |s|
    ensures forall i :: 0 <= i < k ==> IsWhitespace(s[i])
    ensures k < |s| ==> !IsWhitespace(s[k])
  {
    if |s| == 0 || !IsWhitespace(s[0]) then 0 else 1 + LeadingCount(s[1..])
  }

  /** Index where the trailing run of whitespace of `s` begins. */
  function TrailingStart(s: string): (k: nat)
    ensures k <= |s|
    ensures forall i :: k <= i < |s| ==> IsWhitespace(s[i])
    ensures k > 0 ==> !IsWhitespace(s[k - 1])
  {
    if |s| == 0 || !IsWhitespace(s[|s| - 1]) then |s| else TrailingStart(s[..|s| - 1])
  }

  /** `s.trimmingCharacters(in: .whitespacesAndNewlines)`. */
  function Trim(s: string): (r: string)
    ensures IsTrimOf(r, s)
    ensures |r| <= |s|
  {
    var i := LeadingCount(s);
    var t := s[i..];
    var j := TrailingStart(t);
    var r := t[..j];
    assert r == s[i..i + j];
    assert s[i + j..] == t[j..];
    assert |r| > 0 ==> r[0] == t[0];
    r
  }

  /** A string is trimmed to nothing exactly when it is all whitespace. */
  lemma TrimEmptyIff(s: string)
    ensures Trim(s) == [] <==> AllWhitespace(s)
  {
    var r := Trim(s);
    var i, j :| 0 <= i <= j <= |s| && r == s[i..j]
      && AllWhitespace(s[..i]) && AllWhitespace(s[j..])
      && (|r| == 0 || (!IsWhitespace(r[0]) && !IsWhitespace(r[|r| - 1])));
    if r == [] {
      forall k | 0 <= k < |s| ensures IsWhitespace(s[k]) {
        if k < i { assert s[..i][k] == s[k]; } else { assert s[j..][k - j] == s[k]; }
      }
    } else {
      assert s[i] == r[0];
    }
  }

  /** Trimming is idempotent. */
  lemma TrimIdempotent(s: string)
    ensures Trim(Trim(s)) == Trim(s)
  {
    var r := Trim(s);
    if |r| > 0 {
      assert LeadingCount(r) == 0;
      assert r[0..] == r;
      assert TrailingStart(r) == |r|;
      assert r[..|r|] == r;
    }
  }

  /** `sub` occurs in `s` starting at index `i`. */
  predicate OccursAt(s: string, sub: string, i: nat) {
    i + |sub| <= |s| && s[i..i + |sub|] == sub
  }

  /** Foundation's `s.contains(sub)`: `sub` occurs in `s` as a contiguous run. */
  predicate Contains(s: string, sub: string) {
    exists i: nat :: i <= |s| && OccursAt(s, sub, i)
  }

  /** Whatever occurs in a contained string occurs in the containing one. */
  lemma ContainsMember(s: string, sub: string, c: char)
    requires Contains(s, sub) && c in sub
    ensures c in s
  {
    var i: nat :| i <= |s| && OccursAt(s, sub, i);
    var k :| 0 <= k < |sub| && sub[k] == c;
    assert s[i..i + |sub|][k] == s[i + k];
  }

  /** For a one-character needle, `contains` is plain membership. */
  lemma ContainsChar(s: string, c: char)
    ensures Contains(s, [c]) <==> c in s
  {
    if c in s {
      var i :| 0 <= i < |s| && s[i] == c;
      assert OccursAt(s, [c], i);
    }
    if Contains(s, [c]) {
      var i: nat :| i <= |s| && OccursAt(s, [c], i);
      assert s[i..i + 1][0] == s[i];
    }
  }

  /** Total length of the parts. */
  function Width(parts: seq<string>): nat {
    if |parts| == 0 then 0 else Width(parts[..|parts| - 1]) + |parts[|parts| - 1]|
  }

  /** Swift's `parts.joined(separator: sep)`. */
  function Join(parts: seq<string>, sep: string): (r: string)
    ensures |parts| == 0 ==> r == ""
    ensures |parts| > 0 ==> |r| == Width(parts) + (|parts| - 1) * |sep|
    ensures |parts| > 0 ==> |parts[0]| <= |r| && r[..|parts[0]|] == parts[0]
    ensures |parts| > 0 ==> r[|r| - |parts[|parts| - 1]|..] == parts[|parts| - 1]
  {
    if |parts| == 0 then ""
    else if |parts| == 1 then
      assert Width(parts) == |parts[0]| by { assert parts[..0] == []; }
      parts[0]
    else
      var front := Join(parts[..|parts| - 1], sep);
      assert parts[..|parts| - 1][0] == parts[0];
      assert (|parts| - 2) * |sep| + |sep| == (|parts| - 1) * |sep|;
      var r := front + sep + parts[|parts| - 1];
      assert r[..|parts[0]|] == front[..|parts[0]|];
      r
  }

  /** Joining reads the same from the front: the first part, the separator, then the join
      of the rest. With the empty and single-part cases this pins down every character. */
  lemma {:induction false} JoinFront(parts: seq<string>, sep: string)
    requires |parts| > 1
    ensures Join(parts, sep) == parts[0] + sep + Join(parts[1..], sep)
    decreases |parts|
  {
    var n := |parts|;
    if n == 2 {
      assert parts[..1] == [parts[0]];
      assert parts[1..] == [parts[1]];
    } else {
      var init := parts[..n - 1];
      JoinFront(init, sep);
      assert init[0] == parts[0] && init[1..] == parts[1..n - 1];
      JoinFrontStep(parts, sep);
    }
  }

  /** The inductive step of `JoinFront`: peel the last part off both sides. */
  lemma JoinFrontStep(parts: seq<string>, sep: string)
    requires |parts| > 2
    requires Join(parts[..|parts| - 1], sep) == parts[0] + sep + Join(parts[1..|parts| - 1], sep)
    ensures Join(parts, sep) == parts[0] + sep + Join(parts[1..], sep)
  {
    var n := |parts|;
    var rest := parts[1..];
    var mid := parts[1..n - 1];
    var last := parts[n - 1];
    DropThenInit(parts);
    var jm := Join(mid, sep);
    assert Join(rest, sep) == jm + sep + last;
    assert Join(parts, sep) == (parts[0] + sep + jm) + sep + last;
    Reassociate(parts[0], sep, jm, last);
  }

  /** Dropping the head, then the last element, leaves the middle. */
  lemma DropThenInit<T>(s: seq<T>)
    requires |s| > 2
    ensures s[1..][..|s| - 2] == s[1..|s| - 1]
    ensures s[1..][|s| - 2] == s[|s| - 1]
  {
  }

  /** Concatenation regroups across the separators. */
  lemma Reassociate(a: string, sep: string, b: string, c: string)
    ensures (a + sep + b) + sep + c == a + sep + (b + sep + c)
  {
  }
}
