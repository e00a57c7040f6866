/**
 The string operations the system leans on. Case folding and white space are those of the ASCII
 range; every other operation is exact on all strings.
 */
module Text {
  import opened Prelude

  function LowerChar(c: char): char {
    if 'A' <= c <= 'Z' then (c as int + 32) as char else c
  }

  function Lower(s: string): (r: string)
    ensures |r| == |s| && forall i :: 0 <= i < |s| ==> r[i] == LowerChar(s[i])
  {
    seq(|s|, i requires 0 <= i < |s| => LowerChar(s[i]))
  }

  /** The characters Python's `str.strip` removes, up to U+007F. */
  predicate IsSpace(c: char) {
    c == ' ' || '\t' <= c <= '\r' || '\U{1c}' <= c <= '\U{1f}'
  }

  function StripLeft(s: string): string {
    if s != "" && IsSpace(s[0]) then StripLeft(s[1..]) else s
  }

  function StripRight(s: string): string {
    if s != "" && IsSpace(s[|s| - 1]) then StripRight(s[..|s| - 1]) else s
  }

  function Strip(s: string): string {
    StripRight(StripLeft(s))
  }

  /** The same character, or the two cases of one ASCII letter. */
  predicate SameLetter(a: char, b: char) {
    a == b || ('A' <= a <= 'Z' && b as int == a as int + 32) || ('A' <= b <= 'Z' && a as int == b as int + 32)
  }

  /** Two strings have one lower case exactly when they agree letter by letter but for case. */
  lemma LowerIff(s: string, t: string)
    ensures Lower(s) == Lower(t) <==> |s| == |t| && forall i :: 0 <= i < |s| ==> SameLetter(s[i], t[i])
  {
    if |s| == |t| && forall i :: 0 <= i < |s| ==> SameLetter(s[i], t[i]) {
      assert forall i :: 0 <= i < |s| ==> LowerChar(s[i]) == LowerChar(t[i]);
    }
    if Lower(s) == Lower(t) {
      forall i | 0 <= i < |s| ensures SameLetter(s[i], t[i]) {
        assert Lower(s)[i] == Lower(t)[i];
      }
    }
  }

  const BLANKS := {' ', '\t', '\n', '\r', '\U{0b}', '\U{0c}', '\U{1c}', '\U{1d}', '\U{1e}', '\U{1f}'}

  predicate AllBlank(s: string) {
    forall i :: 0 <= i < |s| ==> s[i] in BLANKS
  }

  /** No white space at either end. */
  predicate Trimmed(s: string) {
    s != "" ==> s[0] !in BLANKS && s[|s| - 1] !in BLANKS
  }

  lemma BlankIff(c: char)
    ensures IsSpace(c) <==> c in BLANKS
  {
  }

  lemma {:induction false} StripLeftIs(left: string, s: string)
    requires AllBlank(left) && (s != "" ==> s[0] !in BLANKS)
    ensures StripLeft(left + s) == s
  {
    if left == "" {
      assert left + s == s;
      if s != "" {
        BlankIff(s[0]);
      }
    } else {
      BlankIff(left[0]);
      assert (left + s)[1..] == left[1..] + s;
      StripLeftIs(left[1..], s);
    }
  }

  lemma {:induction false} StripRightIs(s: string, right: string)
    requires AllBlank(right) && (s != "" ==> s[|s| - 1] !in BLANKS)
    ensures StripRight(s + right) == s
  {
    if right == "" {
      assert s + right == s;
      if s != "" {
        BlankIff(s[|s| - 1]);
      }
    } else {
      BlankIff(right[|right| - 1]);
      assert (s + right)[..|s + right| - 1] == s + right[..|right| - 1];
      StripRightIs(s, right[..|right| - 1]);
    }
  }

  /** Stripping takes the white space off both ends and nothing else. */
  lemma StripIs(left: string, s: string, right: string)
    requires AllBlank(left) && Trimmed(s) && AllBlank(right)
    ensures Strip(left + s + right) == s
  {
    if s == "" {
      assert left + s + right == (left + right) + s;
      StripLeftIs(left + right, s);
    } else {
      assert left + s + right == left + (s + right);
      StripLeftIs(left, s + right);
      StripRightIs(s, right);
    }
  }

  /** White space, a trimmed part, white space. */
  lemma {:induction false} Parts(text: string) returns (left: string, core: string, right: string)
    ensures text == left + core + right && AllBlank(left) && Trimmed(core) && AllBlank(right)
  {
    if text != "" && text[0] in BLANKS {
      var l, c, r := Parts(text[1..]);
      left, core, right := [text[0]] + l, c, r;
    } else if text != "" && text[|text| - 1] in BLANKS {
      var l, c, r := Parts(text[..|text| - 1]);
      left, core, right := l, c, r + [text[|text| - 1]];
    } else {
      left, core, right := "", text, "";
    }
  }

  /** Nothing is left exactly of white space alone. */
  lemma BlankStrips(text: string)
    ensures Strip(text) == "" <==> AllBlank(text)
  {
    var left, core, right := Parts(text);
    StripIs(left, core, right);
    if core != "" {
      assert text[|left|] == core[0];
    }
  }

  /** `needle in hay` for strings. */
  predicate Contains(hay: string, needle: string) {
    exists i :: 0 <= i <= |hay| - |needle| && OccursAt(hay, needle, i)
  }

  predicate OccursAt(hay: string, needle: string, i: nat)
    requires i <= |hay| - |needle|
  {
    hay[i..i + |needle|] == needle
  }

  /** `lastIndexOf`: -1 when the character does not occur. */
  function LastIndexOf(s: string, c: char): (i: int)
    ensures -1 <= i < |s|
    ensures i >= 0 ==> s[i] == c
    ensures forall k :: i < k < |s| ==> s[k] != c
  {
    if s == "" then -1
    else if s[|s| - 1] == c then |s| - 1
    else LastIndexOf(s[..|s| - 1], c)
  }

  /** The last separator is found wherever the part after it holds none. */
  lemma {:induction false} LastIndexOfSplit(left: string, c: char, right: string)
    requires c !in right
    ensures LastIndexOf(left + [c] + right, c) == |left|
  {
    var s := left + [c] + right;
    if right == "" {
      assert s[|s| - 1] == c;
    } else {
      assert s[|s| - 1] == right[|right| - 1];
      assert s[..|s| - 1] == left + [c] + right[..|right| - 1];
      LastIndexOfSplit(left, c, right[..|right| - 1]);
    }
  }

  /** Code-point order on strings, the order of Python's and JavaScript's `<` on the strings used here. */
  predicate Less(s: string, t: string) {
    if t == "" then false
    else if s == "" then true
    else if s[0] != t[0] then s[0] < t[0]
    else Less(s[1..], t[1..])
  }

  /** Up to position `i` the two agree, and there `s` ends or has the smaller character. */
  predicate LessAt(s: string, t: string, i: nat) {
    i <= |s| && i < |t| && s[..i] == t[..i] && (i < |s| ==> s[i] < t[i])
  }

  /** The order is decided at the first difference. */
  lemma {:induction false} LessIff(s: string, t: string)
    ensures Less(s, t) <==> exists i: nat :: LessAt(s, t, i)
  {
    if s == "" && t != "" {
      assert LessAt(s, t, 0);
    } else if t != "" {
      LessIff(s[1..], t[1..]);
      if s[0] == t[0] {
        if i: nat :| LessAt(s[1..], t[1..], i) {
          assert s[..i + 1] == [s[0]] + s[1..][..i] && t[..i + 1] == [t[0]] + t[1..][..i];
          assert LessAt(s, t, i + 1);
        }
        if i: nat :| LessAt(s, t, i) {
          assert i > 0;
          assert s[1..][..i - 1] == s[..i][1..] && t[1..][..i - 1] == t[..i][1..];
          assert LessAt(s[1..], t[1..], i - 1);
        }
      } else if s[0] < t[0] {
        assert LessAt(s, t, 0);
      } else {
        forall i: nat ensures !LessAt(s, t, i) {
          if 0 < i <= |s| && i < |t| {
            assert s[..i][0] == s[0] && t[..i][0] == t[0];
          }
        }
      }
    }
  }

  lemma {:induction false} LessUnderPrefix(p: string, s: string, t: string)
    ensures Less(p + s, p + t) == Less(s, t)
  {
    if p == "" {
      assert p + s == s && p + t == t;
    } else {
      assert (p + s)[1..] == p[1..] + s && (p + t)[1..] == p[1..] + t;
      LessUnderPrefix(p[1..], s, t);
    }
  }
}
