/** The string built-ins the task manager relies on: String.prototype.trim,
    toLowerCase, includes and split(','), the tag parsing built from them,
    and the decimal rendering of a number inside a template literal. */
module Text {
  import opened Seqs

  /** ECMAScript WhiteSpace and LineTerminator code points, which trim removes. */
  predicate IsWhitespace(c: char) {
    var n := c as int;
    n == 0x09 || n == 0x0A || n == 0x0B || n == 0x0C || n == 0x0D || n == 0x20 ||
    n == 0xA0 || n == 0x1680 || (0x2000 <= n <= 0x200A) || n == 0x2028 || n == 0x2029 ||
    n == 0x202F || n == 0x205F || n == 0x3000 || n == 0xFEFF
  }

  ghost predicate AllWhitespace(s: string) {
    forall i :: 0 <= i < |s| ==> IsWhitespace(s[i])
  }

  /** The first index at or after i that is not whitespace (|s| if none). */
  function SkipLeading(s: string, i: nat): (n: nat)
    requires i <= |s|
    ensures i <= n <= |s|
    ensures forall k :: i <= k < n ==> IsWhitespace(s[k])
    ensures n < |s| ==> !IsWhitespace(s[n])
    decreases |s| - i
  {
    if i == |s| || !IsWhitespace(s[i]) then i else SkipLeading(s, i + 1)
  }

  /** The end of s[lo..hi] once the whitespace before hi is dropped. */
  function SkipTrailing(s: string, lo: nat, hi: nat): (n: nat)
    requires lo <= hi <= |s|
    ensures lo <= n <= hi
    ensures forall k :: n <= k < hi ==> IsWhitespace(s[k])
    ensures lo < n ==> !IsWhitespace(s[n - 1])
    decreases hi
  {
    if hi == lo || !IsWhitespace(s[hi - 1]) then hi else SkipTrailing(s, lo, hi - 1)
  }

  /** String.prototype.trim: the slice of s left after removing the
      whitespace at both ends. */
  function Trim(s: string): (r: string)
    ensures |r| <= |s|
    ensures r == [] <==> AllWhitespace(s)
    ensures r != [] ==> !IsWhitespace(r[0]) && !IsWhitespace(r[|r| - 1])
    ensures forall c :: c in r ==> c in s
    ensures exists lo :: 0 <= lo <= |s| - |r| && r == s[lo..lo + |r|]
                         && AllWhitespace(s[..lo]) && AllWhitespace(s[lo + |r|..])
  {
    var lo := SkipLeading(s, 0);
    var hi := SkipTrailing(s, lo, |s|);
    assert AllWhitespace(s[..lo]) by {
      forall k | 0 <= k < lo ensures IsWhitespace(s[..lo][k]) { assert s[..lo][k] == s[k]; }
    }
    assert AllWhitespace(s[hi..]) by {
      forall k | 0 <= k < |s| - hi ensures IsWhitespace(s[hi..][k]) { assert s[hi..][k] == s[hi + k]; }
    }
    assert lo == hi ==> AllWhitespace(s) by {
      if lo == hi {
        assert forall k :: 0 <= k < |s| ==> IsWhitespace(s[k]);
      }
    }
    s[lo..hi]
  }

  /** JavaScript's falsy test on a trimmed field: `!s.trim()`. */
  predicate IsBlank(s: string) {
    Trim(s) == []
  }

  /** A string with one non-whitespace character is not blank. */
  lemma VisibleNotBlank(s: string, i: int)
    requires 0 <= i < |s| && !IsWhitespace(s[i])
    ensures !IsBlank(s)
  {
  }

  /** String.prototype.toLowerCase on the Basic Latin and Latin-1 letters. */
  function LowerChar(c: char): (d: char)
    ensures !('A' <= d <= 'Z')
  {
    var n := c as int;
    if 65 <= n <= 90 || (0xC0 <= n <= 0xDE && n != 0xD7) then (n + 32) as char else c
  }

  function Lower(s: string): (r: string)
    ensures |r| == |s|
    ensures forall i :: 0 <= i < |s| ==> r[i] == LowerChar(s[i])
  {
    seq(|s|, i requires 0 <= i < |s| => LowerChar(s[i]))
  }

  ghost predicate OccursAt(s: string, needle: string, k: int) {
    0 <= k <= |s| - |needle| && s[k..k + |needle|] == needle
  }

  /** String.prototype.includes: needle occurs in s as a contiguous block. */
  function Contains(s: string, needle: string): (b: bool)
    ensures b <==> exists k :: OccursAt(s, needle, k)
    decreases |s|
  {
    if |needle| > |s| then false
    else if s[..|needle|] == needle then
      assert OccursAt(s, needle, 0);
      true
    else
      var b := Contains(s[1..], needle);
      assert forall k :: OccursAt(s[1..], needle, k) <==> OccursAt(s, needle, k + 1) by {
        forall k ensures OccursAt(s[1..], needle, k) <==> OccursAt(s, needle, k + 1) {
          if 0 <= k <= |s| - 1 - |needle| {
            assert s[1..][k..k + |needle|] == s[k + 1..k + 1 + |needle|];
          }
        }
      }
      assert !OccursAt(s, needle, 0);
      assert (exists k :: OccursAt(s, needle, k)) ==> exists k :: OccursAt(s[1..], needle, k) by {
        if k :| OccursAt(s, needle, k) {
          assert OccursAt(s[1..], needle, k - 1);
        }
      }
      b
  }

  /** The inverse of split: the parts with `sep` between consecutive ones. */
  function Join(parts: seq<string>, sep: char): string
    requires |parts| >= 1
  {
    if |parts| == 1 then parts[0] else parts[0] + [sep] + Join(parts[1..], sep)
  }

  /** String.prototype.split with a one-character separator: "" splits to [""]. */
  function Split(s: string, sep: char): (parts: seq<string>)
    ensures |parts| >= 1
    ensures forall i :: 0 <= i < |parts| ==> sep !in parts[i]
    ensures Join(parts, sep) == s
    decreases |s|
  {
    if |s| == 0 then [[]]
    else if s[0] == sep then
      var rest := Split(s[1..], sep);
      assert s == [] + [sep] + s[1..];
      [[]] + rest
    else
      var rest := Split(s[1..], sep);
      var parts := [[s[0]] + rest[0]] + rest[1..];
      assert parts[1..] == rest[1..];
      assert |rest| > 1 ==> Join(rest, sep) == rest[0] + [sep] + Join(rest[1..], sep);
      assert s == [s[0]] + s[1..];
      parts
  }

  /** Splitting a join of separator-free parts gives the parts back. */
  lemma {:induction false} SplitJoin(parts: seq<string>, sep: char)
    requires |parts| >= 1
    requires forall i :: 0 <= i < |parts| ==> sep !in parts[i]
    ensures Split(Join(parts, sep), sep) == parts
    decreases |parts|
  {
    if |parts| == 1 {
      SplitPlain(parts[0], sep);
    } else {
      SplitJoin(parts[1..], sep);
      SplitPrefix(parts[0], Join(parts[1..], sep), sep);
    }
  }

  lemma {:induction false} SplitPlain(p: string, sep: char)
    requires sep !in p
    ensures Split(p, sep) == [p]
    decreases |p|
  {
    if |p| > 0 {
      SplitPlain(p[1..], sep);
      assert p == [p[0]] + p[1..];
    }
  }

  lemma {:induction false} SplitPrefix(p: string, rest: string, sep: char)
    requires sep !in p
    ensures Split(p + [sep] + rest, sep) == [p] + Split(rest, sep)
    decreases |p|
  {
    var s := p + [sep] + rest;
    if |p| == 0 {
      assert s[0] == sep && s[1..] == rest;
    } else {
      assert s[0] == p[0] && s[1..] == p[1..] + [sep] + rest;
      SplitPrefix(p[1..], rest, sep);
      assert [p[0]] + p[1..] == p;
    }
  }

  /** The tag field of the task form: split on ',', trim each piece, drop
      the empty ones. */
  function ParseTags(input: string): (tags: seq<string>)
    ensures forall i :: 0 <= i < |tags| ==> IsTag(tags[i])
  {
    DropEmpty(TrimEach(Split(input, ',')))
  }

  /** `.map(tag => tag.trim())` over comma-free pieces. */
  function TrimEach(pieces: seq<string>): (r: seq<string>)
    requires forall i :: 0 <= i < |pieces| ==> ',' !in pieces[i]
    ensures |r| == |pieces|
    ensures forall i :: 0 <= i < |r| ==> r[i] == Trim(pieces[i])
    ensures forall i :: 0 <= i < |r| ==> r[i] != [] ==> IsTag(r[i])
  {
    seq(|pieces|, i requires 0 <= i < |pieces| => Trim(pieces[i]))
  }

  /** The empty string is the only falsy string. */
  predicate NonEmpty(t: string) {
    t != []
  }

  /** `.filter(tag => tag)`. */
  function DropEmpty(pieces: seq<string>): (tags: seq<string>)
    requires forall i :: 0 <= i < |pieces| ==> pieces[i] != [] ==> IsTag(pieces[i])
    ensures forall i :: 0 <= i < |tags| ==> IsTag(tags[i])
  {
    var tags := Filter(pieces, NonEmpty);
    assert forall i :: 0 <= i < |tags| ==> IsTag(tags[i]) by {
      forall i | 0 <= i < |tags| ensures IsTag(tags[i]) {
        var x := tags[i];
        assert multiset(tags)[x] > 0;
        assert x in pieces && x != [];
      }
    }
    tags
  }

  ghost predicate IsTag(t: string) {
    t != [] && ',' !in t && !IsWhitespace(t[0]) && !IsWhitespace(t[|t| - 1])
  }

  /** Writing tags with commas between them and parsing the field gives the
      same tags back. */
  lemma ParseTagsJoin(tags: seq<string>)
    requires |tags| >= 1
    requires forall i :: 0 <= i < |tags| ==> IsTag(tags[i])
    ensures ParseTags(Join(tags, ',')) == tags
  {
    TagsAreCommaFree(tags);
    SplitJoin(tags, ',');
    TagsAreTrimmed(tags);
    FilterKeepsAll(tags, NonEmpty);
    assert DropEmpty(tags) == tags;
  }

  /** A tag field left blank: `"".split(',')` is `[""]`, whose one piece
      trims to the empty string and is dropped. */
  lemma ParseTagsEmpty()
    ensures ParseTags("") == []
  {
    assert Split("", ',') == [""];
    assert TrimEach([""]) == [""];
    assert Filter([""], NonEmpty) == [];
  }

  lemma TagsAreCommaFree(tags: seq<string>)
    requires forall i :: 0 <= i < |tags| ==> IsTag(tags[i])
    ensures forall i :: 0 <= i < |tags| ==> ',' !in tags[i]
  {
    forall i | 0 <= i < |tags| ensures ',' !in tags[i] {
      assert IsTag(tags[i]);
    }
  }

  lemma TagsAreTrimmed(tags: seq<string>)
    requires forall i :: 0 <= i < |tags| ==> IsTag(tags[i])
    requires forall i :: 0 <= i < |tags| ==> ',' !in tags[i]
    ensures TrimEach(tags) == tags
  {
    var trimmed := TrimEach(tags);
    forall i | 0 <= i < |tags| ensures trimmed[i] == tags[i] {
      assert IsTag(tags[i]);
      TrimUnchanged(tags[i]);
    }
  }

  /** A string with no whitespace at either end is its own trim. */
  lemma TrimUnchanged(s: string)
    requires s != [] && !IsWhitespace(s[0]) && !IsWhitespace(s[|s| - 1])
    ensures Trim(s) == s
  {
    assert SkipLeading(s, 0) == 0;
    assert SkipTrailing(s, 0, |s|) == |s|;
    assert s[0..|s|] == s;
  }

  /** The digits of a number in a template literal. */
  function Decimal(n: nat): (s: string)
    ensures |s| >= 1
    ensures forall i :: 0 <= i < |s| ==> '0' <= s[i] <= '9'
    ensures s[0] != '0' || n == 0
    ensures DigitsValue(s) == n
  {
    if n < 10 then [(48 + n) as char]
    else
      var s := Decimal(n / 10) + [(48 + n % 10) as char];
      assert s[..|s| - 1] == Decimal(n / 10);
      s
  }

  /** The number a string of decimal digits denotes. */
  ghost function DigitsValue(s: string): int {
    if |s| == 0 then 0 else 10 * DigitsValue(s[..|s| - 1]) + (s[|s| - 1] as int - 48)
  }
}
