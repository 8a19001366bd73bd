/** Hashtag extraction from a status text.

    The firehose script extracts tags with a Ruby regular-expression scan:
    the text is searched left to right for one whitespace character, a `#`,
    and a greedy run of alphanumeric characters; matches do not overlap, and
    each captured run is lowercased.  This module restricts the character
    classes to ASCII: whitespace is Ruby's `[ \t\r\n\f\v]`, alphanumeric is
    `[A-Za-z0-9]`, and lowercasing maps `A`..`Z` to `a`..`z`.

    `Scan` follows the regular-expression engine step by step (try a match at
    the current position, skip past it on success, advance one character on
    failure).  `TagStarts` is an independent reference: the ascending list of
    every position where a match can begin.  `ExtractCharacterisation` proves
    the two agree.
 */
module Hashtags {

  /** Ruby's `\s`: space, tab, carriage return, line feed, form feed, vertical tab. */
  predicate IsSpace(c: char) {
    c == ' ' || c == '\t' || c == '\r' || c == '\n' || c == '\U{0C}' || c == '\U{0B}'
  }

  /** `[[:alnum:]]` restricted to ASCII. */
  predicate IsAlnum(c: char) {
    ('a' <= c <= 'z') || ('A' <= c <= 'Z') || ('0' <= c <= '9')
  }

  predicate IsUpper(c: char) {
    'A' <= c <= 'Z'
  }

  /** The ASCII alphabet in upper and in lower case, letter `i` of one
      matching letter `i` of the other. */
  const UpperLetters := "ABCDEFGHIJKLMNOPQRSTUVWXYZ"
  const LowerLetters := "abcdefghijklmnopqrstuvwxyz"

  /** ASCII `downcase` of one character: an upper-case letter becomes the
      lower-case letter at the same place in the alphabet; everything else is
      unchanged. */
  function Downcase(c: char): (d: char)
    ensures !IsUpper(d)
    ensures IsAlnum(d) <==> IsAlnum(c)
    ensures !IsUpper(c) ==> d == c
    ensures IsUpper(c) ==> 'a' <= d <= 'z' && d != c
    ensures IsUpper(c) ==> exists i :: 0 <= i < 26 && UpperLetters[i] == c && LowerLetters[i] == d
  {
    if IsUpper(c) then
      var i := c as int - 'A' as int;
      assert UpperLetters[i] == c && LowerLetters[i] == (i + 'a' as int) as char;
      (i + 'a' as int) as char
    else c
  }

  /** ASCII `String#downcase`: character by character. */
  function DowncaseString(s: string): (r: string)
    ensures |r| == |s|
    ensures forall i :: 0 <= i < |s| ==> r[i] == Downcase(s[i])
  {
    if s == [] then [] else [Downcase(s[0])] + DowncaseString(s[1..])
  }

  /** Length of the greedy run of alphanumeric characters of `s` starting at `j`. */
  function RunLength(s: string, j: nat): (n: nat)
    requires j <= |s|
    ensures j + n <= |s|
    ensures forall k :: j <= k < j + n ==> IsAlnum(s[k])
    ensures j + n == |s| || !IsAlnum(s[j + n])
    decreases |s| - j
  {
    if j == |s| || !IsAlnum(s[j]) then 0 else 1 + RunLength(s, j + 1)
  }

  /** The pattern can match at position `i`: whitespace, `#`, then at least one alphanumeric. */
  predicate IsTagStart(text: string, i: int) {
    0 <= i && i + 2 < |text| && IsSpace(text[i]) && text[i + 1] == '#' && IsAlnum(text[i + 2])
  }

  /** Position just past the match that begins at `i`. */
  function TagEnd(text: string, i: int): nat
    requires IsTagStart(text, i)
  {
    i + 2 + RunLength(text, i + 2)
  }

  /** The downcased capture group of the match that begins at `i`. */
  function TagAt(text: string, i: int): string
    requires IsTagStart(text, i)
  {
    DowncaseString(text[i + 2 .. TagEnd(text, i)])
  }

  /** The scan from position `p`: the regular-expression engine's left-to-right,
      non-overlapping search, each capture downcased. */
  function Scan(text: string, p: nat): seq<string>
    requires p <= |text|
    decreases |text| - p
  {
    if p == |text| then []
    else if IsTagStart(text, p) then [TagAt(text, p)] + Scan(text, TagEnd(text, p))
    else Scan(text, p + 1)
  }

  /** `status.text.scan(/\s#([[:alnum:]]+)/).map{|x| x.first.downcase}` */
  function Extract(text: string): seq<string> {
    Scan(text, 0)
  }

  /** Reference definition: every position at or after `p` where a match can
      begin, in ascending order, without any skipping. */
  function TagStarts(text: string, p: nat): seq<nat>
    decreases |text| - p
  {
    if p >= |text| then []
    else (if IsTagStart(text, p) then [p] else []) + TagStarts(text, p + 1)
  }

  /** `TagStarts(text, p)` contains exactly the match positions at or after `p`. */
  lemma {:induction false} TagStartsMembers(text: string, p: nat)
    ensures forall i :: i in TagStarts(text, p) <==> p <= i && IsTagStart(text, i)
    decreases |text| - p
  {
    if p < |text| {
      TagStartsMembers(text, p + 1);
    }
  }

  /** `TagStarts(text, p)` is strictly ascending and every entry is at least `p`. */
  lemma {:induction false} TagStartsAscending(text: string, p: nat)
    ensures forall k :: 0 <= k < |TagStarts(text, p)| ==> p <= TagStarts(text, p)[k]
    ensures forall k, l :: 0 <= k < l < |TagStarts(text, p)| ==> TagStarts(text, p)[k] < TagStarts(text, p)[l]
    decreases |text| - p
  {
    if p < |text| {
      TagStartsAscending(text, p + 1);
    }
  }

  /** No match can begin inside a match: between `q` and the end of the match
      that begins at `i` every character is `#` or alphanumeric, never whitespace. */
  lemma {:induction false} NoStartInsideMatch(text: string, i: nat, q: nat)
    requires IsTagStart(text, i)
    requires i < q <= TagEnd(text, i)
    ensures TagStarts(text, q) == TagStarts(text, TagEnd(text, i))
    decreases TagEnd(text, i) - q
  {
    if q < TagEnd(text, i) {
      assert !IsSpace(text[q]);
      NoStartInsideMatch(text, i, q + 1);
    }
  }

  /** The scan from `p` yields, one for one and in order, the tag of every
      match position at or after `p`. */
  lemma {:induction false} ScanMatchesTagStarts(text: string, p: nat)
    requires p <= |text|
    ensures |Scan(text, p)| == |TagStarts(text, p)|
    ensures forall k :: 0 <= k < |Scan(text, p)| ==>
              IsTagStart(text, TagStarts(text, p)[k]) && Scan(text, p)[k] == TagAt(text, TagStarts(text, p)[k])
    decreases |text| - p
  {
    if p < |text| {
      if IsTagStart(text, p) {
        var e := TagEnd(text, p);
        ScanMatchesTagStarts(text, e);
        NoStartInsideMatch(text, p, p + 1);
        var tags, starts := Scan(text, e), TagStarts(text, e);
        assert Scan(text, p) == [TagAt(text, p)] + tags;
        assert TagStarts(text, p) == [p] + starts;
        forall k | 0 < k < |Scan(text, p)|
          ensures Scan(text, p)[k] == tags[k - 1] && TagStarts(text, p)[k] == starts[k - 1]
        {
        }
      } else {
        ScanMatchesTagStarts(text, p + 1);
      }
    }
  }

  /** Positional characterisation: the tags are exactly the tags at the
      positions `i` with whitespace at `i`, `#` at `i + 1` and an alphanumeric
      character at `i + 2`, in ascending order of `i`, duplicates kept. */
  lemma ExtractCharacterisation(text: string)
    ensures var starts := TagStarts(text, 0);
      && |Extract(text)| == |starts|
      && (forall i :: i in starts <==> IsTagStart(text, i))
      && (forall k, l :: 0 <= k < l < |starts| ==> starts[k] < starts[l])
      && (forall k :: 0 <= k < |starts| ==> IsTagStart(text, starts[k]) && Extract(text)[k] == TagAt(text, starts[k]))
  {
    ScanMatchesTagStarts(text, 0);
    TagStartsMembers(text, 0);
    TagStartsAscending(text, 0);
  }

  /** Where tag `k` comes from: a whitespace character at `s`, `#` at `s + 1`,
      and the tag is the downcasing of the maximal alphanumeric run starting at
      `s + 2`.  So every tag is non-empty, alphanumeric and lowercase. */
  lemma TagOrigin(text: string, k: nat) returns (s: nat)
    requires k < |Extract(text)|
    ensures var t := Extract(text)[k];
      && s + 2 + |t| <= |text|
      && IsSpace(text[s]) && text[s + 1] == '#'
      && t == DowncaseString(text[s + 2 .. s + 2 + |t|])
      && |t| > 0
      && (forall j :: s + 2 <= j < s + 2 + |t| ==> IsAlnum(text[j]))
      && (s + 2 + |t| == |text| || !IsAlnum(text[s + 2 + |t|]))
  {
    ExtractCharacterisation(text);
    s := TagStarts(text, 0)[k];
  }

  /** Every tag is non-empty and made only of lowercase alphanumeric characters. */
  lemma TagsAreLowercaseAlnum(text: string)
    ensures forall t :: t in Extract(text) ==>
              |t| > 0 && forall c :: c in t ==> IsAlnum(c) && !IsUpper(c)
  {
    forall t | t in Extract(text)
      ensures |t| > 0 && forall c :: c in t ==> IsAlnum(c) && !IsUpper(c)
    {
      var k :| 0 <= k < |Extract(text)| && Extract(text)[k] == t;
      var s := TagOrigin(text, k);
      var run := text[s + 2 .. s + 2 + |t|];
      forall c | c in t ensures IsAlnum(c) && !IsUpper(c) {
        var j :| 0 <= j < |t| && t[j] == c;
        assert c == Downcase(run[j]);
      }
    }
  }

  /** Where no match can begin, the reference list is empty. */
  lemma {:induction false} NoTagStartsFrom(text: string, p: nat)
    requires forall i :: p <= i ==> !IsTagStart(text, i)
    ensures TagStarts(text, p) == []
    decreases |text| - p
  {
    if p < |text| {
      NoTagStartsFrom(text, p + 1);
    }
  }

  /** A `#` that is not directly preceded by whitespace never starts a tag:
      text with no whitespace-then-`#` pair yields nothing. */
  lemma NoSpaceBeforeHashNoTags(text: string)
    requires forall i :: 0 <= i < |text| - 1 ==> !(IsSpace(text[i]) && text[i + 1] == '#')
    ensures Extract(text) == []
  {
    assert forall i :: !IsTagStart(text, i);
    NoTagStartsFrom(text, 0);
    ScanMatchesTagStarts(text, 0);
  }

  /** The scan from `p` yields at most as many tags as there are `#` characters from `p` on. */
  lemma {:induction false} ScanCountBound(text: string, p: nat)
    requires p <= |text|
    ensures |Scan(text, p)| <= multiset(text[p..])['#']
    decreases |text| - p
  {
    if p < |text| {
      if IsTagStart(text, p) {
        var e := TagEnd(text, p);
        ScanCountBound(text, e);
        assert text[p..] == text[p..e] + text[e..];
        assert text[p..e][1] == '#';
      } else {
        ScanCountBound(text, p + 1);
        assert text[p..] == [text[p]] + text[p + 1..];
      }
    }
  }

  /** There are never more tags than `#` characters; in particular text without `#` yields no tags. */
  lemma TagCountBound(text: string)
    ensures |Extract(text)| <= multiset(text)['#']
    ensures '#' !in text ==> Extract(text) == []
  {
    ScanCountBound(text, 0);
    assert text[0..] == text;
  }

  /** The alphanumeric run at position `j` of `b` is the same when `b` follows `a`. */
  lemma {:induction false} RunLengthShift(a: string, b: string, j: nat)
    requires j <= |b|
    ensures RunLength(a + b, |a| + j) == RunLength(b, j)
    decreases |b| - j
  {
    if j < |b| && IsAlnum(b[j]) {
      RunLengthShift(a, b, j + 1);
    }
  }

  /** A run inside `a` stops at the end of `a` when `b` starts with a non-alphanumeric character. */
  lemma {:induction false} RunLengthPrefix(a: string, b: string, j: nat)
    requires j <= |a|
    requires |b| > 0 && !IsAlnum(b[0])
    ensures RunLength(a + b, j) == RunLength(a, j)
    decreases |a| - j
  {
    if j < |a| && IsAlnum(a[j]) {
      RunLengthPrefix(a, b, j + 1);
    }
  }

  /** A match at position `q` of `b` is the same match, with the same tag, when `b` follows `a`. */
  lemma TagShift(a: string, b: string, q: nat)
    requires q <= |b|
    ensures IsTagStart(a + b, |a| + q) <==> IsTagStart(b, q)
    ensures IsTagStart(b, q) ==>
              TagEnd(a + b, |a| + q) == |a| + TagEnd(b, q) && TagAt(a + b, |a| + q) == TagAt(b, q)
  {
    var t := a + b;
    if q + 2 < |b| {
      assert t[|a| + q] == b[q] && t[|a| + q + 1] == b[q + 1] && t[|a| + q + 2] == b[q + 2];
    }
    if IsTagStart(b, q) {
      RunLengthShift(a, b, q + 2);
      assert t[|a| + q + 2 .. |a| + TagEnd(b, q)] == b[q + 2 .. TagEnd(b, q)];
    }
  }

  /** The scan from a position inside `b` does not depend on what precedes `b`. */
  lemma {:induction false} ScanShift(a: string, b: string, q: nat)
    requires q <= |b|
    ensures Scan(a + b, |a| + q) == Scan(b, q)
    decreases |b| - q
  {
    if q < |b| {
      TagShift(a, b, q);
      if IsTagStart(b, q) {
        ScanShift(a, b, TagEnd(b, q));
      } else {
        ScanShift(a, b, q + 1);
      }
    }
  }

  /** When `b` starts with whitespace, a match at position `p` of `a` is the
      same match, with the same tag, in `a + b`, and no other match begins in `a`. */
  lemma TagPrefix(a: string, b: string, p: nat)
    requires p < |a|
    requires |b| > 0 && IsSpace(b[0])
    ensures IsTagStart(a + b, p) <==> IsTagStart(a, p)
    ensures IsTagStart(a, p) ==> TagEnd(a + b, p) == TagEnd(a, p) && TagAt(a + b, p) == TagAt(a, p)
  {
    var t := a + b;
    assert t[p] == a[p];
    if p + 1 < |a| {
      assert t[p + 1] == a[p + 1];
    } else {
      assert t[p + 1] == b[0];
    }
    if p + 2 < |a| {
      assert t[p + 2] == a[p + 2];
    } else if p + 2 == |a| {
      assert t[p + 2] == b[0];
    }
    if IsTagStart(a, p) {
      RunLengthPrefix(a, b, p + 2);
      assert t[p + 2 .. TagEnd(a, p)] == a[p + 2 .. TagEnd(a, p)];
    }
  }

  /** From a position inside `a`, when `b` starts with whitespace, the scan of
      `a + b` is the scan of `a` followed by the scan of `b`. */
  lemma {:induction false} ScanSplit(a: string, b: string, p: nat)
    requires p <= |a|
    requires |b| > 0 && IsSpace(b[0])
    ensures Scan(a + b, p) == Scan(a, p) + Scan(b, 0)
    decreases |a| - p
  {
    if p == |a| {
      ScanShift(a, b, 0);
    } else {
      TagPrefix(a, b, p);
      if IsTagStart(a, p) {
        ScanSplit(a, b, TagEnd(a, p));
      } else {
        ScanSplit(a, b, p + 1);
      }
    }
  }

  /** Cutting a text just before a whitespace character cuts its tag list in
      the same place: no match straddles the cut. */
  lemma ExtractSplit(a: string, b: string)
    requires |b| > 0 && IsSpace(b[0])
    ensures Extract(a + b) == Extract(a) + Extract(b)
  {
    ScanSplit(a, b, 0);
  }
}
