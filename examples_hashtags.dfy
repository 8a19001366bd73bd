/** Worked examples of hashtag extraction on concrete status texts. */
module HashtagExamples {
  import opened Hashtags
  import Firehose

  /** The sample status of the end-to-end example. */
  const Sample := "love #Rust and #go lang #Go"

  /** `t` spells `Sample`, character by character. */
  predicate SpellsSample(t: string) {
    |t| == 27
    && t[0] == 'l' && t[1] == 'o' && t[2] == 'v' && t[3] == 'e' && t[4] == ' ' && t[5] == '#' && t[6] == 'R'
    && t[7] == 'u' && t[8] == 's' && t[9] == 't' && t[10] == ' ' && t[11] == 'a' && t[12] == 'n' && t[13] == 'd'
    && t[14] == ' ' && t[15] == '#' && t[16] == 'g' && t[17] == 'o' && t[18] == ' ' && t[19] == 'l' && t[20] == 'a'
    && t[21] == 'n' && t[22] == 'g' && t[23] == ' ' && t[24] == '#' && t[25] == 'G' && t[26] == 'o'
  }

  /** From position 23 the scan finds `#Go` and reaches the end. */
  lemma SampleFrom23(t: string)
    requires SpellsSample(t)
    ensures Scan(t, 23) == ["go"]
  {
    assert IsTagStart(t, 23) && RunLength(t, 27) == 0;
    assert RunLength(t, 25) == 2;
    assert t[25..27] == "Go" && DowncaseString("Go") == "go";
    assert Scan(t, 27) == [];
  }

  /** From position 14 the scan finds `#go`, resumes at 18 and skips `lang`. */
  lemma SampleFrom14(t: string)
    requires SpellsSample(t)
    ensures Scan(t, 14) == ["go", "go"]
  {
    SampleFrom23(t);
    assert !IsTagStart(t, 22) && Scan(t, 22) == Scan(t, 23);
    assert !IsTagStart(t, 21) && Scan(t, 21) == Scan(t, 22);
    assert !IsTagStart(t, 20) && Scan(t, 20) == Scan(t, 21);
    assert !IsTagStart(t, 19) && Scan(t, 19) == Scan(t, 20);
    assert !IsTagStart(t, 18) && Scan(t, 18) == Scan(t, 19);
    assert IsTagStart(t, 14) && RunLength(t, 18) == 0;
    assert RunLength(t, 16) == 2;
    assert t[16..18] == "go" && DowncaseString("go") == "go";
  }

  /** From position 4 the scan finds `#Rust`, resumes at 10 and skips `and`. */
  lemma SampleFrom4(t: string)
    requires SpellsSample(t)
    ensures Scan(t, 4) == ["rust", "go", "go"]
  {
    SampleFrom14(t);
    assert !IsTagStart(t, 13) && Scan(t, 13) == Scan(t, 14);
    assert !IsTagStart(t, 12) && Scan(t, 12) == Scan(t, 13);
    assert !IsTagStart(t, 11) && Scan(t, 11) == Scan(t, 12);
    assert !IsTagStart(t, 10) && Scan(t, 10) == Scan(t, 11);
    assert IsTagStart(t, 4) && RunLength(t, 10) == 0;
    assert RunLength(t, 6) == 4;
    assert t[6..10] == "Rust" && DowncaseString("Rust") == "rust";
  }

  /** Three tags, downcased, in order, with the duplicate kept. */
  lemma SampleTags()
    ensures Extract(Sample) == ["rust", "go", "go"]
  {
    var t := Sample;
    assert SpellsSample(t);
    SampleFrom4(t);
    assert !IsTagStart(t, 3) && Scan(t, 3) == Scan(t, 4);
    assert !IsTagStart(t, 2) && Scan(t, 2) == Scan(t, 3);
    assert !IsTagStart(t, 1) && Scan(t, 1) == Scan(t, 2);
    assert !IsTagStart(t, 0) && Scan(t, 0) == Scan(t, 1);
  }

  /** A `#` needs a whitespace character directly before it. */
  lemma NeedsSpaceExamples()
    ensures Extract("abc#tag") == []
    ensures Extract("#tag") == []
  {
  }

  /** Text without a whitespace-then-`#` pair has no tags. */
  lemma NoTagExample()
    ensures Extract("no tags here") == []
  {
  }

  /** The run is greedy and stops at the first character that is not alphanumeric. */
  lemma GreedyRunExample()
    ensures Extract(" #foo_bar") == ["foo"]
  {
    var t := " #foo_bar";
    assert t[0] == ' ' && t[1] == '#' && t[2] == 'f' && t[3] == 'o' && t[4] == 'o' && t[5] == '_';
    assert TagEnd(t, 0) == 5;
    assert t[2..5] == "foo";
    assert DowncaseString("foo") == "foo";
    assert !IsTagStart(t, 5) && !IsTagStart(t, 6) && !IsTagStart(t, 7) && !IsTagStart(t, 8);
  }

  /** End to end: the sample status gives three events, for `rust`, `go`
      and `go`, each with metric 1.0, tags `["twitter"]` and ttl 3600. */
  lemma SampleStatusEvents()
    ensures Firehose.StatusEvents("love #Rust and #go lang #Go") ==
              [Firehose.TagEvent("rust"), Firehose.TagEvent("go"), Firehose.TagEvent("go")]
  {
    SampleTags();
  }
}
