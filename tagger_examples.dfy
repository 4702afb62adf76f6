/**
 * Worked inputs of the metadata tagger (lib/actions/documents.ts):
 * which pattern wins on a concrete chunk and what it captures.
 */
module TaggerExamples {
  import opened Wrappers
  import opened Text
  import opened MetadataTagger

  /** A heading with nothing after its hashes yields an empty section:
    * the capture is a single space, which trimming removes. */
  lemma {:induction false} BlankHeading(s: string)
    requires s == "#  "
    ensures DetectSection(s) == Some("")
  {
    assert IsHash(s[0]) && !IsHash(s[1]);
    assert Run(s, 1, IsHash) == 0;
    assert Run(s, 0, IsHash) == 1;
    assert IsSpace(s[1]) && IsSpace(s[2]);
    assert Run(s, 3, IsSpace) == 0;
    assert Run(s, 1, IsSpace) == 2;
    assert Run(s, 3, IsLineChar) == 0;
    assert Run(s, 2, IsLineChar) == 1;
    assert Largest(1, 2, (j: nat) => 1 + j < |s| && IsLineChar(s[1 + j])) == Some(1);
    assert MatchAt(MarkdownHeading, s, 0) == Some(Span(2, 3));
    assert Find(MarkdownHeading, s, 0) == Some(Found(0, Span(2, 3)));
    assert FirstOf(SectionPatterns, s, 0) == Some((0, Found(0, Span(2, 3))));
    assert Capture(s, Found(0, Span(2, 3))) == " ";
    assert Trim(" ") == "";
  }

  /** A chunk opening with an ISO date is stamped with that date. */
  lemma {:induction false} IsoDateExample(s: string)
    requires s == "2024-03-21 sitting"
    ensures DetectTimestamp(s) == Some("2024-03-21")
  {
    assert IsYmd(s[0..10]);
    assert IsBoundary(s, 0) && IsBoundary(s, 10);
    assert MatchAt(IsoDate, s, 0) == Some(Span(0, 10));
    assert Find(IsoDate, s, 0) == Some(Found(0, Span(0, 10)));
    assert FirstOf(TimestampPatterns, s, 0) == Some((0, Found(0, Span(0, 10))));
    assert s[0..10] == "2024-03-21";
  }

  /** A day-first date holds no ISO date... */
  lemma {:induction false} NoIsoDateIn(s: string)
    requires s == "On 21/03/2024"
    ensures Find(IsoDate, s, 0).None?
  {
    forall p | 0 <= p <= |s| ensures MatchAt(IsoDate, s, p).None? {
      if p + 10 <= |s| {
        if p == 0 { assert s[p..p + 10][0] == 'O'; }
        else if p == 1 { assert s[p..p + 10][0] == 'n'; }
        else if p == 2 { assert s[p..p + 10][0] == ' '; }
        else { assert s[p..p + 10][2] == '/'; }
      }
    }
  }

  /** The numeric pattern matches at the day, and its capture runs to the
    * end of the year... */
  lemma {:induction false} NumericDateSpan(s: string)
    requires s == "On 21/03/2024"
    ensures MatchAt(NumericDate, s, 3) == Some(Span(3, 13))
  {
    assert Run(s, 5, IsDigit) == 0;
    assert Run(s, 3, IsDigit) == 2;
    assert Run(s, 8, IsDigit) == 0;
    assert Run(s, 6, IsDigit) == 2;
    assert Run(s, 13, IsDigit) == 0;
    assert Run(s, 9, IsDigit) == 4;
    assert IsBoundary(s, 3) && IsBoundary(s, 13);
  }

  /** ...and not before it, so the leftmost numeric date starts at the day. */
  lemma {:induction false} NumericDateAt3(s: string)
    requires s == "On 21/03/2024"
    ensures Find(NumericDate, s, 0) == Some(Found(3, Span(3, 13)))
  {
    NumericDateSpan(s);
    assert Run(s, 0, IsDigit) == 0 && Run(s, 1, IsDigit) == 0 && Run(s, 2, IsDigit) == 0;
    assert MatchAt(NumericDate, s, 0).None? && MatchAt(NumericDate, s, 1).None? && MatchAt(NumericDate, s, 2).None?;
  }

  /** Without an ISO date the numeric form is taken, separators and all. */
  lemma {:induction false} NumericDateExample(s: string)
    requires s == "On 21/03/2024"
    ensures DetectTimestamp(s) == Some("21/03/2024")
  {
    NoIsoDateIn(s);
    NumericDateAt3(s);
    assert FirstOf(TimestampPatterns, s, 0) == Some((1, Found(3, Span(3, 13))));
    assert s[3..13] == "21/03/2024";
  }
}
