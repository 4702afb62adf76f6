/**
 * What the metadata tagger's pattern order implies
 * (lib/actions/documents.ts, `detectSection` and `detectTimestamp`): the
 * first pattern of each list wins wherever it matches, and its capture has
 * a known shape.
 */
module TaggerProperties {
  import opened Wrappers
  import opened Text
  import opened MetadataTagger

  /** An ISO date match covers exactly ten characters of the shape
    * YYYY-MM-DD. */
  lemma {:induction false} IsoDateSpan(s: string, p: nat, sp: Span)
    requires p <= |s| && MatchAt(IsoDate, s, p) == Some(sp)
    ensures sp == Span(p, p + 10) && p + 10 <= |s| && IsYmd(s[p..p + 10])
  {
  }

  /** The leftmost ISO date is ten characters of the shape YYYY-MM-DD. */
  lemma {:induction false} IsoDateShape(s: string)
    requires Find(IsoDate, s, 0).Some?
    ensures var f := Find(IsoDate, s, 0).value;
      && f.span == Span(f.pos, f.pos + 10) && f.pos + 10 <= |s|
      && IsYmd(Capture(s, f))
  {
    var f := Find(IsoDate, s, 0).value;
    IsoDateSpan(s, f.pos, f.span);
  }

  /** An ISO date anywhere in the chunk wins over every other date or time
    * form: the search settles on the leftmost ISO date. */
  lemma {:induction false} IsoDateFirst(s: string)
    requires Find(IsoDate, s, 0).Some?
    ensures FirstOf(TimestampPatterns, s, 0) == Some((0, Find(IsoDate, s, 0).value))
  {
    assert TimestampPatterns[0] == IsoDate;
    FirstPatternWins(TimestampPatterns, s);
  }

  /** An ISO date anywhere in the chunk wins over every other date or time
    * form, and the timestamp is the leftmost ISO date itself. */
  lemma {:induction false} IsoDateWins(s: string)
    requires Find(IsoDate, s, 0).Some?
    ensures var f := Find(IsoDate, s, 0).value;
      && f.span == Span(f.pos, f.pos + 10) && f.pos + 10 <= |s|
      && DetectTimestamp(s) == Some(Capture(s, f))
      && IsYmd(Capture(s, f))
  {
    var f := Find(IsoDate, s, 0).value;
    IsoDateShape(s);
    IsoDateFirst(s);
    TimestampOfFirst(s, 0, f);
  }

  /** The timestamp is the capture of the match the search settles on. */
  lemma {:induction false} TimestampOfFirst(s: string, i: nat, f: Found)
    requires FirstOf(TimestampPatterns, s, 0) == Some((i, f))
    requires f.span.start <= f.span.end <= |s|
    ensures DetectTimestamp(s) == Some(Capture(s, f))
  {
  }

  /** When the first pattern matches, the search stops at it. */
  lemma {:induction false} FirstPatternWins(pats: seq<Pattern>, s: string)
    requires pats != [] && Find(pats[0], s, 0).Some?
    ensures FirstOf(pats, s, 0) == Some((0, Find(pats[0], s, 0).value))
  {
  }

  /** A markdown heading match captures the rest of a line, up to its end. */
  lemma {:induction false} HeadingSpan(s: string, p: nat, sp: Span)
    requires p <= |s| && MarkdownHeadingAt(s, p) == Some(sp)
    ensures sp.start <= sp.end <= |s| && IsLineEnd(s, sp.end)
    ensures forall k :: sp.start <= k < sp.end ==> IsLineChar(s[k])
  {
  }

  /** The section is the trimmed capture of the match the search settles on. */
  lemma {:induction false} SectionOfFirst(s: string, i: nat, f: Found)
    requires FirstOf(SectionPatterns, s, 0) == Some((i, f))
    requires f.span.start <= f.span.end <= |s|
    ensures DetectSection(s) == Some(Trim(Capture(s, f)))
  {
  }

  /** A markdown heading anywhere in the chunk wins over the other section
    * forms, and the section is the rest of the heading's line, trimmed. */
  lemma {:induction false} HeadingWins(s: string)
    requires Find(MarkdownHeading, s, 0).Some?
    ensures var f := Find(MarkdownHeading, s, 0).value;
      && f.span.start <= f.span.end <= |s|
      && DetectSection(s) == Some(Trim(Capture(s, f)))
      && IsLineEnd(s, f.span.end)
      && forall k :: f.span.start <= k < f.span.end ==> IsLineChar(s[k])
  {
    var f := Find(MarkdownHeading, s, 0).value;
    assert MatchAt(MarkdownHeading, s, f.pos) == Some(f.span);
    HeadingSpan(s, f.pos, f.span);
    assert SectionPatterns[0] == MarkdownHeading;
    FirstPatternWins(SectionPatterns, s);
    SectionOfFirst(s, 0, f);
  }
}
