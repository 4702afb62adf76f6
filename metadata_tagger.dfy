/**
 * Chunk metadata tagging (`detectSection`, `detectTimestamp` in
 * lib/actions/documents.ts).
 *
 * Each detector tries a fixed list of regular expressions in order and
 * returns the capture of the first one that matches anywhere in the chunk.
 * Every regular expression is modelled exactly: `MatchAt` says whether the
 * expression matches at a given start position and, if so, which span its
 * capture group covers, with the greedy quantifiers and their backtracking
 * worked out case by case; `Find` is the leftmost-match search that
 * `String.prototype.match` performs for a non-global expression.
 */
module MetadataTagger {
  import opened Wrappers
  import opened Text

  /** The capture group of a match: the text `s[start..end]`. */
  datatype Span = Span(start: nat, end: nat)

  /** The regular expressions of the two detectors, tagged by what they recognise. */
  datatype Pattern =
    | MarkdownHeading   // /^#{1,6}\s+(.+)$/m
    | ColonHeader       // /^([A-Z][A-Za-z\s]{2,}:)/m
    | NumberedSection   // /^(\d+\.\d*\s+[A-Z][A-Za-z\s]{2,})/m
    | TitleCaseLine     // /^([A-Z][A-Za-z\s]{2,})$/m
    | IsoDate           // /\b(\d{4}-\d{2}-\d{2})\b/
    | NumericDate       // /\b(\d{1,2}[/-]\d{1,2}[/-]\d{2,4})\b/
    | WrittenDate       // /\b((?:Jan|...|Dec)[a-z]*\.?\s+\d{1,2},?\s+\d{4})\b/
    | ClockTime         // /\b(\d{1,2}:\d{2}(?::\d{2})?(?:\s*[AaPp][Mm])?)\b/

  /** The section patterns, in the order `detectSection` tries them. */
  const SectionPatterns: seq<Pattern> := [MarkdownHeading, ColonHeader, NumberedSection, TitleCaseLine]

  /** The date and time patterns, in the order `detectTimestamp` tries them. */
  const TimestampPatterns: seq<Pattern> := [IsoDate, NumericDate, WrittenDate, ClockTime]

  /** The month prefixes of the written-date pattern. */
  const Months: seq<string> := ["Jan", "Feb", "Mar", "Apr", "May", "Jun", "Jul", "Aug", "Sep", "Oct", "Nov", "Dec"]

  predicate IsHash(c: char) { c == '#' }

  /** `.`: any character but a line terminator. */
  predicate IsLineChar(c: char) { !IsLineTerminator(c) }

  /** `[A-Za-z\s]` */
  predicate IsHeadingChar(c: char) { IsUpper(c) || IsLower(c) || IsSpace(c) }

  /** `[/-]` */
  predicate IsDateSeparator(c: char) { c == '/' || c == '-' }

  predicate IsMeridiem(c: char) { c == 'A' || c == 'a' || c == 'P' || c == 'p' }

  /** The length of the longest run of characters of class `p` starting at `i`:
    * what a greedy `p*` consumes before any backtracking. */
  function Run(s: string, i: nat, p: char -> bool): (n: nat)
    requires i <= |s|
    ensures i + n <= |s|
    ensures forall k :: i <= k < i + n ==> p(s[k])
    ensures i + n == |s| || !p(s[i + n])
    decreases |s| - i
  {
    if i < |s| && p(s[i]) then 1 + Run(s, i + 1, p) else 0
  }

  /** The largest `k` in `lo..hi` that satisfies `ok`: the first length a greedy
    * quantifier reaches when it gives back characters one at a time. */
  function Largest(lo: nat, hi: nat, ok: nat -> bool): (r: Option<nat>)
    ensures r.Some? ==> lo <= r.value <= hi && ok(r.value)
    ensures r.Some? ==> forall k :: r.value < k <= hi ==> !ok(k)
    ensures r.None? ==> forall k :: lo <= k <= hi ==> !ok(k)
    decreases hi
  {
    if hi < lo then None
    else if ok(hi) then Some(hi)
    else if hi == lo then None
    else Largest(lo, hi - 1, ok)
  }

  /** `^` in multiline mode: the start of the text or just after a line terminator. */
  predicate IsLineStart(s: string, p: nat) {
    p == 0 || (0 < p <= |s| && IsLineTerminator(s[p - 1]))
  }

  /** `$` in multiline mode: the end of the text or just before a line terminator. */
  predicate IsLineEnd(s: string, p: nat) {
    p == |s| || (p < |s| && IsLineTerminator(s[p]))
  }

  predicate IsWordAt(s: string, i: int) { 0 <= i < |s| && IsWordChar(s[i]) }

  /** `\b`: a word character on exactly one side of position `p`. */
  predicate IsBoundary(s: string, p: nat) { IsWordAt(s, p - 1) != IsWordAt(s, p) }

  /** `/^#{1,6}\s+(.+)$/m` at `p`. `#{1,6}` cannot give back a `#` (the next
    * character would be a `#`, not white space), so the run of `#` must have
    * length 1 to 6; `\s+` may run over line breaks and gives back white space
    * until `(.+)` can start on a character that is not a line terminator;
    * `(.+)` then runs to the end of that line, where `$` holds. */
  function MarkdownHeadingAt(s: string, p: nat): (r: Option<Span>)
    requires p <= |s|
    ensures r.Some? ==> p <= r.value.start < r.value.end <= |s|
  {
    if !IsLineStart(s, p) then None
    else
      var h := Run(s, p, IsHash);
      var q := p + h;
      var w := Run(s, q, IsSpace);
      if h < 1 || h > 6 || w == 0 then None
      else
        match Largest(1, w, (j: nat) => q + j < |s| && IsLineChar(s[q + j]))
        case None => None
        case Some(j) => Some(Span(q + j, q + j + Run(s, q + j, IsLineChar)))
  }

  /** `/^([A-Z][A-Za-z\s]{2,}:)/m` at `p`: `:` is outside the class, so the
    * greedy run must stop exactly at the colon. */
  function ColonHeaderAt(s: string, p: nat): (r: Option<Span>)
    requires p <= |s|
    ensures r.Some? ==> r.value.start == p < r.value.end <= |s|
  {
    if !IsLineStart(s, p) || p == |s| || !IsUpper(s[p]) then None
    else
      var c := p + 1 + Run(s, p + 1, IsHeadingChar);
      if c - (p + 1) >= 2 && c < |s| && s[c] == ':' then Some(Span(p, c + 1)) else None
  }

  /** `/^(\d+\.\d*\s+[A-Z][A-Za-z\s]{2,})/m` at `p`: no quantifier can give
    * anything back, so each consumes its whole run, and the capture ends
    * where the last run of letters and white space ends. */
  function NumberedSectionAt(s: string, p: nat): (r: Option<Span>)
    requires p <= |s|
    ensures r.Some? ==> r.value.start == p < r.value.end <= |s|
  {
    if !IsLineStart(s, p) then None
    else
      var dot := p + Run(s, p, IsDigit);
      if dot == p || dot == |s| || s[dot] != '.' then None
      else
        var b := dot + 1 + Run(s, dot + 1, IsDigit);
        var c := b + Run(s, b, IsSpace);
        if c == b || c == |s| || !IsUpper(s[c]) then None
        else
          var r := Run(s, c + 1, IsHeadingChar);
          if r < 2 then None else Some(Span(p, c + 1 + r))
  }

  /** `/^([A-Z][A-Za-z\s]{2,})$/m` at `p`: the greedy run gives back characters
    * until it stops at the end of the text or before a line terminator. */
  function TitleCaseLineAt(s: string, p: nat): (r: Option<Span>)
    requires p <= |s|
    ensures r.Some? ==> r.value.start == p < r.value.end <= |s|
  {
    if !IsLineStart(s, p) || p == |s| || !IsUpper(s[p]) then None
    else
      var r := Run(s, p + 1, IsHeadingChar);
      if r < 2 then None
      else
        match Largest(2, r, (k: nat) => IsLineEnd(s, p + 1 + k))
        case None => None
        case Some(k) => Some(Span(p, p + 1 + k))
  }

  /** `/\b(\d{4}-\d{2}-\d{2})\b/` at `p`. */
  function IsoDateAt(s: string, p: nat): (r: Option<Span>)
    requires p <= |s|
    ensures r.Some? ==> r.value.start == p < r.value.end <= |s|
  {
    if p + 10 <= |s| && IsYmd(s[p..p + 10]) && IsBoundary(s, p) && IsBoundary(s, p + 10)
    then Some(Span(p, p + 10)) else None
  }

  /** `/\b(\d{1,2}[/-]\d{1,2}[/-]\d{2,4})\b/` at `p`: a quantifier that stops
    * short of a run of digits leaves a digit where a separator or a boundary
    * is needed, so each run must have an admissible length as a whole. */
  function NumericDateAt(s: string, p: nat): (r: Option<Span>)
    requires p <= |s|
    ensures r.Some? ==> r.value.start == p < r.value.end <= |s|
  {
    var i1 := p + Run(s, p, IsDigit);
    if !IsBoundary(s, p) || !(1 <= i1 - p <= 2) || i1 == |s| || !IsDateSeparator(s[i1]) then None
    else
      var i2 := i1 + 1 + Run(s, i1 + 1, IsDigit);
      if !(1 <= i2 - (i1 + 1) <= 2) || i2 == |s| || !IsDateSeparator(s[i2]) then None
      else
        var e := i2 + 1 + Run(s, i2 + 1, IsDigit);
        if 2 <= e - (i2 + 1) <= 4 && IsBoundary(s, e) then Some(Span(p, e)) else None
  }

  /** The tail `\s+\d{4}\b` of the written-date pattern, from `i`; the end of the year. */
  function YearAfter(s: string, i: nat): (r: Option<nat>)
    requires i <= |s|
    ensures r.Some? ==> i < r.value <= |s|
  {
    var y := i + Run(s, i, IsSpace);
    if y == i || y + 4 > |s| then None
    else if IsDigit(s[y]) && IsDigit(s[y + 1]) && IsDigit(s[y + 2]) && IsDigit(s[y + 3]) && IsBoundary(s, y + 4)
    then Some(y + 4)
    else None
  }

  /** `/\b((?:Jan|...|Dec)[a-z]*\.?\s+\d{1,2},?\s+\d{4})\b/` at `p`: the optional
    * `.` and `,` are taken whenever present (leaving them out puts them where
    * white space is required), and the day must be a whole run of one or two digits. */
  function WrittenDateAt(s: string, p: nat): (r: Option<Span>)
    requires p <= |s|
    ensures r.Some? ==> r.value.start == p < r.value.end <= |s|
  {
    if !IsBoundary(s, p) || p + 3 > |s| || s[p..p + 3] !in Months then None
    else
      var i := p + 3 + Run(s, p + 3, IsLower);
      var j := if i < |s| && s[i] == '.' then i + 1 else i;
      var k := j + Run(s, j, IsSpace);
      if k == j then None
      else
        var m := k + Run(s, k, IsDigit);
        if !(1 <= m - k <= 2) then None
        else
          var n := if m < |s| && s[m] == ',' then m + 1 else m;
          match YearAfter(s, n)
          case None => None
          case Some(e) => Some(Span(p, e))
  }

  /** Where the clock-time pattern ends if the time proper ends at `t`: the
    * optional `\s*[AaPp][Mm]` is taken when it is followed by a boundary,
    * otherwise the match must end at `t`. */
  function TimeEnd(s: string, t: nat): (r: Option<nat>)
    requires t <= |s|
    ensures r.Some? ==> t <= r.value <= |s|
  {
    var u := t + Run(s, t, IsSpace);
    if u + 2 <= |s| && IsMeridiem(s[u]) && (s[u + 1] == 'M' || s[u + 1] == 'm') && IsBoundary(s, u + 2)
    then Some(u + 2)
    else if IsBoundary(s, t) then Some(t)
    else None
  }

  /** `/\b(\d{1,2}:\d{2}(?::\d{2})?(?:\s*[AaPp][Mm])?)\b/` at `p`: seconds are
    * tried first and dropped if the rest of the match then fails. */
  function ClockTimeAt(s: string, p: nat): (r: Option<Span>)
    requires p <= |s|
    ensures r.Some? ==> r.value.start == p < r.value.end <= |s|
  {
    var c := p + Run(s, p, IsDigit);
    if !IsBoundary(s, p) || !(1 <= c - p <= 2) || c + 3 > |s| then None
    else if s[c] != ':' || !IsDigit(s[c + 1]) || !IsDigit(s[c + 2]) then None
    else
      var q := c + 3;
      var withSeconds :=
        if q + 3 <= |s| && s[q] == ':' && IsDigit(s[q + 1]) && IsDigit(s[q + 2]) then TimeEnd(s, q + 3) else None;
      match (if withSeconds.Some? then withSeconds else TimeEnd(s, q))
      case None => None
      case Some(e) => Some(Span(p, e))
  }

  /** Whether `pat` matches with its match starting at `p`, and the span of
    * its capture group. The capture is never empty, so the source's
    * `match[1]` test passes whenever the expression matches. */
  function MatchAt(pat: Pattern, s: string, p: nat): (r: Option<Span>)
    requires p <= |s|
    ensures r.Some? ==> p <= r.value.start < r.value.end <= |s|
    ensures r.Some? && pat != MarkdownHeading ==> r.value.start == p
  {
    match pat
    case MarkdownHeading => MarkdownHeadingAt(s, p)
    case ColonHeader => ColonHeaderAt(s, p)
    case NumberedSection => NumberedSectionAt(s, p)
    case TitleCaseLine => TitleCaseLineAt(s, p)
    case IsoDate => IsoDateAt(s, p)
    case NumericDate => NumericDateAt(s, p)
    case WrittenDate => WrittenDateAt(s, p)
    case ClockTime => ClockTimeAt(s, p)
  }

  /** A match: where it starts and what its capture covers. */
  datatype Found = Found(pos: nat, span: Span)

  /** `s.match(pat)` searching from `from`: the leftmost start position at
    * which the pattern matches. */
  function Find(pat: Pattern, s: string, from: nat): (r: Option<Found>)
    requires from <= |s| + 1
    ensures r.Some? ==> from <= r.value.pos <= |s| && MatchAt(pat, s, r.value.pos) == Some(r.value.span)
    ensures r.Some? ==> forall q :: from <= q < r.value.pos ==> MatchAt(pat, s, q).None?
    ensures r.None? ==> forall q :: from <= q <= |s| ==> MatchAt(pat, s, q).None?
    decreases |s| + 1 - from
  {
    if from > |s| then None
    else
      match MatchAt(pat, s, from)
      case Some(sp) => Some(Found(from, sp))
      case None =>
        var r := Find(pat, s, from + 1);
        NoMatchBefore(pat, s, from, if r.Some? then r.value.pos else |s| + 1);
        r
  }

  /** A position without a match widens a match-free range by one. */
  lemma {:induction false} NoMatchBefore(pat: Pattern, s: string, from: nat, hi: nat)
    requires from <= |s| && hi <= |s| + 1
    requires MatchAt(pat, s, from).None?
    requires forall q :: from + 1 <= q < hi ==> MatchAt(pat, s, q).None?
    ensures forall q :: from <= q < hi ==> MatchAt(pat, s, q).None?
  {
  }

  /** The text a match captured. */
  function Capture(s: string, f: Found): string
    requires f.span.start <= f.span.end <= |s|
  {
    s[f.span.start..f.span.end]
  }

  /** The loop of both detectors, from the pattern at index `from` on: the
    * first pattern that matches anywhere in `s`, with its index and its
    * leftmost match. */
  function FirstOf(pats: seq<Pattern>, s: string, from: nat): (r: Option<(nat, Found)>)
    requires from <= |pats|
    ensures r.Some? ==> from <= r.value.0 < |pats| && Find(pats[r.value.0], s, 0) == Some(r.value.1)
    ensures r.Some? ==> forall j :: from <= j < r.value.0 ==> Find(pats[j], s, 0).None?
    ensures r.None? ==> forall j :: from <= j < |pats| ==> Find(pats[j], s, 0).None?
    decreases |pats| - from
  {
    if from == |pats| then None
    else
      match Find(pats[from], s, 0)
      case Some(f) => Some((from, f))
      case None =>
        var r := FirstOf(pats, s, from + 1);
        NoFindBefore(pats, s, from, if r.Some? then r.value.0 else |pats|);
        r
  }

  /** A pattern without a match widens a range of patterns without one. */
  lemma {:induction false} NoFindBefore(pats: seq<Pattern>, s: string, from: nat, hi: nat)
    requires from < |pats| && hi <= |pats|
    requires Find(pats[from], s, 0).None?
    requires forall j :: from + 1 <= j < hi ==> Find(pats[j], s, 0).None?
    ensures forall j :: from <= j < hi ==> Find(pats[j], s, 0).None?
  {
  }

  /** `detectSection`: the trimmed capture of the first section pattern that
    * matches, or `None` when none does. */
  function DetectSection(content: string): (r: Option<string>)
    ensures r.None? <==> forall j :: 0 <= j < |SectionPatterns| ==> Find(SectionPatterns[j], content, 0).None?
    ensures r.Some? ==> IsTrimmed(r.value)
    ensures r.Some? ==>
      exists i ::
        && 0 <= i < |SectionPatterns|
        && Find(SectionPatterns[i], content, 0).Some?
        && (forall j :: 0 <= j < i ==> Find(SectionPatterns[j], content, 0).None?)
        && r.value == Trim(Capture(content, Find(SectionPatterns[i], content, 0).value))
  {
    match FirstOf(SectionPatterns, content, 0)
    case None => None
    case Some((_, f)) => Some(Trim(Capture(content, f)))
  }

  /** `detectTimestamp`: the capture, untrimmed, of the first date or time
    * pattern that matches, or `None` when none does. */
  function DetectTimestamp(content: string): (r: Option<string>)
    ensures r.None? <==> forall j :: 0 <= j < |TimestampPatterns| ==> Find(TimestampPatterns[j], content, 0).None?
    ensures r.Some? ==> r.value != []
    ensures r.Some? ==>
      exists i ::
        && 0 <= i < |TimestampPatterns|
        && Find(TimestampPatterns[i], content, 0).Some?
        && (forall j :: 0 <= j < i ==> Find(TimestampPatterns[j], content, 0).None?)
        && r.value == Capture(content, Find(TimestampPatterns[i], content, 0).value)
  {
    match FirstOf(TimestampPatterns, content, 0)
    case None => None
    case Some((_, f)) => Some(Capture(content, f))
  }
}
