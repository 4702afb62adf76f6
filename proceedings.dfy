/**
 * Parliamentary proceedings (lib/proceedings.ts).
 *
 * The table of proceedings, with its listing (newest date first, projected
 * to id, title, date and creation time), its lookup by id and its insert.
 * Dates are text and are ordered as text; for dates of the shape the
 * insert schema demands, that order is the calendar order of year, month
 * and day, which is proved here.
 */
module Proceedings {
  import opened Wrappers
  import opened Text
  import opened ProceedingSchema

  type ProceedingId = nat

  /** A stored proceeding. */
  datatype Proceeding = Proceeding(
    id: ProceedingId, title: string, date: string, summary: string, originalText: string,
    createdAt: int, updatedAt: int)

  /** A row of the listing. */
  datatype ProceedingSummary = ProceedingSummary(id: ProceedingId, title: string, date: string, createdAt: int)

  // Text order

  /** `a` sorts at or before `b`, comparing character codes. */
  predicate LexLe(a: string, b: string): (r: bool)
    ensures a <= b ==> r
    decreases |a|
  {
    |a| == 0 || (|b| > 0 && (a[0] < b[0] || (a[0] == b[0] && LexLe(a[1..], b[1..]))))
  }

  /** `a` and `b` agree before position `k`, and there `a` has the smaller
    * code. */
  predicate FirstDifferenceBelow(a: string, b: string, k: nat) {
    k < |a| && k < |b| && a[..k] == b[..k] && a[k] < b[k]
  }

  /** The comparison of JavaScript strings: `a` is a prefix of `b`, or at the
    * first position where they differ `a` has the smaller code. */
  lemma {:induction false} LexLeIff(a: string, b: string)
    ensures LexLe(a, b) <==> a <= b || exists k :: FirstDifferenceBelow(a, b, k)
    decreases |a|
  {
    if |a| > 0 && |b| > 0 {
      if a[0] == b[0] {
        LexLeIff(a[1..], b[1..]);
        SameHead(a, b);
      } else {
        DifferentHeads(a, b);
      }
    }
  }

  /** Strings with the same first character compare as their tails do. */
  lemma {:induction false} SameHead(a: string, b: string)
    requires |a| > 0 && |b| > 0 && a[0] == b[0]
    ensures a <= b <==> a[1..] <= b[1..]
    ensures (exists k :: FirstDifferenceBelow(a, b, k)) <==> exists k :: FirstDifferenceBelow(a[1..], b[1..], k)
  {
    if exists k :: FirstDifferenceBelow(a[1..], b[1..], k) {
      var k: nat :| FirstDifferenceBelow(a[1..], b[1..], k);
      assert a[..k + 1] == [a[0]] + a[1..][..k];
      assert b[..k + 1] == [b[0]] + b[1..][..k];
      assert FirstDifferenceBelow(a, b, k + 1);
    }
    if exists k :: FirstDifferenceBelow(a, b, k) {
      var k: nat :| FirstDifferenceBelow(a, b, k);
      assert k > 0;
      assert a[1..][..k - 1] == a[..k][1..];
      assert b[1..][..k - 1] == b[..k][1..];
      assert FirstDifferenceBelow(a[1..], b[1..], k - 1);
    }
    if a[1..] <= b[1..] {
      assert a == [a[0]] + a[1..];
    }
  }

  /** Strings whose first characters differ compare as those characters. */
  lemma {:induction false} DifferentHeads(a: string, b: string)
    requires |a| > 0 && |b| > 0 && a[0] != b[0]
    ensures !(a <= b)
    ensures (exists k :: FirstDifferenceBelow(a, b, k)) <==> a[0] < b[0]
  {
    if a[0] < b[0] {
      assert FirstDifferenceBelow(a, b, 0);
    }
    if exists k :: FirstDifferenceBelow(a, b, k) {
      var k: nat :| FirstDifferenceBelow(a, b, k);
      EqualPrefixes(a, b, k);
    }
  }

  /** Equal prefixes agree at every position they cover. */
  lemma {:induction false} EqualPrefixes(a: string, b: string, k: nat)
    requires k <= |a| && k <= |b| && a[..k] == b[..k]
    ensures forall j :: 0 <= j < k ==> a[j] == b[j]
  {
    forall j | 0 <= j < k ensures a[j] == b[j] {
      assert a[..k][j] == b[..k][j];
    }
  }

  lemma {:induction false} LexLeTotal(a: string, b: string)
    ensures LexLe(a, b) || LexLe(b, a)
    decreases |a|
  {
    if |a| > 0 && |b| > 0 && a[0] == b[0] {
      LexLeTotal(a[1..], b[1..]);
    }
  }

  lemma {:induction false} LexLeTransitive(a: string, b: string, c: string)
    requires LexLe(a, b) && LexLe(b, c)
    ensures LexLe(a, c)
    decreases |a|
  {
    if |a| > 0 && a[0] == b[0] && b[0] == c[0] {
      LexLeTransitive(a[1..], b[1..], c[1..]);
    }
  }

  lemma {:induction false} LexLeAntisymmetric(a: string, b: string)
    requires LexLe(a, b) && LexLe(b, a)
    ensures a == b
    decreases |a|
  {
    if |a| > 0 {
      LexLeAntisymmetric(a[1..], b[1..]);
      assert a == [a[0]] + a[1..] && b == [b[0]] + b[1..];
    }
  }

  /** Comparing two texts that start with parts of equal length: the first
    * parts decide, unless they are equal. */
  lemma {:induction false} LexLeAppend(x1: string, y1: string, x2: string, y2: string)
    requires |x1| == |x2|
    ensures LexLe(x1 + y1, x2 + y2) <==> (LexLe(x1, x2) && x1 != x2) || (x1 == x2 && LexLe(y1, y2))
    decreases |x1|
  {
    if |x1| == 0 {
      assert x1 + y1 == y1 && x2 + y2 == y2;
    } else {
      var a, b := x1 + y1, x2 + y2;
      assert a[0] == x1[0] && b[0] == x2[0];
      assert a[1..] == x1[1..] + y1 && b[1..] == x2[1..] + y2;
      assert x1 == [x1[0]] + x1[1..] && x2 == [x2[0]] + x2[1..];
      if x1[0] == x2[0] {
        LexLeAppend(x1[1..], y1, x2[1..], y2);
      }
    }
  }

  /** Between digit strings of equal width, text order is numeric order,
    * and equal values are equal texts. */
  lemma {:induction false} TextOrderIsNumericOrder(a: string, b: string)
    requires AllDigits(a) && AllDigits(b) && |a| == |b|
    ensures LexLe(a, b) <==> Num(a) <= Num(b)
    ensures a == b <==> Num(a) == Num(b)
    decreases |a|
  {
    if |a| > 0 {
      var n := |a| - 1;
      var a', b' := a[..n], b[..n];
      assert AllDigits(a') && AllDigits(b');
      TextOrderIsNumericOrder(a', b');
      assert a == a' + [a[n]] && b == b' + [b[n]];
      LexLeAppend(a', [a[n]], b', [b[n]]);
      assert LexLe([a[n]], [b[n]]) <==> a[n] <= b[n];
      if a' == b' && a[n] == b[n] {
        assert a == b;
      }
    }
  }

  // Dates

  function Year(s: string): nat requires IsYmd(s) { Num(s[0..4]) }
  function Month(s: string): nat requires IsYmd(s) { Num(s[5..7]) }
  function Day(s: string): nat requires IsYmd(s) { Num(s[8..10]) }

  /** Calendar order: by year, then month, then day. */
  predicate ChronoLe(a: string, b: string)
    requires IsYmd(a) && IsYmd(b)
  {
    || Year(a) < Year(b)
    || (Year(a) == Year(b) && (Month(a) < Month(b) || (Month(a) == Month(b) && Day(a) <= Day(b))))
  }

  /** The day part: text order of the tails from the day's separator is
    * the order of the days. */
  lemma {:induction false} DayOrder(a: string, b: string)
    requires IsYmd(a) && IsYmd(b)
    ensures LexLe(a[7..], b[7..]) <==> Day(a) <= Day(b)
  {
    assert a[7..] == a[7..8] + a[8..10] && b[7..] == b[7..8] + b[8..10];
    assert a[7..8] == b[7..8] == "-";
    LexLeAppend(a[7..8], a[8..10], b[7..8], b[8..10]);
    TextOrderIsNumericOrder(a[8..10], b[8..10]);
  }

  /** The month and day part: text order of the tails from the month's
    * separator is the order of (month, day). */
  lemma {:induction false} MonthDayOrder(a: string, b: string)
    requires IsYmd(a) && IsYmd(b)
    ensures LexLe(a[4..], b[4..]) <==> Month(a) < Month(b) || (Month(a) == Month(b) && Day(a) <= Day(b))
  {
    assert a[4..] == a[4..5] + a[5..] && b[4..] == b[4..5] + b[5..];
    assert a[5..] == a[5..7] + a[7..] && b[5..] == b[5..7] + b[7..];
    assert a[4..5] == b[4..5] == "-";
    LexLeAppend(a[4..5], a[5..], b[4..5], b[5..]);
    LexLeAppend(a[5..7], a[7..], b[5..7], b[7..]);
    TextOrderIsNumericOrder(a[5..7], b[5..7]);
    DayOrder(a, b);
  }

  /** For two dates of the schema's shape, the text order the listing sorts
    * by is the calendar order. */
  lemma {:induction false} DateOrderIsChronological(a: string, b: string)
    requires IsYmd(a) && IsYmd(b)
    ensures LexLe(a, b) <==> ChronoLe(a, b)
  {
    assert a == a[0..4] + a[4..] && b == b[0..4] + b[4..];
    LexLeAppend(a[0..4], a[4..], b[0..4], b[4..]);
    TextOrderIsNumericOrder(a[0..4], b[0..4]);
    MonthDayOrder(a, b);
  }

  // The listing

  /** Newest date first (dates compared as text). */
  predicate SortedByDate(xs: seq<ProceedingSummary>) {
    forall i, j :: 0 <= i < j < |xs| ==> LexLe(xs[j].date, xs[i].date)
  }

  /** An entry no older than every entry of a sorted listing can head it. */
  lemma {:induction false} PrependKeepsSorted(x: ProceedingSummary, xs: seq<ProceedingSummary>)
    requires SortedByDate(xs)
    requires forall j :: 0 <= j < |xs| ==> LexLe(xs[j].date, x.date)
    ensures SortedByDate([x] + xs)
  {
    var r := [x] + xs;
    forall i, j | 0 <= i < j < |r| ensures LexLe(r[j].date, r[i].date) {
      assert r[j] == xs[j - 1];
      if i > 0 { assert r[i] == xs[i - 1]; }
    }
  }

  /** Dates no newer than a bound on a listing and on one more entry are
    * bounded on every listing holding exactly those entries. */
  lemma {:induction false} DateBound(r: seq<ProceedingSummary>, xs: seq<ProceedingSummary>, x: ProceedingSummary, b: string)
    requires multiset(r) == multiset(xs) + multiset{x}
    requires LexLe(x.date, b) && forall j :: 0 <= j < |xs| ==> LexLe(xs[j].date, b)
    ensures forall j :: 0 <= j < |r| ==> LexLe(r[j].date, b)
  {
    forall j | 0 <= j < |r| ensures LexLe(r[j].date, b) {
      assert r[j] in multiset(r);
      if r[j] != x {
        assert r[j] in multiset(xs);
        var k :| 0 <= k < |xs| && xs[k] == r[j];
      }
    }
  }

  /** The head of a sorted listing stays ahead of an older entry inserted
    * into its tail. */
  lemma {:induction false} KeepNewest(x: ProceedingSummary, xs: seq<ProceedingSummary>, rest: seq<ProceedingSummary>)
    requires SortedByDate(xs) && xs != [] && LexLe(x.date, xs[0].date)
    requires SortedByDate(rest) && multiset(rest) == multiset(xs[1..]) + multiset{x}
    ensures SortedByDate([xs[0]] + rest)
    ensures multiset([xs[0]] + rest) == multiset(xs) + multiset{x}
  {
    assert xs == [xs[0]] + xs[1..];
    assert forall j :: 0 <= j < |xs[1..]| ==> LexLe(xs[1..][j].date, xs[0].date);
    DateBound(rest, xs[1..], x, xs[0].date);
    PrependKeepsSorted(xs[0], rest);
  }

  /** Inserts `x` into a listing sorted newest first, before the entries of
    * the same date. */
  function InsertByDate(x: ProceedingSummary, xs: seq<ProceedingSummary>): (r: seq<ProceedingSummary>)
    requires SortedByDate(xs)
    ensures SortedByDate(r)
    ensures multiset(r) == multiset(xs) + multiset{x}
  {
    if xs == [] || LexLe(xs[0].date, x.date) then
      forall j | 0 <= j < |xs| ensures LexLe(xs[j].date, x.date) {
        if j > 0 { LexLeTransitive(xs[j].date, xs[0].date, x.date); }
      }
      PrependKeepsSorted(x, xs);
      [x] + xs
    else
      LexLeTotal(xs[0].date, x.date);
      var rest := InsertByDate(x, xs[1..]);
      KeepNewest(x, xs, rest);
      [xs[0]] + rest
  }

  /** `orderBy(desc(date))`. The database leaves the order of equal dates
    * open; this order keeps them in storage order. */
  function SortByDate(xs: seq<ProceedingSummary>): (r: seq<ProceedingSummary>)
    ensures SortedByDate(r)
    ensures multiset(r) == multiset(xs)
  {
    if xs == [] then []
    else
      assert xs == [xs[0]] + xs[1..];
      InsertByDate(xs[0], SortByDate(xs[1..]))
  }

  /** The columns the listing selects. */
  function Summary(p: Proceeding): (s: ProceedingSummary)
    ensures s.id == p.id && s.title == p.title && s.date == p.date && s.createdAt == p.createdAt
  {
    ProceedingSummary(p.id, p.title, p.date, p.createdAt)
  }

  function Project(rows: seq<Proceeding>): (r: seq<ProceedingSummary>)
    ensures |r| == |rows| && forall i :: 0 <= i < |r| ==> r[i] == Summary(rows[i])
  {
    seq(|rows|, i requires 0 <= i < |rows| => Summary(rows[i]))
  }

  /** `where id = ? limit 1`: the first row with that id. */
  function FindById(rows: seq<Proceeding>, id: ProceedingId): (r: Option<Proceeding>)
    ensures r.None? <==> forall i :: 0 <= i < |rows| ==> rows[i].id != id
    ensures r.Some? ==>
      exists i :: 0 <= i < |rows| && rows[i] == r.value && r.value.id == id
  {
    if |rows| == 0 then None
    else if rows[0].id == id then Some(rows[0])
    else
      var r := FindById(rows[1..], id);
      assert forall i :: 1 <= i < |rows| ==> rows[i] == rows[1..][i - 1];
      r
  }

  /** A row appended after rows that do not share its id is what the lookup
    * of its id finds. */
  lemma {:induction false} FindAppended(rows: seq<Proceeding>, p: Proceeding)
    requires forall i :: 0 <= i < |rows| ==> rows[i].id != p.id
    ensures FindById(rows + [p], p.id) == Some(p)
  {
    if |rows| > 0 {
      assert (rows + [p])[1..] == rows[1..] + [p];
      FindAppended(rows[1..], p);
    } else {
      assert rows + [p] == [p];
    }
  }

  /** The `parliamentary_proceedings` table. */
  class ProceedingsTable {
    var rows: seq<Proceeding>
    var nextId: ProceedingId

    /** Ids are unique and below the next id to hand out. */
    ghost predicate Valid()
      reads this
    {
      && (forall i :: 0 <= i < |rows| ==> rows[i].id < nextId)
      && (forall i, j :: 0 <= i < j < |rows| ==> rows[i].id != rows[j].id)
    }

    constructor ()
      ensures Valid() && rows == []
    {
      rows := [];
      nextId := 0;
    }

    /** `getProceedings`: every proceeding, projected, newest date first. */
    function GetProceedings(): (r: seq<ProceedingSummary>)
      reads this
      ensures |r| == |rows|
      ensures multiset(r) == multiset(Project(rows))
      ensures SortedByDate(r)
    {
      var r := SortByDate(Project(rows));
      assert |multiset(r)| == |multiset(Project(rows))|;
      r
    }

    /** `getProceeding`: the proceeding with that id, or null. */
    function GetProceeding(id: ProceedingId): (r: Option<Proceeding>)
      reads this
      ensures r.None? <==> forall i :: 0 <= i < |rows| ==> rows[i].id != id
      ensures r.Some? ==> r.value.id == id && r.value in rows
    {
      FindById(rows, id)
    }

    /** `createProceeding`: stores a proceeding with a fresh id, created and
      * updated at `now`, and returns it; the rows already there stay. */
    method CreateProceeding(params: NewProceeding, now: int) returns (p: Proceeding)
      requires Valid()
      modifies this
      ensures Valid()
      ensures rows == old(rows) + [p]
      ensures p == Proceeding(p.id, params.title, params.date, params.summary, params.originalText, now, now)
      ensures forall i :: 0 <= i < |old(rows)| ==> old(rows)[i].id != p.id
      ensures GetProceeding(p.id) == Some(p)
    {
      p := Proceeding(nextId, params.title, params.date, params.summary, params.originalText, now, now);
      FindAppended(rows, p);
      rows := rows + [p];
      nextId := nextId + 1;
    }
  }

  /** When every stored date has the schema's shape, the listing is newest
    * first in calendar order. */
  lemma {:induction false} ListingIsReverseChronological(table: ProceedingsTable)
    requires forall i :: 0 <= i < |table.rows| ==> IsYmd(table.rows[i].date)
    ensures var r := table.GetProceedings();
      forall i, j :: 0 <= i < j < |r| ==> IsYmd(r[i].date) && IsYmd(r[j].date) && ChronoLe(r[j].date, r[i].date)
  {
    var r := table.GetProceedings();
    var projected := Project(table.rows);
    forall k | 0 <= k < |r| ensures IsYmd(r[k].date) {
      assert r[k] in multiset(projected);
      var m :| 0 <= m < |projected| && projected[m] == r[k];
      assert r[k].date == table.rows[m].date;
    }
    forall i, j | 0 <= i < j < |r| ensures ChronoLe(r[j].date, r[i].date) {
      DateOrderIsChronological(r[j].date, r[i].date);
    }
  }
}
