/** Reports: what the query, the conversion and the summing loop make of a user's expences. */
module Reports {
  import opened Conversion
  import opened Tables
  import opened Ledgers
  import opened Refinement

  type Report = map<string, int>

  // ----- the report of a ledger -----

  /** Entries dated at the cut-off or later. */
  function Since(entries: seq<Entry>, cutoff: int): seq<Entry> {
    if entries == [] then [] else
      var front, last := Since(entries[..|entries| - 1], cutoff), entries[|entries| - 1];
      if last.ts >= cutoff then front + [last] else front
  }

  /** Each entry is converted, and truncated, on its own. */
  function Worth(entries: seq<Entry>, rate: Rate): int {
    if entries == [] then 0
    else Worth(entries[..|entries| - 1], rate) + FromBase(entries[|entries| - 1].total, rate)
  }

  /** A line per category with an expence in the period: the sum of the individually converted totals. */
  ghost function ReportOf(book: map<string, seq<Entry>>, cutoff: int, rate: Rate): Report {
    map name | name in book && Since(book[name], cutoff) != [] :: Worth(Since(book[name], cutoff), rate)
  }

  // ----- rows of the query, and the loop over them -----

  datatype Row = Row(name: string, total: int)

  function RowAt(t: Tables, e: int): Row
    requires e in t.expences && t.expences[e].categoryId in t.categories
  {
    Row(t.categories[t.expences[e].categoryId].name, t.expences[e].total)
  }

  ghost predicate Enumerates(t: Tables, u: int, cutoff: int, n: nat, ids: seq<int>) {
    && (forall i, j :: 0 <= i < j < |ids| ==> ids[i] != ids[j])
    && (forall e :: e in ids <==> 0 <= e < n && t.Selected(e, u, cutoff))
  }

  ghost predicate RowsAt(t: Tables, ids: seq<int>, rows: seq<Row>) {
    |rows| == |ids| && forall i :: 0 <= i < |ids| ==>
      ids[i] in t.expences && t.expences[ids[i]].categoryId in t.categories && rows[i] == RowAt(t, ids[i])
  }

  /** The query promises no order: any listing of the selected rows, each once, is a possible answer. */
  ghost predicate IsAnswer(t: Tables, u: int, cutoff: int, rows: seq<Row>) {
    exists ids :: Enumerates(t, u, cutoff, t.nextExpence, ids) && RowsAt(t, ids, rows)
  }

  function AddRow(totals: Report, row: Row, rate: Rate): Report {
    totals[row.name := (if row.name in totals then totals[row.name] else 0) + FromBase(row.total, rate)]
  }

  /** The loop of `GetExpencesMap` over the rows it received. */
  function FoldRows(rows: seq<Row>, rate: Rate): Report {
    if rows == [] then map[] else AddRow(FoldRows(rows[..|rows| - 1], rate), rows[|rows| - 1], rate)
  }

  /** Sum of the converted totals of the rows that carry a name. */
  function LineSum(rows: seq<Row>, name: string, rate: Rate): int {
    if rows == [] then 0
    else
      var last := rows[|rows| - 1];
      LineSum(rows[..|rows| - 1], name, rate) + if last.name == name then FromBase(last.total, rate) else 0
  }

  ghost predicate HasLine(rows: seq<Row>, name: string) { exists i :: 0 <= i < |rows| && rows[i].name == name }

  lemma {:induction false} FoldIsLineSum(rows: seq<Row>, rate: Rate, name: string)
    ensures name in FoldRows(rows, rate) <==> HasLine(rows, name)
    ensures LineSum(rows, name, rate) == if name in FoldRows(rows, rate) then FoldRows(rows, rate)[name] else 0
  {
    hide FromBase;
    if rows != [] {
      var front, last := rows[..|rows| - 1], rows[|rows| - 1];
      FoldIsLineSum(front, rate, name);
      assert HasLine(front, name) ==> HasLine(rows, name) by {
        assert forall i :: 0 <= i < |front| ==> rows[i] == front[i];
      }
    }
  }

  lemma {:induction false} LineSumConcat(a: seq<Row>, b: seq<Row>, name: string, rate: Rate)
    ensures LineSum(a + b, name, rate) == LineSum(a, name, rate) + LineSum(b, name, rate)
  {
    hide FromBase;
    if b == [] {
      assert a + b == a;
    } else {
      LineSumConcat(a, b[..|b| - 1], name, rate);
      assert (a + b)[..|a + b| - 1] == a + b[..|b| - 1];
    }
  }

  /** Taking one row out of a listing takes its value out of the line. */
  lemma LineSumWithout(rows: seq<Row>, i: nat, name: string, rate: Rate)
    requires i < |rows|
    ensures LineSum(rows, name, rate) == LineSum(rows[..i] + rows[i + 1..], name, rate) + LineSum([rows[i]], name, rate)
  {
    hide FromBase;
    assert rows == rows[..i] + ([rows[i]] + rows[i + 1..]);
    LineSumConcat(rows[..i], [rows[i]] + rows[i + 1..], name, rate);
    LineSumConcat([rows[i]], rows[i + 1..], name, rate);
    LineSumConcat(rows[..i], rows[i + 1..], name, rate);
  }

  lemma HasLineWithout(rows: seq<Row>, i: nat, name: string)
    requires i < |rows|
    ensures HasLine(rows, name) <==> HasLine(rows[..i] + rows[i + 1..], name) || rows[i].name == name
  {
    var rows' := rows[..i] + rows[i + 1..];
    if HasLine(rows', name) {
      var k :| 0 <= k < |rows'| && rows'[k].name == name;
      assert rows[if k < i then k else k + 1].name == name;
    }
    if HasLine(rows, name) && rows[i].name != name {
      var k :| 0 <= k < |rows| && rows[k].name == name;
      assert rows'[if k < i then k else k - 1].name == name;
    }
  }

  lemma SingleLine(row: Row, name: string, rate: Rate)
    ensures LineSum([row], name, rate) == if row.name == name then FromBase(row.total, rate) else 0
  {
    hide FromBase;
    assert [row][..0] == [];
    assert LineSum([], name, rate) == 0;
  }

  /** Any listing of the selected rows sums up, per name, to the worth of that list of the ledger. */
  lemma {:induction false} ListingWorth(
    t: Tables, u: int, cutoff: int, rate: Rate, name: string, n: nat, ids: seq<int>, rows: seq<Row>)
    requires Enumerates(t, u, cutoff, n, ids) && RowsAt(t, ids, rows)
    ensures LineSum(rows, name, rate) == Worth(Since(EntriesBelow(t, u, name, n), cutoff), rate)
    ensures HasLine(rows, name) <==> Since(EntriesBelow(t, u, name, n), cutoff) != []
    decreases n
  {
    hide FromBase;
    if n == 0 {
      var first := if ids == [] then 0 else ids[0];
      assert ids != [] ==> first in ids;
    } else if t.Selected(n - 1, u, cutoff) {
      var i, ids', rows' := WithoutTop(t, u, cutoff, n, ids, rows);
      ListingWorth(t, u, cutoff, rate, name, n - 1, ids', rows');
      LineSumWithout(rows, i, name, rate);
      SingleLine(rows[i], name, rate);
      HasLineWithout(rows, i, name);
      ContributionStep(t, u, cutoff, rate, name, n);
    } else {
      ListingWorth(t, u, cutoff, rate, name, n - 1, ids, rows);
      ContributionStep(t, u, cutoff, rate, name, n);
    }
  }

  /** A listing of the selected rows below `n`, with row `n - 1` taken out. */
  lemma WithoutTop(t: Tables, u: int, cutoff: int, n: nat, ids: seq<int>, rows: seq<Row>)
    returns (i: nat, ids': seq<int>, rows': seq<Row>)
    requires n > 0 && t.Selected(n - 1, u, cutoff)
    requires Enumerates(t, u, cutoff, n, ids) && RowsAt(t, ids, rows)
    ensures i < |rows| && rows[i] == RowAt(t, n - 1) && rows' == rows[..i] + rows[i + 1..]
    ensures Enumerates(t, u, cutoff, n - 1, ids') && RowsAt(t, ids', rows')
  {
    assert n - 1 in ids;
    i :| 0 <= i < |ids| && ids[i] == n - 1;
    ids', rows' := ids[..i] + ids[i + 1..], rows[..i] + rows[i + 1..];
    forall e ensures e in ids' <==> 0 <= e < n - 1 && t.Selected(e, u, cutoff) {
      assert e in ids' <==> e in ids && e != n - 1;
    }
  }

  /** How the worth of a line grows with the row of id `n - 1`. */
  lemma ContributionStep(t: Tables, u: int, cutoff: int, rate: Rate, name: string, n: nat)
    requires n > 0
    ensures var before := Since(EntriesBelow(t, u, name, n - 1), cutoff);
            var after := Since(EntriesBelow(t, u, name, n), cutoff);
            if t.Selected(n - 1, u, cutoff) && RowAt(t, n - 1).name == name then
              after != [] && Worth(after, rate) == Worth(before, rate) + FromBase(RowAt(t, n - 1).total, rate)
            else after == before
  {
    hide FromBase;
    var front := EntriesBelow(t, u, name, n - 1);
    match Contribution(t, u, name, n - 1)
    case None =>
    case Some(entry) =>
      assert (front + [entry])[..|front|] == front;
      assert (Since(front, cutoff) + [entry])[..|Since(front, cutoff)|] == Since(front, cutoff);
  }

  lemma NamedIffInBook(t: Tables, u: int, name: string, cutoff: int)
    requires Sound(t) && Since(EntriesBelow(t, u, name, t.nextExpence), cutoff) != []
    ensures name in CategoryNames(t, u)
  {
    SinceNonEmpty(EntriesBelow(t, u, name, t.nextExpence), cutoff);
    var e := SomeContribution(t, u, name, t.nextExpence);
    assert t.CategoryOf(t.expences[e].categoryId, u);
  }

  lemma SinceNonEmpty(entries: seq<Entry>, cutoff: int)
    requires Since(entries, cutoff) != []
    ensures entries != []
  {
  }

  lemma {:induction false} SomeContribution(t: Tables, u: int, name: string, n: nat) returns (e: int)
    requires EntriesBelow(t, u, name, n) != []
    ensures Contribution(t, u, name, e).Some?
  {
    if Contribution(t, u, name, n - 1).Some? {
      e := n - 1;
    } else {
      e := SomeContribution(t, u, name, n - 1);
    }
  }

  /** Whatever order the rows arrive in, the loop computes the report of the user's ledger. */
  lemma AnswerFoldsToReport(t: Tables, u: int, cutoff: int, rate: Rate, rows: seq<Row>)
    requires Sound(t) && IsAnswer(t, u, cutoff, rows)
    ensures FoldRows(rows, rate) == ReportOf(BookOf(t, u), cutoff, rate)
  {
    hide FromBase;
    var ids :| Enumerates(t, u, cutoff, t.nextExpence, ids) && RowsAt(t, ids, rows);
    var folded, report := FoldRows(rows, rate), ReportOf(BookOf(t, u), cutoff, rate);
    forall name
      ensures name in folded <==> name in report
      ensures name in report ==> folded[name] == report[name]
    {
      FoldIsLineSum(rows, rate, name);
      ListingWorth(t, u, cutoff, rate, name, t.nextExpence, ids, rows);
      if Since(EntriesBelow(t, u, name, t.nextExpence), cutoff) != [] {
        NamedIffInBook(t, u, name, cutoff);
      }
    }
  }

  /**
   The join drops no expence of the user, and two expences meet on one line exactly when they are in one
   category: grouping by name is grouping by category.
   */
  lemma JoinFaithful(t: Tables, u: int, cutoff: int, e: int, e': int)
    requires Sound(t)
    ensures t.Selected(e, u, cutoff) <==> e in t.expences && t.expences[e].userId == u && t.expences[e].ts >= cutoff
    ensures t.Selected(e, u, cutoff) && t.Selected(e', u, cutoff) ==>
              (RowAt(t, e).name == RowAt(t, e').name <==> t.expences[e].categoryId == t.expences[e'].categoryId)
  {
    if t.Selected(e, u, cutoff) && t.Selected(e', u, cutoff) {
      assert t.categories[t.expences[e].categoryId].userId == t.categories[t.expences[e'].categoryId].userId;
    }
  }

  // ----- conservation of the grand total -----

  ghost function GrandTotal(r: Report): int {
    if r == map[] then 0 else
      var name :| name in r;
      r[name] + GrandTotal(r - {name})
  }

  function RowsWorth(rows: seq<Row>, rate: Rate): int {
    if rows == [] then 0 else RowsWorth(rows[..|rows| - 1], rate) + FromBase(rows[|rows| - 1].total, rate)
  }

  lemma {:induction false} GrandTotalWithout(r: Report, name: string)
    requires name in r
    ensures GrandTotal(r) == r[name] + GrandTotal(r - {name})
    decreases |r|
  {
    var picked :| picked in r && GrandTotal(r) == r[picked] + GrandTotal(r - {picked});
    if picked != name {
      GrandTotalWithout(r - {picked}, name);
      GrandTotalWithout(r - {name}, picked);
      assert r - {picked} - {name} == r - {name} - {picked};
    }
  }

  /** No row is lost or counted twice: the lines of the folded report add up to the converted rows. */
  lemma {:induction false} FoldConservesTotal(rows: seq<Row>, rate: Rate)
    ensures GrandTotal(FoldRows(rows, rate)) == RowsWorth(rows, rate)
  {
    hide FromBase;
    if rows != [] {
      var front, last := rows[..|rows| - 1], rows[|rows| - 1];
      FoldConservesTotal(front, rate);
      var before, after := FoldRows(front, rate), FoldRows(rows, rate);
      GrandTotalWithout(after, last.name);
      assert after - {last.name} == before - {last.name};
      if last.name in before {
        GrandTotalWithout(before, last.name);
      } else {
        assert before - {last.name} == before;
      }
    }
  }

  // ----- cut-offs -----

  lemma {:induction false} SinceNested(entries: seq<Entry>, early: int, late: int, rate: Rate)
    requires early <= late && forall i :: 0 <= i < |entries| ==> entries[i].total >= 0
    ensures Since(entries, late) != [] ==> Since(entries, early) != []
    ensures 0 <= Worth(Since(entries, late), rate) <= Worth(Since(entries, early), rate)
  {
    if entries != [] {
      var last := entries[|entries| - 1];
      SinceNested(entries[..|entries| - 1], early, late, rate);
      FromBaseBracket(last.total, rate);
    }
  }

  ghost predicate NonNegativeBook(book: map<string, seq<Entry>>) {
    forall name, i :: name in book && 0 <= i < |book[name]| ==> book[name][i].total >= 0
  }

  /** A line of a report from a later cut-off is in the report from an earlier one, and no larger there. */
  lemma ReportMonotone(book: map<string, seq<Entry>>, early: int, late: int, rate: Rate)
    requires early <= late && NonNegativeBook(book)
    ensures forall name :: name in ReportOf(book, late, rate) ==>
              name in ReportOf(book, early, rate) &&
              0 <= ReportOf(book, late, rate)[name] <= ReportOf(book, early, rate)[name]
  {
    forall name | name in ReportOf(book, late, rate)
      ensures name in ReportOf(book, early, rate)
      ensures 0 <= ReportOf(book, late, rate)[name] <= ReportOf(book, early, rate)[name]
    {
      SinceNested(book[name], early, late, rate);
    }
  }

  // ----- rates -----

  /** Every entry since the cut-off shows the same at both rates. */
  ghost predicate ShownAlike(book: map<string, seq<Entry>>, cutoff: int, rate: Rate, rate': Rate) {
    forall name :: name in book ==> EntriesAlike(book[name], cutoff, rate, rate')
  }

  ghost predicate EntriesAlike(entries: seq<Entry>, cutoff: int, rate: Rate, rate': Rate) {
    forall i :: 0 <= i < |entries| && entries[i].ts >= cutoff ==>
      FromBase(entries[i].total, rate) == FromBase(entries[i].total, rate')
  }

  lemma FromBaseMonotone(total: int, low: Rate, high: Rate)
    requires total >= 0 && low <= high
    ensures FromBase(total, low) <= FromBase(total, high)
  {
    ProductSign(high - low, 1.0);
    var d := total as real * (high - low);
    assert d >= 0.0;
    assert d == total as real * high - total as real * low;
    FromBaseBracket(total, low);
    FromBaseBracket(total, high);
  }

  lemma AlikePush(front: seq<Entry>, last: Entry, cutoff: int, rate: Rate, rate': Rate)
    ensures EntriesAlike(front + [last], cutoff, rate, rate') <==>
            EntriesAlike(front, cutoff, rate, rate') &&
            (last.ts >= cutoff ==> FromBase(last.total, rate) == FromBase(last.total, rate'))
  {
    hide FromBase;
    var entries := front + [last];
    assert entries[|front|] == last;
    assert forall i :: 0 <= i < |front| ==> entries[i] == front[i];
  }

  /** A higher rate lowers no converted total, so sums agree only if every converted total does. */
  lemma {:induction false} WorthAlike(entries: seq<Entry>, cutoff: int, low: Rate, high: Rate)
    requires low <= high && forall i :: 0 <= i < |entries| ==> entries[i].total >= 0
    ensures Worth(Since(entries, cutoff), low) <= Worth(Since(entries, cutoff), high)
    ensures Worth(Since(entries, cutoff), low) == Worth(Since(entries, cutoff), high) <==>
            EntriesAlike(entries, cutoff, low, high)
  {
    hide FromBase;
    if entries != [] {
      var front, last := entries[..|entries| - 1], entries[|entries| - 1];
      WorthAlike(front, cutoff, low, high);
      FromBaseMonotone(last.total, low, high);
      AlikePush(front, last, cutoff, low, high);
      assert front + [last] == entries;
    }
  }

  /** Two rates give one report if and only if no entry in it shows the difference: differences cannot cancel. */
  lemma SameReportIff(book: map<string, seq<Entry>>, cutoff: int, rate: Rate, rate': Rate)
    requires NonNegativeBook(book)
    ensures ReportOf(book, cutoff, rate) == ReportOf(book, cutoff, rate') <==> ShownAlike(book, cutoff, rate, rate')
  {
    forall name | name in book
      ensures Worth(Since(book[name], cutoff), rate) == Worth(Since(book[name], cutoff), rate') <==>
              EntriesAlike(book[name], cutoff, rate, rate')
    {
      if rate <= rate' {
        WorthAlike(book[name], cutoff, rate, rate');
      } else {
        WorthAlike(book[name], cutoff, rate', rate);
      }
    }
    var r, r' := ReportOf(book, cutoff, rate), ReportOf(book, cutoff, rate');
    if r == r' {
      forall name | name in book ensures EntriesAlike(book[name], cutoff, rate, rate') {
        if Since(book[name], cutoff) != [] {
          assert r[name] == r'[name];
        }
      }
    } else {
      assert r.Keys == r'.Keys;
      var name :| name in r && r[name] != r'[name];
      assert !EntriesAlike(book[name], cutoff, rate, rate');
    }
  }
}
