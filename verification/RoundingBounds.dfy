/** What truncation costs a user: bounds in the user's own currency on spending and on report lines. */
module RoundingBounds {
  import opened Wrappers
  import opened Conversion
  import opened Steps
  import opened Tables
  import opened Ledgers
  import opened Refinement
  import opened Reports
  import opened Journals

  // ----- spending in the user's own currency -----

  /** Amounts as typed, over the charged postings. */
  function EnteredTotal(ps: seq<Posting>): int {
    if ps == [] then 0 else
      var last := ps[|ps| - 1];
      EnteredTotal(ps[..|ps| - 1]) + if last.charged then last.entered else 0
  }

  function ChargedCount(ps: seq<Posting>): nat {
    if ps == [] then 0 else ChargedCount(ps[..|ps| - 1]) + if ps[|ps| - 1].charged then 1 else 0
  }

  /** The posting was typed in a currency of rate `r`. */
  predicate AtRate(p: Posting, r: Rate) { p.entered >= 0 && p.stored == ToBase(p.entered, r) }

  ghost predicate ChargedAtRate(ps: seq<Posting>, r: Rate) {
    forall i :: 0 <= i < |ps| && ps[i].charged ==> AtRate(ps[i], r)
  }

  lemma SumScaled(x: real, y: real, r: real)
    ensures (x + y) * r == x * r + y * r
  {
  }

  /** An upper bound on the amounts typed: each charged posting counts one base unit more than was stored. */
  function CeilingTotal(ps: seq<Posting>, r: Rate): real {
    if ps == [] then 0.0 else
      var last := ps[|ps| - 1];
      CeilingTotal(ps[..|ps| - 1], r) + if last.charged then (last.stored as real + 1.0) * r else 0.0
  }

  /** Each truncation hides less than one base unit, that is less than `r` in the user's currency. */
  lemma {:induction false} EnteredBelowCeiling(ps: seq<Posting>, r: Rate)
    requires ChargedAtRate(ps, r)
    ensures EnteredTotal(ps) as real <= CeilingTotal(ps, r)
    ensures if ChargedCount(ps) == 0 then EnteredTotal(ps) == 0 else EnteredTotal(ps) as real < CeilingTotal(ps, r)
  {
    hide ToBase;
    if ps != [] {
      var last := ps[|ps| - 1];
      EnteredBelowCeiling(ps[..|ps| - 1], r);
      if last.charged {
        var ceiling := (last.stored as real + 1.0) * r;
        assert last.entered as real < ceiling by { ToBaseBracket(last.entered, r); }
        assert CeilingTotal(ps, r) == CeilingTotal(ps[..|ps| - 1], r) + ceiling;
      }
    }
  }

  lemma {:induction false} CeilingIsScaled(ps: seq<Posting>, r: Rate)
    ensures CeilingTotal(ps, r) == (ChargedTotal(ps) as real + ChargedCount(ps) as real) * r
  {
    if ps != [] {
      var front, last := ps[..|ps| - 1], ps[|ps| - 1];
      CeilingIsScaled(front, r);
      if last.charged {
        SumScaled(ChargedTotal(front) as real + ChargedCount(front) as real, last.stored as real + 1.0, r);
      }
    }
  }

  /** Charged units within the limit's units, each scaled, stay below the limit plus one rate per expence. */
  lemma WithinLimit(entered: real, charged: real, n: real, stored: real, limit: real, r: Rate)
    requires entered < (charged + n) * r && charged <= stored && stored * r <= limit
    ensures entered < limit + n * r
  {
    SumScaled(charged, n, r);
    ProductSign(stored - charged, r);
    SumScaled(stored - charged, charged, r);
  }

  /** At most the limit plus `n` rates; strictly less if anything was charged. */
  predicate SpentWithin(entered: int, n: nat, limit: int, r: Rate) {
    if n == 0 then entered == 0 else entered as real < limit as real + n as real * r
  }

  lemma SpendingBound(entered: int, charged: int, n: nat, ceiling: real, limit: int, r: Rate)
    requires n == 0 ==> entered == 0
    requires n >= 1 ==> entered as real < ceiling
    requires ceiling == (charged as real + n as real) * r
    requires limit >= 0 && charged <= ToBase(limit, r)
    ensures SpentWithin(entered, n, limit, r)
  {
    ToBaseBracket(limit, r);
    if n >= 1 {
      WithinLimit(entered as real, charged as real, n as real, ToBase(limit, r) as real, limit as real, r);
    }
  }

  lemma PostingsSpent(ps: seq<Posting>, limit: int, r: Rate)
    requires ChargedAtRate(ps, r) && limit >= 0 && ChargedTotal(ps) <= ToBase(limit, r)
    ensures SpentWithin(EnteredTotal(ps), ChargedCount(ps), limit, r)
  {
    hide *;
    EnteredBelowCeiling(ps, r);
    CeilingIsScaled(ps, r);
    SpendingBound(EnteredTotal(ps), ChargedTotal(ps), ChargedCount(ps), CeilingTotal(ps, r), limit, r);
  }

  /** The steps after which a limit that was set no longer applies. */
  predicate Replaces(s: Step, u: int) { s == ResetUser(u) || (s.SetUserLimit? && s.user == u) }

  predicate Charges(s: Step, u: int) { s.AddExpence? && s.user == u && s.ts > s.monthStart }

  ghost predicate Accepted(w: World, s: Step) { Perform(w, s).failure.None? }

  lemma SameVerdict(t: Tables, steps: seq<Step>, i: nat)
    requires Sound(t) && i < |steps|
    ensures Accepted(Play(Abstract(t), steps[..i]), steps[i]) <==> Apply(Run(t, steps[..i]), steps[i]).failure.None?
  {
    hide Apply, Perform, Abstract;
    ReachableOwned(t, steps[..i]);
    RunRefines(t, steps[..i]);
    StepRefines(Run(t, steps[..i]), steps[i]);
  }

  /**
   Any period of a limit: it was set to `limit` at rate `r` and still applies, `fill` is when it was last filled,
   and since then expences were charged at rate `r` only. Then their amounts, in the user's own currency, stay
   below the limit plus one rate per expence.
   */
  lemma OverspendBound(t: Tables, steps: seq<Step>, u: int, limit: int, r: Rate, start: nat, fill: nat)
    requires Sound(t) && t.users == map[] && AllNonNegative(steps)
    requires start <= fill < |steps| && steps[start] == SetUserLimit(u, limit) && Refills(steps[fill], u)
    requires forall i :: start < i < |steps| ==> !Replaces(steps[i], u)
    requires forall i :: fill < i < |steps| ==> !Refills(steps[i], u)
    requires Abstract(Run(t, steps[..start])).RateOf(u) == Some(r)
    requires forall i :: fill < i < |steps| && Charges(steps[i], u) ==>
               Apply(Run(t, steps[..i]), steps[i]).failure.None? ==>
               Abstract(Run(t, steps[..i])).RateOf(u) == Some(r)
    ensures u in AccountsOf(Abstract(t), steps)
    ensures var j := AccountsOf(Abstract(t), steps)[u];
            j.open <= |j.postings| &&
            var ps := j.postings[j.open..];
            SpentWithin(EnteredTotal(ps), ChargedCount(ps), limit, r)
  {
    hide ToBase, Perform, Record, ChargedAtRate;
    var w := Abstract(t);
    PlayBalances(w, steps);
    forall i | 0 <= i <= |steps| ensures Play(w, steps[..i]) == Abstract(Run(t, steps[..i])) {
      RunRefines(t, steps[..i]);
    }
    forall i | 0 <= i < |steps|
      ensures Accepted(Play(w, steps[..i]), steps[i]) <==> Apply(Run(t, steps[..i]), steps[i]).failure.None?
    {
      SameVerdict(t, steps, i);
    }
    LimitApplies(w, steps, u, limit, r, start);
    LimitAtFill(w, steps, u, limit, r, start, fill);
    PeriodAtRate(w, steps, u, r, fill);
    var j := AccountsOf(w, steps)[u];
    assert NonNegative(steps[start]);
    PostingsSpent(j.postings[j.open..], limit, r);
  }

  /** A limit that was set stays the default limit, however often it is filled. */
  lemma {:induction false} LimitApplies(w: World, steps: seq<Step>, u: int, limit: int, r: Rate, start: nat)
    requires w.ledgers == map[] && AllNonNegative(steps)
    requires start < |steps| && steps[start] == SetUserLimit(u, limit)
    requires forall i :: start < i < |steps| ==> !Replaces(steps[i], u)
    requires Play(w, steps[..start]).RateOf(u) == Some(r)
    ensures u in AccountsOf(w, steps) && u in Play(w, steps).ledgers
    ensures Play(w, steps).ledgers[u].defaultLimit == ToBase(limit, r)
  {
    hide ToBase, Perform, Record;
    var front, last := steps[..|steps| - 1], steps[|steps| - 1];
    PlayBalances(w, steps);
    PlayBalances(w, front);
    if |front| == start {
      LimitStarts(Play(w, front), u, limit, r);
    } else {
      assert front[..start] == steps[..start];
      LimitApplies(w, front, u, limit, r, start);
      LimitStays(Play(w, front), last, u);
    }
  }

  lemma LimitStarts(w: World, u: int, limit: int, r: Rate)
    requires w.RateOf(u) == Some(r)
    ensures var w' := Perform(w, SetUserLimit(u, limit)).world;
            u in w'.ledgers && w'.ledgers[u].defaultLimit == ToBase(limit, r)
  {
    hide ToBase;
  }

  lemma LimitStays(w: World, s: Step, u: int)
    requires u in w.ledgers && !Replaces(s, u)
    ensures u in Perform(w, s).world.ledgers
    ensures Perform(w, s).world.ledgers[u].defaultLimit == w.ledgers[u].defaultLimit
  {
    hide ToBase;
  }

  /** The user is there when the limit is filled. */
  lemma LimitAtFill(w: World, steps: seq<Step>, u: int, limit: int, r: Rate, start: nat, fill: nat)
    requires w.ledgers == map[] && AllNonNegative(steps)
    requires start <= fill < |steps| && steps[start] == SetUserLimit(u, limit)
    requires forall i :: start < i < |steps| ==> !Replaces(steps[i], u)
    requires Play(w, steps[..start]).RateOf(u) == Some(r)
    ensures u in AccountsOf(w, steps[..fill]) && u in Play(w, steps[..fill]).ledgers
    ensures steps[fill].SetUserLimit? && steps[fill].user == u ==> Play(w, steps[..fill]).RateOf(u).Some?
  {
    hide ToBase, Perform, Record;
    var before := steps[..fill];
    PlayBalances(w, before);
    if start < fill {
      assert before[..start] == steps[..start];
      assert !Replaces(steps[fill], u);
      LimitApplies(w, before, u, limit, r, start);
    }
  }

  lemma {:induction false} PeriodAtRate(w: World, steps: seq<Step>, u: int, r: Rate, fill: nat)
    requires w.ledgers == map[] && AllNonNegative(steps)
    requires fill < |steps| && Refills(steps[fill], u)
    requires u in AccountsOf(w, steps[..fill])
    requires steps[fill].SetUserLimit? && steps[fill].user == u ==> Play(w, steps[..fill]).RateOf(u).Some?
    requires forall i :: fill < i < |steps| ==> !Refills(steps[i], u) && steps[i] != ResetUser(u)
    requires forall i :: fill < i < |steps| && Charges(steps[i], u) ==>
               Accepted(Play(w, steps[..i]), steps[i]) ==> Play(w, steps[..i]).RateOf(u) == Some(r)
    ensures u in AccountsOf(w, steps)
    ensures var j := AccountsOf(w, steps)[u];
            j.open <= |j.postings| && ChargedAtRate(j.postings[j.open..], r)
  {
    hide ToBase, Record, Perform, ChargedAtRate;
    var front, last := steps[..|steps| - 1], steps[|steps| - 1];
    PlayBalances(w, front);
    if |front| == fill {
      PeriodStart(Play(w, front), AccountsOf(w, front), last, u, r);
    } else {
      assert forall i :: 0 <= i <= |front| ==> front[..i] == steps[..i];
      PeriodAtRate(w, front, u, r, fill);
      PeriodStep(Play(w, front), AccountsOf(w, front), last, u, r);
    }
  }

  lemma PeriodStart(w: World, a: Accounts, s: Step, u: int, r: Rate)
    requires AllBalanced(w, a) && u in a && Refills(s, u)
    requires s.SetUserLimit? && s.user == u ==> w.RateOf(u).Some?
    ensures u in Record(a, w, s)
    ensures var j := Record(a, w, s)[u];
            j.open <= |j.postings| && ChargedAtRate(j.postings[j.open..], r)
  {
    hide ToBase, ChargedAtRate;
    assert Record(a, w, s)[u] == Reopen(a[u]);
    NothingCharged(a[u].postings, r);
  }

  lemma NothingCharged(ps: seq<Posting>, r: Rate)
    ensures ChargedAtRate(ps[|ps|..], r)
  {
  }

  /** What a step does to the postings of a user: nothing, a fresh start, or one posting at the current rate. */
  lemma RecordedPostings(w: World, a: Accounts, s: Step, u: int)
    requires AllBalanced(w, a) && u in Record(a, w, s)
    ensures u !in a || s == ResetUser(u) ==> Record(a, w, s)[u].postings == []
    ensures u in a && s != ResetUser(u) ==>
              var ps, ps' := a[u].postings, Record(a, w, s)[u].postings;
              ps' == ps ||
              (s.AddExpence? && s.user == u && Accepted(w, s) && w.RateOf(u).Some? &&
               ps' == ps + [Posting(s.name, s.amount, ToBase(s.amount, w.RateOf(u).value), s.ts, s.ts > s.monthStart)])
  {
    hide ToBase;
  }

  lemma StaysOpen(w: World, a: Accounts, s: Step, u: int)
    requires AllBalanced(w, a) && u in a && !Refills(s, u) && s != ResetUser(u)
    ensures u in Record(a, w, s) && Record(a, w, s)[u].open == a[u].open <= |a[u].postings|
  {
    hide ToBase;
  }

  /** A step inside a period adds at most one posting, at the current rate. */
  lemma PeriodStep(w: World, a: Accounts, s: Step, u: int, r: Rate)
    requires AllBalanced(w, a) && u in a && NonNegative(s) && !Refills(s, u) && s != ResetUser(u)
    requires Charges(s, u) && Accepted(w, s) ==> w.RateOf(u) == Some(r)
    requires a[u].open <= |a[u].postings| && ChargedAtRate(a[u].postings[a[u].open..], r)
    ensures u in Record(a, w, s)
    ensures var j := Record(a, w, s)[u]; j.open <= |j.postings| && ChargedAtRate(j.postings[j.open..], r)
  {
    hide ToBase, AllBalanced, Record, Accepted;
    StaysOpen(w, a, s, u);
    RecordedPostings(w, a, s, u);
    var ps, ps' := a[u].postings, Record(a, w, s)[u].postings;
    if ps' != ps {
      var p := ps'[|ps|];
      assert p.charged ==> AtRate(p, r);
      assert ps'[a[u].open..] == ps[a[u].open..] + [p];
    }
  }

  // ----- error of a whole report -----

  ghost predicate LineAtRate(ps: seq<Posting>, name: string, cutoff: int, r: Rate) {
    forall i :: 0 <= i < |ps| && ps[i].name == name && ps[i].ts >= cutoff ==> AtRate(ps[i], r)
  }

  /** Amounts as typed under a name since a cut-off, and how many. */
  function EnteredUnder(ps: seq<Posting>, name: string, cutoff: int): int {
    if ps == [] then 0 else
      var last := ps[|ps| - 1];
      EnteredUnder(ps[..|ps| - 1], name, cutoff) + if last.name == name && last.ts >= cutoff then last.entered else 0
  }

  function CountUnder(ps: seq<Posting>, name: string, cutoff: int): nat {
    if ps == [] then 0 else
      var last := ps[|ps| - 1];
      CountUnder(ps[..|ps| - 1], name, cutoff) + if last.name == name && last.ts >= cutoff then 1 else 0
  }

  lemma FiledSincePush(ps: seq<Posting>, p: Posting, name: string, cutoff: int, r: Rate)
    ensures var before, after := Since(Filed(ps, name), cutoff), Since(Filed(ps + [p], name), cutoff);
            if p.name == name && p.ts >= cutoff then
              after != [] && Worth(after, r) == Worth(before, r) + FromBase(p.stored, r)
            else after == before
  {
    hide FromBase;
    assert (ps + [p])[..|ps|] == ps;
    var filed, entry := Filed(ps, name), Entry(p.stored, p.ts);
    assert (filed + [entry])[..|filed|] == filed;
    var since := Since(filed, cutoff);
    assert (since + [entry])[..|since|] == since;
  }

  /** `n` losses of one unit and one rate each. */
  function Loss(n: nat, r: real): real { if n == 0 then 0.0 else Loss(n - 1, r) + (r + 1.0) }

  lemma {:induction false} LossIsScaled(n: nat, r: real)
    ensures Loss(n, r) == n as real * (r + 1.0)
  {
    if n > 0 {
      LossIsScaled(n - 1, r);
      SumScaled((n - 1) as real, 1.0, r + 1.0);
    }
  }

  /** A line never shows more than was typed, and less than one unit plus one rate is lost per expence. */
  lemma {:induction false} LineError(ps: seq<Posting>, name: string, cutoff: int, r: Rate)
    requires LineAtRate(ps, name, cutoff, r)
    ensures var shown := Worth(Since(Filed(ps, name), cutoff), r);
            var entered := EnteredUnder(ps, name, cutoff);
            var loss := Loss(CountUnder(ps, name, cutoff), r);
            shown <= entered && entered as real - shown as real <= loss &&
            (CountUnder(ps, name, cutoff) >= 1 ==> entered as real - shown as real < loss)
    ensures CountUnder(ps, name, cutoff) == 0 <==> Since(Filed(ps, name), cutoff) == []
  {
    hide ToBase, FromBase;
    if ps != [] {
      var front, last := ps[..|ps| - 1], ps[|ps| - 1];
      assert ps == front + [last];
      LineError(front, name, cutoff, r);
      FiledSincePush(front, last, name, cutoff, r);
      if last.name == name && last.ts >= cutoff {
        ConversionError(last.entered, r);
      }
    }
  }

  /** A line shows at most the amounts typed, and less than one unit plus one rate below them per expence. */
  predicate ShownWithin(shown: int, entered: int, n: nat, r: Rate) {
    shown <= entered && shown as real > entered as real - n as real * (r + 1.0)
  }

  lemma LineWithin(shown: int, entered: int, n: nat, loss: real, r: Rate)
    requires shown <= entered && entered as real - shown as real < loss && loss == n as real * (r + 1.0)
    ensures ShownWithin(shown, entered, n, r)
  {
  }

  lemma {:induction false} NoneUnder(ps: seq<Posting>, name: string, cutoff: int)
    requires forall i :: 0 <= i < |ps| ==> ps[i].name != name
    ensures CountUnder(ps, name, cutoff) == 0
  {
    if ps != [] {
      NoneUnder(ps[..|ps| - 1], name, cutoff);
    }
  }

  lemma NothingFiled(t: Tables, steps: seq<Step>, u: int, name: string, cutoff: int)
    requires Sound(t) && t.users == map[] && AllNonNegative(steps)
    requires u in Run(t, steps).users && name !in BookOf(Run(t, steps), u)
    ensures u in AccountsOf(Abstract(t), steps)
    ensures CountUnder(AccountsOf(Abstract(t), steps)[u].postings, name, cutoff) == 0
  {
    hide BookOf, Run, Play;
    PlayBalances(Abstract(t), steps);
    RunRefines(t, steps);
    assert Abstract(Run(t, steps)).ledgers[u] == LedgerOf(Run(t, steps), u);
    NoneUnder(AccountsOf(Abstract(t), steps)[u].postings, name, cutoff);
  }

  predicate Enters(s: Step, u: int, name: string, cutoff: int) {
    s.AddExpence? && s.user == u && s.name == name && s.ts >= cutoff
  }

  /** The user is not reset after step `i`. */
  ghost predicate Lasts(steps: seq<Step>, i: nat, u: int) {
    forall j :: i < j < |steps| ==> steps[j] != ResetUser(u)
  }

  /**
   A report line at rate `r` is within that error of the amounts typed, if the accepted expences under that name
   since the cut-off, those of earlier lives of the user aside, were typed at rate `r`.
   */
  lemma ReportError(t: Tables, steps: seq<Step>, u: int, name: string, cutoff: int, r: Rate)
    requires Sound(t) && t.users == map[] && AllNonNegative(steps)
    requires u in Run(t, steps).users
    requires forall i :: 0 <= i < |steps| && Enters(steps[i], u, name, cutoff) && Lasts(steps, i, u) ==>
               Apply(Run(t, steps[..i]), steps[i]).failure.None? ==>
               Abstract(Run(t, steps[..i])).RateOf(u) == Some(r)
    ensures u in AccountsOf(Abstract(t), steps)
    ensures var ps := AccountsOf(Abstract(t), steps)[u].postings;
            var report := ReportOf(BookOf(Run(t, steps), u), cutoff, r);
            var n := CountUnder(ps, name, cutoff);
            if n == 0 then name !in report
            else name in report && ShownWithin(report[name], EnteredUnder(ps, name, cutoff), n, r)
  {
    hide Sound, AccountsOf, CategoryNames, FromBase, ToBase, CountUnder, EnteredUnder, Worth, Filed;
    LimitConserved(t, steps, u);
    forall i | 0 <= i <= |steps| ensures Play(Abstract(t), steps[..i]) == Abstract(Run(t, steps[..i])) {
      RunRefines(t, steps[..i]);
    }
    forall i | 0 <= i < |steps|
      ensures Accepted(Play(Abstract(t), steps[..i]), steps[i]) <==> Apply(Run(t, steps[..i]), steps[i]).failure.None?
    {
      SameVerdict(t, steps, i);
    }
    AccountsAtRate(Abstract(t), steps, u, name, cutoff, r);
    var ps := AccountsOf(Abstract(t), steps)[u].postings;
    var n := CountUnder(ps, name, cutoff);
    LineError(ps, name, cutoff, r);
    LossIsScaled(n, r);
    if name !in BookOf(Run(t, steps), u) {
      NothingFiled(t, steps, u, name, cutoff);
    } else if n >= 1 {
      LineWithin(Worth(Since(Filed(ps, name), cutoff), r), EnteredUnder(ps, name, cutoff), n, Loss(n, r), r);
    }
  }

  lemma ResetForgets(w: World, steps: seq<Step>, u: int)
    requires steps != [] && steps[|steps| - 1] == ResetUser(u)
    ensures u !in AccountsOf(w, steps)
  {
  }

  lemma {:induction false} AccountsAtRate(w: World, steps: seq<Step>, u: int, name: string, cutoff: int, r: Rate)
    requires w.ledgers == map[] && AllNonNegative(steps)
    requires forall i :: 0 <= i < |steps| && Enters(steps[i], u, name, cutoff) && Lasts(steps, i, u) ==>
               Accepted(Play(w, steps[..i]), steps[i]) ==> Play(w, steps[..i]).RateOf(u) == Some(r)
    ensures u in AccountsOf(w, steps) ==> LineAtRate(AccountsOf(w, steps)[u].postings, name, cutoff, r)
  {
    hide ToBase, Perform, Record;
    if steps != [] && steps[|steps| - 1] == ResetUser(u) {
      ResetForgets(w, steps, u);
    } else if steps != [] {
      var front, last := steps[..|steps| - 1], steps[|steps| - 1];
      assert forall i :: 0 <= i <= |front| ==> front[..i] == steps[..i];
      assert forall i :: 0 <= i < |front| && Lasts(front, i, u) ==> Lasts(steps, i, u);
      assert Lasts(steps, |front|, u);
      AccountsAtRate(w, front, u, name, cutoff, r);
      assert steps[..|front|] == front;
      PlayBalances(w, front);
      RecordAtRate(Play(w, front), AccountsOf(w, front), last, u, name, cutoff, r);
    }
  }

  lemma RecordAtRate(w: World, a: Accounts, s: Step, u: int, name: string, cutoff: int, r: Rate)
    requires AllBalanced(w, a) && NonNegative(s)
    requires Enters(s, u, name, cutoff) && Accepted(w, s) ==> w.RateOf(u) == Some(r)
    requires u in a ==> LineAtRate(a[u].postings, name, cutoff, r)
    ensures u in Record(a, w, s) ==> LineAtRate(Record(a, w, s)[u].postings, name, cutoff, r)
  {
    hide ToBase, Record;
    if u in Record(a, w, s) {
      RecordedPostings(w, a, s, u);
    }
  }
}
