/**
 Accounts of a run, kept beside the tables: for each user the accepted expences in order, and where the
 current limit period starts. The limit columns, the stored totals and the reports are all measured
 against these accounts.
 */
module Journals {
  import opened Conversion
  import opened Steps
  import opened Tables
  import opened Ledgers
  import opened Refinement
  import opened Reports

  /** An accepted expence: what the user typed, what was stored, and whether it was charged to the limit. */
  datatype Posting = Posting(name: string, entered: int, stored: int, ts: int, charged: bool)

  /** `postings[open..]` were accepted since the limit was last filled. */
  datatype Journal = Journal(postings: seq<Posting>, open: nat)

  type Accounts = map<int, Journal>

  function Reopen(j: Journal): Journal { j.(open := |j.postings|) }

  /** The steps that fill the limit of an existing user again. */
  predicate Refills(s: Step, u: int) {
    s == RefillLimits || s == ResetUserLimit(u) || (s.SetUserLimit? && s.user == u)
  }

  ghost function Record(a: Accounts, w: World, s: Step): Accounts {
    match s
    case AddUser(u) => if Perform(w, s).failure.None? then a[u := Journal([], 0)] else a
    case ResetUser(u) => a - {u}
    case AddExpence(u, name, amount, ts, monthStart) =>
      if Perform(w, s).failure.None? && u in a && w.RateOf(u).Some? then
        var posting := Posting(name, amount, ToBase(amount, w.RateOf(u).value), ts, ts > monthStart);
        a[u := a[u].(postings := a[u].postings + [posting])]
      else a
    case SetUserLimit(u, _) => if u in a && w.RateOf(u).Some? then a[u := Reopen(a[u])] else a
    case ResetUserLimit(u) => if u in a then a[u := Reopen(a[u])] else a
    case RefillLimits => map u | u in a :: Reopen(a[u])
    case _ => a
  }

  /** The accounts of a run that starts with no users. */
  ghost function AccountsOf(w: World, steps: seq<Step>): Accounts {
    if steps == [] then map[] else
      var front := steps[..|steps| - 1];
      Record(AccountsOf(w, front), Play(w, front), steps[|steps| - 1])
  }

  function ChargedTotal(ps: seq<Posting>): int {
    if ps == [] then 0 else
      var last := ps[|ps| - 1];
      ChargedTotal(ps[..|ps| - 1]) + if last.charged then last.stored else 0
  }

  /** The list a ledger keeps under a name: the postings under that name, as entries. */
  function Filed(ps: seq<Posting>, name: string): seq<Entry> {
    if ps == [] then [] else
      var front, last := Filed(ps[..|ps| - 1], name), ps[|ps| - 1];
      if last.name == name then front + [Entry(last.stored, last.ts)] else front
  }

  /** A ledger agrees with a journal. */
  ghost predicate Balanced(l: Ledger, j: Journal) {
    && j.open <= |j.postings|
    && l.defaultLimit - l.currentLimit == ChargedTotal(j.postings[j.open..])
    && 0 <= l.currentLimit <= l.defaultLimit
    && (forall i :: 0 <= i < |j.postings| ==> j.postings[i].stored >= 0)
    && (forall name :: name in l.book ==> l.book[name] == Filed(j.postings, name))
    && (forall i :: 0 <= i < |j.postings| ==> j.postings[i].name in l.book)
  }

  ghost predicate AllBalanced(w: World, a: Accounts) {
    w.ledgers.Keys == a.Keys && forall u :: u in a ==> Balanced(w.ledgers[u], a[u])
  }

  /** Parsed amounts carry no sign, so no command enters a negative one. */
  predicate NonNegative(s: Step) {
    (s.AddExpence? || s.SetUserLimit?) ==> s.amount >= 0
  }

  ghost predicate AllNonNegative(steps: seq<Step>) { forall i :: 0 <= i < |steps| ==> NonNegative(steps[i]) }

  lemma ChargedTotalPush(ps: seq<Posting>, open: nat, p: Posting)
    requires open <= |ps|
    ensures ChargedTotal((ps + [p])[open..]) == ChargedTotal(ps[open..]) + if p.charged then p.stored else 0
  {
    var tail := (ps + [p])[open..];
    assert tail[..|tail| - 1] == ps[open..];
  }

  lemma {:induction false} FiledNone(ps: seq<Posting>, name: string)
    requires forall i :: 0 <= i < |ps| ==> ps[i].name != name
    ensures Filed(ps, name) == []
  {
    if ps != [] {
      FiledNone(ps[..|ps| - 1], name);
    }
  }

  /** Posting an expence keeps a ledger balanced: the debit and the new entry go together. */
  lemma PostBalances(l: Ledger, j: Journal, p: Posting)
    requires Balanced(l, j) && p.name in l.book && p.stored >= 0
    requires p.charged ==> l.currentLimit >= p.stored
    ensures Balanced(Post(l, p.name, Entry(p.stored, p.ts), p.charged), j.(postings := j.postings + [p]))
  {
    var l', ps := Post(l, p.name, Entry(p.stored, p.ts), p.charged), j.postings + [p];
    ChargedTotalPush(j.postings, j.open, p);
    forall name | name in l'.book ensures l'.book[name] == Filed(ps, name) {
      assert ps[..|ps| - 1] == j.postings;
    }
  }

  lemma RefilledBalances(l: Ledger, j: Journal, limit: int)
    requires Balanced(l, j) && limit >= 0
    ensures Balanced(l.(defaultLimit := limit, currentLimit := limit), Reopen(j))
  {
    assert j.postings[|j.postings|..] == [];
  }

  lemma NewCategoryBalances(l: Ledger, j: Journal, name: string)
    requires Balanced(l, j) && name !in l.book
    ensures Balanced(l.(book := l.book[name := []]), j)
  {
    FiledNone(j.postings, name);
  }

  lemma AddExpenceBalances(w: World, a: Accounts, s: Step)
    requires AllBalanced(w, a) && s.AddExpence? && NonNegative(s)
    ensures AllBalanced(Perform(w, s).world, Record(a, w, s))
  {
    hide ToBase;
    if Perform(w, s).failure.None? {
      var rate := w.RateOf(s.user).value;
      ToBaseBracket(s.amount, rate);
      PostBalances(w.ledgers[s.user], a[s.user],
                   Posting(s.name, s.amount, ToBase(s.amount, rate), s.ts, s.ts > s.monthStart));
    }
  }

  lemma StepBalances(w: World, a: Accounts, s: Step)
    requires AllBalanced(w, a) && NonNegative(s)
    ensures AllBalanced(Perform(w, s).world, Record(a, w, s))
  {
    hide ToBase;
    match s
    case AddCategory(u, name) =>
      if u in w.ledgers && name !in w.ledgers[u].book {
        NewCategoryBalances(w.ledgers[u], a[u], name);
      }
    case AddExpence(_, _, _, _, _) => AddExpenceBalances(w, a, s);
    case SetUserLimit(u, amount) =>
      if w.RateOf(u).Some? {
        ToBaseBracket(amount, w.RateOf(u).value);
        RefilledBalances(w.ledgers[u], a[u], ToBase(amount, w.RateOf(u).value));
      }
    case ResetUserLimit(u) =>
      if u in w.ledgers {
        RefilledBalances(w.ledgers[u], a[u], w.ledgers[u].defaultLimit);
      }
    case RefillLimits =>
      forall u | u in a ensures Balanced(Refilled(w.ledgers[u]), Reopen(a[u])) {
        RefilledBalances(w.ledgers[u], a[u], w.ledgers[u].defaultLimit);
      }
    case _ =>
  }

  lemma {:induction false} PlayBalances(w: World, steps: seq<Step>)
    requires w.ledgers == map[] && AllNonNegative(steps)
    ensures AllBalanced(Play(w, steps), AccountsOf(w, steps))
  {
    if steps != [] {
      var front := steps[..|steps| - 1];
      PlayBalances(w, front);
      StepBalances(Play(w, front), AccountsOf(w, front), steps[|steps| - 1]);
    }
  }

  /**
   Conservation of the limit on the tables. In every reachable state what is missing from a user's limit is
   the sum of the totals charged since it was last filled, and the limit is never overdrawn or overfull.
   The stored lists are exactly the accepted expences, in order.
   */
  lemma LimitConserved(t: Tables, steps: seq<Step>, u: int)
    requires Sound(t) && t.users == map[] && AllNonNegative(steps)
    requires u in Run(t, steps).users
    ensures u in AccountsOf(Abstract(t), steps)
    ensures var row := Run(t, steps).users[u];
            var j := AccountsOf(Abstract(t), steps)[u];
            j.open <= |j.postings| &&
            row.defaultLimit - row.currentLimit == ChargedTotal(j.postings[j.open..]) &&
            0 <= row.currentLimit <= row.defaultLimit
    ensures forall name :: name in CategoryNames(Run(t, steps), u) ==>
              BookOf(Run(t, steps), u)[name] == Filed(AccountsOf(Abstract(t), steps)[u].postings, name)
  {
    PlayBalances(Abstract(t), steps);
    RunRefines(t, steps);
    assert Abstract(Run(t, steps)).ledgers[u] == LedgerOf(Run(t, steps), u);
  }

  lemma {:induction false} FiledNonNegative(ps: seq<Posting>, name: string)
    requires forall i :: 0 <= i < |ps| ==> ps[i].stored >= 0
    ensures forall i :: 0 <= i < |Filed(ps, name)| ==> Filed(ps, name)[i].total >= 0
  {
    if ps != [] {
      FiledNonNegative(ps[..|ps| - 1], name);
    }
  }

  lemma ReachableBookNonNegative(t: Tables, steps: seq<Step>, u: int)
    requires Sound(t) && t.users == map[] && AllNonNegative(steps) && u in Run(t, steps).users
    ensures NonNegativeBook(BookOf(Run(t, steps), u))
  {
    LimitConserved(t, steps, u);
    PlayBalances(Abstract(t), steps);
    RunRefines(t, steps);
    var book, ps := BookOf(Run(t, steps), u), AccountsOf(Abstract(t), steps)[u].postings;
    forall name | name in book { FiledNonNegative(ps, name); }
  }

  /** In every reachable state, moving the cut-off back never lowers or drops a line of a report. */
  lemma ReachableReportMonotone(t: Tables, steps: seq<Step>, u: int, early: int, late: int, rate: Rate)
    requires Sound(t) && t.users == map[] && AllNonNegative(steps)
    requires u in Run(t, steps).users && early <= late
    ensures var book := BookOf(Run(t, steps), u);
            forall name :: name in ReportOf(book, late, rate) ==>
              name in ReportOf(book, early, rate) &&
              0 <= ReportOf(book, late, rate)[name] <= ReportOf(book, early, rate)[name]
  {
    ReachableBookNonNegative(t, steps, u);
    ReportMonotone(BookOf(Run(t, steps), u), early, late, rate);
  }
}
