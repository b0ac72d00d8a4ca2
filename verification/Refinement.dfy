/** The relational store refines the per-user ledgers: same failures, and the same ledgers, step for step. */
module Refinement {
  import opened Wrappers
  import opened Conversion
  import opened Steps
  import opened Tables
  import opened Ledgers

  /** What expence `e` contributes to the report line `name` of user `u`, through the join on the category id. */
  function Contribution(t: Tables, u: int, name: string, e: int): Option<Entry> {
    if e in t.expences && t.expences[e].userId == u && t.expences[e].categoryId in t.categories &&
       t.categories[t.expences[e].categoryId].name == name
    then Some(Entry(t.expences[e].total, t.expences[e].ts))
    else None
  }

  function EntriesBelow(t: Tables, u: int, name: string, n: nat): seq<Entry> {
    if n == 0 then [] else
      var front := EntriesBelow(t, u, name, n - 1);
      match Contribution(t, u, name, n - 1)
      case None => front
      case Some(entry) => front + [entry]
  }

  ghost function CategoryNames(t: Tables, u: int): set<string> {
    set c | c in t.categories && t.categories[c].userId == u :: t.categories[c].name
  }

  ghost function BookOf(t: Tables, u: int): map<string, seq<Entry>> {
    map name | name in CategoryNames(t, u) :: EntriesBelow(t, u, name, t.nextExpence)
  }

  ghost function LedgerOf(t: Tables, u: int): Ledger
    requires u in t.users
  {
    Ledger(t.users[u].baseCurrency, t.users[u].defaultLimit, t.users[u].currentLimit, BookOf(t, u))
  }

  ghost function Abstract(t: Tables): World {
    World(map u | u in t.users :: LedgerOf(t, u), t.currencies)
  }

  lemma {:induction false} EntriesCongruent(t: Tables, t': Tables, u: int, name: string, n: nat)
    requires forall e :: 0 <= e < n ==> Contribution(t, u, name, e) == Contribution(t', u, name, e)
    ensures EntriesBelow(t, u, name, n) == EntriesBelow(t', u, name, n)
  {
    if n > 0 {
      EntriesCongruent(t, t', u, name, n - 1);
    }
  }

  lemma {:induction false} EntriesNone(t: Tables, u: int, name: string, n: nat)
    requires forall e :: 0 <= e < n ==> Contribution(t, u, name, e).None?
    ensures EntriesBelow(t, u, name, n) == []
  {
    if n > 0 {
      EntriesNone(t, u, name, n - 1);
    }
  }

  ghost predicate SameCategories(t: Tables, t': Tables, u: int) {
    forall c :: t.CategoryOf(c, u) || t'.CategoryOf(c, u) ==>
      t.CategoryOf(c, u) && t'.CategoryOf(c, u) && t.categories[c] == t'.categories[c]
  }

  lemma SameNames(t: Tables, t': Tables, u: int)
    requires SameCategories(t, t', u)
    ensures CategoryNames(t, u) == CategoryNames(t', u)
  {
    forall name | name in CategoryNames(t, u) ensures name in CategoryNames(t', u) {
      var c :| c in t.categories && t.categories[c] == CategoryRow(u, name);
      assert t'.CategoryOf(c, u);
    }
    forall name | name in CategoryNames(t', u) ensures name in CategoryNames(t, u) {
      var c :| c in t'.categories && t'.categories[c] == CategoryRow(u, name);
      assert t.CategoryOf(c, u);
    }
  }

  /** A book depends on the user's categories and contributions only. */
  lemma BookCongruent(t: Tables, t': Tables, u: int)
    requires SameCategories(t, t', u) && t.nextExpence == t'.nextExpence
    requires forall name, e :: name in CategoryNames(t, u) ==>
               Contribution(t, u, name, e) == Contribution(t', u, name, e)
    ensures BookOf(t, u) == BookOf(t', u)
  {
    SameNames(t, t', u);
    forall name | name in CategoryNames(t, u)
      ensures EntriesBelow(t, u, name, t.nextExpence) == EntriesBelow(t', u, name, t.nextExpence)
    {
      EntriesCongruent(t, t', u, name, t.nextExpence);
    }
  }

  lemma NamesIffFound(t: Tables, u: int, name: string)
    ensures name in CategoryNames(t, u) <==> t.FindCategory(u, name).Some?
  {
    if name in CategoryNames(t, u) {
      var c :| c in t.categories && t.categories[c].userId == u && t.categories[c].name == name;
      assert t.Names(c, u, name);
    }
  }

  /** Steps that only rewrite user rows or currencies leave every book as it is. */
  lemma SameBooks(t: Tables, t': Tables)
    requires t.categories == t'.categories && t.expences == t'.expences && t.nextExpence == t'.nextExpence
    ensures forall u :: BookOf(t, u) == BookOf(t', u)
  {
    forall u ensures BookOf(t, u) == BookOf(t', u) {
      BookCongruent(t, t', u);
    }
  }

  lemma RefinesAddUser(t: Tables, u: int)
    requires Sound(t) && u !in t.users
    ensures BookOf(t, u) == map[]
  {
    assert CategoryNames(t, u) == {};
  }

  /** Deleting a user removes that ledger and, thanks to ownership, nothing from any other. */
  lemma RefinesResetUser(t: Tables, u: int, v: int)
    requires Sound(t) && u != v
    ensures BookOf(t.DeleteUser(u), v) == BookOf(t, v)
  {
    var t' := t.DeleteUser(u);
    forall name, e | name in CategoryNames(t, v)
      ensures Contribution(t, v, name, e) == Contribution(t', v, name, e)
    {
      if e in t.expences && t.expences[e].userId == v {
        assert t.CategoryOf(t.expences[e].categoryId, v);
      }
    }
    BookCongruent(t, t', v);
  }

  lemma NamesAfterInsert(t: Tables, u: int, name: string, v: int)
    requires Sound(t) && u in t.users && t.FindCategory(u, name).None?
    ensures CategoryNames(t.InsertCategory(u, name).tables, v) ==
            CategoryNames(t, v) + if v == u then {name} else {}
  {
    var t' := t.InsertCategory(u, name).tables;
    assert t'.categories[t.nextCategory] == CategoryRow(u, name);
    forall n | n in CategoryNames(t, v) ensures n in CategoryNames(t', v) {
      var c :| c in t.categories && t.categories[c] == CategoryRow(v, n);
      assert t'.categories[c] == t.categories[c];
    }
    forall n | n in CategoryNames(t', v) ensures n in CategoryNames(t, v) + if v == u then {name} else {} {
      var c :| c in t'.categories && t'.categories[c] == CategoryRow(v, n);
      assert c == t.nextCategory || t'.categories[c] == t.categories[c];
    }
  }

  lemma RefinesAddCategory(t: Tables, u: int, name: string, v: int)
    requires Sound(t) && u in t.users && t.FindCategory(u, name).None?
    ensures BookOf(t.InsertCategory(u, name).tables, v) ==
            if v == u then BookOf(t, u)[name := []] else BookOf(t, v)
  {
    var t' := t.InsertCategory(u, name).tables;
    NamesIffFound(t, u, name);
    NamesAfterInsert(t, u, name, v);
    forall n | n in CategoryNames(t, v)
      ensures EntriesBelow(t', v, n, t.nextExpence) == EntriesBelow(t, v, n, t.nextExpence)
    {
      EntriesCongruent(t, t', v, n, t.nextExpence);
    }
    if v == u {
      UnusedPair(t, u, name);
      forall e ensures Contribution(t', u, name, e).None? {
        assert e in t.expences ==> t.expences[e].categoryId in t.categories;
      }
      EntriesNone(t', u, name, t.nextExpence);
    }
  }

  lemma InsertKeepsContribution(t: Tables, row: ExpenceRow, v: int, name: string, e: int)
    requires Sound(t) && row.userId in t.users && t.CategoryOf(row.categoryId, row.userId) && e < t.nextExpence
    ensures Contribution(t.InsertExpence(row).tables, v, name, e) == Contribution(t, v, name, e)
  {
  }

  /** A new expence row extends exactly one list: the one of its user and its category's name. */
  lemma RefinesInsertExpence(t: Tables, row: ExpenceRow, v: int)
    requires Sound(t) && row.userId in t.users && t.CategoryOf(row.categoryId, row.userId)
    ensures var t' := t.InsertExpence(row).tables;
            var name := t.categories[row.categoryId].name;
            var book := BookOf(t, v);
            name in BookOf(t, row.userId) && BookOf(t', v) ==
              if v == row.userId then book[name := book[name] + [Entry(row.total, row.ts)]] else book
  {
    var t' := t.InsertExpence(row).tables;
    var name := t.categories[row.categoryId].name;
    assert name in CategoryNames(t, row.userId);
    SameNames(t, t', v);
    var book, entry := BookOf(t, v), Entry(row.total, row.ts);
    forall n | n in CategoryNames(t, v)
      ensures BookOf(t', v)[n] == if v == row.userId && n == name then book[n] + [entry] else book[n]
    {
      forall e | 0 <= e < t.nextExpence ensures Contribution(t, v, n, e) == Contribution(t', v, n, e) {
        InsertKeepsContribution(t, row, v, n, e);
      }
      EntriesCongruent(t, t', v, n, t.nextExpence);
      assert Contribution(t', v, n, t.nextExpence) == if v == row.userId && n == name then Some(entry) else None;
    }
    assert BookOf(t', v).Keys == book.Keys;
  }

  lemma SameWorld(t: Tables, w: World)
    requires w.currencies == t.currencies && w.ledgers.Keys == t.users.Keys
    requires forall u :: u in t.users ==> w.ledgers[u] == LedgerOf(t, u)
    ensures Abstract(t) == w
  {
  }

  /** The square commutes: the step on the tables, seen as ledgers, is the step on the ledgers. */
  ghost predicate Simulates(t: Tables, s: Step) {
    && Abstract(Apply(t, s).tables) == Perform(Abstract(t), s).world
    && Apply(t, s).failure == Perform(Abstract(t), s).failure
  }

  lemma SimulatesAddExpence(t: Tables, s: Step)
    requires Sound(t) && s.AddExpence?
    ensures Simulates(t, s)
  {
    hide ToBase;
    var w, r := Abstract(t), Apply(t, s);
    NamesIffFound(t, s.user, s.name);
    match t.FindCategory(s.user, s.name)
    case None =>
    case Some(c) =>
      assert s.user in t.users && w.RateOf(s.user).Some?;
      var total := ToBase(s.amount, w.RateOf(s.user).value);
      var row := ExpenceRow(s.user, c, s.ts, total);
      assert r == t.PostExpence(row, s.monthStart);
      if r.failure.None? {
        forall v | v in t.users
          ensures LedgerOf(r.tables, v) == Perform(w, s).world.ledgers[v]
        {
          SameBooks(t.InsertExpence(row).tables, r.tables);
          RefinesInsertExpence(t, row, v);
        }
        SameWorld(r.tables, Perform(w, s).world);
      }
  }

  lemma SimulatesAddUser(t: Tables, s: Step)
    requires Sound(t) && s.AddUser?
    ensures Simulates(t, s)
  {
    if s.user !in t.users {
      RefinesAddUser(t, s.user);
    }
    SameBooks(t, Apply(t, s).tables);
    SameWorld(Apply(t, s).tables, Perform(Abstract(t), s).world);
  }

  lemma SimulatesResetUser(t: Tables, s: Step)
    requires Sound(t) && s.ResetUser?
    ensures Simulates(t, s)
  {
    var t', w' := Apply(t, s).tables, Perform(Abstract(t), s).world;
    forall v | v in t'.users ensures LedgerOf(t', v) == w'.ledgers[v] {
      RefinesResetUser(t, s.user, v);
    }
    SameWorld(t', w');
  }

  lemma SimulatesAddCategory(t: Tables, s: Step)
    requires Sound(t) && s.AddCategory?
    ensures Simulates(t, s)
  {
    var t', w' := Apply(t, s).tables, Perform(Abstract(t), s).world;
    NamesIffFound(t, s.user, s.name);
    if t.FindCategory(s.user, s.name).None? && s.user in t.users {
      forall v | v in t.users ensures LedgerOf(t', v) == w'.ledgers[v] {
        RefinesAddCategory(t, s.user, s.name, v);
      }
    } else {
      SameBooks(t, t');
    }
    SameWorld(t', w');
  }

  /** When only user rows or currencies change, each ledger keeps its book and takes the row's columns. */
  lemma SameBooksWorld(t: Tables, t': Tables, w': World)
    requires t.categories == t'.categories && t.expences == t'.expences && t.nextExpence == t'.nextExpence
    requires w'.currencies == t'.currencies && w'.ledgers.Keys == t'.users.Keys
    requires forall v :: v in t'.users ==>
               var row := t'.users[v];
               w'.ledgers[v] == Ledger(row.baseCurrency, row.defaultLimit, row.currentLimit, BookOf(t, v))
    ensures Abstract(t') == w'
  {
    SameBooks(t, t');
    SameWorld(t', w');
  }

  lemma SimulatesUpdateRates(t: Tables, s: Step)
    requires Sound(t) && s.UpdateRates?
    ensures Simulates(t, s)
  {
    hide ToBase;
    SameBooksWorld(t, Apply(t, s).tables, Perform(Abstract(t), s).world);
  }

  lemma SimulatesChangeCurrency(t: Tables, s: Step)
    requires Sound(t) && s.ChangeCurrency?
    ensures Simulates(t, s)
  {
    hide ToBase;
    SameBooksWorld(t, Apply(t, s).tables, Perform(Abstract(t), s).world);
  }

  lemma SimulatesLimits(t: Tables, s: Step)
    requires Sound(t) && (s.SetUserLimit? || s.ResetUserLimit? || s.RefillLimits?)
    ensures Simulates(t, s)
  {
    hide ToBase;
    SameBooksWorld(t, Apply(t, s).tables, Perform(Abstract(t), s).world);
  }

  /** Every storage step on the tables is the same step on the ledgers, with the same failure. */
  lemma StepRefines(t: Tables, s: Step)
    requires Sound(t)
    ensures Abstract(Apply(t, s).tables) == Perform(Abstract(t), s).world
    ensures Apply(t, s).failure == Perform(Abstract(t), s).failure
  {
    match s
    case AddUser(_) => SimulatesAddUser(t, s);
    case ResetUser(_) => SimulatesResetUser(t, s);
    case AddCategory(_, _) => SimulatesAddCategory(t, s);
    case AddExpence(_, _, _, _, _) => SimulatesAddExpence(t, s);
    case UpdateRates(_) => SimulatesUpdateRates(t, s);
    case ChangeCurrency(_, _) => SimulatesChangeCurrency(t, s);
    case _ => SimulatesLimits(t, s);
  }

  /** Whole runs refine whole runs. */
  lemma {:induction false} RunRefines(t: Tables, steps: seq<Step>)
    requires Sound(t)
    ensures Abstract(Run(t, steps)) == Play(Abstract(t), steps)
  {
    if steps != [] {
      var front := steps[..|steps| - 1];
      RunRefines(t, front);
      ReachableOwned(t, front);
      StepRefines(Run(t, front), steps[|steps| - 1]);
    }
  }

  /** Every user there is has a base currency with a rate, so no money command fails for want of one. */
  lemma RateAlwaysFound(t: Tables, steps: seq<Step>, u: int)
    requires Sound(t) && u in Run(t, steps).users
    ensures Abstract(Run(t, steps)).RateOf(u).Some?
  {
    ReachableOwned(t, steps);
  }
}
