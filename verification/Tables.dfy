/**
 The four PostgreSQL tables as values, and the meaning of each SQL statement the database package sends.
 A failed statement inside the schema's constraints leaves the rows alone, but an identity column does not
 give back the id it drew.
 */
module Tables {
  import opened Wrappers
  import opened Conversion
  import opened Steps

  const DEFAULT_CURRENCY := 0
  const DEFAULT_MONTH_LIMIT := 1000000

  datatype UserRow = UserRow(baseCurrency: int, defaultLimit: int, currentLimit: int)

  datatype CategoryRow = CategoryRow(userId: int, name: string)

  datatype ExpenceRow = ExpenceRow(userId: int, categoryId: int, ts: int, total: int)

  /** Rows of the tables after a statement, and why it failed if it did. */
  datatype Exec = Exec(tables: Tables, failure: Option<Failure>)

  datatype Tables = Tables(
    users: map<int, UserRow>,
    categories: map<int, CategoryRow>,
    expences: map<int, ExpenceRow>,
    currencies: CurrencyTable,
    nextCategory: nat,
    nextExpence: nat)
  {
    /** What the schema enforces: foreign keys, the unique pair, and ids drawn from the identity counters. */
    ghost predicate Consistent() {
      && (forall u :: u in users ==> users[u].baseCurrency in currencies)
      && (forall c :: c in categories ==> 0 <= c < nextCategory && categories[c].userId in users)
      && (forall c, c' :: c in categories && c' in categories && categories[c] == categories[c'] ==> c == c')
      && (forall e :: e in expences ==>
            0 <= e < nextExpence && expences[e].userId in users && expences[e].categoryId in categories)
    }

    /** What no constraint of the schema says: an expence is filed under a category of its own user. */
    ghost predicate Owned() {
      forall e :: e in expences && expences[e].categoryId in categories ==>
        categories[expences[e].categoryId].userId == expences[e].userId
    }

    function InsertUser(u: int): Exec {
      if u in users then Exec(this, Some(UniqueViolation))
      else if DEFAULT_CURRENCY !in currencies then Exec(this, Some(ForeignKeyViolation))
      else Exec(this.(users := users[u := UserRow(DEFAULT_CURRENCY, DEFAULT_MONTH_LIMIT, DEFAULT_MONTH_LIMIT)]), None)
    }

    predicate CategoryOf(c: int, u: int) { c in categories && categories[c].userId == u }

    /** `DELETE FROM users` with both `ON DELETE CASCADE` chains. */
    function DeleteUser(u: int): Tables {
      this.(users := users - {u},
            categories := map c | c in categories && categories[c].userId != u :: categories[c],
            expences := map e | e in expences && expences[e].userId != u && !CategoryOf(expences[e].categoryId, u) ::
              expences[e])
    }

    function UpdateBaseCurrency(u: int, currency: int): Exec {
      if u !in users then Exec(this, None)
      else if currency !in currencies then Exec(this, Some(ForeignKeyViolation))
      else Exec(this.(users := users[u := users[u].(baseCurrency := currency)]), None)
    }

    function UpdateLimits(u: int, defaultLimit: int, currentLimit: int): Tables {
      if u !in users then this
      else this.(users := users[u := users[u].(defaultLimit := defaultLimit, currentLimit := currentLimit)])
    }

    function RefillLimit(u: int): Tables {
      if u !in users then this else UpdateLimits(u, users[u].defaultLimit, users[u].defaultLimit)
    }

    function RefillAllLimits(): Tables {
      this.(users := map u | u in users :: users[u].(currentLimit := users[u].defaultLimit))
    }

    ghost predicate Names(c: int, u: int, name: string) { c in categories && categories[c] == CategoryRow(u, name) }

    ghost function FindCategory(u: int, name: string): (c: Option<int>)
      ensures c.Some? ==> Names(c.value, u, name)
      ensures c.None? <==> forall c :: !Names(c, u, name)
    {
      if exists c :: Names(c, u, name) then
        var c :| Names(c, u, name);
        Some(c)
      else None
    }

    ghost function InsertCategory(u: int, name: string): Exec {
      var drawn := this.(nextCategory := nextCategory + 1);
      if FindCategory(u, name).Some? then Exec(drawn, Some(UniqueViolation))
      else if u !in users then Exec(drawn, Some(ForeignKeyViolation))
      else Exec(drawn.(categories := categories[nextCategory := CategoryRow(u, name)]), None)
    }

    function InsertExpence(row: ExpenceRow): Exec {
      var drawn := this.(nextExpence := nextExpence + 1);
      if row.userId !in users || row.categoryId !in categories then Exec(drawn, Some(ForeignKeyViolation))
      else Exec(drawn.(expences := expences[nextExpence := row]), None)
    }

    /**
     The transaction of `ExpencesDB.AddExpence`: an expence dated strictly after the start of the month is
     charged to the limit first, and either both changes stay or neither does.
     */
    function PostExpence(row: ExpenceRow, monthStart: int): Exec {
      if row.ts > monthStart then
        if row.userId !in users then Exec(this, Some(UserNotFound))
        else
          var user := users[row.userId];
          var left := user.currentLimit - row.total;
          if left < 0 then Exec(this, Some(LimitExceeded))
          else
            var posted := InsertExpence(row);
            if posted.failure.Some? then posted
            else Exec(posted.tables.(users := users[row.userId := user.(currentLimit := left)]), None)
      else InsertExpence(row)
    }

    /** Rows the report query selects: the user's expences from the cut-off on that join a category. */
    predicate Selected(e: int, u: int, cutoff: int) {
      e in expences && expences[e].userId == u && expences[e].ts >= cutoff && expences[e].categoryId in categories
    }
  }

  const EMPTY := Tables(map[], map[], map[], map[], 1, 1)

  /** The effect of one storage operation. */
  ghost function Apply(t: Tables, s: Step): Exec {
    match s
    case AddUser(u) => t.InsertUser(u)
    case ResetUser(u) => Exec(t.DeleteUser(u), None)
    case ChangeCurrency(u, code) =>
      (match CurrencyByCode(t.currencies, code)
       case None => Exec(t, Some(NoRows))
       case Some(id) => t.UpdateBaseCurrency(u, id))
    case AddCategory(u, name) =>
      if t.FindCategory(u, name).Some? then Exec(t, Some(AlreadyExists)) else t.InsertCategory(u, name)
    case AddExpence(u, name, amount, ts, monthStart) =>
      (match t.FindCategory(u, name)
       case None => Exec(t, Some(NoRows))
       case Some(c) =>
         if u !in t.users || t.users[u].baseCurrency !in t.currencies then Exec(t, Some(NoRows))
         else
           var rate := t.currencies[t.users[u].baseCurrency].rate;
           t.PostExpence(ExpenceRow(u, c, ts, ToBase(amount, rate)), monthStart))
    case SetUserLimit(u, amount) =>
      if u !in t.users || t.users[u].baseCurrency !in t.currencies then Exec(t, None)
      else
        var limit := ToBase(amount, t.currencies[t.users[u].baseCurrency].rate);
        Exec(t.UpdateLimits(u, limit, limit), None)
    case ResetUserLimit(u) => Exec(t.RefillLimit(u), None)
    case RefillLimits => Exec(t.RefillAllLimits(), None)
    case UpdateRates(fetched) =>
      Exec(t.(currencies := RatesAfter(t.currencies, fetched)), UpdateRatesFailure(fetched))
  }

  ghost function Run(t: Tables, steps: seq<Step>): Tables {
    if steps == [] then t else Apply(Run(t, steps[..|steps| - 1]), steps[|steps| - 1]).tables
  }

  lemma UnusedPair(t: Tables, u: int, name: string)
    requires t.FindCategory(u, name).None?
    ensures forall c :: c in t.categories ==> t.categories[c] != CategoryRow(u, name)
  {
    forall c | c in t.categories ensures t.categories[c] != CategoryRow(u, name) {
      assert !t.Names(c, u, name);
    }
  }

  lemma RunPush(t: Tables, steps: seq<Step>, s: Step)
    ensures Run(t, steps + [s]) == Apply(Run(t, steps), s).tables
  {
    assert (steps + [s])[..|steps|] == steps;
  }

  /** The currency table changes by rate updates, and rate updates change nothing else. */
  lemma OnlyUpdatesChangeRates(t: Tables, s: Step)
    ensures !s.UpdateRates? ==> Apply(t, s).tables.currencies == t.currencies
    ensures s.UpdateRates? ==> forall t': Tables :: t'.currencies == t.currencies ==>
              Apply(t', s).tables == t'.(currencies := Apply(t, s).tables.currencies)
    ensures s.UpdateRates? ==> Apply(t, s).tables.currencies == RatesAfter(t.currencies, s.fetched)
  {
  }

  ghost predicate Sound(t: Tables) { t.Consistent() && t.Owned() }

  lemma InsertCategoryKeeps(t: Tables, u: int, name: string)
    requires Sound(t)
    ensures Sound(t.InsertCategory(u, name).tables)
  {
    if t.FindCategory(u, name).None? {
      UnusedPair(t, u, name);
    }
  }

  lemma DeleteUserKeeps(t: Tables, u: int)
    requires Sound(t)
    ensures Sound(t.DeleteUser(u))
  {
  }

  lemma PostExpenceKeeps(t: Tables, row: ExpenceRow, monthStart: int)
    requires Sound(t) && t.CategoryOf(row.categoryId, row.userId)
    ensures Sound(t.PostExpence(row, monthStart).tables)
  {
  }

  /** The schema's constraints and the ownership invariant survive every step. */
  lemma ApplyKeepsInvariants(t: Tables, s: Step)
    requires Sound(t)
    ensures Sound(Apply(t, s).tables)
  {
    match s
    case ResetUser(u) => DeleteUserKeeps(t, u);
    case AddCategory(u, name) => InsertCategoryKeeps(t, u, name);
    case AddExpence(u, name, amount, ts, monthStart) =>
      match t.FindCategory(u, name) {
        case None =>
        case Some(c) =>
          var total := ToBase(amount, t.currencies[t.users[u].baseCurrency].rate);
          PostExpenceKeeps(t, ExpenceRow(u, c, ts, total), monthStart);
      }
    case UpdateRates(fetched) => RatesAfterKeeps(t.currencies, fetched);
    case _ =>
  }

  /** In every reachable state each expence is filed under a category of its own user. */
  lemma {:induction false} ReachableOwned(t: Tables, steps: seq<Step>)
    requires Sound(t)
    ensures Sound(Run(t, steps))
  {
    if steps != [] {
      ReachableOwned(t, steps[..|steps| - 1]);
      ApplyKeepsInvariants(Run(t, steps[..|steps| - 1]), steps[|steps| - 1]);
    }
  }

  /** The two foreign keys alone would let one user's expence sit in another user's category. */
  lemma SchemaAllowsForeignCategory() returns (t: Tables, row: ExpenceRow)
    ensures Sound(t)
    ensures t.InsertExpence(row).failure == None
    ensures t.InsertExpence(row).tables.Consistent() && !t.InsertExpence(row).tables.Owned()
  {
    var user := UserRow(0, 0, 0);
    t := Tables(map[1 := user, 2 := user], map[1 := CategoryRow(1, "food")], map[],
                map[0 := CurrencyRow("RUB", 1.0)], 2, 1);
    row := ExpenceRow(2, 1, 0, 0);
    assert 1 in t.InsertExpence(row).tables.expences;
  }
}
