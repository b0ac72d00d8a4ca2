/**
 The `database` package: repositories over one shared database, whose tables they change in place. Each
 method is tied to the statement it sends, as `Tables` gives its meaning.
 */
module Database {
  import opened Wrappers
  import opened Conversion
  import opened Steps
  import opened Tables
  import opened Reports
  import opened ReportWire

  class Postgres {
    var users: map<int, UserRow>
    var categories: map<int, CategoryRow>
    var expences: map<int, ExpenceRow>
    var currencies: CurrencyTable
    var nextCategory: nat
    var nextExpence: nat

    constructor ()
      ensures State() == EMPTY
    {
      users, categories, expences, currencies := map[], map[], map[], map[];
      nextCategory, nextExpence := 1, 1;
    }

    function State(): Tables
      reads this
    {
      Tables(users, categories, expences, currencies, nextCategory, nextExpence)
    }
  }

  class UsersDB {
    const db: Postgres

    constructor (db: Postgres)
      ensures this.db == db
    {
      this.db := db;
    }

    method IsUserAdded(user: int) returns (exists_: bool)
      ensures exists_ <==> user in db.users
    {
      exists_ := user in db.users;
    }

    method AddUser(user: int) returns (failure: Option<Failure>)
      modifies db
      ensures Exec(db.State(), failure) == old(db.State()).InsertUser(user)
    {
      if user in db.users {
        return Some(UniqueViolation);
      }
      if DEFAULT_CURRENCY !in db.currencies {
        return Some(ForeignKeyViolation);
      }
      db.users := db.users[user := UserRow(DEFAULT_CURRENCY, DEFAULT_MONTH_LIMIT, DEFAULT_MONTH_LIMIT)];
      return None;
    }

    method ResetUser(user: int)
      modifies db
      ensures db.State() == old(db.State()).DeleteUser(user)
    {
      var doomed := set c | c in db.categories && db.categories[c].userId == user;
      ghost var t := db.State();
      assert forall c :: c in doomed <==> t.CategoryOf(c, user);
      db.expences := map e |
        e in db.expences && db.expences[e].userId != user && db.expences[e].categoryId !in doomed :: db.expences[e];
      db.categories := db.categories - doomed;
      db.users := db.users - {user};
      assert db.expences == t.DeleteUser(user).expences;
      assert db.categories == t.DeleteUser(user).categories;
    }

    method ChangeCurrency(user: int, currency: int) returns (failure: Option<Failure>)
      modifies db
      ensures Exec(db.State(), failure) == old(db.State()).UpdateBaseCurrency(user, currency)
    {
      if user !in db.users {
        return None;
      }
      if currency !in db.currencies {
        return Some(ForeignKeyViolation);
      }
      db.users := db.users[user := db.users[user].(baseCurrency := currency)];
      return None;
    }

    method GetUserBaseCurrency(user: int) returns (currency: Result<int, Failure>)
      ensures currency == if user in db.users then Success(db.users[user].baseCurrency) else Failure(NoRows)
    {
      if user !in db.users {
        return Result.Failure(NoRows);
      }
      return Success(db.users[user].baseCurrency);
    }

    method UpdateMonthLimits()
      modifies db
      ensures db.State() == old(db.State()).RefillAllLimits()
    {
      db.users := map u | u in db.users :: db.users[u].(currentLimit := db.users[u].defaultLimit);
    }

    method SetUserLimit(user: int, defaultLimit: int, currentLimit: int)
      modifies db
      ensures db.State() == old(db.State()).UpdateLimits(user, defaultLimit, currentLimit)
    {
      if user in db.users {
        var row := db.users[user].(defaultLimit := defaultLimit, currentLimit := currentLimit);
        db.users := db.users[user := row];
      }
    }

    method ResetUserLimit(user: int)
      modifies db
      ensures db.State() == old(db.State()).RefillLimit(user)
    {
      if user in db.users {
        db.users := db.users[user := db.users[user].(currentLimit := db.users[user].defaultLimit)];
      }
    }
  }

  class CategoriesDB {
    const db: Postgres

    constructor (db: Postgres)
      ensures this.db == db
    {
      this.db := db;
    }

    method IsCategoryExists(user: int, name: string) returns (id: Result<int, Failure>)
      requires db.State().Consistent()
      ensures id == match db.State().FindCategory(user, name)
                    case Some(c) => Success(c)
                    case None => Result.Failure(NoRows)
    {
      if c :| c in db.categories && db.categories[c] == CategoryRow(user, name) {
        assert db.State().Names(c, user, name);
        return Success(c);
      }
      assert forall c :: !db.State().Names(c, user, name);
      return Result.Failure(NoRows);
    }

    method AddCategory(user: int, name: string) returns (failure: Option<Failure>)
      modifies db
      ensures Exec(db.State(), failure) == old(db.State()).InsertCategory(user, name)
    {
      var id := db.nextCategory;
      ghost var before := db.State();
      db.nextCategory := id + 1;
      if c :| c in db.categories && db.categories[c] == CategoryRow(user, name) {
        assert before.Names(c, user, name);
        return Some(UniqueViolation);
      }
      assert forall c :: !before.Names(c, user, name);
      if user !in db.users {
        return Some(ForeignKeyViolation);
      }
      db.categories := db.categories[id := CategoryRow(user, name)];
      return None;
    }
  }

  class CurrenciesDB {
    const db: Postgres

    constructor (db: Postgres)
      ensures this.db == db
    {
      this.db := db;
    }

    /** Codes are not declared unique, so any row with the code may be the one found. */
    method IsCurrencyExists(code: string) returns (id: Result<int, Failure>)
      ensures id.Success? ==> id.value in db.currencies && db.currencies[id.value].code == code
      ensures id.Failure? ==> forall i :: i in db.currencies ==> db.currencies[i].code != code
    {
      if i :| i in db.currencies && db.currencies[i].code == code {
        return Success(i);
      }
      return Result.Failure(NoRows);
    }

    method GetCurrencyRate(id: int) returns (rate: Result<Rate, Failure>)
      ensures rate == if id in db.currencies then Success(db.currencies[id].rate) else Result.Failure(NoRows)
    {
      if id !in db.currencies {
        return Result.Failure(NoRows);
      }
      return Success(db.currencies[id].rate);
    }

    method UpdateRates(fetched: seq<Currency>) returns (failure: Option<Failure>)
      modifies db
      ensures failure == UpdateRatesFailure(fetched)
      ensures db.State() == old(db.State()).(currencies := RatesAfter(old(db.currencies), fetched))
    {
      if fetched == [] {
        return Some(EmptyInsert);
      }
      if !DistinctIds(fetched) {
        return Some(RepeatedId);
      }
      for i := 0 to |fetched|
        invariant db.State() == old(db.State()).(currencies := UpsertAll(old(db.currencies), fetched[..i]))
      {
        var v := fetched[i];
        var code := if v.id in db.currencies then db.currencies[v.id].code else v.code;
        db.currencies := db.currencies[v.id := CurrencyRow(code, v.rate)];
        assert fetched[..i + 1][..i] == fetched[..i];
      }
      assert fetched[..|fetched|] == fetched;
      return None;
    }
  }

  /** The selected rows, some already listed, each once, and the others left. */
  ghost predicate Listing(t: Tables, user: int, cutoff: int, left: set<int>, ids: seq<int>) {
    && (forall e :: t.Selected(e, user, cutoff) <==> e in left || e in ids)
    && (forall e :: e in left ==> e !in ids)
    && (forall i, j :: 0 <= i < j < |ids| ==> ids[i] != ids[j])
  }

  lemma ListingBegins(t: Tables, user: int, cutoff: int, left: set<int>)
    requires left == set e | e in t.expences && t.Selected(e, user, cutoff)
    ensures Listing(t, user, cutoff, left, []) && RowsAt(t, [], [])
  {
  }

  lemma ListingStep(t: Tables, user: int, cutoff: int, left: set<int>, ids: seq<int>, rows: seq<Row>, e: int)
    requires e in left && Listing(t, user, cutoff, left, ids) && RowsAt(t, ids, rows)
    ensures t.Selected(e, user, cutoff)
    ensures Listing(t, user, cutoff, left - {e}, ids + [e]) && RowsAt(t, ids + [e], rows + [RowAt(t, e)])
  {
  }

  lemma ListingEnds(t: Tables, user: int, cutoff: int, left: set<int>, ids: seq<int>)
    requires t.Consistent() && Listing(t, user, cutoff, left, ids) && !exists e :: e in left
    ensures Enumerates(t, user, cutoff, t.nextExpence, ids)
  {
  }

  class ExpencesDB {
    const db: Postgres

    constructor (db: Postgres)
      ensures this.db == db
    {
      this.db := db;
    }

    /** The transaction: the limit is debited in place first, and put back when anything after it fails. */
    method AddExpence(row: ExpenceRow, monthStart: int) returns (failure: Option<Failure>)
      modifies db
      ensures Exec(db.State(), failure) == old(db.State()).PostExpence(row, monthStart)
    {
      var saved := db.users;
      if row.ts > monthStart {
        if row.userId !in db.users {
          return Some(UserNotFound);
        }
        var left := db.users[row.userId].currentLimit - row.total;
        db.users := db.users[row.userId := db.users[row.userId].(currentLimit := left)];
        if left < 0 {
          db.users := saved;
          return Some(LimitExceeded);
        }
      }
      var id := db.nextExpence;
      db.nextExpence := id + 1;
      if row.userId !in db.users || row.categoryId !in db.categories {
        db.users := saved;
        return Some(ForeignKeyViolation);
      }
      db.expences := db.expences[id := row];
      return None;
    }

    /** The report query. Rows come in no particular order and are appended one by one. */
    method GetUserExpences(user: int, cutoff: int) returns (expences: seq<Expence>)
      requires db.State().Consistent()
      ensures exists rows :: IsAnswer(db.State(), user, cutoff, rows) && expences == ScannedAll(rows)
    {
      hide Listing, RowsAt, Enumerates;
      var t := db.State();
      var left := set e | e in db.expences && t.Selected(e, user, cutoff);
      ghost var rows: seq<Row>, ids: seq<int> := [], [];
      ListingBegins(t, user, cutoff, left);
      expences := [];
      while exists e :: e in left
        invariant db.State() == t
        invariant Listing(t, user, cutoff, left, ids)
        invariant RowsAt(t, ids, rows)
        invariant expences == ScannedAll(rows)
        decreases left
      {
        var e :| e in left;
        ListingStep(t, user, cutoff, left, ids, rows, e);
        left := left - {e};
        var expence := Expence(0, 0, 0, db.categories[db.expences[e].categoryId].name, ZERO_TIME, db.expences[e].total);
        expences := expences + [expence];
        ids, rows := ids + [e], rows + [RowAt(t, e)];
      }
      ListingEnds(t, user, cutoff, left, ids);
      assert IsAnswer(t, user, cutoff, rows);
    }
  }
}
