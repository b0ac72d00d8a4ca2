/**
 `Storage`: the operations behind the commands. Each method updates the database and the cache in place, and
 is tied to one step of the machine made of both. A report goes through consumer and server here as one
 sequence of calls, which is what `Pipeline.RepliesMatch` licenses.
 */
module Storage {
  import opened Wrappers
  import opened Decimal
  import opened Conversion
  import opened Steps
  import opened Tables
  import opened Refinement
  import opened Reports
  import opened ReportCache
  import opened ReportWire
  import opened Pipeline
  import opened Database
  import opened RedisCache
  import opened ReportService

  class Storage {
    const db: Postgres
    const rdb: Redis
    const usersDB: UsersDB
    const categoriesDB: CategoriesDB
    const currenciesDB: CurrenciesDB
    const expencesDB: ExpencesDB
    const reportCDB: ReportCacheDb
    const consumer: Consumer
    const server: GrpcReportServer

    constructor (db: Postgres, rdb: Redis)
      ensures this.db == db && this.rdb == rdb && Wired()
    {
      this.db, this.rdb := db, rdb;
      usersDB := new UsersDB(db);
      categoriesDB := new CategoriesDB(db);
      currenciesDB := new CurrenciesDB(db);
      var expences := new ExpencesDB(db);
      expencesDB := expences;
      reportCDB := new ReportCacheDb(rdb);
      consumer := new Consumer(expences);
      server := new GrpcReportServer();
    }

    /** All repositories work on the same database and the same cache. */
    predicate Wired() {
      usersDB.db == db && categoriesDB.db == db && currenciesDB.db == db && expencesDB.db == db &&
      consumer.expencesDB == expencesDB && reportCDB.rdb == rdb
    }

    ghost function State(): Machine
      reads db, rdb
    {
      Machine(db.State(), rdb.hashes)
    }

    ghost predicate Valid()
      reads db, rdb
    {
      Wired() && Sound(db.State())
    }

    method IsUserAdded(user: int) returns (found: bool)
      requires Valid()
      ensures found <==> user in db.users
    {
      found := usersDB.IsUserAdded(user);
    }

    method AddUser(user: int) returns (ok: bool)
      requires Valid()
      modifies db
      ensures Valid() && State() == Next(old(State()), Operate(Step.AddUser(user)))
      ensures ok <==> Apply(old(db.State()), Step.AddUser(user)).failure.None?
    {
      ApplyKeepsInvariants(db.State(), Step.AddUser(user));
      var failure := usersDB.AddUser(user);
      ok := failure.None?;
    }

    method ResetUser(user: int)
      requires Valid()
      modifies db
      ensures Valid() && State() == Next(old(State()), Operate(Step.ResetUser(user)))
    {
      ApplyKeepsInvariants(db.State(), Step.ResetUser(user));
      usersDB.ResetUser(user);
    }

    /** With distinct codes this is the one step; otherwise some currency of that code was taken. */
    method ChangeCurrency(user: int, code: string) returns (ok: bool)
      requires Valid()
      modifies db, rdb
      ensures Valid()
      ensures ok <==> CurrencyByCode(old(db.currencies), code).Some?
      ensures !ok ==> State() == old(State())
      ensures ok ==> exists id :: (
          id in old(db.currencies) && old(db.currencies)[id].code == code &&
          State() == Machine(old(db.State()).UpdateBaseCurrency(user, id).tables, DeleteReports(old(rdb.hashes), user)))
      ensures DistinctCodes(old(db.currencies)) ==>
                State() == Next(old(State()), Operate(Step.ChangeCurrency(user, code)))
    {
      var id := currenciesDB.IsCurrencyExists(code);
      if id.Failure? {
        return false;
      }
      ghost var t := db.State();
      var failure := usersDB.ChangeCurrency(user, id.value);
      assert failure.None?;
      reportCDB.DeleteUserReports(user);
      return true;
    }

    method IsCategoryExists(user: int, name: string) returns (found: bool)
      requires Valid()
      ensures found <==> db.State().FindCategory(user, name).Some?
    {
      var id := categoriesDB.IsCategoryExists(user, name);
      found := id.Success?;
    }

    method AddCategory(user: int, name: string) returns (ok: bool)
      requires Valid()
      modifies db
      ensures Valid() && State() == Next(old(State()), Operate(Step.AddCategory(user, name)))
      ensures ok <==> Apply(old(db.State()), Step.AddCategory(user, name)).failure.None?
    {
      ApplyKeepsInvariants(db.State(), Step.AddCategory(user, name));
      var found := IsCategoryExists(user, name);
      if found {
        return false;
      }
      var failure := categoriesDB.AddCategory(user, name);
      ok := failure.None?;
    }

    method AddExpence(user: int, name: string, total: int, date: int, monthStart: int)
      returns (failure: Option<Failure>)
      requires Valid()
      modifies db, rdb
      ensures Valid() && State() == Next(old(State()), Operate(Step.AddExpence(user, name, total, date, monthStart)))
      ensures failure == Apply(old(db.State()), Step.AddExpence(user, name, total, date, monthStart)).failure
    {
      hide ToBase;
      ApplyKeepsInvariants(db.State(), Step.AddExpence(user, name, total, date, monthStart));
      var category := categoriesDB.IsCategoryExists(user, name);
      if category.Failure? {
        return Some(NoRows);
      }
      var currency := usersDB.GetUserBaseCurrency(user);
      if currency.Failure? {
        return Some(NoRows);
      }
      var rate := currenciesDB.GetCurrencyRate(currency.value);
      if rate.Failure? {
        return Some(NoRows);
      }
      var row := ExpenceRow(user, category.value, date, ToBase(total, rate.value));
      failure := expencesDB.AddExpence(row, monthStart);
      if failure.Some? {
        return;
      }
      reportCDB.DeleteUserReports(user);
    }

    /** The round trip of a request: encode, query, build the report, send it, rebuild the list. */
    method RequestExpences(user: int, cutoff: int) returns (expences: seq<Expence>)
      requires Valid()
      ensures RepliesTo(db.State(), ReportRequest(user, cutoff), expences)
    {
      var request := ReportRequest(user, cutoff);
      RequestRoundTrip(request);
      var report := consumer.ProcessMessage(EncodeRequest(request));
      ghost var es :| RepliesTo(db.State(), request, es) && report.value == ToWire(es);
      AnswersTravel(db.State(), request, es);
      expences := server.SendReport(report.value);
    }

    /** The loop over the received list: running sums, and their texts for the cache. */
    method SumUp(expences: seq<Expence>, rate: Rate) returns (totals: Report, texts: Hash)
      ensures totals == FoldRows(RowsOf(expences), rate)
      ensures texts == Encode(totals)
    {
      hide FromBase, FormatInt;
      totals, texts := map[], map[];
      ghost var rows := RowsOf(expences);
      for i := 0 to |expences|
        invariant totals == FoldRows(rows[..i], rate)
        invariant texts == Encode(totals)
      {
        var val := expences[i];
        var sum := (if val.categoryName in totals then totals[val.categoryName] else 0) + FromBase(val.total, rate);
        totals := totals[val.categoryName := sum];
        texts := texts[val.categoryName := FormatInt(sum)];
        assert rows[..i + 1] == rows[..i] + [Row(val.categoryName, val.total)];
      }
      assert rows[..|expences|] == rows;
    }

    /** `None` stands for the nil map that a missing user gets. */
    method GetExpencesMap(user: int, cutoff: int) returns (rv: Option<Report>)
      requires Valid()
      modifies rdb
      ensures Valid() && State() == Next(old(State()), GetReport(user, cutoff))
      ensures rv == Answer(old(State()), user, cutoff)
    {
      hide FromBase, FoldRows, Encode, ReportOf, BookOf;
      rv := reportCDB.GetUserExpences(user, cutoff);
      if rv.Some? {
        return;
      }
      var currency := usersDB.GetUserBaseCurrency(user);
      if currency.Failure? {
        return None;
      }
      var rate := currenciesDB.GetCurrencyRate(currency.value);
      if rate.Failure? {
        return None;
      }
      var expences := RequestExpences(user, cutoff);
      var totals, texts := SumUp(expences, rate.value);
      ReplyFoldsToReport(db.State(), ReportRequest(user, cutoff), expences, rate.value);
      var stored := reportCDB.SetUserExpences(user, texts, cutoff);
      return Some(totals);
    }

    /** A missing user or rate is logged and reported as success. */
    method SetUserLimit(user: int, total: int)
      requires Valid()
      modifies db
      ensures Valid() && State() == Next(old(State()), Operate(Step.SetUserLimit(user, total)))
    {
      hide ToBase;
      ApplyKeepsInvariants(db.State(), Step.SetUserLimit(user, total));
      var currency := usersDB.GetUserBaseCurrency(user);
      if currency.Failure? {
        return;
      }
      var rate := currenciesDB.GetCurrencyRate(currency.value);
      if rate.Failure? {
        return;
      }
      var limit := ToBase(total, rate.value);
      usersDB.SetUserLimit(user, limit, limit);
    }

    method ResetUserLimit(user: int)
      requires Valid()
      modifies db
      ensures Valid() && State() == Next(old(State()), Operate(Step.ResetUserLimit(user)))
    {
      ApplyKeepsInvariants(db.State(), Step.ResetUserLimit(user));
      usersDB.ResetUserLimit(user);
    }

    /** One turn of the loop that waits for exchange rates. */
    method OnExchangeRates(fetched: seq<Currency>) returns (failure: Option<Failure>)
      requires Valid()
      modifies db
      ensures Valid() && State() == Next(old(State()), Operate(UpdateRates(fetched)))
      ensures failure == UpdateRatesFailure(fetched)
    {
      ApplyKeepsInvariants(db.State(), UpdateRates(fetched));
      failure := currenciesDB.UpdateRates(fetched);
    }

    /** One turn of the loop that waits for the start of a month. */
    method OnNewMonth()
      requires Valid()
      modifies db
      ensures Valid() && State() == Next(old(State()), Operate(RefillLimits))
    {
      ApplyKeepsInvariants(db.State(), RefillLimits);
      usersDB.UpdateMonthLimits();
    }
  }
}
