/**
 The simple picture of the bot: one ledger per user, holding a base currency, two limits and, per category
 name, the list of expences in the order they were added. No ids, no joins, no cascades.
 */
module Ledgers {
  import opened Wrappers
  import opened Conversion
  import opened Steps
  import opened Tables

  datatype Entry = Entry(total: int, ts: int)

  datatype Ledger = Ledger(currency: int, defaultLimit: int, currentLimit: int, book: map<string, seq<Entry>>)

  datatype World = World(ledgers: map<int, Ledger>, currencies: CurrencyTable) {

    function Of(u: int): Option<Ledger> { if u in ledgers then Some(ledgers[u]) else None }

    function With(u: int, l: Ledger): World { this.(ledgers := ledgers[u := l]) }

    /** The rate of a user's base currency, if the user has a ledger. */
    function RateOf(u: int): Option<Rate> {
      if u in ledgers && ledgers[u].currency in currencies then Some(currencies[ledgers[u].currency].rate) else None
    }
  }

  datatype Outcome = Outcome(world: World, failure: Option<Failure>)

  const FRESH := Ledger(DEFAULT_CURRENCY, DEFAULT_MONTH_LIMIT, DEFAULT_MONTH_LIMIT, map[])

  /** Appends an expence, charging it to the current limit when it is dated strictly after the start of the month. */
  function Post(l: Ledger, name: string, entry: Entry, charged: bool): Ledger
    requires name in l.book
  {
    l.(currentLimit := if charged then l.currentLimit - entry.total else l.currentLimit,
       book := l.book[name := l.book[name] + [entry]])
  }

  ghost function Perform(w: World, s: Step): Outcome {
    match s
    case AddUser(u) =>
      if u in w.ledgers then Outcome(w, Some(UniqueViolation))
      else if DEFAULT_CURRENCY !in w.currencies then Outcome(w, Some(ForeignKeyViolation))
      else Outcome(w.With(u, FRESH), None)
    case ResetUser(u) => Outcome(w.(ledgers := w.ledgers - {u}), None)
    case ChangeCurrency(u, code) =>
      (match CurrencyByCode(w.currencies, code)
       case None => Outcome(w, Some(NoRows))
       case Some(id) =>
         Outcome(if u in w.ledgers then w.With(u, w.ledgers[u].(currency := id)) else w, None))
    case AddCategory(u, name) =>
      if u !in w.ledgers then Outcome(w, Some(ForeignKeyViolation))
      else if name in w.ledgers[u].book then Outcome(w, Some(AlreadyExists))
      else Outcome(w.With(u, w.ledgers[u].(book := w.ledgers[u].book[name := []])), None)
    case AddExpence(u, name, amount, ts, monthStart) =>
      if w.RateOf(u).None? || name !in w.ledgers[u].book then Outcome(w, Some(NoRows))
      else
        var total := ToBase(amount, w.RateOf(u).value);
        var charged := ts > monthStart;
        if charged && w.ledgers[u].currentLimit < total then Outcome(w, Some(LimitExceeded))
        else Outcome(w.With(u, Post(w.ledgers[u], name, Entry(total, ts), charged)), None)
    case SetUserLimit(u, amount) =>
      if w.RateOf(u).None? then Outcome(w, None)
      else
        var limit := ToBase(amount, w.RateOf(u).value);
        Outcome(w.With(u, w.ledgers[u].(defaultLimit := limit, currentLimit := limit)), None)
    case ResetUserLimit(u) =>
      Outcome(if u in w.ledgers then w.With(u, Refilled(w.ledgers[u])) else w, None)
    case RefillLimits =>
      Outcome(w.(ledgers := map u | u in w.ledgers :: Refilled(w.ledgers[u])), None)
    case UpdateRates(fetched) =>
      Outcome(w.(currencies := RatesAfter(w.currencies, fetched)), UpdateRatesFailure(fetched))
  }

  function Refilled(l: Ledger): Ledger { l.(currentLimit := l.defaultLimit) }

  ghost function Play(w: World, steps: seq<Step>): World {
    if steps == [] then w else Perform(Play(w, steps[..|steps| - 1]), steps[|steps| - 1]).world
  }
}
