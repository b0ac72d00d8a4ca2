/** The storage operations of the bot and its background services, as one alphabet of atomic steps. */
module Steps {
  import opened Wrappers
  import opened Conversion

  datatype Currency = Currency(id: int, code: string, rate: Rate)

  datatype CurrencyRow = CurrencyRow(code: string, rate: Rate)

  type CurrencyTable = map<int, CurrencyRow>

  datatype Failure =
    | NoRows
    | AlreadyExists
    | UniqueViolation
    | ForeignKeyViolation
    | UserNotFound
    | LimitExceeded
    | EmptyInsert
    | RepeatedId

  /**
   `amount` is in hundredths of the user's currency, `ts` and `monthStart` are Unix seconds. Adding an
   expence takes the start of the current month from the clock, so it is part of the step.
   */
  datatype Step =
    | AddUser(user: int)
    | ResetUser(user: int)
    | ChangeCurrency(user: int, code: string)
    | AddCategory(user: int, name: string)
    | AddExpence(user: int, name: string, amount: int, ts: int, monthStart: int)
    | SetUserLimit(user: int, amount: int)
    | ResetUserLimit(user: int)
    | RefillLimits
    | UpdateRates(fetched: seq<Currency>)

  /** Steps of background services touch every user alike. */
  predicate IsGlobal(s: Step) { s.RefillLimits? || s.UpdateRates? }

  ghost predicate DistinctCodes(currencies: CurrencyTable) {
    forall i, j :: i in currencies && j in currencies && currencies[i].code == currencies[j].code ==> i == j
  }

  /** `SELECT id FROM currency WHERE code = ...`, some matching row if there are several. */
  ghost function CurrencyByCode(currencies: CurrencyTable, code: string): (id: Option<int>)
    ensures id.None? <==> forall i :: i in currencies ==> currencies[i].code != code
    ensures id.Some? ==> id.value in currencies && currencies[id.value].code == code
  {
    if exists i :: i in currencies && currencies[i].code == code then
      var i :| i in currencies && currencies[i].code == code;
      Some(i)
    else None
  }

  /** One row of `INSERT ... ON CONFLICT (id) DO UPDATE SET rate`: an existing row keeps its code. */
  function Upsert(currencies: CurrencyTable, c: Currency): CurrencyTable {
    currencies[c.id := CurrencyRow(if c.id in currencies then currencies[c.id].code else c.code, c.rate)]
  }

  function UpsertAll(currencies: CurrencyTable, fetched: seq<Currency>): CurrencyTable {
    if fetched == [] then currencies
    else Upsert(UpsertAll(currencies, fetched[..|fetched| - 1]), fetched[|fetched| - 1])
  }

  predicate DistinctIds(fetched: seq<Currency>) {
    forall i, j :: 0 <= i < j < |fetched| ==> fetched[i].id != fetched[j].id
  }

  /** The statement needs at least one row and refuses to touch one row twice. */
  function UpdateRatesFailure(fetched: seq<Currency>): Option<Failure> {
    if fetched == [] then Some(EmptyInsert)
    else if !DistinctIds(fetched) then Some(RepeatedId)
    else None
  }

  function RatesAfter(currencies: CurrencyTable, fetched: seq<Currency>): CurrencyTable {
    if UpdateRatesFailure(fetched).Some? then currencies else UpsertAll(currencies, fetched)
  }

  lemma {:induction false} UpsertAllKeeps(currencies: CurrencyTable, fetched: seq<Currency>)
    ensures currencies.Keys <= UpsertAll(currencies, fetched).Keys
    ensures forall id :: id in currencies ==> UpsertAll(currencies, fetched)[id].code == currencies[id].code
  {
    if fetched != [] {
      UpsertAllKeeps(currencies, fetched[..|fetched| - 1]);
    }
  }

  /** Currencies are never removed and never change their code. */
  lemma RatesAfterKeeps(currencies: CurrencyTable, fetched: seq<Currency>)
    ensures currencies.Keys <= RatesAfter(currencies, fetched).Keys
    ensures forall id :: id in currencies ==> RatesAfter(currencies, fetched)[id].code == currencies[id].code
  {
    UpsertAllKeeps(currencies, fetched);
  }

  lemma {:induction false} UpsertAllWrites(currencies: CurrencyTable, fetched: seq<Currency>)
    requires DistinctIds(fetched)
    ensures forall i :: 0 <= i < |fetched| ==>
              var c := fetched[i];
              c.id in UpsertAll(currencies, fetched) && UpsertAll(currencies, fetched)[c.id].rate == c.rate &&
              (c.id !in currencies ==> UpsertAll(currencies, fetched)[c.id].code == c.code)
    ensures forall id ::
              id in UpsertAll(currencies, fetched) && (forall i :: 0 <= i < |fetched| ==> fetched[i].id != id) ==>
              id in currencies && UpsertAll(currencies, fetched)[id] == currencies[id]
  {
    if fetched != [] {
      UpsertAllWrites(currencies, fetched[..|fetched| - 1]);
    }
  }

  /**
   An update of distinct ids writes every fetched rate, adds the missing rows, and touches no other. One that is empty
   or names an id twice fails and changes nothing.
   */
  lemma UpdateWritesEach(currencies: CurrencyTable, fetched: seq<Currency>)
    ensures var t := RatesAfter(currencies, fetched);
            if fetched == [] || (exists i, j :: 0 <= i < j < |fetched| && fetched[i].id == fetched[j].id) then
              t == currencies && UpdateRatesFailure(fetched).Some?
            else
              UpdateRatesFailure(fetched).None? &&
              (forall id :: id in t <==> id in currencies || exists i :: 0 <= i < |fetched| && fetched[i].id == id) &&
              (forall i :: 0 <= i < |fetched| ==>
                 t[fetched[i].id] ==
                 CurrencyRow(if fetched[i].id in currencies then currencies[fetched[i].id].code else fetched[i].code,
                             fetched[i].rate)) &&
              (forall id :: id in currencies && (forall i :: 0 <= i < |fetched| ==> fetched[i].id != id) ==>
                 t[id] == currencies[id])
  {
    RatesAfterKeeps(currencies, fetched);
    if DistinctIds(fetched) {
      UpsertAllWrites(currencies, fetched);
    }
  }
}
