/**
 The service that fetches exchange rates, and the currency table it feeds. Currencies get their ids from their
 place in the configuration; a fetch overwrites rates in place, by code; the table is updated by id.
 */
module ExchangeRates {
  import opened Wrappers
  import opened Conversion
  import opened Steps
  import opened Tables

  type Response = map<string, Rate>

  function Configured(codes: seq<string>): seq<Currency> {
    seq(|codes|, i requires 0 <= i < |codes| => Currency(i, codes[i], 1.0))
  }

  function Filled(available: seq<Currency>, rates: Response): seq<Currency> {
    seq(|available|, i requires 0 <= i < |available| =>
      if available[i].code in rates then available[i].(rate := rates[available[i].code]) else available[i])
  }

  class ExchangeFetcherService {
    const availableCurrencies: array<Currency>

    constructor (codes: seq<string>)
      ensures fresh(availableCurrencies) && availableCurrencies[..] == Configured(codes)
    {
      var currencies := Configured(codes);
      availableCurrencies := new Currency[|codes|](i requires 0 <= i < |codes| => currencies[i]);
      new;
      assert availableCurrencies[..] == Configured(codes);
    }

    method FillAvailableCurrenciesWithUpdatedRates(rates: Response)
      modifies availableCurrencies
      ensures availableCurrencies[..] == Filled(old(availableCurrencies[..]), rates)
    {
      var a := availableCurrencies;
      for i := 0 to a.Length
        invariant forall k :: 0 <= k < i ==> a[k] == Filled(old(a[..]), rates)[k]
        invariant forall k :: i <= k < a.Length ==> a[k] == old(a[k])
      {
        var c := a[i];
        if c.code in rates {
          a[i] := c.(rate := rates[c.code]);
        }
      }
    }
  }

  // ----- rounds of fetching and delivering -----

  /** The list the service holds after some rounds; a round that failed to fetch is `None`. */
  function Held(codes: seq<string>, rounds: seq<Option<Response>>): seq<Currency> {
    if rounds == [] then Configured(codes) else
      var held := Held(codes, rounds[..|rounds| - 1]);
      match rounds[|rounds| - 1]
      case None => held
      case Some(rates) => Filled(held, rates)
  }

  /** The currency table after the successful rounds were delivered. */
  function Delivered(t: CurrencyTable, codes: seq<string>, rounds: seq<Option<Response>>): CurrencyTable {
    if rounds == [] then t else
      var before := Delivered(t, codes, rounds[..|rounds| - 1]);
      if rounds[|rounds| - 1].None? then before else RatesAfter(before, Held(codes, rounds))
  }

  /** The rate fetched last for a code, or 1 if none ever was. */
  function LastFetched(rounds: seq<Option<Response>>, code: string): Rate {
    if rounds == [] then 1.0
    else
      match rounds[|rounds| - 1]
      case Some(rates) => if code in rates then rates[code] else LastFetched(rounds[..|rounds| - 1], code)
      case None => LastFetched(rounds[..|rounds| - 1], code)
  }

  predicate AnySucceeded(rounds: seq<Option<Response>>) {
    exists i :: 0 <= i < |rounds| && rounds[i].Some?
  }

  lemma {:induction false} HeldIsLast(codes: seq<string>, rounds: seq<Option<Response>>)
    ensures |Held(codes, rounds)| == |codes|
    ensures forall i :: 0 <= i < |codes| ==>
              Held(codes, rounds)[i] == Currency(i, codes[i], LastFetched(rounds, codes[i]))
  {
    if rounds != [] {
      HeldIsLast(codes, rounds[..|rounds| - 1]);
    }
  }

  lemma {:induction false} UpsertInOrder(t: CurrencyTable, held: seq<Currency>)
    requires forall i :: 0 <= i < |held| ==> held[i].id == i
    ensures forall id :: id in UpsertAll(t, held) <==> id in t || 0 <= id < |held|
    ensures forall i :: 0 <= i < |held| ==>
              UpsertAll(t, held)[i] == CurrencyRow(if i in t then t[i].code else held[i].code, held[i].rate)
    ensures forall id :: id in t && !(0 <= id < |held|) ==> UpsertAll(t, held)[id] == t[id]
  {
    if held != [] {
      UpsertInOrder(t, held[..|held| - 1]);
    }
  }

  /**
   Once any round succeeded, each configured id is in the table with the rate last fetched for its configured
   code. Rows that were there before keep their codes, and rows of other ids are not touched.
   */
  lemma {:induction false} RatesAreLatest(t: CurrencyTable, codes: seq<string>, rounds: seq<Option<Response>>)
    requires codes != []
    ensures !AnySucceeded(rounds) ==> Delivered(t, codes, rounds) == t
    ensures AnySucceeded(rounds) ==>
              (forall id :: id in Delivered(t, codes, rounds) <==> id in t || 0 <= id < |codes|) &&
              forall i :: 0 <= i < |codes| ==>
                Delivered(t, codes, rounds)[i] ==
                CurrencyRow(if i in t then t[i].code else codes[i], LastFetched(rounds, codes[i]))
    ensures forall id :: id in t && !(0 <= id < |codes|) ==>
              id in Delivered(t, codes, rounds) && Delivered(t, codes, rounds)[id] == t[id]
  {
    if rounds != [] {
      var front, last := rounds[..|rounds| - 1], rounds[|rounds| - 1];
      RatesAreLatest(t, codes, front);
      assert AnySucceeded(rounds) <==> AnySucceeded(front) || last.Some? by {
        assert forall i :: 0 <= i < |front| ==> front[i] == rounds[i];
      }
      if last.Some? {
        HeldIsLast(codes, rounds);
        UpsertInOrder(Delivered(t, codes, front), Held(codes, rounds));
      }
    }
  }

  /** Each configured row carries the rate last fetched for its own code, whatever is fetched. */
  ghost predicate RowsCarryOwnRates(t: CurrencyTable, codes: seq<string>) {
    forall rounds, i :: AnySucceeded(rounds) && 0 <= i < |codes| ==>
      var t' := Delivered(t, codes, rounds);
      i in t' && t'[i].rate == LastFetched(rounds, t'[i].code)
  }

  /** Since conflicts update the rate only, a table from an earlier configuration must agree with this one. */
  lemma OwnRatesIffSameCodes(t: CurrencyTable, codes: seq<string>)
    requires codes != []
    ensures RowsCarryOwnRates(t, codes) <==> forall i :: 0 <= i < |codes| && i in t ==> t[i].code == codes[i]
  {
    if forall i :: 0 <= i < |codes| && i in t ==> t[i].code == codes[i] {
      forall rounds, i | AnySucceeded(rounds) && 0 <= i < |codes|
        ensures var t' := Delivered(t, codes, rounds); i in t' && t'[i].rate == LastFetched(rounds, t'[i].code)
      {
        RatesAreLatest(t, codes, rounds);
      }
    } else {
      var i :| 0 <= i < |codes| && i in t && t[i].code != codes[i];
      var response: Response := map[codes[i] := 2.0];
      var rounds := [Some(response)];
      assert rounds[0].Some? && rounds[..0] == [];
      RatesAreLatest(t, codes, rounds);
      assert LastFetched(rounds, codes[i]) == 2.0 && LastFetched(rounds, t[i].code) == 1.0;
      assert Delivered(t, codes, rounds)[i].rate == 2.0;
    }
  }

  // ----- among all other steps -----

  /** What the successful rounds send through the channel. */
  function Deliveries(codes: seq<string>, rounds: seq<Option<Response>>): seq<Step> {
    if rounds == [] then [] else
      var before := Deliveries(codes, rounds[..|rounds| - 1]);
      if rounds[|rounds| - 1].Some? then before + [UpdateRates(Held(codes, rounds))] else before
  }

  function RateSteps(steps: seq<Step>): seq<Step> {
    if steps == [] then [] else
      var front, last := RateSteps(steps[..|steps| - 1]), steps[|steps| - 1];
      if last.UpdateRates? then front + [last] else front
  }

  lemma {:induction false} OtherStepsKeepRates(t: Tables, steps: seq<Step>)
    ensures Run(t, steps).currencies == Run(t, RateSteps(steps)).currencies
  {
    hide Apply, RatesAfter;
    if steps != [] {
      var front, last := steps[..|steps| - 1], steps[|steps| - 1];
      OtherStepsKeepRates(t, front);
      RunPush(t, RateSteps(front), last);
      OnlyUpdatesChangeRates(Run(t, front), last);
    }
  }

  lemma {:induction false} DeliveriesDeliver(t: Tables, codes: seq<string>, rounds: seq<Option<Response>>)
    ensures Run(t, Deliveries(codes, rounds)).currencies == Delivered(t.currencies, codes, rounds)
  {
    hide Apply, RatesAfter, Held;
    if rounds != [] {
      var front := rounds[..|rounds| - 1];
      DeliveriesDeliver(t, codes, front);
      if rounds[|rounds| - 1].Some? {
        var s := UpdateRates(Held(codes, rounds));
        RunPush(t, Deliveries(codes, front), s);
        OnlyUpdatesChangeRates(Run(t, Deliveries(codes, front)), s);
      }
    }
  }

  /** However commands and refills are mixed in, the table holds what the rounds delivered. */
  lemma RatesAmongCommands(t: Tables, steps: seq<Step>, codes: seq<string>, rounds: seq<Option<Response>>)
    requires RateSteps(steps) == Deliveries(codes, rounds)
    ensures Run(t, steps).currencies == Delivered(t.currencies, codes, rounds)
  {
    OtherStepsKeepRates(t, steps);
    DeliveriesDeliver(t, codes, rounds);
  }
}
