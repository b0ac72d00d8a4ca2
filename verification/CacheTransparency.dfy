/**
 When the cached program is the cacheless program: exactly for cut-offs none of which ends in another, as long
 as nobody with a live entry is reset or sees their rate change. And what happens otherwise.
 */
module CacheTransparency {
  import opened Wrappers
  import opened Decimal
  import opened Conversion
  import opened Steps
  import opened Tables
  import opened Ledgers
  import opened Refinement
  import opened Reports
  import opened ReportKey
  import opened ReportCache
  import opened Journals

  /**
   The two steps that do not invalidate: a reset must find no live entry of the user, and an update must not
   change the rate of a user who has one. The rates of everyone else may change.
   */
  ghost predicate Steady(m: Machine, e: Event, cutoffs: iset<int>) {
    e.Operate? ==>
      (e.step.ResetUser? ==> forall c :: c in cutoffs ==> Key(e.step.user, c) !in m.cache) &&
      (e.step.UpdateRates? ==> forall u, c :: u >= 1 && c in cutoffs && Key(u, c) in m.cache ==>
         RateOf(Apply(m.t, e.step).tables, u) == RateOf(m.t, u))
  }

  ghost predicate SteadyRun(m: Machine, es: seq<Event>, cutoffs: iset<int>) {
    es == [] ||
    (SteadyRun(m, es[..|es| - 1], cutoffs) && Steady(After(m, es[..|es| - 1]), es[|es| - 1], cutoffs))
  }

  /** Every entry is accounted for, and was filled at its user's present rate. */
  ghost predicate Clean(m: Machine, f: Fills, cutoffs: iset<int>) {
    && Tracked(m, f, cutoffs)
    && m.cache.Keys == f.Keys
    && forall k :: k in f ==> RateOf(m.t, f[k].user) == Some(f[k].rate)
  }

  lemma RateFrame(t: Tables, s: Step, u: int)
    requires Sound(t) && u in t.users && s != ResetUser(u)
    requires !(s.ChangeCurrency? && s.user == u && Apply(t, s).failure.None?)
    requires !s.UpdateRates?
    ensures RateOf(Apply(t, s).tables, u) == RateOf(t, u)
  {
    hide ToBase, BookOf;
    StepRefines(t, s);
    assert Abstract(t).ledgers[u] == LedgerOf(t, u);
  }

  lemma StorageKeepsClean(m: Machine, f: Fills, s: Step, cutoffs: iset<int>)
    requires Clean(m, f, cutoffs) && Steady(m, Operate(s), cutoffs)
    ensures Clean(Next(m, Operate(s)), NextFills(f, m, Operate(s)), cutoffs)
  {
    hide Apply, BookOf, ReportOf, Encode, Decode, RateOf, FormatInt;
    var m', f' := Next(m, Operate(s)), NextFills(f, m, Operate(s));
    StorageKeepsTracked(m, f, s, cutoffs);
    forall k | k in f' ensures RateOf(m'.t, f'[k].user) == Some(f'[k].rate) {
      OwnKeyHasPrefix(f[k].user, f[k].cutoff);
      assert Key(f[k].user, f[k].cutoff) in m.cache;
      if !s.UpdateRates? {
        RateFrame(m.t, s, f[k].user);
      }
    }
    assert m'.cache.Keys == f'.Keys;
  }

  lemma FillKeepsClean(m: Machine, f: Fills, u: int, cutoff: int, cutoffs: iset<int>)
    requires Clean(m, f, cutoffs) && u >= 1 && cutoff in cutoffs
    ensures Clean(Next(m, GetReport(u, cutoff)), NextFills(f, m, GetReport(u, cutoff)), cutoffs)
  {
    hide BookOf, ReportOf, FormatInt, RateOf, Tracked;
    FillKeepsTracked(m, f, u, cutoff, cutoffs);
    if Recomputed(m.t, u, cutoff).Some? {
      var report := Recomputed(m.t, u, cutoff).value;
      assert Encode(report).Keys == report.Keys;
    }
  }

  lemma {:induction false} SteadyRunClean(m: Machine, es: seq<Event>, cutoffs: iset<int>)
    requires Sound(m.t) && m.cache == map[] && UsesCutoffs(es, cutoffs) && SteadyRun(m, es, cutoffs)
    ensures Clean(After(m, es), FillsAfter(m, es), cutoffs)
  {
    hide Tracked, Next, NextFills, Steady;
    if es == [] {
      NothingTracked(m, cutoffs);
    } else {
      var front, last := es[..|es| - 1], es[|es| - 1];
      SteadyRunClean(m, front, cutoffs);
      match last
      case Operate(s) => StorageKeepsClean(After(m, front), FillsAfter(m, front), s, cutoffs);
      case GetReport(u, cutoff) => FillKeepsClean(After(m, front), FillsAfter(m, front), u, cutoff, cutoffs);
      case Expire(key) => ExpiryKeepsClean(After(m, front), FillsAfter(m, front), key, cutoffs);
    }
  }

  lemma ExpiryKeepsClean(m: Machine, f: Fills, key: string, cutoffs: iset<int>)
    requires Clean(m, f, cutoffs)
    ensures Clean(Next(m, Expire(key)), NextFills(f, m, Expire(key)), cutoffs)
  {
    hide Tracked;
    ExpiryKeepsTracked(m, f, key, cutoffs);
  }

  lemma CleanAnswer(m: Machine, f: Fills, u: int, cutoff: int, cutoffs: iset<int>)
    requires Clean(m, f, cutoffs) && SuffixFree(cutoffs) && u >= 1 && cutoff in cutoffs
    ensures Answer(m, u, cutoff) == Recomputed(m.t, u, cutoff)
  {
    hide BookOf, ReportOf, FormatInt, RateOf;
    var key := Key(u, cutoff);
    if key in m.cache {
      SuffixFreeSeparates(cutoffs, u, cutoff, f[key].user, f[key].cutoff);
      DecodeEncode(ReportOf(BookOf(m.t, u), cutoff, f[key].rate));
    }
  }

  lemma {:induction false} SteadyAnswers(m: Machine, es: seq<Event>, cutoffs: iset<int>)
    requires Sound(m.t) && m.cache == map[] && UsesCutoffs(es, cutoffs) && SteadyRun(m, es, cutoffs)
    requires SuffixFree(cutoffs)
    ensures Answers(m, es) == CachelessAnswers(m, es)
  {
    if es != [] {
      var front, last := es[..|es| - 1], es[|es| - 1];
      SteadyAnswers(m, front, cutoffs);
      SteadyRunClean(m, front, cutoffs);
      if last.GetReport? {
        CleanAnswer(After(m, front), FillsAfter(m, front), last.user, last.cutoff, cutoffs);
      }
    }
  }

  // ----- runs that are steady for one user -----

  ghost predicate HasEntry(m: Machine, u: int, cutoffs: iset<int>) { exists c :: c in cutoffs && Key(u, c) in m.cache }

  /** While the user has a live entry, the user is not reset and keeps their rate. */
  ghost predicate SteadyForNext(m: Machine, e: Event, u: int, cutoffs: iset<int>) {
    HasEntry(m, u, cutoffs) && e.Operate? ==>
      e.step != ResetUser(u) &&
      (e.step.UpdateRates? ==> RateOf(Apply(m.t, e.step).tables, u) == RateOf(m.t, u))
  }

  ghost predicate SteadyFor(m: Machine, es: seq<Event>, u: int, cutoffs: iset<int>) {
    es == [] ||
    (SteadyFor(m, es[..|es| - 1], u, cutoffs) && SteadyForNext(After(m, es[..|es| - 1]), es[|es| - 1], u, cutoffs))
  }

  /** The user's entries are accounted for, and were filled at the user's present rate. */
  ghost predicate OwnEntriesFresh(m: Machine, f: Fills, u: int, cutoffs: iset<int>) {
    forall c :: c in cutoffs && Key(u, c) in m.cache ==>
      Key(u, c) in f && f[Key(u, c)].user == u && f[Key(u, c)].cutoff == c &&
      RateOf(m.t, u) == Some(f[Key(u, c)].rate)
  }

  lemma OperateKeepsFresh(m: Machine, f: Fills, s: Step, u: int, cutoffs: iset<int>)
    requires Tracked(m, f, cutoffs) && OwnEntriesFresh(m, f, u, cutoffs)
    requires SteadyForNext(m, Operate(s), u, cutoffs)
    ensures OwnEntriesFresh(Next(m, Operate(s)), NextFills(f, m, Operate(s)), u, cutoffs)
  {
    hide Apply, BookOf, ReportOf, Encode, Decode, RateOf, FormatInt;
    var m', f' := Next(m, Operate(s)), NextFills(f, m, Operate(s));
    forall c | c in cutoffs && Key(u, c) in m'.cache
      ensures Key(u, c) in f' && f'[Key(u, c)] == f[Key(u, c)] && RateOf(m'.t, u) == RateOf(m.t, u)
    {
      assert Key(u, c) in m.cache;
      OwnKeyHasPrefix(u, c);
      if !s.UpdateRates? {
        RateFrame(m.t, s, u);
      }
    }
  }

  lemma ReportKeepsFresh(m: Machine, f: Fills, v: int, cutoff: int, u: int, cutoffs: iset<int>)
    requires Tracked(m, f, cutoffs) && OwnEntriesFresh(m, f, u, cutoffs) && SuffixFree(cutoffs)
    requires u >= 1 && v >= 1 && cutoff in cutoffs
    ensures OwnEntriesFresh(Next(m, GetReport(v, cutoff)), NextFills(f, m, GetReport(v, cutoff)), u, cutoffs)
  {
    hide BookOf, ReportOf, FormatInt, RateOf, Encode, Decode, Tracked, SuffixFree;
    var m', f' := Next(m, GetReport(v, cutoff)), NextFills(f, m, GetReport(v, cutoff));
    forall c | c in cutoffs && Key(u, c) in m'.cache
      ensures Key(u, c) in f' && f'[Key(u, c)].user == u && f'[Key(u, c)].cutoff == c
      ensures RateOf(m'.t, u) == Some(f'[Key(u, c)].rate)
    {
      if Key(u, c) == Key(v, cutoff) {
        SuffixFreeSeparates(cutoffs, u, c, v, cutoff);
        OwnReport(m, f, u, cutoff, cutoffs);
      }
    }
  }

  /** A report of the user's own fills the key at the present rate, or finds it and leaves it. */
  lemma OwnReport(m: Machine, f: Fills, u: int, cutoff: int, cutoffs: iset<int>)
    requires Tracked(m, f, cutoffs) && Key(u, cutoff) in Next(m, GetReport(u, cutoff)).cache
    ensures var f' := NextFills(f, m, GetReport(u, cutoff));
            if Key(u, cutoff) in m.cache then f' == f
            else RateOf(m.t, u).Some? && f' == f[Key(u, cutoff) := Fill(u, cutoff, RateOf(m.t, u).value)]
  {
    hide BookOf, ReportOf, FormatInt, RateOf, Decode;
    if Key(u, cutoff) in m.cache {
      DecodedKeys(m.cache, u, cutoff);
    }
  }

  lemma {:induction false} RunFresh(m: Machine, es: seq<Event>, u: int, cutoffs: iset<int>)
    requires Sound(m.t) && m.cache == map[] && UsesCutoffs(es, cutoffs) && SuffixFree(cutoffs) && u >= 1
    requires SteadyFor(m, es, u, cutoffs)
    ensures OwnEntriesFresh(After(m, es), FillsAfter(m, es), u, cutoffs)
  {
    hide Tracked, Next, NextFills, SteadyForNext, SuffixFree;
    if es != [] {
      var front, last := es[..|es| - 1], es[|es| - 1];
      RunFresh(m, front, u, cutoffs);
      RunTracked(m, front, cutoffs);
      match last
      case Operate(s) => OperateKeepsFresh(After(m, front), FillsAfter(m, front), s, u, cutoffs);
      case GetReport(v, cutoff) => ReportKeepsFresh(After(m, front), FillsAfter(m, front), v, cutoff, u, cutoffs);
      case Expire(key) => ExpiryKeepsFresh(After(m, front), FillsAfter(m, front), key, u, cutoffs);
    }
  }

  lemma ExpiryKeepsFresh(m: Machine, f: Fills, key: string, u: int, cutoffs: iset<int>)
    requires OwnEntriesFresh(m, f, u, cutoffs)
    ensures OwnEntriesFresh(Next(m, Expire(key)), NextFills(f, m, Expire(key)), u, cutoffs)
  {
    hide RateOf, FormatInt;
  }

  lemma FreshAnswer(m: Machine, f: Fills, u: int, cutoff: int, cutoffs: iset<int>)
    requires Tracked(m, f, cutoffs) && OwnEntriesFresh(m, f, u, cutoffs) && cutoff in cutoffs
    ensures Answer(m, u, cutoff) == Recomputed(m.t, u, cutoff)
  {
    hide BookOf, ReportOf, FormatInt, RateOf;
    var key := Key(u, cutoff);
    if key in m.cache {
      DecodeEncode(ReportOf(BookOf(m.t, u), cutoff, f[key].rate));
    }
  }

  /** With these cut-offs no steady run can tell the cached program from the cacheless one. */
  ghost predicate Transparent(cutoffs: iset<int>) {
    forall t, es :: Sound(t) && UsesCutoffs(es, cutoffs) && SteadyRun(Machine(t, map[]), es, cutoffs) ==>
      Answers(Machine(t, map[]), es) == CachelessAnswers(Machine(t, map[]), es)
  }

  /** The cache is transparent on all steady runs if and only if no cut-off in use ends in another. */
  lemma TransparentIffSuffixFree(cutoffs: iset<int>)
    ensures Transparent(cutoffs) <==> SuffixFree(cutoffs)
  {
    if SuffixFree(cutoffs) {
      forall t, es | Sound(t) && UsesCutoffs(es, cutoffs) && SteadyRun(Machine(t, map[]), es, cutoffs)
        ensures Answers(Machine(t, map[]), es) == CachelessAnswers(Machine(t, map[]), es)
      {
        SteadyAnswers(Machine(t, map[]), es, cutoffs);
      }
    } else {
      var c, c' :| c in cutoffs && c' in cutoffs && Clash(c, c');
      var t, es := ClashServesWrongReport(c, c');
      assert UsesCutoffs(es, cutoffs);
    }
  }

  // ----- small concrete states -----

  /** Two users; `u` has one category and one expence in it, dated `ts`. */
  function Seeded(u: int, v: int, total: int, ts: int, rate: Rate): Tables {
    var row := UserRow(DEFAULT_CURRENCY, DEFAULT_MONTH_LIMIT, DEFAULT_MONTH_LIMIT);
    Tables(map[u := row, v := row], map[1 := CategoryRow(u, "food")], map[1 := ExpenceRow(u, 1, ts, total)],
           map[DEFAULT_CURRENCY := CurrencyRow("RUB", rate)], 2, 2)
  }

  lemma SeededBooks(u: int, v: int, total: int, ts: int, rate: Rate)
    ensures var t := Seeded(u, v, total, ts, rate);
            Sound(t) && BookOf(t, u) == map["food" := [Entry(total, ts)]] && (v != u ==> BookOf(t, v) == map[]) &&
            RateOf(t, u) == RateOf(t, v) == Some(rate)
  {
    var t := Seeded(u, v, total, ts, rate);
    assert t.categories[1] == CategoryRow(u, "food");
    assert CategoryNames(t, u) == {"food"};
    assert EntriesBelow(t, u, "food", 2) == EntriesBelow(t, u, "food", 1) + [Entry(total, ts)];
    assert EntriesBelow(t, u, "food", 1) == EntriesBelow(t, u, "food", 0) == [];
    assert BookOf(t, u).Keys == {"food"} && BookOf(t, u)["food"] == [Entry(total, ts)];
    assert v != u ==> CategoryNames(t, v) == {};
  }

  function SeedingSteps(u: int, v: int, total: int, ts: int, rate: Rate): seq<Step> {
    [UpdateRates([Currency(DEFAULT_CURRENCY, "RUB", 1.0)]), AddUser(u), AddUser(v), AddCategory(u, "food"),
     AddExpence(u, "food", total, ts, ts), UpdateRates([Currency(DEFAULT_CURRENCY, "RUB", rate)])]
  }

  /** These states come about from the empty tables by commands and updates of rates. */
  lemma SeededIsReachable(u: int, v: int, total: int, ts: int, rate: Rate)
    ensures Run(EMPTY, SeedingSteps(u, v, total, ts, rate)) == Seeded(u, v, total, ts, rate)
  {
    hide Apply;
    var s := SeedingSteps(u, v, total, ts, rate);
    var t1 := EMPTY.(currencies := map[DEFAULT_CURRENCY := CurrencyRow("RUB", 1.0)]);
    UpdateOne(EMPTY, Currency(DEFAULT_CURRENCY, "RUB", 1.0));
    var row := UserRow(DEFAULT_CURRENCY, DEFAULT_MONTH_LIMIT, DEFAULT_MONTH_LIMIT);
    var t3 := t1.(users := map[u := row, v := row]);
    TwoUsers(t1, u, v);
    var t4 := t3.(categories := map[1 := CategoryRow(u, "food")], nextCategory := 2);
    FirstCategory(t3, u, "food");
    var t5 := t4.(expences := map[1 := ExpenceRow(u, 1, ts, total)], nextExpence := 2);
    FirstExpence(t4, u, total, ts);
    UpdateOne(t5, Currency(DEFAULT_CURRENCY, "RUB", rate));
    var t2 := Apply(t1, AddUser(u)).tables;
    assert Run(EMPTY, s[..0]) == EMPTY;
    RunStep(EMPTY, s, 0);
    RunStep(EMPTY, s, 1);
    RunStep(EMPTY, s, 2);
    RunStep(EMPTY, s, 3);
    RunStep(EMPTY, s, 4);
    RunStep(EMPTY, s, 5);
    assert s[..6] == s;
  }

  lemma RunStep(t: Tables, s: seq<Step>, i: nat)
    requires i < |s|
    ensures Run(t, s[..i + 1]) == Apply(Run(t, s[..i]), s[i]).tables
  {
    assert s[..i + 1] == s[..i] + [s[i]];
    RunPush(t, s[..i], s[i]);
  }

  lemma UpdateOne(t: Tables, c: Currency)
    ensures Apply(t, UpdateRates([c])).tables == t.(currencies := Upsert(t.currencies, c))
  {
    UpsertOne(t.currencies, c);
  }

  lemma TwoUsers(t: Tables, u: int, v: int)
    requires t.users == map[] && DEFAULT_CURRENCY in t.currencies
    ensures var row := UserRow(DEFAULT_CURRENCY, DEFAULT_MONTH_LIMIT, DEFAULT_MONTH_LIMIT);
            Apply(Apply(t, AddUser(u)).tables, AddUser(v)).tables == t.(users := map[u := row, v := row])
  {
  }

  lemma FirstCategory(t: Tables, u: int, name: string)
    requires u in t.users && t.categories == map[] && t.nextCategory == 1
    ensures Apply(t, AddCategory(u, name)).tables ==
            t.(categories := map[1 := CategoryRow(u, name)], nextCategory := 2)
  {
    assert forall c :: !t.Names(c, u, name);
  }

  lemma FirstExpence(t: Tables, u: int, total: int, ts: int)
    requires t.categories == map[1 := CategoryRow(u, "food")] && t.expences == map[] && t.nextExpence == 1
    requires u in t.users && t.users[u].baseCurrency == DEFAULT_CURRENCY
    requires t.currencies == map[DEFAULT_CURRENCY := CurrencyRow("RUB", 1.0)]
    ensures Apply(t, AddExpence(u, "food", total, ts, ts)).tables ==
            t.(expences := map[1 := ExpenceRow(u, 1, ts, total)], nextExpence := 2)
  {
    assert t.Names(1, u, "food");
    assert t.FindCategory(u, "food") == Some(1);
    assert ToBase(total, 1.0) == total;
  }

  lemma SeededReport(total: int, ts: int, rate: Rate)
    ensures ReportOf(map["food" := [Entry(total, ts)]], ts, rate) == map["food" := FromBase(total, rate)]
    ensures ReportOf(map[], ts, rate) == map[]
  {
    hide FromBase;
    var entries := [Entry(total, ts)];
    assert entries[..0] == [];
    assert Since(entries, ts) == entries;
    assert Worth(entries, rate) == Worth([], rate) + FromBase(total, rate);
  }

  /** A first report event on an empty cache answers from the tables and leaves exactly its own entry. */
  lemma FirstReport(t: Tables, u: int, cutoff: int, report: Report)
    requires Recomputed(t, u, cutoff) == Some(report) && report != map[]
    ensures var m, e := Machine(t, map[]), GetReport(u, cutoff);
            After(m, [e]) == Machine(t, map[Key(u, cutoff) := Encode(report)]) &&
            Answers(m, [e]) == CachelessAnswers(m, [e]) == [Some(report)] &&
            (forall cutoffs :: SteadyRun(m, [e], cutoffs)) && After(m, [e]).cache[Key(u, cutoff)] != map[]
  {
    hide Recomputed, FormatInt;
    var m, e := Machine(t, map[]), GetReport(u, cutoff);
    assert [e][..0] == [] && After(m, []) == m;
    assert Encode(report).Keys == report.Keys;
    assert map[] + Encode(report) == Encode(report);
    assert Answers(m, []) == [] && CachelessAnswers(m, []) == [];
  }

  /**
   With clashing cut-offs, one user's report is served to another, who has no expences at all, on tables that
   commands lead to.
   */
  lemma ClashServesWrongReport(c: int, c': int) returns (t: Tables, es: seq<Event>)
    requires Clash(c, c')
    ensures exists steps :: Run(EMPTY, steps) == t && AllNonNegative(steps)
    ensures Sound(t) && forall cutoffs :: SteadyRun(Machine(t, map[]), es, cutoffs)
    ensures forall i :: 0 <= i < |es| ==> es[i].GetReport? && es[i].user >= 1 && es[i].cutoff in {c, c'}
    ensures Answers(Machine(t, map[]), es) != CachelessAnswers(Machine(t, map[]), es)
  {
    hide FormatInt, BookOf, ReportOf, Key;
    var u, v := ClashCollides(c, c');
    t := Seeded(u, v, 1, c, 1.0);
    es := [GetReport(u, c), GetReport(v, c')];
    var m, first, report := Machine(t, map[]), [es[0]], map["food" := FromBase(1, 1.0)];
    SeededBooks(u, v, 1, c, 1.0);
    SeededIsReachable(u, v, 1, c, 1.0);
    assert AllNonNegative(SeedingSteps(u, v, 1, c, 1.0));
    SeededReport(1, c, 1.0);
    assert "food" in report;
    FirstReport(t, u, c, report);
    assert es[..1] == first;
    SeededReport(1, c', 1.0);
    assert Recomputed(t, v, c') == Some(map[]);
    DecodeEncode(report);
    assert Answer(After(m, first), v, c') == Some(report);
    assert CachelessAnswers(m, es) == CachelessAnswers(m, first) + [Some(map[])];
    assert Answers(m, es) == Answers(m, first) + [Some(report)];
    assert Answers(m, es)[1] != CachelessAnswers(m, es)[1];
  }

  // ----- resets -----

  /**
   After a reset the user's expences are gone, and so every report should be empty. It is, once the user is
   known again, if and only if no entry for it was live when the reset happened.
   */
  lemma ResetReportIff(m: Machine, es: seq<Event>, cutoffs: iset<int>, u: int, cutoff: int)
    requires Sound(m.t) && m.cache == map[] && UsesCutoffs(es, cutoffs)
    requires DEFAULT_CURRENCY in After(m, es).t.currencies
    ensures var reset := Next(Next(After(m, es), Operate(ResetUser(u))), Operate(AddUser(u)));
            Recomputed(reset.t, u, cutoff) == Some(map[]) &&
            (Answer(reset, u, cutoff) == Recomputed(reset.t, u, cutoff) <==> Key(u, cutoff) !in After(m, es).cache)
  {
    hide Tracked, FormatInt;
    var m' := After(m, es);
    RunTracked(m, es, cutoffs);
    ResetEmpties(m'.t, u, cutoff) by { TrackedFacts(m', FillsAfter(m, es), cutoffs); }
    assert Readable(m'.cache) by { TrackedFacts(m', FillsAfter(m, es), cutoffs); }
    DecodedKeys(m'.cache, u, cutoff);
  }

  lemma TrackedFacts(m: Machine, f: Fills, cutoffs: iset<int>)
    requires Tracked(m, f, cutoffs)
    ensures Sound(m.t) && Readable(m.cache)
  {
  }

  lemma DecodedKeys(cache: Cache, u: int, cutoff: int)
    requires Readable(cache)
    ensures Key(u, cutoff) in cache <==> Lookup(cache, u, cutoff).Some?
    ensures Key(u, cutoff) in cache ==> Lookup(cache, u, cutoff).value != map[]
  {
    hide FormatInt, ParseInt;
    var key := Key(u, cutoff);
    if key in cache {
      var name :| name in cache[key];
      assert name in Lookup(cache, u, cutoff).value;
    }
  }

  lemma ResetEmpties(t: Tables, u: int, cutoff: int)
    requires Sound(t) && DEFAULT_CURRENCY in t.currencies
    ensures Recomputed(Apply(Apply(t, ResetUser(u)).tables, AddUser(u)).tables, u, cutoff) == Some(map[])
  {
    var t1 := Apply(t, ResetUser(u)).tables;
    ApplyKeepsInvariants(t, ResetUser(u));
    RefinesAddUser(t1, u);
    SameBooks(t1, Apply(t1, AddUser(u)).tables);
  }

  // ----- rates -----

  /** An update leaves all ledgers as they are. */
  lemma UpdateFrame(t: Tables, fetched: seq<Currency>, u: int)
    requires Sound(t) && u in t.users
    ensures var t' := Apply(t, UpdateRates(fetched)).tables;
            u in t'.users && BookOf(t', u) == BookOf(t, u)
    ensures RateOf(t, u).Some? && RateOf(Apply(t, UpdateRates(fetched)).tables, u).Some?
  {
    hide BookOf, Apply, Run;
    BookFrame(t, UpdateRates(fetched), u);
    ApplyKeepsInvariants(t, UpdateRates(fetched));
    SoundRate(t, u);
    SoundRate(Apply(t, UpdateRates(fetched)).tables, u);
  }

  lemma SoundRate(t: Tables, u: int)
    requires Sound(t) && u in t.users
    ensures RateOf(t, u).Some?
  {
    hide BookOf;
    assert Abstract(t).ledgers[u] == LedgerOf(t, u);
  }

  /** A report after an update: right on a miss, and on a hit if the old rate gives the new report. */
  lemma UpdateAnswers(m: Machine, f: Fills, fetched: seq<Currency>, u: int, cutoff: int, cutoffs: iset<int>)
    requires Clean(m, f, cutoffs) && SuffixFree(cutoffs) && u >= 1 && cutoff in cutoffs && u in m.t.users
    ensures var m' := Next(m, Operate(UpdateRates(fetched)));
            RateOf(m.t, u).Some? && RateOf(m'.t, u).Some? &&
            var book, r, r' := BookOf(m.t, u), RateOf(m.t, u).value, RateOf(m'.t, u).value;
            (Answer(m', u, cutoff) == Recomputed(m'.t, u, cutoff) <==>
              (Key(u, cutoff) in m.cache ==> ReportOf(book, cutoff, r) == ReportOf(book, cutoff, r')))
  {
    hide BookOf, ReportOf, FormatInt, RateOf, Apply, Sound, Encode, Decode, SuffixFree;
    UpdateFrame(m.t, fetched, u);
    var key := Key(u, cutoff);
    if key in m.cache {
      SuffixFreeSeparates(cutoffs, u, cutoff, f[key].user, f[key].cutoff);
      DecodeEncode(ReportOf(BookOf(m.t, u), cutoff, f[key].rate));
    }
  }

  /**
   When an update of rates is harmless, state by state: a user's report is right afterwards if and only if no
   entry for it was live, or none of its expences shows the difference between the user's old and new rate.
   */
  lemma UpdateReportIff(m: Machine, es: seq<Event>, fetched: seq<Currency>, u: int, cutoff: int, cutoffs: iset<int>)
    requires Sound(m.t) && m.t.users == map[] && m.cache == map[] && AllNonNegative(EventSteps(es))
    requires UsesCutoffs(es, cutoffs) && SteadyRun(m, es, cutoffs) && SuffixFree(cutoffs)
    requires u >= 1 && cutoff in cutoffs && u in After(m, es).t.users
    ensures var before, after := After(m, es), Next(After(m, es), Operate(UpdateRates(fetched)));
            RateOf(before.t, u).Some? && RateOf(after.t, u).Some? &&
            (Answer(after, u, cutoff) == Recomputed(after.t, u, cutoff) <==>
              Key(u, cutoff) !in before.cache ||
              ShownAlike(BookOf(before.t, u), cutoff, RateOf(before.t, u).value, RateOf(after.t, u).value))
  {
    hide *;
    SteadyRunClean(m, es, cutoffs);
    var before, after := After(m, es), Next(After(m, es), Operate(UpdateRates(fetched)));
    UpdateAnswers(before, FillsAfter(m, es), fetched, u, cutoff, cutoffs);
    EventsAreRun(m, es);
    ReachableBookNonNegative(m.t, EventSteps(es), u);
    SameReportIff(BookOf(before.t, u), cutoff, RateOf(before.t, u).value, RateOf(after.t, u).value);
  }

  /**
   The same without any steadiness, for a user who was never reset: over every run, however often rates changed,
   a report is right if and only if its entry is not live, or none of the user's expences in it shows the
   difference between the rate its fill read and the present rate.
   */
  lemma AnswerRightIff(m: Machine, es: seq<Event>, u: int, cutoff: int, cutoffs: iset<int>)
    requires Sound(m.t) && m.t.users == map[] && m.cache == map[] && AllNonNegative(EventSteps(es))
    requires UsesCutoffs(es, cutoffs) && SuffixFree(cutoffs)
    requires u >= 1 && cutoff in cutoffs && u in After(m, es).t.users && u !in Resets(es)
    ensures var m', f, key := After(m, es), FillsAfter(m, es), Key(u, cutoff);
            (key in f <==> key in m'.cache) && RateOf(m'.t, u).Some? &&
            (Answer(m', u, cutoff) == Recomputed(m'.t, u, cutoff) <==>
              key !in f || ShownAlike(BookOf(m'.t, u), cutoff, f[key].rate, RateOf(m'.t, u).value))
  {
    hide *;
    CacheAgrees(m, es, cutoffs, u, cutoff);
    EventsAreRun(m, es);
    ReachableBookNonNegative(m.t, EventSteps(es), u);
    ReachableOwned(m.t, EventSteps(es));
    var m', f, key := After(m, es), FillsAfter(m, es), Key(u, cutoff);
    SoundRate(m'.t, u);
    RecomputedAt(m'.t, u, cutoff);
    if key in f {
      SameReportIff(BookOf(m'.t, u), cutoff, f[key].rate, RateOf(m'.t, u).value);
    }
  }

  lemma RecomputedAt(t: Tables, u: int, cutoff: int)
    requires RateOf(t, u).Some?
    ensures Recomputed(t, u, cutoff) == Some(ReportOf(BookOf(t, u), cutoff, RateOf(t, u).value))
  {
  }

  /** Rewriting currency `id` from rate `r` to `r'` leaves every cached report as good as a recomputed one. */
  ghost predicate Harmless(r: Rate, r': Rate) {
    forall t, es, u, cutoff, id, code ::
      Sound(t) && SteadyRun(Machine(t, map[]), es, iset{cutoff}) && UsesCutoffs(es, iset{cutoff}) && u >= 1 &&
      (var m := After(Machine(t, map[]), es); id in m.t.currencies && m.t.currencies[id].rate == r) ==>
        UpdateUnnoticed(After(Machine(t, map[]), es), u, cutoff, Currency(id, code, r'))
  }

  ghost predicate UpdateUnnoticed(m: Machine, u: int, cutoff: int, c: Currency) {
    var m' := Next(m, Operate(UpdateRates([c])));
    Answer(m', u, cutoff) == Recomputed(m'.t, u, cutoff)
  }

  lemma UpsertOne(currencies: CurrencyTable, c: Currency)
    ensures RatesAfter(currencies, [c]) == Upsert(currencies, c)
  {
    assert [c][..0] == [];
    assert UpsertAll(currencies, []) == currencies;
  }

  /** A rate update, which does not touch the cache, is harmless only when it changes nothing. */
  lemma HarmlessIffSameRate(r: Rate, r': Rate)
    ensures Harmless(r, r') <==> r == r'
  {
    if r == r' {
      forall t, es, u, cutoff, id, code |
        Sound(t) && SteadyRun(Machine(t, map[]), es, iset{cutoff}) && UsesCutoffs(es, iset{cutoff}) && u >= 1 &&
        (var m := After(Machine(t, map[]), es); id in m.t.currencies && m.t.currencies[id].rate == r)
        ensures UpdateUnnoticed(After(Machine(t, map[]), es), u, cutoff, Currency(id, code, r'))
      {
        SameRateUnnoticed(t, es, u, cutoff, Currency(id, code, r'));
      }
    } else {
      var total := DifferentRatesShow(r, r');
      ChangedRateNoticed(total, r, r');
    }
  }

  lemma SameRateUnnoticed(t: Tables, es: seq<Event>, u: int, cutoff: int, c: Currency)
    requires Sound(t) && SteadyRun(Machine(t, map[]), es, iset{cutoff}) && UsesCutoffs(es, iset{cutoff}) && u >= 1
    requires var m := After(Machine(t, map[]), es); c.id in m.t.currencies && m.t.currencies[c.id].rate == c.rate
    ensures UpdateUnnoticed(After(Machine(t, map[]), es), u, cutoff, c)
  {
    hide FormatInt, Tracked, Recomputed, Answer, Abstract, Clean, After, FillsAfter, UpsertAll, Key, SteadyRun;
    var m, f := After(Machine(t, map[]), es), FillsAfter(Machine(t, map[]), es);
    SteadyRunClean(Machine(t, map[]), es, iset{cutoff});
    UpsertOne(m.t.currencies, c);
    assert Apply(m.t, UpdateRates([c])).tables == m.t;
    StorageKeepsClean(m, f, UpdateRates([c]), iset{cutoff});
    var e := Operate(UpdateRates([c]));
    CleanAnswer(Next(m, e), NextFills(f, m, e), u, cutoff, iset{cutoff});
  }

  lemma StaleHit(m: Machine, c: Currency, report: Report, recomputed: Report)
    requires m.cache == map[Key(1, 0) := Encode(report)] && Encode(report) != map[]
    requires Recomputed(Apply(m.t, UpdateRates([c])).tables, 1, 0) == Some(recomputed) && recomputed != report
    ensures !UpdateUnnoticed(m, 1, 0, c)
  {
    hide Recomputed, Apply, Encode, FormatInt;
    DecodeEncode(report);
    assert Answer(Next(m, Operate(UpdateRates([c]))), 1, 0) == Some(report);
  }

  lemma SeededRecomputed(total: int, rate: Rate)
    ensures var t := Seeded(1, 1, total, 0, rate);
            Sound(t) && Recomputed(t, 1, 0) == Some(map["food" := FromBase(total, rate)])
  {
    hide BookOf, ReportOf, FromBase, Seeded;
    SeededBooks(1, 1, total, 0, rate);
    SeededReport(total, 0, rate);
  }

  lemma ChangedRateNoticed(total: nat, r: Rate, r': Rate)
    requires FromBase(total, r) != FromBase(total, r')
    ensures !Harmless(r, r')
  {
    hide FormatInt, Recomputed, Key, FromBase, Encode, UpdateUnnoticed, BookOf, ReportOf;
    var t, e, c := Seeded(1, 1, total, 0, r), GetReport(1, 0), Currency(DEFAULT_CURRENCY, "RUB", r');
    var report, recomputed := map["food" := FromBase(total, r)], map["food" := FromBase(total, r')];
    SeededRecomputed(total, r);
    SeededRecomputed(total, r');
    assert "food" in report && report["food"] != recomputed["food"];
    FirstReport(t, 1, 0, report);
    UpsertOne(t.currencies, c);
    assert Apply(t, UpdateRates([c])).tables == Seeded(1, 1, total, 0, r');
    StaleHit(After(Machine(t, map[]), [e]), c, report, recomputed);
    assert UsesCutoffs([e], iset{0});
  }
}
