/**
 What each command does to the ledgers and to the cache, and what it answers, in terms of the user's world and of
 nothing else. A first command is a `/start` followed by the command, so the laws are about known users.
 */
module CommandLaws {
  import opened Wrappers
  import opened Conversion
  import opened Decimal
  import opened Money
  import opened Steps
  import opened Tables
  import opened Ledgers
  import opened Refinement
  import opened Reports
  import opened ReportCache
  import opened Commands

  ghost predicate Known(m: Machine, u: int) { Sound(m.t) && u in m.t.users }

  ghost function WorldOf(m: Machine): World { Abstract(m.t) }

  /** Rates and everyone else's ledgers are as they were. */
  ghost predicate OthersKept(m: Machine, m': Machine, u: int) {
    && WorldOf(m').currencies == WorldOf(m).currencies
    && forall v :: v != u ==> WorldOf(m').Of(v) == WorldOf(m).Of(v)
  }

  /** Exactly the cache entries whose key starts with the user's digits are gone. */
  ghost predicate OwnEntriesGone(m: Machine, m': Machine, u: int) {
    forall key ::
      (key in m'.cache <==> key in m.cache && !(FormatInt(u) <= key)) &&
      (key in m'.cache ==> m'.cache[key] == m.cache[key])
  }

  lemma KnownIsGreeted(m: Machine, u: int, command: Command, clock: Clock, dates: DateParser)
    requires u in m.t.users
    ensures Handle(m, u, command, clock, dates) == Commands.Outcome(m, u, command, clock, dates)
  {
    hide Next, ReplyTo, EventOf;
  }

  /** A step of the storage, seen on ledgers. */
  lemma Stepped(m: Machine, s: Step)
    requires Sound(m.t)
    ensures WorldOf(Next(m, Operate(s))) == Perform(WorldOf(m), s).world
    ensures Apply(m.t, s).failure == Perform(WorldOf(m), s).failure
    ensures Next(m, Operate(s)).cache ==
            if Invalidates(s) && Apply(m.t, s).failure.None? then DeleteReports(m.cache, s.user) else m.cache
  {
    hide Apply, Perform;
    StepRefines(m.t, s);
  }

  lemma KnownLedger(m: Machine, u: int)
    requires Known(m, u)
    ensures u in WorldOf(m).ledgers && WorldOf(m).ledgers[u].currency in WorldOf(m).currencies
  {
    hide BookOf;
    assert WorldOf(m).ledgers[u] == LedgerOf(m.t, u);
  }

  // ----- everybody -----

  /** Whoever is not known yet starts with the default currency and limit, and no categories. */
  lemma FirstStart(m: Machine, u: int, clock: Clock, dates: DateParser)
    requires Sound(m.t) && u !in m.t.users && 0 in m.t.currencies
    ensures var (m', reply) := Handle(m, u, Start, clock, dates);
            reply == Welcome && m'.cache == m.cache && OthersKept(m, m', u) &&
            Known(m', u) && WorldOf(m').ledgers[u] == Ledger(0, 1000000, 1000000, map[])
  {
    hide Apply, BookOf;
    Stepped(m, AddUser(u));
    ApplyKeepsInvariants(m.t, AddUser(u));
    var m' := Next(m, Operate(AddUser(u)));
    assert u in WorldOf(m').ledgers;
  }

  lemma StartGreets(m: Machine, u: int, clock: Clock, dates: DateParser)
    ensures Handle(m, u, Start, clock, dates) == (Greeted(m, u), Welcome)
  {
    hide Next;
  }

  lemma FirstCommand(m: Machine, u: int, command: Command, clock: Clock, dates: DateParser)
    requires Sound(m.t) && u !in m.t.users && 0 in m.t.currencies
    ensures Handle(m, u, command, clock, dates) ==
            Handle(Handle(m, u, Start, clock, dates).0, u, command, clock, dates)
  {
    hide Next, ReplyTo, EventOf, Sound;
    FirstStart(m, u, clock, dates);
    StartGreets(m, u, clock, dates);
    KnownIsGreeted(Greeted(m, u), u, command, clock, dates);
  }

  /** Without the default currency nobody can be added, and the sender stays unknown. */
  lemma NoDefaultCurrency(m: Machine, u: int, clock: Clock, dates: DateParser)
    requires u !in m.t.users && 0 !in m.t.currencies
    ensures Handle(m, u, Start, clock, dates) == (m, Welcome)
  {
  }

  /** Commands that only talk. */
  lemma OnlyTalk(m: Machine, u: int, clock: Clock, dates: DateParser)
    requires Known(m, u)
    ensures Handle(m, u, Start, clock, dates) == (m, Welcome)
    ensures Handle(m, u, Other, clock, dates) == (m, Help)
  {
  }

  /** Too many or missing arguments change nothing. */
  lemma WrongFormat(m: Machine, u: int, tokens: seq<string>, clock: Clock, dates: DateParser)
    requires Known(m, u) && |tokens| >= 1 && forall i :: 0 <= i < |tokens| ==> SpaceFree(tokens[i])
    ensures var text, refused := Join(tokens), (m, WrongCommandFormat);
            (|tokens| != 3 ==> Handle(m, u, NewExpence(text), clock, dates) == refused) &&
            (|tokens| != 1 || text == "" ==> Handle(m, u, NewCategory(text), clock, dates) == refused) &&
            (|tokens| != 1 ==>
               Handle(m, u, Command.Report(text), clock, dates) == refused &&
               Handle(m, u, SetCurrency(text), clock, dates) == refused &&
               Handle(m, u, SetLimit(text), clock, dates) == refused)
  {
    hide Split, Join, Sound, EventOf, Next, ReplyTo;
    SplitJoin(tokens);
    var text := Join(tokens);
    MiscountedArguments(m.t, u, text, clock, dates);
    KnownIsGreeted(m, u, NewExpence(text), clock, dates);
    KnownIsGreeted(m, u, NewCategory(text), clock, dates);
    KnownIsGreeted(m, u, Command.Report(text), clock, dates);
    KnownIsGreeted(m, u, SetCurrency(text), clock, dates);
    KnownIsGreeted(m, u, SetLimit(text), clock, dates);
  }

  lemma MiscountedArguments(t: Tables, u: int, text: string, clock: Clock, dates: DateParser)
    ensures |Split(text)| != 3 ==> EventOf(t, u, NewExpence(text), clock, dates) == Failure(WrongCommandFormat)
    ensures |Split(text)| != 1 || text == "" ==>
              EventOf(t, u, NewCategory(text), clock, dates) == Failure(WrongCommandFormat)
    ensures |Split(text)| != 1 ==>
              EventOf(t, u, Command.Report(text), clock, dates) == Failure(WrongCommandFormat) &&
              EventOf(t, u, SetCurrency(text), clock, dates) == Failure(WrongCommandFormat) &&
              EventOf(t, u, SetLimit(text), clock, dates) == Failure(WrongCommandFormat)
  {
    hide Split, ConvertStringAmountToSub;
  }

  // ----- user and limits -----

  /** `/reset` erases the user and no one else. */
  lemma ResetErases(m: Machine, u: int, clock: Clock, dates: DateParser)
    requires Known(m, u)
    ensures var (m', reply) := Handle(m, u, Reset, clock, dates);
            reply == DataErased && u !in m'.t.users && WorldOf(m').Of(u) == None && OthersKept(m, m', u) &&
            m'.cache == m.cache
  {
    hide Apply, BookOf;
    Stepped(m, ResetUser(u));
    var m' := Next(m, Operate(ResetUser(u)));
    assert WorldOf(m').ledgers.Keys == m'.t.users.Keys;
  }

  /** `/reset_limit` fills the limit and changes nothing else. */
  lemma ResetLimitFills(m: Machine, u: int, clock: Clock, dates: DateParser)
    requires Known(m, u)
    ensures var (m', reply) := Handle(m, u, ResetLimit, clock, dates);
            var ledger := WorldOf(m).ledgers[u];
            reply == LimitReset && OthersKept(m, m', u) && m'.cache == m.cache &&
            WorldOf(m').Of(u) == Some(ledger.(currentLimit := ledger.defaultLimit))
  {
    hide Apply, BookOf;
    KnownLedger(m, u);
    Stepped(m, ResetUserLimit(u));
  }

  /** `/set_limit` makes both limits the whole base units of what was typed, or refuses amounts below one hundredth. */
  lemma SetLimitSets(m: Machine, u: int, amount: string, clock: Clock, dates: DateParser)
    requires Known(m, u) && SpaceFree(amount)
    ensures var (m', reply) := Handle(m, u, SetLimit(amount), clock, dates);
            match ConvertStringAmountToSub(amount)
            case Failure(_) => reply == Reply.InvalidAmount && m' == m
            case Success(typed) =>
              if typed < 1 then reply == LimitIsTooSmall && m' == m
              else
                reply == LimitUpdated && OthersKept(m, m', u) && m'.cache == m.cache &&
                WorldOf(m).RateOf(u).Some? && WorldOf(m').Of(u).Some? &&
                var rate, ledger, limit :=
                  WorldOf(m).RateOf(u).value, WorldOf(m).ledgers[u], WorldOf(m').ledgers[u].currentLimit;
                WorldOf(m').ledgers[u] == ledger.(defaultLimit := limit, currentLimit := limit) &&
                limit as real * rate <= typed as real < (limit as real + 1.0) * rate
  {
    hide Apply, BookOf, Split, ConvertStringAmountToSub, ToBase;
    SplitToken(amount);
    KnownLedger(m, u);
    if ConvertStringAmountToSub(amount).Success? {
      var typed := ConvertStringAmountToSub(amount).value;
      Stepped(m, SetUserLimit(u, typed));
      if typed >= 1 {
        ToBaseBracket(typed, WorldOf(m).RateOf(u).value);
      }
    }
  }

  /** `/set_currency` gives the user a currency of that code and forgets the user's reports, or changes nothing. */
  lemma SetCurrencySets(m: Machine, u: int, code: string, clock: Clock, dates: DateParser)
    requires Known(m, u) && SpaceFree(code)
    ensures var (m', reply) := Handle(m, u, SetCurrency(code), clock, dates);
            if exists id :: id in m.t.currencies && m.t.currencies[id].code == code then
              reply == CurrencyChanged && OthersKept(m, m', u) && OwnEntriesGone(m, m', u) &&
              WorldOf(m').Of(u).Some? &&
              var ledger, id := WorldOf(m).ledgers[u], WorldOf(m').ledgers[u].currency;
              WorldOf(m').ledgers[u] == ledger.(currency := id) &&
              id in m.t.currencies && m.t.currencies[id].code == code
            else reply == CurrencyNotFound && m' == m
  {
    hide BookOf, Split, FormatInt;
    SplitToken(code);
    KnownLedger(m, u);
    Stepped(m, ChangeCurrency(u, code));
  }

  // ----- categories and expences -----

  /** `/add_category` opens an empty list under exactly that name, or says that there is one. */
  lemma NewCategoryOpens(m: Machine, u: int, name: string, clock: Clock, dates: DateParser)
    requires Known(m, u) && SpaceFree(name) && name != ""
    ensures var (m', reply) := Handle(m, u, NewCategory(name), clock, dates);
            var ledger := WorldOf(m).ledgers[u];
            OthersKept(m, m', u) && m'.cache == m.cache &&
            if name in ledger.book then reply == CategoryAlreadyAdded(name) && WorldOf(m').Of(u) == Some(ledger)
            else reply == CategoryAdded(name) && WorldOf(m').Of(u) == Some(ledger.(book := ledger.book[name := []]))
  {
    hide Apply, BookOf, Split;
    SplitToken(name);
    KnownLedger(m, u);
    Stepped(m, AddCategory(u, name));
  }

  /** The arguments of `/add_expence` are checked in this order, and a wrong one changes nothing. */
  lemma ExpenceTurnedDown(
    m: Machine, u: int, name: string, amount: string, date: string, clock: Clock, dates: DateParser)
    requires Known(m, u) && SpaceFree(name) && SpaceFree(amount) && SpaceFree(date)
    ensures var handled := Handle(m, u, NewExpence(Join([name, amount, date])), clock, dates);
            if name !in WorldOf(m).ledgers[u].book then handled == (m, CategoryNotFound)
            else if ConvertStringAmountToSub(amount).Failure? then handled == (m, Reply.InvalidAmount)
            else dates(date).None? ==> handled == (m, WrongDateFormat)
  {
    hide Apply, Next, Split, ConvertStringAmountToSub, EntriesBelow;
    SplitJoin([name, amount, date]);
    assert Join([name, amount, date]) != "";
    NamesIffFound(m.t, u, name);
    assert WorldOf(m).ledgers[u] == LedgerOf(m.t, u);
  }

  /**
   An accepted `/add_expence` appends the whole base units of what was typed to the list of that name, takes them
   off the limit if it is dated after the start of the month, and forgets the user's reports.
   */
  lemma ExpenceFiled(
    m: Machine, u: int, name: string, amount: string, date: string, clock: Clock, dates: DateParser)
    requires Known(m, u) && SpaceFree(name) && SpaceFree(amount) && SpaceFree(date)
    ensures var (m', reply) := Handle(m, u, NewExpence(Join([name, amount, date])), clock, dates);
            reply == ExpenceAdded ==>
              name in WorldOf(m).ledgers[u].book && ConvertStringAmountToSub(amount).Success? && dates(date).Some? &&
              WorldOf(m).RateOf(u).Some? && OthersKept(m, m', u) && OwnEntriesGone(m, m', u) &&
              var typed, ts := ConvertStringAmountToSub(amount).value, dates(date).value;
              var rate, ledger := WorldOf(m).RateOf(u).value, WorldOf(m).ledgers[u];
              exists total: nat ::
                total as real * rate <= typed as real < (total as real + 1.0) * rate &&
                (ts > clock.month ==> total <= ledger.currentLimit) &&
                WorldOf(m').Of(u) == Some(ledger.(
                  currentLimit := ledger.currentLimit - (if ts > clock.month then total else 0),
                  book := ledger.book[name := ledger.book[name] + [Entry(total, ts)]]))
  {
    hide Split, ConvertStringAmountToSub, ToBase, BookOf, Apply, FormatInt;
    SplitJoin([name, amount, date]);
    assert Join([name, amount, date]) != "";
    KnownLedger(m, u);
    ExpenceTurnedDown(m, u, name, amount, date, clock, dates);
    if name in WorldOf(m).ledgers[u].book && ConvertStringAmountToSub(amount).Success? && dates(date).Some? {
      var typed, ts := ConvertStringAmountToSub(amount).value, dates(date).value;
      var s := AddExpence(u, name, typed, ts, clock.month);
      Stepped(m, s);
      AmountsNonNegative(amount);
      var total := ToBase(typed, WorldOf(m).RateOf(u).value);
      ToBaseBracket(typed, WorldOf(m).RateOf(u).value);
    }
  }

  // ----- reports -----

  /** The word for a period, and where the period starts. Any other word, or none, means all time. */
  predicate PeriodStarts(period: string, cutoff: int, clock: Clock) {
    && (period == "day" ==> cutoff == clock.day)
    && (period == "month" ==> cutoff == clock.month)
    && (period == "year" ==> cutoff == clock.year)
    && (period !in ["day", "month", "year"] ==> cutoff == clock.epoch)
  }

  /** The lines of an answer are the lines of a report, as amounts of money. */
  ghost predicate ShowsReport(reply: Reply, period: string, r: Reports.Report) {
    if r == map[] then reply == NoExpences
    else
      reply.Totals? && reply.period == period && reply.lines.Keys == r.Keys &&
      forall name :: name in r ==> reply.lines[name] == ConvertSubToAmount(r[name])
  }

  /**
   `/report` shows the live entry for the start of the period, or else the report computed from there, and leaves
   the tables alone.
   */
  lemma ReportShows(m: Machine, u: int, period: string, cutoff: int, clock: Clock, dates: DateParser)
    requires Known(m, u) && SpaceFree(period) && PeriodStarts(period, cutoff, clock)
    ensures var (m', reply) := Handle(m, u, Command.Report(period), clock, dates);
            m'.t == m.t &&
            match Lookup(m.cache, u, cutoff)
            case Some(cached) => ShowsReport(reply, period, cached) && m' == m
            case None =>
              Recomputed(m.t, u, cutoff).Some? && ShowsReport(reply, period, Recomputed(m.t, u, cutoff).value)
  {
    hide Split, Lookup, BookOf, ReportOf, ConvertSubToAmount, SetReport, Encode;
    SplitToken(period);
    KnownLedger(m, u);
    assert WorldOf(m).RateOf(u).Some?;
  }
}
