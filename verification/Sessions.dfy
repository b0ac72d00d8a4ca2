/** Sessions: everything that reaches the bot over time, as runs of storage steps. */
module Sessions {
  import opened Wrappers
  import opened Conversion
  import opened Money
  import opened Steps
  import opened Tables
  import opened Ledgers
  import opened Refinement
  import opened Reports
  import opened ReportCache
  import opened Isolation
  import opened Journals
  import opened Commands

  /** What reaches the bot: commands, one at a time, and ticks of the background services and of Redis. */
  datatype Input = FromUser(user: int, command: Command, clock: Clock) | FromService(step: Step) | Expiry(key: string)

  ghost function Respond(m: Machine, input: Input, dates: DateParser): Machine {
    match input
    case FromUser(u, command, clock) => Handle(m, u, command, clock, dates).0
    case FromService(step) => if IsGlobal(step) then Next(m, Operate(step)) else m
    case Expiry(key) => Next(m, Expire(key))
  }

  ghost function Session(m: Machine, inputs: seq<Input>, dates: DateParser): Machine {
    if inputs == [] then m else Respond(Session(m, inputs[..|inputs| - 1], dates), inputs[|inputs| - 1], dates)
  }

  /** The steps on the tables that one input causes. */
  ghost function StepsOf(m: Machine, input: Input, dates: DateParser): seq<Step> {
    match input
    case FromUser(u, command, clock) =>
      (if u in m.t.users then [] else [AddUser(u)]) +
      (match EventOf(Greeted(m, u).t, u, command, clock, dates)
       case Success(Operate(step)) => [step]
       case _ => [])
    case FromService(step) => if IsGlobal(step) then [step] else []
    case Expiry(_) => []
  }

  ghost function SessionSteps(m: Machine, inputs: seq<Input>, dates: DateParser): seq<Step> {
    if inputs == [] then [] else
      var front := inputs[..|inputs| - 1];
      SessionSteps(m, front, dates) + StepsOf(Session(m, front, dates), inputs[|inputs| - 1], dates)
  }

  lemma {:induction false} RunConcat(t: Tables, a: seq<Step>, b: seq<Step>)
    ensures Run(t, a + b) == Run(Run(t, a), b)
  {
    if b == [] {
      assert a + b == a;
    } else {
      RunConcat(t, a, b[..|b| - 1]);
      assert (a + b)[..|a + b| - 1] == a + b[..|b| - 1];
    }
  }

  lemma RunShort(t: Tables, s: Step, s': Step)
    ensures Run(t, [s]) == Apply(t, s).tables
    ensures Run(t, [s, s']) == Apply(Apply(t, s).tables, s').tables
  {
    assert [s][..0] == [] && [s, s'][..1] == [s];
    assert Run(t, []) == t;
  }

  /** No command enters a negative amount: parsing drops the sign. */
  lemma InputSteps(m: Machine, input: Input, dates: DateParser)
    ensures Respond(m, input, dates).t == Run(m.t, StepsOf(m, input, dates))
    ensures AllNonNegative(StepsOf(m, input, dates))
  {
    hide Apply, ConvertStringAmountToSub, Split;
    match input
    case FromUser(u, command, clock) =>
      AmountSteps(Greeted(m, u).t, u, command, clock, dates);
      match EventOf(Greeted(m, u).t, u, command, clock, dates) {
        case Success(Operate(step)) => RunShort(m.t, step, step); RunShort(m.t, AddUser(u), step);
        case _ => RunShort(m.t, AddUser(u), AddUser(u));
      }
    case FromService(step) => RunShort(m.t, step, step);
    case Expiry(_) =>
  }

  lemma AmountSteps(t: Tables, u: int, command: Command, clock: Clock, dates: DateParser)
    ensures match EventOf(t, u, command, clock, dates)
            case Success(Operate(step)) => NonNegative(step)
            case _ => true
  {
    hide ConvertStringAmountToSub, Split;
    match command
    case NewExpence(text) => if |Split(text)| == 3 { AmountsNonNegative(Split(text)[1]); }
    case SetLimit(text) => AmountsNonNegative(Split(text)[0]);
    case _ =>
  }

  /** A session is a run of storage steps without negative amounts, so everything proved of such runs holds of it. */
  lemma {:induction false} SessionIsRun(m: Machine, inputs: seq<Input>, dates: DateParser)
    ensures Session(m, inputs, dates).t == Run(m.t, SessionSteps(m, inputs, dates))
    ensures AllNonNegative(SessionSteps(m, inputs, dates))
  {
    hide Respond, StepsOf;
    if inputs != [] {
      var front, last := inputs[..|inputs| - 1], inputs[|inputs| - 1];
      SessionIsRun(m, front, dates);
      InputSteps(Session(m, front, dates), last, dates);
      RunConcat(m.t, SessionSteps(m, front, dates), StepsOf(Session(m, front, dates), last, dates));
    }
  }

  /** Conservation of the limit, for whatever users send. */
  lemma SessionConservesLimit(m: Machine, inputs: seq<Input>, dates: DateParser, u: int)
    requires Sound(m.t) && m.t.users == map[] && u in Session(m, inputs, dates).t.users
    ensures var row := Session(m, inputs, dates).t.users[u];
            var accounts := AccountsOf(Abstract(m.t), SessionSteps(m, inputs, dates));
            u in accounts && accounts[u].open <= |accounts[u].postings| &&
            row.defaultLimit - row.currentLimit == ChargedTotal(accounts[u].postings[accounts[u].open..]) &&
            0 <= row.currentLimit <= row.defaultLimit
  {
    SessionIsRun(m, inputs, dates);
    LimitConserved(m.t, SessionSteps(m, inputs, dates), u);
  }

  // ----- category names -----

  ghost predicate Addressable(t: Tables) {
    forall c :: c in t.categories ==> t.categories[c].name != "" && SpaceFree(t.categories[c].name)
  }

  lemma StepAddressable(t: Tables, s: Step)
    requires Addressable(t) && (s.AddCategory? ==> s.name != "" && SpaceFree(s.name))
    ensures Addressable(Apply(t, s).tables)
  {
    hide ToBase, RatesAfter;
  }

  lemma {:induction false} SessionAddressable(m: Machine, inputs: seq<Input>, dates: DateParser)
    requires Addressable(m.t)
    ensures Addressable(Session(m, inputs, dates).t)
  {
    hide Addressable, Apply, Split;
    if inputs != [] {
      var before, last := Session(m, inputs[..|inputs| - 1], dates), inputs[|inputs| - 1];
      SessionAddressable(m, inputs[..|inputs| - 1], dates);
      match last
      case FromUser(u, command, clock) =>
        StepAddressable(before.t, AddUser(u));
        var known := Greeted(before, u);
        match EventOf(known.t, u, command, clock, dates) {
          case Success(Operate(step)) =>
            if command.NewCategory? {
              JoinSplit(command.text);
            }
            StepAddressable(known.t, step);
          case _ =>
        }
      case FromService(step) => if IsGlobal(step) { StepAddressable(before.t, step); }
      case Expiry(_) =>
    }
  }

  /**
   Every category stored in any session can be named in `/add_expence`: with a well-formed amount and date, the
   command reaches the storage operation for that very category of that user.
   */
  lemma StoredCategoryIsReachable(
    m: Machine, inputs: seq<Input>, dates: DateParser, c: int, amount: string, date: string, clock: Clock)
    requires Sound(m.t) && Addressable(m.t) && c in Session(m, inputs, dates).t.categories
    requires SpaceFree(amount) && SpaceFree(date)
    requires ConvertStringAmountToSub(amount).Success? && dates(date).Some?
    ensures var t := Session(m, inputs, dates).t;
            var row := t.categories[c];
            t.FindCategory(row.userId, row.name) == Some(c) &&
            EventOf(t, row.userId, NewExpence(Join([row.name, amount, date])), clock, dates) ==
            Success(Operate(AddExpence(row.userId, row.name, ConvertStringAmountToSub(amount).value,
                                       dates(date).value, clock.month)))
  {
    hide ConvertStringAmountToSub;
    SessionIsRun(m, inputs, dates);
    ReachableOwned(m.t, SessionSteps(m, inputs, dates));
    SessionAddressable(m, inputs, dates);
    var t := Session(m, inputs, dates).t;
    var row := t.categories[c];
    assert t.Names(c, row.userId, row.name);
    SplitJoin([row.name, amount, date]);
    assert Join([row.name, amount, date]) != "";
  }

  // ----- periods -----

  /** Every line of one report is in the other, and no smaller there. */
  ghost predicate Within(r: Option<Reports.Report>, r': Option<Reports.Report>) {
    r.Some? && r'.Some? &&
    forall name :: name in r.value ==> name in r'.value && 0 <= r.value[name] <= r'.value[name]
  }

  /** In every session the report of the day is within that of the month, of the year, and of all time since 1970. */
  lemma PeriodsNest(m: Machine, inputs: seq<Input>, dates: DateParser, u: int, clock: Clock)
    requires Sound(m.t) && m.t.users == map[] && u in Session(m, inputs, dates).t.users
    requires clock.epoch <= clock.year <= clock.month <= clock.day
    ensures var t := Session(m, inputs, dates).t;
            Within(Recomputed(t, u, CutoffOf("day", clock)), Recomputed(t, u, CutoffOf("month", clock))) &&
            Within(Recomputed(t, u, CutoffOf("month", clock)), Recomputed(t, u, CutoffOf("year", clock))) &&
            Within(Recomputed(t, u, CutoffOf("year", clock)), Recomputed(t, u, CutoffOf("", clock)))
  {
    var steps := SessionSteps(m, inputs, dates);
    SessionIsRun(m, inputs, dates);
    EarlierWithin(m.t, steps, u, clock.month, clock.day);
    EarlierWithin(m.t, steps, u, clock.year, clock.month);
    EarlierWithin(m.t, steps, u, clock.epoch, clock.year);
  }

  lemma EarlierWithin(t: Tables, steps: seq<Step>, u: int, early: int, late: int)
    requires Sound(t) && t.users == map[] && AllNonNegative(steps) && u in Run(t, steps).users && early <= late
    ensures Within(Recomputed(Run(t, steps), u, late), Recomputed(Run(t, steps), u, early))
  {
    hide ReportOf, BookOf, Recomputed, RateOf, Run, Sound;
    RateRecomputes(t, steps, u, early);
    RateRecomputes(t, steps, u, late);
    RecomputedIsReport(Run(t, steps), u, early);
    RecomputedIsReport(Run(t, steps), u, late);
    ReachableReportMonotone(t, steps, u, early, late, RateOf(Run(t, steps), u).value);
  }

  lemma RateRecomputes(t: Tables, steps: seq<Step>, u: int, cutoff: int)
    requires Sound(t) && u in Run(t, steps).users
    ensures Recomputed(Run(t, steps), u, cutoff).Some?
  {
    RateAlwaysFound(t, steps, u);
  }

  // ----- isolation -----

  predicate About(input: Input, u: int) { input.FromUser? ==> input.user == u }

  /** The session with everyone else's commands left out. */
  function OnlyAbout(inputs: seq<Input>, u: int): seq<Input> {
    if inputs == [] then [] else
      var front, last := OnlyAbout(inputs[..|inputs| - 1], u), inputs[|inputs| - 1];
      if About(last, u) then front + [last] else front
  }

  lemma SameLedgerIsAlike(t: Tables, t': Tables, u: int)
    ensures SameLedger(t, t', u) <==> Alike(Abstract(t), Abstract(t'), u)
  {
    hide BookOf;
    var w, w' := Abstract(t), Abstract(t');
    assert w.Of(u) == if u in t.users then Some(LedgerOf(t, u)) else None;
    assert w'.Of(u) == if u in t'.users then Some(LedgerOf(t', u)) else None;
  }

  lemma StepsKeepLedger(t: Tables, t': Tables, s: Step, u: int)
    requires Sound(t) && Sound(t') && SameLedger(t, t', u)
    ensures Concerns(s, u) ==>
              SameLedger(Apply(t, s).tables, Apply(t', s).tables, u) && Apply(t, s).failure == Apply(t', s).failure
    ensures !Concerns(s, u) ==> SameLedger(Apply(t, s).tables, t', u)
    ensures Sound(Apply(t, s).tables) && Sound(Apply(t', s).tables)
  {
    hide Apply, Perform, SameLedger, Alike, Abstract;
    SameLedgerIsAlike(t, t', u);
    StepRefines(t, s);
    StepRefines(t', s);
    ApplyKeepsInvariants(t, s);
    ApplyKeepsInvariants(t', s);
    if Concerns(s, u) {
      ConcerningStep(Abstract(t), Abstract(t'), s, u);
      SameLedgerIsAlike(Apply(t, s).tables, Apply(t', s).tables, u);
    } else {
      ForeignStep(Abstract(t), s, u);
      AlikeTransitive(Perform(Abstract(t), s).world, Abstract(t), Abstract(t'), u);
      SameLedgerIsAlike(Apply(t, s).tables, t', u);
    }
  }

  lemma AlikeTransitive(a: World, b: World, c: World, u: int)
    requires Alike(a, b, u) && Alike(b, c, u)
    ensures Alike(a, c, u)
  {
  }

  lemma SameChoices(t: Tables, t': Tables, u: int, command: Command, clock: Clock, dates: DateParser)
    requires Sound(t) && Sound(t') && SameLedger(t, t', u)
    ensures EventOf(t, u, command, clock, dates) == EventOf(t', u, command, clock, dates)
  {
    hide Split, ConvertStringAmountToSub;
    if command.NewExpence? {
      var name := Split(command.text)[0];
      NamesIffFound(t, u, name);
      NamesIffFound(t', u, name);
      if u in t.users {
        assert BookOf(t, u).Keys == CategoryNames(t, u) && BookOf(t', u).Keys == CategoryNames(t', u);
      }
    }
  }

  /** A command asks for a step of its own user, or for a report. */
  lemma OwnSteps(t: Tables, u: int, command: Command, clock: Clock, dates: DateParser)
    ensures match EventOf(t, u, command, clock, dates)
            case Success(Operate(step)) => !IsGlobal(step) && step.user == u && !command.Report?
            case Success(GetReport(_, _)) => command.Report?
            case Success(Expire(_)) => false
            case Failure(_) => true
  {
    hide Split, ConvertStringAmountToSub;
  }

  lemma SameGreeting(m: Machine, m': Machine, u: int)
    requires Sound(m.t) && Sound(m'.t) && SameLedger(m.t, m'.t, u)
    ensures SameLedger(Greeted(m, u).t, Greeted(m', u).t, u) && Sound(Greeted(m, u).t) && Sound(Greeted(m', u).t)
  {
    hide Apply;
    StepsKeepLedger(m.t, m'.t, AddUser(u), u);
  }

  lemma TablesAfter(m: Machine, e: Event)
    ensures Next(m, e).t == if e.Operate? then Apply(m.t, e.step).tables else m.t
  {
    hide Apply;
  }

  /** Apart from reports, an answer depends on whether the step failed, and how. */
  lemma SameReply(m: Machine, m': Machine, s: Step, command: Command)
    requires Apply(m.t, s).failure == Apply(m'.t, s).failure
    ensures ReplyTo(m, Operate(s), command) == ReplyTo(m', Operate(s), command)
  {
    hide Apply;
  }

  /** A user's own command does the same to the user's ledger, whatever else is in the tables, with the same answer. */
  lemma SameHandling(m: Machine, m': Machine, u: int, command: Command, clock: Clock, dates: DateParser)
    requires Sound(m.t) && Sound(m'.t) && SameLedger(m.t, m'.t, u)
    ensures SameLedger(Handle(m, u, command, clock, dates).0.t, Handle(m', u, command, clock, dates).0.t, u)
    ensures !command.Report? ==> Handle(m, u, command, clock, dates).1 == Handle(m', u, command, clock, dates).1
  {
    hide Apply, Next, ReplyTo, SameLedger, EventOf, Greeted, Sound;
    SameGreeting(m, m', u);
    var k, k' := Greeted(m, u), Greeted(m', u);
    SameChoices(k.t, k'.t, u, command, clock, dates);
    OwnSteps(k.t, u, command, clock, dates);
    match EventOf(k.t, u, command, clock, dates)
    case Success(e) =>
      TablesAfter(k, e);
      TablesAfter(k', e);
      if e.Operate? {
        StepsKeepLedger(k.t, k'.t, e.step, u);
        SameReply(k, k', e.step, command);
      }
    case Failure(_) =>
  }

  /** Another user's command leaves the ledger of `u` alone. */
  lemma ForeignHandling(m: Machine, t: Tables, u: int, v: int, command: Command, clock: Clock, dates: DateParser)
    requires Sound(m.t) && Sound(t) && SameLedger(m.t, t, u) && u != v
    ensures SameLedger(Handle(m, v, command, clock, dates).0.t, t, u)
  {
    hide Apply, Next, ReplyTo, SameLedger, EventOf, Sound;
    StepsKeepLedger(m.t, t, AddUser(v), u);
    TablesAfter(m, Operate(AddUser(v)));
    var k := Greeted(m, v);
    OwnSteps(k.t, v, command, clock, dates);
    match EventOf(k.t, v, command, clock, dates)
    case Success(e) =>
      TablesAfter(k, e);
      if e.Operate? {
        StepsKeepLedger(k.t, t, e.step, u);
      }
    case Failure(_) =>
  }

  lemma SessionSound(m: Machine, inputs: seq<Input>, dates: DateParser)
    requires Sound(m.t)
    ensures Sound(Session(m, inputs, dates).t)
  {
    SessionIsRun(m, inputs, dates);
    ReachableOwned(m.t, SessionSteps(m, inputs, dates));
  }

  /** Sessions in which `u` has the same ledger still agree after one more input that is about `u`, or about no one. */
  lemma InputIsolated(m: Machine, m': Machine, input: Input, u: int, dates: DateParser)
    requires Sound(m.t) && Sound(m'.t) && SameLedger(m.t, m'.t, u)
    ensures About(input, u) ==> SameLedger(Respond(m, input, dates).t, Respond(m', input, dates).t, u)
    ensures !About(input, u) ==> SameLedger(Respond(m, input, dates).t, m'.t, u)
  {
    hide Apply, SameLedger, Handle;
    match input
    case FromUser(v, command, clock) =>
      if v == u {
        SameHandling(m, m', u, command, clock, dates);
      } else {
        ForeignHandling(m, m'.t, u, v, command, clock, dates);
      }
    case FromService(step) => StepsKeepLedger(m.t, m'.t, step, u);
    case Expiry(_) =>
  }

  lemma {:induction false} SessionLedgers(m: Machine, inputs: seq<Input>, u: int, dates: DateParser)
    requires Sound(m.t)
    ensures SameLedger(Session(m, inputs, dates).t, Session(m, OnlyAbout(inputs, u), dates).t, u)
  {
    hide Respond;
    if inputs != [] {
      var front, last := inputs[..|inputs| - 1], inputs[|inputs| - 1];
      var alone := OnlyAbout(front, u);
      SessionLedgers(m, front, u, dates);
      SessionSound(m, front, dates);
      SessionSound(m, alone, dates);
      InputIsolated(Session(m, front, dates), Session(m, alone, dates), last, u, dates);
      assert (alone + [last])[..|alone|] == alone;
    }
  }

  /**
   Isolation. Leaving every other user's commands out of a session changes neither the ledger of `u` (limits,
   currency, categories, expences), nor the reports computed from it, nor the answer to u's next command; for
   answers to `/report`, which may come from the cache, see `SessionReports`.
   */
  lemma SessionIsolation(m: Machine, inputs: seq<Input>, u: int, dates: DateParser)
    requires Sound(m.t)
    ensures var t, t' := Session(m, inputs, dates).t, Session(m, OnlyAbout(inputs, u), dates).t;
            SameLedger(t, t', u) && forall cutoff :: Recomputed(t, u, cutoff) == Recomputed(t', u, cutoff)
    ensures forall command: Command, clock :: !command.Report? ==>
              Handle(Session(m, inputs, dates), u, command, clock, dates).1 ==
              Handle(Session(m, OnlyAbout(inputs, u), dates), u, command, clock, dates).1
  {
    hide Handle;
    SessionLedgers(m, inputs, u, dates);
    var a, b := Session(m, inputs, dates), Session(m, OnlyAbout(inputs, u), dates);
    SessionSound(m, inputs, dates);
    SessionSound(m, OnlyAbout(inputs, u), dates);
    forall command: Command, clock | !command.Report?
      ensures Handle(a, u, command, clock, dates).1 == Handle(b, u, command, clock, dates).1
    {
      SameHandling(a, b, u, command, clock, dates);
    }
    assert RateOf(a.t, u) == RateOf(b.t, u) by { SameLedgerIsAlike(a.t, b.t, u); }
  }
}
