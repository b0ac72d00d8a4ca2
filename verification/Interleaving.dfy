/**
 Whole runs in small steps. Commands come one at a time, but each reads, writes and invalidates in separate calls,
 and refills, rate updates and expiries of cache entries fall between any two of them. The statements of the
 expence transaction are one step here, as `Transaction` justifies, and so is the pipeline, as `Pipeline` does.
 */
module Interleaving {
  import opened Wrappers
  import opened Conversion
  import opened Steps
  import opened Tables
  import opened Reports
  import opened ReportCache
  import opened ReportWire
  import opened LateReports
  import Transaction
  import Pipeline

  /** What a command was told by the storage. */
  datatype Outcome = Told(report: Option<Report>) | Done(failure: Option<Failure>)

  /** The last statement of a command that converts an amount first. */
  datatype Statement = Post(row: ExpenceRow, monthStart: int) | Limits(user: int, limit: int)

  datatype Bot =
    | Free
    /** The cache had no entry. */
    | Missed(user: int, cutoff: int)
    /** The rate is read, and the request sent. */
    | Rated(user: int, cutoff: int, rate: Rate)
    | Replied(user: int, cutoff: int, rate: Rate, expences: seq<Expence>)
    /** Everything is read; the statement is next. */
    | Prepared(step: Step, statement: Statement)
    /** The tables are changed; the user's cache entries are still there. */
    | Invalidating(user: int)

  datatype State = State(t: Tables, cache: Cache, bot: Bot, heard: seq<Outcome>)

  datatype Action =
    | Whole(step: Step)
    | LookUp(user: int, cutoff: int)
    | ReadRate
    | Receive(expences: seq<Expence>)
    | WriteEntry
    | Prepare(step: Step)
    | Execute
    | Change(step: Step)
    | Invalidate
    | Background(event: Event)

  /** What a command that converts an amount makes of its reads. */
  ghost function Reads(t: Tables, s: Step): Option<Statement> {
    match s
    case AddExpence(u, name, amount, ts, monthStart) =>
      (match t.FindCategory(u, name)
       case None => None
       case Some(c) =>
         if u !in t.users || t.users[u].baseCurrency !in t.currencies then None
         else
           var rate := t.currencies[t.users[u].baseCurrency].rate;
           Some(Post(ExpenceRow(u, c, ts, ToBase(amount, rate)), monthStart)))
    case SetUserLimit(u, amount) =>
      if u !in t.users || t.users[u].baseCurrency !in t.currencies then None
      else Some(Limits(u, ToBase(amount, t.currencies[t.users[u].baseCurrency].rate)))
    case _ => None
  }

  function Perform(t: Tables, statement: Statement): Exec {
    match statement
    case Post(row, monthStart) => t.PostExpence(row, monthStart)
    case Limits(u, limit) => Exec(t.UpdateLimits(u, limit, limit), None)
  }

  predicate Converts(s: Step) { s.AddExpence? || s.SetUserLimit? }

  ghost predicate Enabled(s: State, a: Action) {
    match a
    case Whole(step) => s.bot.Free? && !IsGlobal(step) && !Converts(step) && !step.ChangeCurrency?
    case LookUp(_, _) => s.bot.Free?
    case ReadRate => s.bot.Missed?
    case Receive(es) => s.bot.Rated? && Pipeline.RepliesTo(s.t, ReportRequest(s.bot.user, s.bot.cutoff), es)
    case WriteEntry => s.bot.Replied?
    case Prepare(step) => s.bot.Free? && Converts(step)
    case Execute => s.bot.Prepared?
    case Change(step) => s.bot.Free? && step.ChangeCurrency?
    case Invalidate => s.bot.Invalidating?
    case Background(e) => Quiet(e)
  }

  ghost function Do(s: State, a: Action): State
    requires Enabled(s, a)
  {
    match a
    case Whole(step) =>
      var r := Apply(s.t, step);
      s.(t := r.tables, heard := s.heard + [Done(r.failure)])
    case LookUp(u, cutoff) =>
      var found := Lookup(s.cache, u, cutoff);
      if found.Some? then s.(heard := s.heard + [Told(found)]) else s.(bot := Missed(u, cutoff))
    case ReadRate =>
      var rate := RateOf(s.t, s.bot.user);
      if rate.None? then s.(bot := Free, heard := s.heard + [Told(None)])
      else s.(bot := Rated(s.bot.user, s.bot.cutoff, rate.value))
    case Receive(es) => s.(bot := Replied(s.bot.user, s.bot.cutoff, s.bot.rate, es))
    case WriteEntry =>
      var report := FoldRows(RowsOf(s.bot.expences), s.bot.rate);
      s.(cache := SetReport(s.cache, s.bot.user, s.bot.cutoff, Encode(report)), bot := Free,
         heard := s.heard + [Told(Some(report))])
    case Prepare(step) =>
      var statement := Reads(s.t, step);
      if statement.None? then s.(heard := s.heard + [Done(if step.AddExpence? then Some(NoRows) else None)])
      else s.(bot := Prepared(step, statement.value))
    case Execute =>
      var r := Perform(s.t, s.bot.statement);
      if s.bot.step.AddExpence? && r.failure.None? then s.(t := r.tables, bot := Invalidating(s.bot.step.user))
      else s.(t := r.tables, bot := Free, heard := s.heard + [Done(r.failure)])
    case Change(step) =>
      var r := Apply(s.t, step);
      if r.failure.None? then s.(t := r.tables, bot := Invalidating(step.user))
      else s.(t := r.tables, heard := s.heard + [Done(r.failure)])
    case Invalidate => s.(cache := DeleteReports(s.cache, s.bot.user), bot := Free, heard := s.heard + [Done(None)])
    case Background(e) => (var m := Next(Machine(s.t, s.cache), e); s.(t := m.t, cache := m.cache))
  }

  /** The state after some actions, if each of them was enabled in its turn. */
  ghost function Reached(s0: State, actions: seq<Action>): Option<State> {
    if actions == [] then Some(s0)
    else
      match Reached(s0, actions[..|actions| - 1])
      case None => None
      case Some(s) =>
        if Enabled(s, actions[|actions| - 1]) then Some(Do(s, actions[|actions| - 1])) else None
  }

  // ----- the serial run -----

  /** What the command of one event is told. */
  ghost function OutcomeOf(m: Machine, e: Event): seq<Outcome> {
    match e
    case GetReport(u, cutoff) => [Told(Answer(m, u, cutoff))]
    case Operate(s) => if IsGlobal(s) then [] else [Done(Apply(m.t, s).failure)]
    case Expire(_) => []
  }

  /** What the commands of a serial run are told, in order. */
  ghost function Outcomes(m: Machine, es: seq<Event>): seq<Outcome> {
    if es == [] then [] else Outcomes(m, es[..|es| - 1]) + OutcomeOf(After(m, es[..|es| - 1]), es[|es| - 1])
  }

  lemma OutcomesPush(m: Machine, es: seq<Event>, e: Event)
    ensures Outcomes(m, es + [e]) == Outcomes(m, es) + OutcomeOf(After(m, es), e)
  {
    hide OutcomeOf, After;
    assert (es + [e])[..|es|] == es;
  }

  lemma QuietOutcome(m: Machine, e: Event)
    requires Quiet(e)
    ensures OutcomeOf(m, e) == []
  {
  }

  lemma {:induction false} QuietOutcomes(m: Machine, es: seq<Event>, quiet: seq<Event>)
    requires AllQuiet(quiet)
    ensures Outcomes(m, es + quiet) == Outcomes(m, es)
  {
    hide OutcomeOf, Outcomes, After, Quiet;
    if quiet == [] {
      assert es + quiet == es;
    } else {
      var front, last := quiet[..|quiet| - 1], quiet[|quiet| - 1];
      QuietOutcomes(m, es, front);
      assert es + quiet == es + front + [last];
      OutcomesPush(m, es + front, last);
      QuietOutcome(After(m, es + front), last);
    }
  }

  // ----- one late command -----

  function AsEvents(steps: seq<Step>): (es: seq<Event>)
    ensures |es| == |steps| && forall i :: 0 <= i < |es| ==> es[i] == Operate(steps[i])
  {
    if steps == [] then [] else AsEvents(steps[..|steps| - 1]) + [Operate(steps[|steps| - 1])]
  }

  lemma {:induction false} BackgroundRun(m: Machine, steps: seq<Step>)
    requires Transaction.IsBackground(steps)
    ensures After(m, AsEvents(steps)) == Machine(Run(m.t, steps), m.cache)
    ensures AllQuiet(AsEvents(steps))
  {
    hide Next, Apply;
    if steps != [] {
      var front, last := steps[..|steps| - 1], steps[|steps| - 1];
      assert IsGlobal(last);
      BackgroundRun(m, front);
      AfterPush(m, AsEvents(front), Operate(last));
      QuietNext(After(m, AsEvents(front)), Operate(last));
    }
  }

  lemma {:induction false} QuietSteps(es: seq<Event>)
    requires AllQuiet(es)
    ensures Transaction.IsBackground(EventSteps(es)) && AllQuiet(Expiries(es)) && AllQuiet(Operations(es))
  {
    if es != [] {
      assert Quiet(es[|es| - 1]);
      QuietSteps(es[..|es| - 1]);
    }
  }

  lemma {:induction false} SelectedAreBackground(steps: seq<Step>, refills: bool)
    requires Transaction.IsBackground(steps)
    ensures Transaction.IsBackground(Transaction.Select(steps, refills))
  {
    if steps != [] {
      assert IsGlobal(steps[|steps| - 1]);
      SelectedAreBackground(steps[..|steps| - 1], refills);
    }
  }

  /** The serial order of a command that was read before `late` and executed after it: what goes first, and last. */
  function Before(late: seq<Event>): seq<Event> {
    Expiries(late) + AsEvents(Transaction.Select(EventSteps(late), true))
  }

  function Behind(late: seq<Event>): seq<Event> { AsEvents(Transaction.Select(EventSteps(late), false)) }

  lemma OrderIsQuiet(late: seq<Event>)
    requires AllQuiet(late)
    ensures AllQuiet(Before(late)) && AllQuiet(Behind(late))
  {
    hide Quiet;
    QuietSteps(late);
    SelectedAreBackground(EventSteps(late), true);
    SelectedAreBackground(EventSteps(late), false);
    BackgroundRun(Machine(EMPTY, map[]), Transaction.Select(EventSteps(late), true));
    BackgroundRun(Machine(EMPTY, map[]), Transaction.Select(EventSteps(late), false));
  }

  /** A statement on tables that refills and updates have touched since the reads is the whole command between them. */
  lemma LateStatement(t: Tables, steps: seq<Step>, s: Step)
    requires Sound(t) && Transaction.IsBackground(steps) && Reads(t, s).Some?
    ensures var late := Perform(Run(t, steps), Reads(t, s).value);
            var whole := Apply(Run(t, Transaction.Select(steps, true)), s);
            late.failure == whole.failure && late.tables == Run(whole.tables, Transaction.Select(steps, false))
  {
    hide ToBase, Run, Transaction.Select;
    if s.AddExpence? {
      Transaction.LateBackground(t, steps, s, t.FindCategory(s.user, s.name).value);
    } else {
      LateLimit(t, steps, s);
    }
  }

  lemma LateLimit(t: Tables, steps: seq<Step>, s: Step)
    requires Transaction.IsBackground(steps) && s.SetUserLimit? && Reads(t, s).Some?
    ensures var late := Perform(Run(t, steps), Reads(t, s).value);
            var whole := Apply(Run(t, Transaction.Select(steps, true)), s);
            late.failure == whole.failure && late.tables == Run(whole.tables, Transaction.Select(steps, false))
  {
    hide ToBase, Run, Transaction.Select, RatesAfter;
    Transaction.RefillsFirst(t, steps);
    Transaction.BaseCurrenciesStay(t, steps);
    var whole := Apply(Run(t, Transaction.Select(steps, true)), s);
    Transaction.RatesOnly(t, whole.tables, steps);
  }

  lemma LateCommand(m: Machine, late: seq<Event>, s: Step)
    requires Sound(m.t) && AllQuiet(late) && Reads(m.t, s).Some?
    ensures var now, turn := After(m, late), After(m, Before(late));
            var r := Perform(now.t, Reads(m.t, s).value);
            r.failure == Apply(turn.t, s).failure &&
            After(Next(turn, Operate(s)), Behind(late)) ==
              Machine(r.tables,
                      if s.AddExpence? && r.failure.None? then DeleteReports(now.cache, s.user) else now.cache)
  {
    hide Run, Transaction.Select, EventSteps, Perform, Apply, AsEvents, Expiries, Sound, After;
    var steps := EventSteps(late);
    var refills, rates := Transaction.Select(steps, true), Transaction.Select(steps, false);
    QuietSteps(late);
    SelectedAreBackground(steps, true);
    SelectedAreBackground(steps, false);
    QuietSplits(m, m, late);
    EventsAreRun(m, late);
    AfterConcat(m, Expiries(late), AsEvents(refills));
    BackgroundRun(After(m, Expiries(late)), refills);
    BackgroundRun(Next(After(m, Before(late)), Operate(s)), rates);
    LateStatement(m.t, steps, s);
  }

  // ----- every run has a serial order -----

  /** Events in their serial order so far, and what has happened since the reads of the command under way. */
  datatype Order = Order(done: seq<Event>, late: seq<Event>)

  ghost predicate Explains(m0: Machine, s: State, o: Order) {
    var m, now := After(m0, o.done), Machine(s.t, s.cache);
    && Sound(m.t) && AllQuiet(o.late)
    && Outcomes(m0, o.done) == (if s.bot.Invalidating? then s.heard + [Done(None)] else s.heard)
    && (s.bot.Free? || s.bot.Missed? || s.bot.Invalidating? ==> o.late == [])
    && (if s.bot.Invalidating? then m == Machine(s.t, DeleteReports(s.cache, s.bot.user)) else now == After(m, o.late))
    && match s.bot
       case Missed(u, cutoff) => Lookup(m.cache, u, cutoff).None?
       case Rated(u, cutoff, rate) => Lookup(m.cache, u, cutoff).None? && RateOf(m.t, u) == Some(rate)
       case Replied(u, cutoff, rate, es) =>
         Lookup(m.cache, u, cutoff).None? && RateOf(m.t, u) == Some(rate) &&
         Pipeline.RepliesTo(s.t, ReportRequest(u, cutoff), es)
       case Prepared(step, statement) => Converts(step) && Reads(m.t, step) == Some(statement)
       case _ => true
  }

  /** The serial order after an action. */
  ghost function NextOrder(s: State, a: Action, o: Order): Order
    requires Enabled(s, a)
  {
    match a
    case Whole(step) => Order(o.done + [Operate(step)], [])
    case LookUp(u, cutoff) =>
      if Lookup(s.cache, u, cutoff).Some? then Order(o.done + [GetReport(u, cutoff)], []) else o
    case ReadRate =>
      if RateOf(s.t, s.bot.user).None? then Order(o.done + [GetReport(s.bot.user, s.bot.cutoff)], []) else o
    case WriteEntry =>
      Order(o.done + Expiries(o.late) + [GetReport(s.bot.user, s.bot.cutoff)] + Operations(o.late), [])
    case Prepare(step) => if Reads(s.t, step).None? then Order(o.done + [Operate(step)], []) else o
    case Execute => Order(o.done + Before(o.late) + [Operate(s.bot.step)] + Behind(o.late), [])
    case Change(step) => Order(o.done + [Operate(step)], [])
    case Background(e) =>
      if s.bot.Free? || s.bot.Missed? || s.bot.Invalidating? then Order(o.done + [e], [])
      else Order(o.done, o.late + [e])
    case _ => o
  }

  lemma DoneIsSound(m0: Machine, done: seq<Event>)
    requires Sound(m0.t)
    ensures Sound(After(m0, done).t)
  {
    EventsAreRun(m0, done);
    ReachableOwned(m0.t, EventSteps(done));
  }

  lemma NothingLate(m: Machine)
    ensures After(m, []) == m && AllQuiet([])
  {
  }

  /** Actions that are one event of the serial run. */
  lemma AtOnce(m0: Machine, s: State, a: Action, o: Order)
    requires Sound(m0.t) && Explains(m0, s, o) && Enabled(s, a)
    requires a.Whole? || a.LookUp? || a.ReadRate? || a.Change? || (a.Prepare? && Reads(s.t, a.step).None?)
    ensures Explains(m0, Do(s, a), NextOrder(s, a, o))
  {
    hide Apply, Sound, RateOf, ReportOf, Lookup, SetReport, Outcomes, After;
    var o' := NextOrder(s, a, o);
    NothingLate(After(m0, o.done));
    NothingLate(After(m0, o'.done));
    DoneIsSound(m0, o'.done);
    if o' != o {
      var e := o'.done[|o.done|];
      AfterPush(m0, o.done, e);
      OutcomesPush(m0, o.done, e);
      if a.Prepare? {
        NothingRead(s.t, a.step);
      }
    }
  }

  lemma NothingRead(t: Tables, s: Step)
    requires Converts(s) && Reads(t, s).None?
    ensures Apply(t, s) == Exec(t, if s.AddExpence? then Some(NoRows) else None)
  {
    hide ToBase;
  }

  lemma BackgroundExplained(m0: Machine, s: State, a: Action, o: Order)
    requires Sound(m0.t) && Explains(m0, s, o) && Enabled(s, a) && a.Background?
    ensures Explains(m0, Do(s, a), NextOrder(s, a, o))
  {
    hide Apply, Sound, RateOf, ReportOf, Outcomes, After, Reads, Pipeline.RepliesTo;
    var o', e, m, now := NextOrder(s, a, o), a.event, After(m0, o.done), Machine(s.t, s.cache);
    DoneIsSound(m0, o'.done);
    NothingLate(m);
    NothingLate(After(m0, o'.done));
    QuietNext(now, e);
    if o'.late == [] {
      AfterPush(m0, o.done, e);
      OutcomesPush(m0, o.done, e);
      QuietNext(m, e);
    } else {
      AfterPush(m, o.late, e);
      if s.bot.Replied? && e.Operate? {
        Pipeline.BackgroundKeepsAnswers(s.t, e.step, ReportRequest(s.bot.user, s.bot.cutoff), s.bot.expences);
      }
    }
  }

  lemma WriteExplained(m0: Machine, s: State, a: Action, o: Order)
    requires Sound(m0.t) && Explains(m0, s, o) && Enabled(s, a) && a.WriteEntry?
    ensures Explains(m0, Do(s, a), NextOrder(s, a, o))
  {
    hide Apply, Sound, RateOf, ReportOf, Outcomes, After, Lookup, SetReport, FoldRows, RowsOf, Encode,
         Expiries, Operations, Pipeline.RepliesTo, Next;
    var o', m, e := NextOrder(s, a, o), After(m0, o.done), GetReport(s.bot.user, s.bot.cutoff);
    var before := o.done + Expiries(o.late);
    DoneIsSound(m0, o'.done);
    NothingLate(m);
    NothingLate(After(m0, o'.done));
    assert o.late[..|o.late|] == o.late;
    LateReport(m, [], o.late, |o.late|, s.bot.user, s.bot.cutoff, s.bot.expences);
    QuietSteps(o.late);
    AfterConcat(m0, o.done, Expiries(o.late));
    AfterPush(m0, before, e);
    AfterConcat(m0, before + [e], Operations(o.late));
    QuietOutcomes(m0, o.done, Expiries(o.late));
    OutcomesPush(m0, before, e);
    QuietOutcomes(m0, before + [e], Operations(o.late));
  }

  lemma ExecuteExplained(m0: Machine, s: State, a: Action, o: Order)
    requires Sound(m0.t) && Explains(m0, s, o) && Enabled(s, a) && a.Execute?
    ensures Explains(m0, Do(s, a), NextOrder(s, a, o))
  {
    hide Apply, Sound, RateOf, ReportOf, Outcomes, After, Perform, Reads, Before, Behind, Next, DeleteReports;
    var o', m, e := NextOrder(s, a, o), After(m0, o.done), Operate(s.bot.step);
    var before := o.done + Before(o.late);
    DoneIsSound(m0, o'.done);
    NothingLate(After(m0, o'.done));
    LateCommand(m, o.late, s.bot.step);
    OrderIsQuiet(o.late);
    AfterConcat(m0, o.done, Before(o.late));
    AfterPush(m0, before, e);
    AfterConcat(m0, before + [e], Behind(o.late));
    QuietOutcomes(m0, o.done, Before(o.late));
    OutcomesPush(m0, before, e);
    QuietOutcomes(m0, before + [e], Behind(o.late));
  }

  lemma StepExplained(m0: Machine, s: State, a: Action, o: Order)
    requires Sound(m0.t) && Explains(m0, s, o) && Enabled(s, a)
    ensures Explains(m0, Do(s, a), NextOrder(s, a, o))
  {
    hide Apply, Sound, RateOf, ReportOf, Outcomes, After, Perform, Lookup, SetReport, FoldRows;
    match a
    case Receive(_) =>
    case WriteEntry => WriteExplained(m0, s, a, o);
    case Execute => ExecuteExplained(m0, s, a, o);
    case Background(_) => BackgroundExplained(m0, s, a, o);
    case Invalidate => NothingLate(After(m0, o.done));
    case Prepare(step) =>
      if Reads(s.t, step).None? {
        AtOnce(m0, s, a, o);
      } else {
        NothingLate(After(m0, o.done));
      }
    case _ => AtOnce(m0, s, a, o);
  }

  // ----- the serial run has the same commands and the same background events -----

  function Picked(es: seq<Event>, quiet: bool): seq<Event> {
    if es == [] then [] else
      Picked(es[..|es| - 1], quiet) + if Quiet(es[|es| - 1]) == quiet then [es[|es| - 1]] else []
  }

  /** The commands and the background events of a run in small steps. */
  function Sources(actions: seq<Action>): seq<Event> {
    if actions == [] then [] else
      Sources(actions[..|actions| - 1]) +
      match actions[|actions| - 1]
      case Whole(step) => [Operate(step)]
      case LookUp(u, cutoff) => [GetReport(u, cutoff)]
      case Prepare(step) => [Operate(step)]
      case Change(step) => [Operate(step)]
      case Background(e) => [e]
      case _ => []
  }

  function Pending(bot: Bot): seq<Event> {
    match bot
    case Missed(u, cutoff) => [GetReport(u, cutoff)]
    case Rated(u, cutoff, _) => [GetReport(u, cutoff)]
    case Replied(u, cutoff, _, _) => [GetReport(u, cutoff)]
    case Prepared(step, _) => [Operate(step)]
    case _ => []
  }

  /** Commands keep their order; background events are the same ones, each as often. */
  ghost predicate SameSources(sources: seq<Event>, bot: Bot, o: Order) {
    && Picked(sources, false) == Picked(o.done, false) + Pending(bot)
    && multiset(Picked(sources, true)) == multiset(Picked(o.done, true) + o.late)
  }

  lemma PickedPush(es: seq<Event>, e: Event, quiet: bool)
    ensures Picked(es + [e], quiet) == if Quiet(e) == quiet then Picked(es, quiet) + [e] else Picked(es, quiet)
  {
    hide Quiet;
    assert (es + [e])[..|es|] == es;
  }

  lemma {:induction false} PickedQuiet(es: seq<Event>, quiet: seq<Event>)
    requires AllQuiet(quiet)
    ensures Picked(es + quiet, false) == Picked(es, false)
    ensures Picked(es + quiet, true) == Picked(es, true) + quiet
  {
    hide Quiet;
    if quiet == [] {
      assert es + quiet == es;
    } else {
      var front, last := quiet[..|quiet| - 1], quiet[|quiet| - 1];
      PickedQuiet(es, front);
      assert es + quiet == es + front + [last];
      PickedPush(es + front, last, true);
      PickedPush(es + front, last, false);
      assert Picked(es, true) + front + [last] == Picked(es, true) + quiet;
    }
  }

  /** What a command that ends with quiet events before and behind it adds. */
  lemma PickedAround(done: seq<Event>, before: seq<Event>, e: Event, behind: seq<Event>)
    requires AllQuiet(before) && AllQuiet(behind) && !Quiet(e)
    ensures Picked(done + before + [e] + behind, false) == Picked(done, false) + [e]
    ensures Picked(done + before + [e] + behind, true) == Picked(done, true) + before + behind
  {
    hide Quiet;
    hide Picked;
    PickedQuiet(done, before);
    var a := done + before;
    PickedPush(a, e, false);
    PickedPush(a, e, true);
    PickedQuiet(a + [e], behind);
  }

  lemma {:induction false} ExpiriesFirst(es: seq<Event>)
    ensures multiset(Expiries(es) + Operations(es)) == multiset(es)
  {
    if es != [] {
      var front, last := es[..|es| - 1], es[|es| - 1];
      ExpiriesFirst(front);
      assert es == front + [last];
    }
  }

  lemma {:induction false} OrderKeepsEvents(late: seq<Event>)
    requires AllQuiet(late)
    ensures multiset(Before(late) + Behind(late)) == multiset(late)
  {
    if late != [] {
      var front, last := late[..|late| - 1], late[|late| - 1];
      assert Quiet(last);
      OrderKeepsEvents(front);
      assert late == front + [last];
      OrderGrows(front, last);
    }
  }

  lemma OrderGrows(front: seq<Event>, last: Event)
    requires Quiet(last)
    ensures var late := front + [last];
            multiset(Before(late) + Behind(late)) == multiset(Before(front) + Behind(front)) + multiset{last}
  {
    var late := front + [last];
    assert late[..|front|] == front;
    if last.Expire? {
      assert EventSteps(late) == EventSteps(front);
    } else {
      var steps := EventSteps(front);
      assert EventSteps(late) == steps + [last.step];
      SelectPush(steps, last.step, true);
      SelectPush(steps, last.step, false);
    }
  }

  lemma SelectPush(steps: seq<Step>, s: Step, refills: bool)
    ensures AsEvents(Transaction.Select(steps + [s], refills)) ==
            AsEvents(Transaction.Select(steps, refills)) + if s.RefillLimits? == refills then [Operate(s)] else []
  {
    assert (steps + [s])[..|steps|] == steps;
    var selected := Transaction.Select(steps, refills);
    assert (selected + [s])[..|selected|] == selected;
  }

  lemma SourcesPush(actions: seq<Action>, a: Action)
    ensures Sources(actions + [a]) == Sources(actions) + Sources([a])
  {
    assert (actions + [a])[..|actions|] == actions && [a][..0] == [];
  }

  lemma CommandArrives(e: Event, o: Order, sources: seq<Event>)
    requires !Quiet(e) && o.late == [] && SameSources(sources, Free, o)
    ensures forall bot :: Pending(bot) == [e] ==> SameSources(sources + [e], bot, o)
    ensures forall bot :: Pending(bot) == [] ==> SameSources(sources + [e], bot, Order(o.done + [e], []))
  {
    hide Picked, Quiet;
    PickedPush(sources, e, true);
    PickedPush(sources, e, false);
    PickedPush(o.done, e, true);
    PickedPush(o.done, e, false);
    assert Picked(o.done, false) + [] == Picked(o.done, false);
  }

  lemma CommandEnds(e: Event, o: Order, sources: seq<Event>)
    requires !Quiet(e) && o.late == [] && Picked(sources, false) == Picked(o.done, false) + [e]
    requires multiset(Picked(sources, true)) == multiset(Picked(o.done, true) + o.late)
    ensures SameSources(sources, Free, Order(o.done + [e], []))
  {
    hide Picked, Quiet;
    PickedPush(o.done, e, true);
    PickedPush(o.done, e, false);
  }

  lemma BackgroundArrives(e: Event, o: Order, bot: Bot, sources: seq<Event>)
    requires Quiet(e) && SameSources(sources, bot, o)
    ensures SameSources(sources + [e], bot, Order(o.done, o.late + [e]))
    ensures o.late == [] ==> SameSources(sources + [e], bot, Order(o.done + [e], []))
  {
    hide Picked, Quiet;
    PickedPush(sources, e, true);
    PickedPush(sources, e, false);
    PickedPush(o.done, e, true);
    PickedPush(o.done, e, false);
    assert Picked(o.done, true) + (o.late + [e]) == Picked(o.done, true) + o.late + [e];
    assert Picked(o.done, true) + [e] + [] == Picked(o.done, true) + [e];
    assert o.late == [] ==> Picked(o.done, true) + o.late == Picked(o.done, true);
  }

  /** What the sources need of a state: nothing is late unless a command is past its reads. */
  predicate LateOnlyInside(s: State, o: Order) {
    && AllQuiet(o.late)
    && (s.bot.Free? || s.bot.Missed? || s.bot.Invalidating? ==> o.late == [])
    && (s.bot.Prepared? ==> Converts(s.bot.step))
  }

  lemma StepSources(s: State, a: Action, o: Order, sources: seq<Event>)
    requires Enabled(s, a) && LateOnlyInside(s, o) && SameSources(sources, s.bot, o)
    ensures SameSources(sources + Sources([a]), Do(s, a).bot, NextOrder(s, a, o))
  {
    hide Do, NextOrder, SameSources, LateOnlyInside, Enabled;
    SourceOf(a);
    assert sources + [] == sources;
    match a
    case Execute => EndSources(s, a, o, sources);
    case WriteEntry => EndSources(s, a, o, sources);
    case ReadRate => InnerSources(s, a, o, sources);
    case Receive(_) => InnerSources(s, a, o, sources);
    case Invalidate => InnerSources(s, a, o, sources);
    case Background(_) => BackgroundSources(s, a, o, sources);
    case _ => StartSources(s, a, o, sources);
  }

  lemma EndSources(s: State, a: Action, o: Order, sources: seq<Event>)
    requires Enabled(s, a) && LateOnlyInside(s, o) && SameSources(sources, s.bot, o) && (a.Execute? || a.WriteEntry?)
    ensures SameSources(sources, Do(s, a).bot, NextOrder(s, a, o))
  {
    hide Perform, Picked, Before, Behind, Expiries, Operations, SetReport, FoldRows, RowsOf, Encode, AllQuiet;
    if a.Execute? {
      ExecuteSources(s.bot.step, o, sources);
    } else {
      WriteSources(s.bot.user, s.bot.cutoff, o, sources);
    }
  }

  lemma InnerSources(s: State, a: Action, o: Order, sources: seq<Event>)
    requires Enabled(s, a) && LateOnlyInside(s, o) && SameSources(sources, s.bot, o)
    requires a.ReadRate? || a.Receive? || a.Invalidate?
    ensures SameSources(sources, Do(s, a).bot, NextOrder(s, a, o))
  {
    hide RateOf, Picked, Pipeline.RepliesTo, DeleteReports, AllQuiet;
    if a.ReadRate? && RateOf(s.t, s.bot.user).None? {
      CommandEnds(GetReport(s.bot.user, s.bot.cutoff), o, sources);
    }
  }

  lemma BackgroundSources(s: State, a: Action, o: Order, sources: seq<Event>)
    requires Enabled(s, a) && LateOnlyInside(s, o) && SameSources(sources, s.bot, o) && a.Background?
    ensures SameSources(sources + [a.event], Do(s, a).bot, NextOrder(s, a, o))
  {
    hide Next, SameSources, AllQuiet, Quiet;
    BackgroundArrives(a.event, o, s.bot, sources);
  }

  lemma StartSources(s: State, a: Action, o: Order, sources: seq<Event>)
    requires Enabled(s, a) && LateOnlyInside(s, o) && SameSources(sources, s.bot, o)
    requires a.Whole? || a.LookUp? || a.Prepare? || a.Change?
    ensures SameSources(sources + Sources([a]), Do(s, a).bot, NextOrder(s, a, o))
  {
    hide Apply, Lookup, Reads, SameSources, AllQuiet;
    SourceOf(a);
    if a.LookUp? {
      CommandArrives(GetReport(a.user, a.cutoff), o, sources);
    } else {
      CommandArrives(Operate(a.step), o, sources);
    }
  }

  lemma SourceOf(a: Action)
    ensures Sources([a]) ==
            match a
            case Whole(step) => [Operate(step)]
            case LookUp(u, cutoff) => [GetReport(u, cutoff)]
            case Prepare(step) => [Operate(step)]
            case Change(step) => [Operate(step)]
            case Background(e) => [e]
            case _ => []
  {
    assert [a][..0] == [];
  }

  lemma ExecuteSources(step: Step, o: Order, sources: seq<Event>)
    requires AllQuiet(o.late) && Converts(step)
    requires Picked(sources, false) == Picked(o.done, false) + [Operate(step)]
    requires multiset(Picked(sources, true)) == multiset(Picked(o.done, true) + o.late)
    ensures SameSources(sources, Free, Order(o.done + Before(o.late) + [Operate(step)] + Behind(o.late), []))
  {
    hide Picked, Before, Behind;
    OrderIsQuiet(o.late);
    PickedAround(o.done, Before(o.late), Operate(step), Behind(o.late));
    OrderKeepsEvents(o.late);
  }

  lemma WriteSources(u: int, cutoff: int, o: Order, sources: seq<Event>)
    requires AllQuiet(o.late)
    requires Picked(sources, false) == Picked(o.done, false) + [GetReport(u, cutoff)]
    requires multiset(Picked(sources, true)) == multiset(Picked(o.done, true) + o.late)
    ensures SameSources(sources, Free,
                        Order(o.done + Expiries(o.late) + [GetReport(u, cutoff)] + Operations(o.late), []))
  {
    hide Picked, Expiries, Operations;
    QuietSteps(o.late);
    PickedAround(o.done, Expiries(o.late), GetReport(u, cutoff), Operations(o.late));
    ExpiriesFirst(o.late);
  }

  lemma {:induction false} RunExplained(m0: Machine, actions: seq<Action>, s: State) returns (o: Order)
    requires Sound(m0.t) && Reached(State(m0.t, m0.cache, Free, []), actions) == Some(s)
    ensures Explains(m0, s, o) && SameSources(Sources(actions), s.bot, o)
  {
    hide Explains, Do, SameSources, Sources;
    if actions == [] {
      o := Order([], []);
      StartExplained(m0);
    } else {
      var front, last := actions[..|actions| - 1], actions[|actions| - 1];
      var before := Reached(State(m0.t, m0.cache, Free, []), front).value;
      var o' := RunExplained(m0, front, before);
      StepExplained(m0, before, last, o');
      ExplainsLate(m0, before, o');
      StepSources(before, last, o', Sources(front));
      SourcesPush(front, last);
      assert actions == front + [last];
      o := NextOrder(before, last, o');
    }
  }

  lemma ExplainsLate(m0: Machine, s: State, o: Order)
    requires Explains(m0, s, o)
    ensures LateOnlyInside(s, o)
  {
    hide Sound, After, Outcomes, Lookup, RateOf, Reads, Pipeline.RepliesTo, DeleteReports;
  }

  lemma StartExplained(m0: Machine)
    requires Sound(m0.t)
    ensures Explains(m0, State(m0.t, m0.cache, Free, []), Order([], []))
    ensures SameSources(Sources([]), Free, Order([], []))
  {
  }

  // ----- nothing is stuck -----

  /** Every command can start when the bot is free. */
  lemma CommandStarts(s: State, e: Event) returns (a: Action)
    requires s.bot.Free? && !Quiet(e)
    ensures Enabled(s, a) && Sources([a]) == [e]
  {
    match e
    case GetReport(u, cutoff) => a := LookUp(u, cutoff);
    case Operate(step) =>
      a := if Converts(step) then Prepare(step) else if step.ChangeCurrency? then Change(step) else Whole(step);
    SourceOf(a);
  }

  /** How many of its own steps a command still has before it. */
  function Remaining(bot: Bot): nat {
    match bot
    case Free => 0
    case Missed(_, _) => 4
    case Rated(_, _, _) => 3
    case Replied(_, _, _, _) => 2
    case Prepared(_, _) => 2
    case Invalidating(_) => 1
  }

  /** A command that has begun can always take its next step, and comes to its end. */
  lemma NeverStuck(s: State) returns (a: Action)
    requires !s.bot.Free?
    ensures !a.Background? && Enabled(s, a) && Remaining(Do(s, a).bot) < Remaining(s.bot)
  {
    hide Apply, RateOf, IsAnswer, Perform;
    match s.bot
    case Missed(_, _) => a := ReadRate;
    case Rated(u, cutoff, _) =>
      var rows := Pipeline.SomeAnswer(s.t, u, cutoff);
      assert Pipeline.RepliesTo(s.t, ReportRequest(u, cutoff), ScannedAll(rows));
      a := Receive(ScannedAll(rows));
    case Replied(_, _, _, _) => a := WriteEntry;
    case Prepared(_, _) => a := Execute;
    case Invalidating(_) => a := Invalidate;
  }

  /**
   Serializability of whole runs. However refills, rate updates and expiries fall between the reads, replies,
   statements and invalidations of the commands, there is a run of whole events, of the same commands in the same
   order and the same background events, in which every command is told the same, and which ends in the same tables
   and the same cache.
   */
  lemma RunIsSerial(m0: Machine, actions: seq<Action>, s: State) returns (es: seq<Event>)
    requires Sound(m0.t) && Reached(State(m0.t, m0.cache, Free, []), actions) == Some(s)
    ensures s.bot.Free? ==>
              After(m0, es) == Machine(s.t, s.cache) && Outcomes(m0, es) == s.heard &&
              Picked(es, false) == Picked(Sources(actions), false) &&
              multiset(Picked(es, true)) == multiset(Picked(Sources(actions), true))
    ensures !s.bot.Free? ==> Outcomes(m0, es) == s.heard || Outcomes(m0, es) == s.heard + [Done(None)]
  {
    hide Picked, Sources;
    var o := RunExplained(m0, actions, s);
    NothingLate(After(m0, o.done));
    es := o.done;
    assert s.bot.Free? ==> Picked(es, true) + o.late == Picked(es, true);
  }
}
