/**
 Sessions as runs of the cached machine, and what a user gets to see of other users in answers to `/report`:
 nothing, under conditions about that user alone.
 */
module SessionReports {
  import opened Steps
  import opened Tables
  import opened ReportKey
  import opened ReportCache
  import opened CacheTransparency
  import opened Isolation
  import opened Commands
  import opened Sessions

  // ----- sessions are runs of events -----

  ghost function EventsOf(m: Machine, input: Input, dates: DateParser): seq<Event> {
    match input
    case FromUser(u, command, clock) =>
      (if u in m.t.users then [] else [Operate(AddUser(u))]) +
      (match EventOf(Greeted(m, u).t, u, command, clock, dates)
       case Success(e) => [e]
       case Failure(_) => [])
    case FromService(step) => if IsGlobal(step) then [Operate(step)] else []
    case Expiry(key) => [Expire(key)]
  }

  ghost function SessionEvents(m: Machine, inputs: seq<Input>, dates: DateParser): seq<Event> {
    if inputs == [] then [] else
      var front := inputs[..|inputs| - 1];
      SessionEvents(m, front, dates) + EventsOf(Session(m, front, dates), inputs[|inputs| - 1], dates)
  }

  lemma InputEvents(m: Machine, input: Input, dates: DateParser)
    ensures Respond(m, input, dates) == After(m, EventsOf(m, input, dates))
  {
    hide Next, EventOf, ReplyTo;
    match input
    case FromUser(u, command, clock) =>
      var hello := Operate(AddUser(u));
      match EventOf(Greeted(m, u).t, u, command, clock, dates) {
        case Success(e) => AfterShort(m, e, e); AfterShort(m, hello, e); assert [hello, e] == [hello] + [e];
        case Failure(_) => AfterShort(m, hello, hello);
      }
    case FromService(step) => AfterShort(m, Operate(step), Operate(step));
    case Expiry(key) => AfterShort(m, Expire(key), Expire(key));
  }

  /** What is proved of runs of the cached machine holds of sessions. */
  lemma {:induction false} SessionIsEvents(m: Machine, inputs: seq<Input>, dates: DateParser)
    ensures Session(m, inputs, dates) == After(m, SessionEvents(m, inputs, dates))
  {
    hide Respond, EventsOf;
    if inputs != [] {
      var front, last := inputs[..|inputs| - 1], inputs[|inputs| - 1];
      SessionIsEvents(m, front, dates);
      InputEvents(Session(m, front, dates), last, dates);
      AfterConcat(m, SessionEvents(m, front, dates), EventsOf(Session(m, front, dates), last, dates));
    }
  }

  // ----- cut-offs of a session -----

  /** The reports asked for come from positive user ids and have their cut-offs in the set. */
  ghost predicate AsksWithin(input: Input, cutoffs: iset<int>) {
    input.FromUser? && input.command.Report? ==>
      input.user >= 1 && CutoffOf(Split(input.command.text)[0], input.clock) in cutoffs
  }

  ghost predicate AllAskWithin(inputs: seq<Input>, cutoffs: iset<int>) {
    forall i :: 0 <= i < |inputs| ==> AsksWithin(inputs[i], cutoffs)
  }

  lemma InputCutoffs(m: Machine, input: Input, dates: DateParser, cutoffs: iset<int>)
    requires AsksWithin(input, cutoffs)
    ensures UsesCutoffs(EventsOf(m, input, dates), cutoffs)
  {
    hide Split, Next, Money.ConvertStringAmountToSub;
    if input.FromUser? {
      OwnSteps(Greeted(m, input.user).t, input.user, input.command, input.clock, dates);
    }
  }

  lemma {:induction false} SessionCutoffs(m: Machine, inputs: seq<Input>, dates: DateParser, cutoffs: iset<int>)
    requires AllAskWithin(inputs, cutoffs)
    ensures UsesCutoffs(SessionEvents(m, inputs, dates), cutoffs)
  {
    hide EventsOf, AsksWithin;
    if inputs != [] {
      SessionCutoffs(m, inputs[..|inputs| - 1], dates, cutoffs);
      InputCutoffs(Session(m, inputs[..|inputs| - 1], dates), inputs[|inputs| - 1], dates, cutoffs);
    }
  }

  lemma {:induction false} OnlyAboutAsks(inputs: seq<Input>, u: int, cutoffs: iset<int>)
    requires AllAskWithin(inputs, cutoffs)
    ensures AllAskWithin(OnlyAbout(inputs, u), cutoffs)
  {
    hide AsksWithin;
    if inputs != [] {
      OnlyAboutAsks(inputs[..|inputs| - 1], u, cutoffs);
    }
  }

  // ----- answers to reports -----

  lemma GreetedFresh(m: Machine, f: Fills, u: int, cutoffs: iset<int>)
    requires Tracked(m, f, cutoffs) && OwnEntriesFresh(m, f, u, cutoffs) && SuffixFree(cutoffs) && u >= 1
    ensures Tracked(Greeted(m, u), f, cutoffs) && OwnEntriesFresh(Greeted(m, u), f, u, cutoffs)
  {
    hide Tracked, OwnEntriesFresh, Next;
    if u !in m.t.users {
      var e := Operate(AddUser(u));
      StorageKeepsTracked(m, f, e.step, cutoffs);
      OperateKeepsFresh(m, f, e.step, u, cutoffs);
    }
  }

  /** A user in whose own regard a session was steady is told the recomputed report. */
  lemma ToldRecomputed(m: Machine, inputs: seq<Input>, u: int, cutoff: int, dates: DateParser, cutoffs: iset<int>)
    requires Sound(m.t) && m.cache == map[] && SuffixFree(cutoffs) && AllAskWithin(inputs, cutoffs)
    requires u >= 1 && cutoff in cutoffs && SteadyFor(m, SessionEvents(m, inputs, dates), u, cutoffs)
    ensures var k := Greeted(Session(m, inputs, dates), u); Answer(k, u, cutoff) == Recomputed(k.t, u, cutoff)
  {
    hide *;
    var es := SessionEvents(m, inputs, dates);
    SessionIsEvents(m, inputs, dates);
    SessionCutoffs(m, inputs, dates, cutoffs);
    RunTracked(m, es, cutoffs);
    RunFresh(m, es, u, cutoffs);
    GreetedFresh(After(m, es), FillsAfter(m, es), u, cutoffs);
    FreshAnswer(Greeted(After(m, es), u), FillsAfter(m, es), u, cutoff, cutoffs);
  }

  /**
   Isolation of answers to `/report`. With clash-free cut-offs, a user is told the same report whether or not
   others sent commands in between, as long as it was this user who was not reset, and whose rate did not change,
   while an entry of theirs was live. What happens to others does not matter.
   */
  lemma ReportIsolation(
    m: Machine, inputs: seq<Input>, u: int, dates: DateParser, cutoffs: iset<int>, text: string, clock: Clock)
    requires Sound(m.t) && m.cache == map[] && SuffixFree(cutoffs) && AllAskWithin(inputs, cutoffs)
    requires u >= 1 && CutoffOf(Split(text)[0], clock) in cutoffs
    requires SteadyFor(m, SessionEvents(m, inputs, dates), u, cutoffs)
    requires SteadyFor(m, SessionEvents(m, OnlyAbout(inputs, u), dates), u, cutoffs)
    ensures Handle(Session(m, inputs, dates), u, Command.Report(text), clock, dates).1 ==
            Handle(Session(m, OnlyAbout(inputs, u), dates), u, Command.Report(text), clock, dates).1
  {
    hide Handle, Split, Session, SteadyFor, Answer, Recomputed, SuffixFree, Sound, SameLedger, Greeted, OnlyAbout;
    var cutoff := CutoffOf(Split(text)[0], clock);
    var a, b := Session(m, inputs, dates), Session(m, OnlyAbout(inputs, u), dates);
    OnlyAboutAsks(inputs, u, cutoffs);
    ToldRecomputed(m, inputs, u, cutoff, dates, cutoffs);
    ToldRecomputed(m, OnlyAbout(inputs, u), u, cutoff, dates, cutoffs);
    SessionLedgers(m, inputs, u, dates);
    SessionSound(m, inputs, dates);
    SessionSound(m, OnlyAbout(inputs, u), dates);
    SameGreeting(a, b, u);
    SameRecomputed(Greeted(a, u).t, Greeted(b, u).t, u, cutoff);
    SameReport(a, b, u, text, clock, dates);
  }

  lemma SameRecomputed(t: Tables, t': Tables, u: int, cutoff: int)
    requires SameLedger(t, t', u)
    ensures Recomputed(t, u, cutoff) == Recomputed(t', u, cutoff)
  {
    assert RateOf(t, u) == RateOf(t', u) by { SameLedgerIsAlike(t, t', u); }
  }

  lemma SameReport(a: Machine, b: Machine, u: int, text: string, clock: Clock, dates: DateParser)
    requires var cutoff := CutoffOf(Split(text)[0], clock);
             Answer(Greeted(a, u), u, cutoff) == Answer(Greeted(b, u), u, cutoff)
    ensures Handle(a, u, Command.Report(text), clock, dates).1 == Handle(b, u, Command.Report(text), clock, dates).1
  {
    hide Split, Next, Answer;
  }
}
