/** Users do not see each other: erasing everyone else's commands from a run changes nothing for a user. */
module Isolation {
  import opened Wrappers
  import opened Steps
  import opened Tables
  import opened Ledgers
  import opened Refinement
  import opened Reports

  predicate Concerns(s: Step, u: int) { IsGlobal(s) || (!IsGlobal(s) && s.user == u) }

  function OnlyOf(steps: seq<Step>, u: int): seq<Step> {
    if steps == [] then [] else
      var front, last := OnlyOf(steps[..|steps| - 1], u), steps[|steps| - 1];
      if Concerns(last, u) then front + [last] else front
  }

  /** What user `u` can tell two worlds apart by. */
  ghost predicate Alike(w: World, w': World, u: int) {
    w.currencies == w'.currencies && w.Of(u) == w'.Of(u)
  }

  lemma ConcerningStep(w: World, w': World, s: Step, u: int)
    requires Alike(w, w', u) && Concerns(s, u)
    ensures Alike(Perform(w, s).world, Perform(w', s).world, u)
    ensures Perform(w, s).failure == Perform(w', s).failure
  {
    assert w.RateOf(u) == w'.RateOf(u);
  }

  lemma ForeignStep(w: World, s: Step, u: int)
    requires !Concerns(s, u)
    ensures Alike(Perform(w, s).world, w, u)
  {
  }

  /** The outcomes of the user's own steps, in order. */
  ghost function Replies(w: World, steps: seq<Step>, u: int): seq<Option<Failure>> {
    if steps == [] then [] else
      var front, last := steps[..|steps| - 1], steps[|steps| - 1];
      Replies(w, front, u) + if Concerns(last, u) then [Perform(Play(w, front), last).failure] else []
  }

  lemma {:induction false} PlayAlone(w: World, steps: seq<Step>, u: int)
    ensures Alike(Play(w, steps), Play(w, OnlyOf(steps, u)), u)
    ensures Replies(w, steps, u) == Replies(w, OnlyOf(steps, u), u)
  {
    if steps != [] {
      var front, last := steps[..|steps| - 1], steps[|steps| - 1];
      PlayAlone(w, front, u);
      var alone := OnlyOf(front, u);
      if Concerns(last, u) {
        ConcerningStep(Play(w, front), Play(w, alone), last, u);
        assert OnlyOf(steps, u)[..|alone|] == alone;
      } else {
        ForeignStep(Play(w, front), last, u);
      }
    }
  }

  ghost predicate SameLedger(t: Tables, t': Tables, u: int) {
    && t.currencies == t'.currencies
    && (u in t.users <==> u in t'.users)
    && (u in t.users ==> LedgerOf(t, u) == LedgerOf(t', u))
  }

  /**
   On the tables: limits, base currency, category names, expences and recomputed reports of `u`, and the
   outcomes of all of u's steps, are those of the run in which nobody else ever sent a command.
   */
  lemma RunAlone(t: Tables, steps: seq<Step>, u: int)
    requires Sound(t)
    ensures SameLedger(Run(t, steps), Run(t, OnlyOf(steps, u)), u)
    ensures Replies(Abstract(t), steps, u) == Replies(Abstract(t), OnlyOf(steps, u), u)
    ensures forall cutoff, rate :: u in Run(t, steps).users ==>
              ReportOf(BookOf(Run(t, steps), u), cutoff, rate) ==
              ReportOf(BookOf(Run(t, OnlyOf(steps, u)), u), cutoff, rate)
  {
    PlayAlone(Abstract(t), steps, u);
    RunRefines(t, steps);
    RunRefines(t, OnlyOf(steps, u));
    var w, w' := Abstract(Run(t, steps)), Abstract(Run(t, OnlyOf(steps, u)));
    assert w.Of(u) == w'.Of(u);
  }
}
