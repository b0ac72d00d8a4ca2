/**
 A report takes a while: the cache is read first, then the user's rate, then the expences arrive by way of the
 pipeline, and the entry is written last. Commands wait, but background services and Redis do not.
 */
module LateReports {
  import opened Wrappers
  import opened Steps
  import opened Tables
  import opened Refinement
  import opened Reports
  import opened ReportCache
  import opened ReportWire
  import Pipeline

  /** What happens while the bot is busy with a report: refills, rate updates, and entries that expire. */
  predicate Quiet(e: Event) { e.Expire? || (e.Operate? && IsGlobal(e.step)) }

  predicate AllQuiet(es: seq<Event>) { forall i :: 0 <= i < |es| ==> Quiet(es[i]) }

  function Expiries(es: seq<Event>): seq<Event> {
    if es == [] then [] else Expiries(es[..|es| - 1]) + if es[|es| - 1].Expire? then [es[|es| - 1]] else []
  }

  function Operations(es: seq<Event>): seq<Event> {
    if es == [] then [] else Operations(es[..|es| - 1]) + if es[|es| - 1].Expire? then [] else [es[|es| - 1]]
  }

  lemma QuietNext(m: Machine, e: Event)
    requires Quiet(e)
    ensures e.Expire? ==> Next(m, e) == Machine(m.t, m.cache - {e.key})
    ensures e.Operate? ==> Next(m, e) == Machine(Apply(m.t, e.step).tables, m.cache)
  {
    hide Apply;
  }

  /** Expiries touch the cache only, background steps the tables only. */
  lemma {:induction false} QuietSplits(m: Machine, m': Machine, es: seq<Event>)
    requires AllQuiet(es) && m.t == m'.t
    ensures After(m, Expiries(es)) == Machine(m.t, After(m, es).cache)
    ensures After(m', Operations(es)) == Machine(After(m, es).t, m'.cache)
  {
    hide Next;
    if es != [] {
      var front, last := es[..|es| - 1], es[|es| - 1];
      QuietSplits(m, m', front);
      assert Expiries(front) + [] == Expiries(front) && Operations(front) + [] == Operations(front);
      AfterPush(m, Expiries(front), last);
      AfterPush(m', Operations(front), last);
      QuietNext(After(m, front), last);
      QuietNext(After(m, Expiries(front)), last);
      QuietNext(After(m', Operations(front)), last);
    }
  }

  /** Nothing quiet touches a user's book, or puts an entry into the cache. */
  lemma {:induction false} QuietKeeps(m: Machine, es: seq<Event>, u: int, cutoff: int)
    requires AllQuiet(es) && Sound(m.t)
    ensures Sound(After(m, es).t) && BookOf(After(m, es).t, u) == BookOf(m.t, u)
    ensures Lookup(m.cache, u, cutoff).None? ==> Lookup(After(m, es).cache, u, cutoff).None?
  {
    hide Next, BookOf, Sound, Apply;
    if es != [] {
      var before, last := After(m, es[..|es| - 1]), es[|es| - 1];
      QuietKeeps(m, es[..|es| - 1], u, cutoff);
      QuietNext(before, last);
      if last.Operate? {
        ApplyKeepsInvariants(before.t, last.step);
        GlobalKeepsBooks(before.t, last.step, u);
      }
    }
  }

  lemma GlobalKeepsBooks(t: Tables, s: Step, u: int)
    requires IsGlobal(s)
    ensures BookOf(Apply(t, s).tables, u) == BookOf(t, u)
  {
    hide BookOf, RatesAfter;
    SameBooks(t, Apply(t, s).tables);
  }

  /**
   A report as it really runs: the cache is read at `m` and has no entry, the rate is read after `early`, the
   reply is made `k` events later, and the entry is written after all of `late`. Answer and outcome are those of
   one report event in this order: `early`, the late expiries, the report, the late background steps.
   */
  lemma LateReport(m: Machine, early: seq<Event>, late: seq<Event>, k: nat, u: int, cutoff: int, es: seq<Expence>)
    requires Sound(m.t) && Lookup(m.cache, u, cutoff).None? && AllQuiet(early) && AllQuiet(late) && k <= |late|
    requires RateOf(After(m, early).t, u).Some?
    requires Pipeline.RepliesTo(After(After(m, early), late[..k]).t, ReportRequest(u, cutoff), es)
    ensures var read := After(m, early);
            var answer := FoldRows(RowsOf(es), RateOf(read.t, u).value);
            var end, turn := After(read, late), After(read, Expiries(late));
            Answer(turn, u, cutoff) == Some(answer) &&
            Machine(end.t, SetReport(end.cache, u, cutoff, Encode(answer))) ==
              After(Next(turn, GetReport(u, cutoff)), Operations(late))
  {
    hide Sound, BookOf, FoldRows, RowsOf, ReportOf, RateOf, After, Expiries, Operations, Lookup, SetReport, Encode;
    var read, rate := After(m, early), RateOf(After(m, early).t, u).value;
    var turn := After(read, Expiries(late));
    QuietKeeps(m, early, u, cutoff);
    QuietKeeps(read, late, u, cutoff);
    QuietKeeps(read, late[..k], u, cutoff);
    Pipeline.ReplyFoldsToReport(After(read, late[..k]).t, ReportRequest(u, cutoff), es, rate);
    QuietSplits(read, read, late);
    QuietSplits(read, Next(turn, GetReport(u, cutoff)), late);
  }
}
