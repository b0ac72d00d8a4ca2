/**
 The Redis report cache as a map from string keys to hashes of decimal texts, and the machine made of the
 tables and the cache. `GetExpencesMap` answers from the cache when it can and fills it when it cannot.
 */
module ReportCache {
  import opened Wrappers
  import opened Decimal
  import opened Conversion
  import opened Steps
  import opened Tables
  import opened Ledgers
  import opened Refinement
  import opened Reports
  import opened ReportKey

  type Hash = map<string, string>

  type Cache = map<string, Hash>

  function Encode(r: Report): Hash { map name | name in r :: FormatInt(r[name]) }

  /** One unreadable value makes the whole entry unreadable. */
  function Decode(h: Hash): Option<Report> {
    if forall name :: name in h ==> ParseInt(h[name]).Some? then
      Some(map name | name in h :: ParseInt(h[name]).value)
    else None
  }

  /** Reading back what was written gives exactly the report. */
  lemma DecodeEncode(r: Report)
    ensures Decode(Encode(r)) == Some(r)
  {
    hide FormatInt, ParseInt;
    var h := Encode(r);
    forall name | name in h ensures ParseInt(h[name]) == Some(r[name]) {
      ParseFormat(r[name]);
    }
    assert (map name | name in h :: ParseInt(h[name]).value) == r;
  }

  /** A missing key reads as an empty hash, and an empty or unreadable hash is a miss. */
  function Lookup(cache: Cache, user: int, cutoff: int): Option<Report> {
    var key := Key(user, cutoff);
    if key !in cache || cache[key] == map[] then None else Decode(cache[key])
  }

  /** `HSET` adds the fields to whatever the hash already holds, and refuses to be called without fields. */
  function SetReport(cache: Cache, user: int, cutoff: int, h: Hash): Cache {
    var key := Key(user, cutoff);
    if h == map[] then cache else cache[key := (if key in cache then cache[key] else map[]) + h]
  }

  function DeleteReports(cache: Cache, user: int): Cache {
    map key | key in cache && !HasUserPrefix(key, user) :: cache[key]
  }

  /** A report written where there was none is read back as it was, except that an empty one is not written. */
  lemma WrittenIsRead(cache: Cache, user: int, cutoff: int, r: Report)
    requires Key(user, cutoff) !in cache
    ensures var written := SetReport(cache, user, cutoff, Encode(r));
            Lookup(written, user, cutoff) == (if r == map[] then None else Some(r)) &&
            (forall u, c :: Key(u, c) != Key(user, cutoff) ==> Lookup(written, u, c) == Lookup(cache, u, c))
  {
    hide FormatInt, ParseInt, Decode;
    DecodeEncode(r);
    assert map[] + Encode(r) == Encode(r);
    assert Encode(r).Keys == r.Keys;
  }

  /** Written fields join those that are there, and replace the ones of the same name. */
  lemma FieldsJoin(cache: Cache, user: int, cutoff: int, h: Hash, name: string)
    requires Key(user, cutoff) in cache
    ensures var key, written := Key(user, cutoff), SetReport(cache, user, cutoff, h);
            key in written &&
            (name in written[key] <==> name in h || name in cache[key]) &&
            (name in h ==> written[key][name] == h[name]) &&
            (name in cache[key] && name !in h ==> written[key][name] == cache[key][name])
  {
    hide FormatInt;
  }

  /** An entry is a hit exactly if it has fields and each of them is an integer; what it gives are those integers. */
  lemma HitIff(cache: Cache, user: int, cutoff: int, r: Report)
    ensures Lookup(cache, user, cutoff) == Some(r) <==>
            Key(user, cutoff) in cache && r != map[] && cache[Key(user, cutoff)].Keys == r.Keys &&
            forall name :: name in r ==> ParseInt(cache[Key(user, cutoff)][name]) == Some(r[name])
  {
    hide FormatInt, ParseInt;
    if key :| key == Key(user, cutoff) && key in cache && cache[key].Keys == r.Keys {
      assert r != map[] <==> cache[key] != map[] by {
        assert r.Keys == {} <==> r == map[];
        assert cache[key].Keys == {} <==> cache[key] == map[];
      }
      if forall name :: name in r ==> ParseInt(cache[key][name]) == Some(r[name]) {
        assert (map name | name in cache[key] :: ParseInt(cache[key][name]).value) == r;
      }
    }
  }

  // ----- the machine -----

  datatype Machine = Machine(t: Tables, cache: Cache)

  /** An entry disappears ten minutes after it was written, which is to say at any time. */
  datatype Event = Operate(step: Step) | GetReport(user: int, cutoff: int) | Expire(key: string)

  ghost function RateOf(t: Tables, u: int): Option<Rate> { Abstract(t).RateOf(u) }

  /** The report computed from the tables; a missing user has none. */
  ghost function Recomputed(t: Tables, u: int, cutoff: int): Option<Report> {
    if RateOf(t, u).Some? then Some(ReportOf(BookOf(t, u), cutoff, RateOf(t, u).value)) else None
  }

  /** The value of `GetExpencesMap`. */
  ghost function Answer(m: Machine, u: int, cutoff: int): Option<Report> {
    if Lookup(m.cache, u, cutoff).Some? then Lookup(m.cache, u, cutoff) else Recomputed(m.t, u, cutoff)
  }

  predicate Invalidates(s: Step) { s.AddExpence? || s.ChangeCurrency? }

  ghost function Next(m: Machine, e: Event): Machine {
    match e
    case Operate(s) =>
      var r := Apply(m.t, s);
      Machine(r.tables, if Invalidates(s) && r.failure.None? then DeleteReports(m.cache, s.user) else m.cache)
    case GetReport(u, cutoff) =>
      if Lookup(m.cache, u, cutoff).Some? || Recomputed(m.t, u, cutoff).None? then m
      else m.(cache := SetReport(m.cache, u, cutoff, Encode(Recomputed(m.t, u, cutoff).value)))
    case Expire(key) => m.(cache := m.cache - {key})
  }

  ghost function After(m: Machine, es: seq<Event>): Machine {
    if es == [] then m else Next(After(m, es[..|es| - 1]), es[|es| - 1])
  }

  /** Values returned by the report events of a run, in order. */
  ghost function Answers(m: Machine, es: seq<Event>): seq<Option<Report>> {
    if es == [] then [] else
      var front, last := es[..|es| - 1], es[|es| - 1];
      Answers(m, front) + if last.GetReport? then [Answer(After(m, front), last.user, last.cutoff)] else []
  }

  /** The same run without a cache. */
  ghost function CachelessAnswers(m: Machine, es: seq<Event>): seq<Option<Report>> {
    if es == [] then [] else
      var front, last := es[..|es| - 1], es[|es| - 1];
      CachelessAnswers(m, front) +
      if last.GetReport? then [Recomputed(After(m, front).t, last.user, last.cutoff)] else []
  }

  function EventSteps(es: seq<Event>): seq<Step> {
    if es == [] then [] else
      EventSteps(es[..|es| - 1]) + if es[|es| - 1].Operate? then [es[|es| - 1].step] else []
  }

  lemma TablesAfterOthers(m: Machine, e: Event)
    requires !e.Operate?
    ensures Next(m, e).t == m.t
  {
  }

  lemma {:induction false} EventsAreRun(m: Machine, es: seq<Event>)
    ensures After(m, es).t == Run(m.t, EventSteps(es))
  {
    hide Apply, Recomputed, Lookup;
    if es != [] {
      var front, last := es[..|es| - 1], es[|es| - 1];
      EventsAreRun(m, front);
      if last.Operate? {
        RunPush(m.t, EventSteps(front), last.step);
      } else {
        assert EventSteps(es) == EventSteps(front);
        TablesAfterOthers(After(m, front), last);
      }
    }
  }

  lemma AfterPush(m: Machine, es: seq<Event>, e: Event)
    ensures After(m, es + [e]) == Next(After(m, es), e)
  {
    assert (es + [e])[..|es|] == es;
  }

  lemma {:induction false} AfterConcat(m: Machine, a: seq<Event>, b: seq<Event>)
    ensures After(m, a + b) == After(After(m, a), b)
  {
    if b == [] {
      assert a + b == a;
    } else {
      AfterConcat(m, a, b[..|b| - 1]);
      assert (a + b)[..|a + b| - 1] == a + b[..|b| - 1];
    }
  }

  lemma AfterShort(m: Machine, e: Event, e': Event)
    ensures After(m, [e]) == Next(m, e)
    ensures After(m, [e, e']) == Next(Next(m, e), e')
  {
    hide Next;
    assert [e][..0] == [] && [e, e'][..1] == [e];
    assert After(m, []) == m;
  }

  // ----- which entry was filled when -----

  /** Whose report an entry holds, and the rate that was read by the miss that filled it. */
  datatype Fill = Fill(user: int, cutoff: int, rate: Rate)

  type Fills = map<string, Fill>

  /** The entries filled since their user was last reset. */
  ghost function NextFills(f: Fills, m: Machine, e: Event): Fills {
    match e
    case Operate(s) =>
      if Invalidates(s) && Apply(m.t, s).failure.None? then map k | k in f && !HasUserPrefix(k, s.user) :: f[k]
      else if s.ResetUser? then map k | k in f && f[k].user != s.user :: f[k]
      else f
    case GetReport(u, cutoff) =>
      var computed := Recomputed(m.t, u, cutoff);
      if Lookup(m.cache, u, cutoff).None? && computed.Some? && computed.value != map[]
      then f[Key(u, cutoff) := Fill(u, cutoff, RateOf(m.t, u).value)]
      else f
    case Expire(key) => f - {key}
  }

  ghost function FillsAfter(m: Machine, es: seq<Event>): Fills {
    if es == [] then map[] else
      var front := es[..|es| - 1];
      NextFills(FillsAfter(m, front), After(m, front), es[|es| - 1])
  }

  /** The entry under `key` is the user's report on the present tables, at the rate of its fill. */
  ghost predicate Current(m: Machine, key: string, f: Fill) {
    && key == Key(f.user, f.cutoff) && key in m.cache && f.user >= 1
    && f.user in m.t.users
    && ReportOf(BookOf(m.t, f.user), f.cutoff, f.rate) != map[]
    && m.cache[key] == Encode(ReportOf(BookOf(m.t, f.user), f.cutoff, f.rate))
  }

  ghost predicate Readable(cache: Cache) {
    forall k :: k in cache ==> cache[k] != map[] && Decode(cache[k]).Some?
  }

  ghost predicate Tracked(m: Machine, f: Fills, cutoffs: iset<int>) {
    && Sound(m.t)
    && Readable(m.cache)
    && (forall k :: k in f ==> Current(m, k, f[k]) && f[k].cutoff in cutoffs)
  }

  ghost predicate UsesCutoffs(es: seq<Event>, cutoffs: iset<int>) {
    forall i :: 0 <= i < |es| && es[i].GetReport? ==> es[i].user >= 1 && es[i].cutoff in cutoffs
  }

  /** Only three kinds of step change a user's book: adding an expence, adding a category, and a reset. */
  lemma BookFrame(t: Tables, s: Step, u: int)
    requires Sound(t) && u in t.users && s != ResetUser(u)
    ensures u in Apply(t, s).tables.users
    ensures !(s.AddExpence? && s.user == u && Apply(t, s).failure.None?) && !(s.AddCategory? && s.user == u) ==>
              BookOf(Apply(t, s).tables, u) == BookOf(t, u)
    ensures s.AddCategory? && s.user == u ==>
              BookOf(Apply(t, s).tables, u) == BookOf(t, u) ||
              (s.name !in BookOf(t, u) && BookOf(Apply(t, s).tables, u) == BookOf(t, u)[s.name := []])
  {
    hide ToBase, BookOf, Apply, RatesAfter;
    StepRefines(t, s);
    assert Abstract(t).ledgers[u] == LedgerOf(t, u);
    var t' := Apply(t, s).tables;
    assert u in Perform(Abstract(t), s).world.ledgers;
    assert Abstract(t').ledgers[u] == LedgerOf(t', u);
  }

  /** A category without expences has no line in any report. */
  lemma ReportFrame(t: Tables, s: Step, u: int, cutoff: int, rate: Rate)
    requires Sound(t) && u in t.users && s != ResetUser(u)
    requires !(s.AddExpence? && s.user == u && Apply(t, s).failure.None?)
    ensures u in Apply(t, s).tables.users
    ensures ReportOf(BookOf(Apply(t, s).tables, u), cutoff, rate) == ReportOf(BookOf(t, u), cutoff, rate)
  {
    hide Apply, BookOf;
    BookFrame(t, s, u);
  }

  lemma StorageKeepsTracked(m: Machine, f: Fills, s: Step, cutoffs: iset<int>)
    requires Tracked(m, f, cutoffs)
    ensures Tracked(Next(m, Operate(s)), NextFills(f, m, Operate(s)), cutoffs)
  {
    hide Apply, BookOf, ReportOf, Encode, Decode;
    ApplyKeepsInvariants(m.t, s);
    var m', f' := Next(m, Operate(s)), NextFills(f, m, Operate(s));
    forall k | k in f' ensures Current(m', k, f'[k]) {
      var fill := f[k];
      OwnKeyHasPrefix(fill.user, fill.cutoff);
      ReportFrame(m.t, s, fill.user, fill.cutoff, fill.rate);
    }
  }

  lemma RecomputedIsReport(t: Tables, u: int, cutoff: int)
    requires Recomputed(t, u, cutoff).Some?
    ensures u in t.users && RateOf(t, u).Some?
    ensures Recomputed(t, u, cutoff).value == ReportOf(BookOf(t, u), cutoff, RateOf(t, u).value)
  {
  }

  /** A miss means the key is absent, so the fill writes exactly the recomputed report. */
  lemma MissFills(m: Machine, u: int, cutoff: int, report: Report)
    requires Readable(m.cache) && Lookup(m.cache, u, cutoff).None? && Recomputed(m.t, u, cutoff) == Some(report)
    ensures Next(m, GetReport(u, cutoff)) ==
            if report == map[] then m else m.(cache := m.cache[Key(u, cutoff) := Encode(report)])
    ensures Decode(Encode(report)).Some? && (report != map[] ==> Encode(report) != map[])
  {
    hide FormatInt, ParseInt, Recomputed;
    DecodeEncode(report);
    assert Key(u, cutoff) !in m.cache;
    assert map[] + Encode(report) == Encode(report);
    assert Encode(report).Keys == report.Keys;
  }

  lemma FillKeepsTracked(m: Machine, f: Fills, u: int, cutoff: int, cutoffs: iset<int>)
    requires Tracked(m, f, cutoffs) && u >= 1 && cutoff in cutoffs
    ensures Tracked(Next(m, GetReport(u, cutoff)), NextFills(f, m, GetReport(u, cutoff)), cutoffs)
  {
    hide BookOf, ReportOf, FormatInt, HasUserPrefix, RateOf, Recomputed, Lookup, Encode, Decode;
    if Lookup(m.cache, u, cutoff).None? && Recomputed(m.t, u, cutoff).Some? {
      MissFills(m, u, cutoff, Recomputed(m.t, u, cutoff).value);
      RecomputedIsReport(m.t, u, cutoff);
    }
  }

  lemma NothingTracked(m: Machine, cutoffs: iset<int>)
    requires Sound(m.t) && m.cache == map[]
    ensures Tracked(m, map[], cutoffs)
  {
  }

  lemma ExpiryKeepsTracked(m: Machine, f: Fills, key: string, cutoffs: iset<int>)
    requires Tracked(m, f, cutoffs)
    ensures Tracked(Next(m, Expire(key)), NextFills(f, m, Expire(key)), cutoffs)
  {
    hide BookOf, ReportOf, FormatInt, ParseInt, Encode, Decode;
  }

  lemma {:induction false} RunTracked(m: Machine, es: seq<Event>, cutoffs: iset<int>)
    requires Sound(m.t) && m.cache == map[] && UsesCutoffs(es, cutoffs)
    ensures Tracked(After(m, es), FillsAfter(m, es), cutoffs)
  {
    hide Tracked, Next, NextFills, FormatInt, ParseInt;
    if es == [] {
      NothingTracked(m, cutoffs);
    } else {
      var front, last := es[..|es| - 1], es[|es| - 1];
      RunTracked(m, front, cutoffs);
      match last
      case Operate(s) => StorageKeepsTracked(After(m, front), FillsAfter(m, front), s, cutoffs);
      case GetReport(u, cutoff) => FillKeepsTracked(After(m, front), FillsAfter(m, front), u, cutoff, cutoffs);
      case Expire(key) => ExpiryKeepsTracked(After(m, front), FillsAfter(m, front), key, cutoffs);
    }
  }

  /** The entries that no fill accounts for belong to users who were reset. */
  ghost predicate OrphansReset(m: Machine, f: Fills, resets: set<int>, cutoffs: iset<int>) {
    forall k :: k in m.cache && k !in f ==> exists v, c :: v in resets && v >= 1 && c in cutoffs && k == Key(v, c)
  }

  function Resets(es: seq<Event>): set<int> {
    set i | 0 <= i < |es| && es[i].Operate? && es[i].step.ResetUser? :: es[i].step.user
  }

  lemma ResetsGrow(es: seq<Event>, e: Event)
    ensures Resets(es) <= Resets(es + [e])
    ensures e.Operate? && e.step.ResetUser? ==> e.step.user in Resets(es + [e])
  {
    var es' := es + [e];
    forall v | v in Resets(es) ensures v in Resets(es') {
      var i :| 0 <= i < |es| && es[i].Operate? && es[i].step.ResetUser? && es[i].step.user == v;
      assert es'[i] == es[i];
    }
    assert es'[|es|] == e;
  }

  lemma {:induction false} RunOrphans(m: Machine, es: seq<Event>, cutoffs: iset<int>)
    requires Sound(m.t) && m.cache == map[] && UsesCutoffs(es, cutoffs)
    ensures OrphansReset(After(m, es), FillsAfter(m, es), Resets(es), cutoffs)
  {
    hide Next, NextFills, Tracked, FormatInt;
    if es != [] {
      var front, last := es[..|es| - 1], es[|es| - 1];
      RunOrphans(m, front, cutoffs);
      RunTracked(m, front, cutoffs);
      ResetsGrow(front, last);
      assert es == front + [last];
      OrphanStep(After(m, front), FillsAfter(m, front), last, Resets(front), Resets(es), cutoffs);
    }
  }

  lemma OrphanStep(m: Machine, f: Fills, e: Event, resets: set<int>, resets': set<int>, cutoffs: iset<int>)
    requires Tracked(m, f, cutoffs) && OrphansReset(m, f, resets, cutoffs) && resets <= resets'
    requires e.Operate? && e.step.ResetUser? ==> e.step.user in resets'
    ensures OrphansReset(Next(m, e), NextFills(f, m, e), resets', cutoffs)
  {
    hide Apply, BookOf, ReportOf, Decode, HasUserPrefix, FormatInt;
    var m', f' := Next(m, e), NextFills(f, m, e);
    forall k | k in m'.cache && k !in f'
      ensures exists v, c :: v in resets' && v >= 1 && c in cutoffs && k == Key(v, c)
    {
      if e.GetReport? && Recomputed(m.t, e.user, e.cutoff).Some? {
        var report := Recomputed(m.t, e.user, e.cutoff).value;
        assert Encode(report).Keys == report.Keys;
      }
      if k in f && e.Operate? && e.step.ResetUser? {
        assert f[k].user == e.step.user;
        assert f[k].user in resets' && f[k].cutoff in cutoffs && k == Key(f[k].user, f[k].cutoff);
      }
    }
  }

  /**
   Cache refinement over runs whose cut-offs never end in one another. A report is, on a miss, the recomputed
   one; on a hit on an entry filled since the user's last reset, the one recomputed from the user's present
   expences at the rate that was read by the filling miss. Any other hit is on an entry that outlived a reset.
   */
  lemma CacheAgrees(m: Machine, es: seq<Event>, cutoffs: iset<int>, u: int, cutoff: int)
    requires Sound(m.t) && m.cache == map[] && UsesCutoffs(es, cutoffs) && SuffixFree(cutoffs)
    requires u >= 1 && cutoff in cutoffs
    ensures var m', f, key := After(m, es), FillsAfter(m, es), Key(u, cutoff);
            (key !in m'.cache ==> Answer(m', u, cutoff) == Recomputed(m'.t, u, cutoff)) &&
            (key in f ==>
               f[key].user == u && f[key].cutoff == cutoff && u in m'.t.users && key in m'.cache &&
               Answer(m', u, cutoff) == Some(ReportOf(BookOf(m'.t, u), cutoff, f[key].rate))) &&
            (key in m'.cache && key !in f ==> u in Resets(es))
  {
    hide BookOf, ReportOf, FormatInt;
    RunTracked(m, es, cutoffs);
    RunOrphans(m, es, cutoffs);
    var m', f, key := After(m, es), FillsAfter(m, es), Key(u, cutoff);
    if key in f {
      SuffixFreeSeparates(cutoffs, u, cutoff, f[key].user, f[key].cutoff);
      DecodeEncode(ReportOf(BookOf(m'.t, u), cutoff, f[key].rate));
    } else if key in m'.cache {
      var v, c :| v in Resets(es) && v >= 1 && c in cutoffs && key == Key(v, c);
      SuffixFreeSeparates(cutoffs, u, cutoff, v, c);
    }
  }
}
