/**
 The `AddExpence` transaction, statement by statement, against the monthly refill, row by row, at the
 READ COMMITTED level: an update locks its row until its transaction ends, and works on the row's last
 committed version. Users, their default limits and categories stay as they are meanwhile; rates may change.
 */
module Transaction {
  import opened Wrappers
  import opened Conversion
  import opened Steps
  import opened Tables

  datatype Bot =
    | Idle
    | Began(row: ExpenceRow, monthStart: int)
    /** The debit is pending, and the user's row locked. */
    | Debited(row: ExpenceRow, monthStart: int, left: int)
    /** The debit failed in the database; the code goes on, but every statement of this transaction now fails. */
    | Aborted(row: ExpenceRow, monthStart: int)
    /** The new row is pending too. An expence that is not charged has no pending debit. */
    | Inserted(row: ExpenceRow, monthStart: int, debit: Option<int>)

  /** The refill has locked and rewritten the rows in `pending` and has yet to reach those in `todo`. */
  datatype Refill = Refill(pending: map<int, int>, todo: set<int>)

  /** Whole operations, in the order in which they took effect. A failed insert may cost an expence id. */
  datatype Op = Posted(row: ExpenceRow, monthStart: int) | Refilled | RatesUpdated(fetched: seq<Currency>) | IdLost

  datatype State = State(db: Tables, bot: Bot, refill: Option<Refill>, log: seq<Op>)

  datatype Action =
    | Begin(row: ExpenceRow, monthStart: int)
    | NoSuchUser
    | Debit
    | DebitError
    | Refuse
    | Insert
    | InsertError(drawn: bool)
    | Commit
    | CommitError
    | RefillStart
    | RefillRow(user: int)
    | RefillCommit
    | Rates(fetched: seq<Currency>)

  predicate BotLocks(s: State, u: int) {
    (s.bot.Debited? || (s.bot.Inserted? && s.bot.debit.Some?)) && s.bot.row.userId == u
  }

  predicate RefillLocks(s: State, u: int) { s.refill.Some? && u in s.refill.value.pending }

  /** A charged expence needs its debit first, and a debit that leaves a non-negative limit. */
  predicate ReadyToInsert(bot: Bot) {
    (bot.Began? && bot.row.ts <= bot.monthStart) || (bot.Debited? && bot.left >= 0)
  }

  predicate Enabled(s: State, a: Action) {
    match a
    case Begin(_, _) => s.bot.Idle?
    case NoSuchUser => s.bot.Began? && s.bot.row.ts > s.bot.monthStart && s.bot.row.userId !in s.db.users
    case Debit =>
      s.bot.Began? && s.bot.row.ts > s.bot.monthStart && s.bot.row.userId in s.db.users &&
      !RefillLocks(s, s.bot.row.userId)
    case DebitError => s.bot.Began? && s.bot.row.ts > s.bot.monthStart
    case Refuse => s.bot.Debited? && s.bot.left < 0
    case Insert => ReadyToInsert(s.bot)
    case InsertError(drawn) => ReadyToInsert(s.bot) || (s.bot.Aborted? && !drawn)
    case Commit => s.bot.Inserted?
    case CommitError => s.bot.Inserted?
    case RefillStart => s.refill.None?
    case RefillRow(u) => s.refill.Some? && u in s.refill.value.todo && !BotLocks(s, u)
    case RefillCommit => s.refill.Some? && !exists u :: u in s.refill.value.todo
    case Rates(_) => true
  }

  function Do(s: State, a: Action): State
    requires Enabled(s, a)
  {
    match a
    case Begin(row, monthStart) => s.(bot := Began(row, monthStart))
    case NoSuchUser => s.(bot := Idle)
    case Debit =>
      var u := s.bot.row.userId;
      s.(bot := Debited(s.bot.row, s.bot.monthStart, s.db.users[u].currentLimit - s.bot.row.total))
    case DebitError => s.(bot := Aborted(s.bot.row, s.bot.monthStart))
    case Refuse => s.(bot := Idle)
    case Insert =>
      var posted := s.db.InsertExpence(s.bot.row);
      if posted.failure.Some? then s.(db := posted.tables, bot := Idle, log := s.log + [IdLost])
      else
        s.(db := s.db.(nextExpence := s.db.nextExpence + 1),
           bot := Inserted(s.bot.row, s.bot.monthStart, if s.bot.Debited? then Some(s.bot.left) else None))
    case InsertError(drawn) =>
      if drawn then s.(db := s.db.(nextExpence := s.db.nextExpence + 1), bot := Idle, log := s.log + [IdLost])
      else s.(bot := Idle)
    case Commit =>
      var id, row := s.db.nextExpence - 1, s.bot.row;
      var users := if s.bot.debit.Some? && row.userId in s.db.users
                   then s.db.users[row.userId := s.db.users[row.userId].(currentLimit := s.bot.debit.value)]
                   else s.db.users;
      s.(db := s.db.(users := users, expences := s.db.expences[id := row]), bot := Idle,
         log := s.log + [Posted(row, s.bot.monthStart)])
    case CommitError => s.(bot := Idle, log := s.log + [IdLost])
    case RefillStart => s.(refill := Some(Refill(map[], s.db.users.Keys)))
    case RefillRow(u) =>
      var r := s.refill.value;
      if u !in s.db.users then s.(refill := Some(r.(todo := r.todo - {u})))
      else s.(refill := Some(Refill(r.pending[u := s.db.users[u].defaultLimit], r.todo - {u})))
    case RefillCommit =>
      var pending := s.refill.value.pending;
      var users := map u | u in s.db.users ::
        if u in pending then s.db.users[u].(currentLimit := pending[u]) else s.db.users[u];
      s.(db := s.db.(users := users), refill := None, log := s.log + [Refilled])
    case Rates(fetched) =>
      s.(db := s.db.(currencies := RatesAfter(s.db.currencies, fetched)), log := s.log + [RatesUpdated(fetched)])
  }

  /** The state after some actions, if each of them was enabled in its turn. */
  function After(s0: State, actions: seq<Action>): Option<State> {
    if actions == [] then Some(s0)
    else
      match After(s0, actions[..|actions| - 1])
      case None => None
      case Some(s) =>
        if Enabled(s, actions[|actions| - 1]) then Some(Do(s, actions[|actions| - 1])) else None
  }

  // ----- the serial execution -----

  function Perform(t: Tables, op: Op): Tables {
    match op
    case Posted(row, monthStart) => t.PostExpence(row, monthStart).tables
    case Refilled => t.RefillAllLimits()
    case RatesUpdated(fetched) => t.(currencies := RatesAfter(t.currencies, fetched))
    case IdLost => t.(nextExpence := t.nextExpence + 1)
  }

  function Replay(t: Tables, log: seq<Op>): Tables {
    if log == [] then t else Perform(Replay(t, log[..|log| - 1]), log[|log| - 1])
  }

  /** Every logged expence was accepted when its turn came. */
  ghost predicate AllAccepted(t: Tables, log: seq<Op>) {
    forall i :: 0 <= i < |log| && log[i].Posted? ==>
      Replay(t, log[..i]).PostExpence(log[i].row, log[i].monthStart).failure == None
  }

  /** The committed tables, less the id that a pending insert has drawn. */
  function Settled(s: State): Tables {
    if s.bot.Inserted? && s.db.nextExpence > 0 then s.db.(nextExpence := s.db.nextExpence - 1) else s.db
  }

  ghost predicate BotFacts(s: State) {
    match s.bot
    case Debited(row, monthStart, left) =>
      row.ts > monthStart && row.userId in s.db.users && left == s.db.users[row.userId].currentLimit - row.total
    case Aborted(row, monthStart) => row.ts > monthStart
    case Inserted(row, monthStart, debit) =>
      s.db.nextExpence > 0 && row.userId in s.db.users && row.categoryId in s.db.categories &&
      (match debit
       case None => row.ts <= monthStart
       case Some(n) => row.ts > monthStart && n >= 0 && n == s.db.users[row.userId].currentLimit - row.total)
    case _ => true
  }

  ghost predicate RefillFacts(s: State) {
    s.refill.Some? ==>
      var r := s.refill.value;
      && r.pending.Keys + r.todo == s.db.users.Keys
      && (forall u :: u in r.pending ==>
            u in s.db.users && r.pending[u] == s.db.users[u].defaultLimit && !BotLocks(s, u))
  }

  ghost predicate Inv(t0: Tables, s: State) {
    && Settled(s) == Replay(t0, s.log)
    && AllAccepted(t0, s.log)
    && BotFacts(s)
    && RefillFacts(s)
  }

  lemma ReplayPush(t: Tables, log: seq<Op>, op: Op)
    requires AllAccepted(t, log)
    requires op.Posted? ==> Replay(t, log).PostExpence(op.row, op.monthStart).failure == None
    ensures Replay(t, log + [op]) == Perform(Replay(t, log), op)
    ensures AllAccepted(t, log + [op])
  {
    var log' := log + [op];
    assert log'[..|log|] == log;
    forall i | 0 <= i < |log'| && log'[i].Posted?
      ensures Replay(t, log'[..i]).PostExpence(log'[i].row, log'[i].monthStart).failure == None
    {
      if i < |log| {
        assert log'[..i] == log[..i];
      }
    }
  }

  /** Debit and row appear together, and exactly as the whole operation would have produced them. */
  lemma CommitIsPost(s: State)
    requires s.bot.Inserted? && BotFacts(s)
    ensures var posted := Settled(s).PostExpence(s.bot.row, s.bot.monthStart);
            posted.failure == None && Do(s, Commit).db == posted.tables
  {
  }

  lemma RefillCommitIsRefill(s: State)
    requires RefillFacts(s) && Enabled(s, RefillCommit)
    ensures Do(s, RefillCommit).db == s.db.RefillAllLimits()
  {
    var pending := s.refill.value.pending;
    assert forall u :: u in s.db.users ==> u in pending.Keys + s.refill.value.todo;
    forall u | u in s.db.users
      ensures Do(s, RefillCommit).db.users[u] == s.db.users[u].(currentLimit := s.db.users[u].defaultLimit)
    {
      assert pending[u] == s.db.users[u].defaultLimit;
    }
  }

  lemma InsertKeepsInv(t0: Tables, s: State, a: Action)
    requires Inv(t0, s) && Enabled(s, a) && (a.Insert? || a.InsertError? || a.CommitError?)
    ensures Inv(t0, Do(s, a))
  {
    hide AllAccepted, Replay;
    ReplayPush(t0, s.log, IdLost);
    assert RefillFacts(Do(s, a)) by {
      hide Settled;
    }
    assert Settled(Do(s, a)) == Replay(t0, Do(s, a).log) by {
      hide RefillFacts;
    }
  }

  lemma CommitKeepsInv(t0: Tables, s: State)
    requires Inv(t0, s) && Enabled(s, Commit)
    ensures Inv(t0, Do(s, Commit))
  {
    CommitIsPost(s);
    ReplayPush(t0, s.log, Posted(s.bot.row, s.bot.monthStart));
  }

  lemma RefillCommitKeepsInv(t0: Tables, s: State)
    requires Inv(t0, s) && Enabled(s, RefillCommit)
    ensures Inv(t0, Do(s, RefillCommit))
  {
    RefillCommitIsRefill(s);
    ReplayPush(t0, s.log, Refilled);
    assert s.bot.Inserted? ==> Settled(s).RefillAllLimits() == Settled(Do(s, RefillCommit));
  }

  lemma RatesKeepInv(t0: Tables, s: State, fetched: seq<Currency>)
    requires Inv(t0, s)
    ensures Inv(t0, Do(s, Rates(fetched)))
  {
    hide RatesAfter, AllAccepted, Replay;
    ReplayPush(t0, s.log, RatesUpdated(fetched));
    assert Settled(Do(s, Rates(fetched))) == Replay(t0, Do(s, Rates(fetched)).log) by {
      hide RefillFacts, BotFacts;
    }
  }

  lemma RefillRowKeepsInv(t0: Tables, s: State, u: int)
    requires Inv(t0, s) && Enabled(s, RefillRow(u))
    ensures Inv(t0, Do(s, RefillRow(u)))
  {
    hide Replay, AllAccepted;
  }

  lemma StepKeepsInv(t0: Tables, s: State, a: Action)
    requires Inv(t0, s) && Enabled(s, a)
    ensures Inv(t0, Do(s, a))
  {
    hide Replay, AllAccepted;
    match a
    case Insert => InsertKeepsInv(t0, s, a);
    case InsertError(_) => InsertKeepsInv(t0, s, a);
    case Commit => CommitKeepsInv(t0, s);
    case CommitError => InsertKeepsInv(t0, s, a);
    case RefillRow(u) => RefillRowKeepsInv(t0, s, u);
    case RefillCommit => RefillCommitKeepsInv(t0, s);
    case Rates(fetched) => RatesKeepInv(t0, s, fetched);
    case _ =>
  }

  lemma {:induction false} RunKeepsInv(t0: Tables, actions: seq<Action>, s: State)
    requires After(State(t0, Idle, None, []), actions) == Some(s)
    ensures Inv(t0, s)
  {
    hide Inv, Do;
    if actions == [] {
      NothingPending(t0);
    } else {
      var before := After(State(t0, Idle, None, []), actions[..|actions| - 1]).value;
      RunKeepsInv(t0, actions[..|actions| - 1], before);
      StepKeepsInv(t0, before, actions[|actions| - 1]);
    }
  }

  lemma NothingPending(t0: Tables)
    ensures Inv(t0, State(t0, Idle, None, []))
  {
  }

  // ----- the log is what was asked for -----

  datatype Attempt = Attempt(row: ExpenceRow, monthStart: int)

  /** The attempts of a run, in order. */
  function Begun(actions: seq<Action>): seq<Attempt> {
    if actions == [] then [] else
      Begun(actions[..|actions| - 1]) +
      match actions[|actions| - 1]
      case Begin(row, monthStart) => [Attempt(row, monthStart)]
      case _ => []
  }

  /** What one action should leave behind: a commit the attempt begun last, a finished refill, an update of rates. */
  function Adds(a: Action, begun: seq<Attempt>): (added: seq<Op>)
    ensures |added| <= 1 && forall i :: 0 <= i < |added| ==> !added[i].IdLost?
  {
    match a
    case Commit => if begun == [] then [] else [Posted(begun[|begun| - 1].row, begun[|begun| - 1].monthStart)]
    case RefillCommit => [Refilled]
    case Rates(fetched) => [RatesUpdated(fetched)]
    case _ => []
  }

  function Expected(actions: seq<Action>): seq<Op> {
    if actions == [] then [] else
      var front := actions[..|actions| - 1];
      Expected(front) + Adds(actions[|actions| - 1], Begun(front))
  }

  /** The log without lost ids. */
  function Kept(log: seq<Op>): seq<Op> {
    if log == [] then [] else
      Kept(log[..|log| - 1]) + if log[|log| - 1].IdLost? then [] else [log[|log| - 1]]
  }

  function PostedIn(log: seq<Op>): seq<Attempt> {
    if log == [] then [] else
      PostedIn(log[..|log| - 1]) +
      match log[|log| - 1]
      case Posted(row, monthStart) => [Attempt(row, monthStart)]
      case _ => []
  }

  predicate Subsequence(a: seq<Attempt>, b: seq<Attempt>) {
    a == [] ||
    (b != [] &&
     (Subsequence(a, b[..|b| - 1]) || (a[|a| - 1] == b[|b| - 1] && Subsequence(a[..|a| - 1], b[..|b| - 1]))))
  }

  /** The attempt under way is the one begun last, and only earlier ones are posted. */
  ghost predicate InHand(bot: Bot, posted: seq<Attempt>, begun: seq<Attempt>) {
    if bot.Idle? then Subsequence(posted, begun)
    else
      begun != [] && begun[|begun| - 1] == Attempt(bot.row, bot.monthStart) &&
      Subsequence(posted, begun[..|begun| - 1])
  }

  lemma KeptPush(log: seq<Op>, op: Op)
    ensures Kept(log + [op]) == if op.IdLost? then Kept(log) else Kept(log) + [op]
    ensures PostedIn(log + [op]) ==
            if op.Posted? then PostedIn(log) + [Attempt(op.row, op.monthStart)] else PostedIn(log)
  {
    assert (log + [op])[..|log|] == log;
  }

  lemma SubsequencePush(a: seq<Attempt>, b: seq<Attempt>, x: Attempt)
    requires Subsequence(a, b)
    ensures Subsequence(a, b + [x]) && Subsequence(a + [x], b + [x])
  {
    assert (b + [x])[..|b|] == b && (a + [x])[..|a|] == a;
  }

  /** An action extends the log by what it should add, or by a lost id. */
  lemma DoLogs(s: State, a: Action, begun: seq<Attempt>)
    requires Enabled(s, a) && InHand(s.bot, PostedIn(s.log), begun)
    ensures Do(s, a).log == s.log + Adds(a, begun) || (Adds(a, begun) == [] && Do(s, a).log == s.log + [IdLost])
  {
    hide Subsequence, PostedIn, RatesAfter;
  }

  lemma KeptAdds(log: seq<Op>, log': seq<Op>, added: seq<Op>)
    requires |added| <= 1 && (forall i :: 0 <= i < |added| ==> !added[i].IdLost?)
    requires log' == log + added || (added == [] && log' == log + [IdLost])
    ensures Kept(log') == Kept(log) + added
    ensures PostedIn(log') ==
            if added != [] && added[0].Posted? then PostedIn(log) + [Attempt(added[0].row, added[0].monthStart)]
            else PostedIn(log)
  {
    hide Kept, PostedIn;
    assert log + [] == log && Kept(log) + [] == Kept(log);
    if log' != log {
      KeptPush(log, log'[|log|]);
      assert log' == log + [log'[|log|]];
      assert added != [] ==> added == [added[0]];
    }
  }

  /** The attempt in hand stays the last one begun. */
  lemma DoKeepsHand(s: State, a: Action, begun: seq<Attempt>)
    requires Enabled(s, a) && InHand(s.bot, PostedIn(s.log), begun)
    ensures var begun' := if a.Begin? then begun + [Attempt(a.row, a.monthStart)] else begun;
            InHand(Do(s, a).bot, PostedIn(Do(s, a).log), begun')
  {
    hide Subsequence, PostedIn, Kept, RatesAfter;
    DoLogs(s, a, begun);
    KeptAdds(s.log, Do(s, a).log, Adds(a, begun));
    if a.Begin? {
      HandFilled(PostedIn(s.log), begun, a.row, a.monthStart);
    } else if !s.bot.Idle? {
      HandMoves(s.bot, Do(s, a).bot, PostedIn(s.log), PostedIn(Do(s, a).log), begun);
    }
  }

  lemma HandFilled(posted: seq<Attempt>, begun: seq<Attempt>, row: ExpenceRow, monthStart: int)
    requires Subsequence(posted, begun)
    ensures InHand(Began(row, monthStart), posted, begun + [Attempt(row, monthStart)])
  {
    hide Subsequence;
    assert (begun + [Attempt(row, monthStart)])[..|begun|] == begun;
  }

  lemma HandMoves(bot: Bot, bot': Bot, posted: seq<Attempt>, posted': seq<Attempt>, begun: seq<Attempt>)
    requires !bot.Idle? && InHand(bot, posted, begun)
    requires if bot'.Idle? then posted' == posted || posted' == posted + [begun[|begun| - 1]]
             else bot'.row == bot.row && bot'.monthStart == bot.monthStart && posted' == posted
    ensures InHand(bot', posted', begun)
  {
    hide Subsequence;
    var before := begun[..|begun| - 1];
    assert begun == before + [begun[|begun| - 1]];
    SubsequencePush(posted, before, begun[|begun| - 1]);
  }

  /**
   The log is exactly what the run's own actions call for. Every commit posts the row and month start that were
   begun last, refills and updates are logged as they happened, and posted attempts are a subsequence of the begun
   ones, so that none is posted twice.
   */
  lemma {:induction false} LogIsExpected(t0: Tables, actions: seq<Action>, s: State)
    requires After(State(t0, Idle, None, []), actions) == Some(s)
    ensures Kept(s.log) == Expected(actions)
    ensures InHand(s.bot, PostedIn(s.log), Begun(actions))
    ensures Subsequence(PostedIn(s.log), Begun(actions))
  {
    hide Do, Subsequence, Kept, PostedIn, InHand, Adds, Enabled;
    if actions == [] {
      NothingLogged();
    } else {
      var before := After(State(t0, Idle, None, []), actions[..|actions| - 1]).value;
      LogIsExpected(t0, actions[..|actions| - 1], before);
      var last, begun := actions[|actions| - 1], Begun(actions[..|actions| - 1]);
      DoLogs(before, last, begun);
      KeptAdds(before.log, s.log, Adds(last, begun));
      DoKeepsHand(before, last, begun);
      assert begun + [] == begun;
    }
    HandIsSubsequence(s.bot, PostedIn(s.log), Begun(actions));
  }

  lemma HandIsSubsequence(bot: Bot, posted: seq<Attempt>, begun: seq<Attempt>)
    requires InHand(bot, posted, begun)
    ensures Subsequence(posted, begun)
  {
    hide Subsequence;
    if !bot.Idle? {
      SubsequencePush(posted, begun[..|begun| - 1], begun[|begun| - 1]);
      assert begun == begun[..|begun| - 1] + [begun[|begun| - 1]];
    }
  }

  lemma NothingLogged()
    ensures Kept([]) == [] && PostedIn([]) == [] && InHand(Idle, [], [])
  {
  }

  /**
   Serializability and atomicity. Whatever the interleaving and whichever statements fail, the committed
   tables are those of the logged operations run one after another: every logged expence was accepted and
   left both its debit and its row, and an attempt that is not in the log left neither. The log holds, beside lost
   ids, the attempts that were committed, as they were begun, and the refills and updates, in their order.
   */
  lemma Serializable(t0: Tables, actions: seq<Action>, s: State)
    requires After(State(t0, Idle, None, []), actions) == Some(s)
    ensures Settled(s) == Replay(t0, s.log) && AllAccepted(t0, s.log)
    ensures s.bot.Idle? ==> s.db == Replay(t0, s.log)
    ensures Kept(s.log) == Expected(actions) && Subsequence(PostedIn(s.log), Begun(actions))
  {
    RunKeepsInv(t0, actions, s);
    LogIsExpected(t0, actions, s);
  }

  /** The statements of an attempt that nothing gets in the way of. */
  function Alone(row: ExpenceRow, monthStart: int): seq<Action> {
    if row.ts > monthStart then [Begin(row, monthStart), Debit, Insert, Commit]
    else [Begin(row, monthStart), Insert, Commit]
  }

  lemma AfterPush(s: State, actions: seq<Action>, a: Action)
    requires After(s, actions).Some? && Enabled(After(s, actions).value, a)
    ensures After(s, actions + [a]) == Some(Do(After(s, actions).value, a))
  {
    hide Do, Enabled;
    assert (actions + [a])[..|actions|] == actions;
  }

  /** An attempt that would be accepted goes through when nothing gets in the way, and leaves debit and row. */
  lemma AloneIsPost(s: State, row: ExpenceRow, monthStart: int)
    requires s.bot.Idle? && !RefillLocks(s, row.userId) && s.db.PostExpence(row, monthStart).failure == None
    ensures After(s, Alone(row, monthStart)) ==
            Some(s.(db := s.db.PostExpence(row, monthStart).tables, log := s.log + [Posted(row, monthStart)]))
  {
    hide After;
    assert After(s, []) == Some(s) by { NoActions(s); }
    var begin := [Begin(row, monthStart)];
    AfterPush(s, [], Begin(row, monthStart));
    assert [] + begin == begin;
    if row.ts > monthStart {
      AfterPush(s, begin, Debit);
      AfterPush(s, begin + [Debit], Insert);
      AfterPush(s, begin + [Debit] + [Insert], Commit);
      assert begin + [Debit] + [Insert] + [Commit] == Alone(row, monthStart);
    } else {
      AfterPush(s, begin, Insert);
      AfterPush(s, begin + [Insert], Commit);
      assert begin + [Insert] + [Commit] == Alone(row, monthStart);
    }
  }

  lemma NoActions(s: State)
    ensures After(s, []) == Some(s)
  {
  }

  /** A refill that nothing gets in the way of fills every limit. */
  lemma RefillAlone(s: State) returns (actions: seq<Action>)
    requires s.bot.Idle? && s.refill.None?
    ensures After(s, actions) == Some(s.(db := s.db.RefillAllLimits(), log := s.log + [Refilled]))
  {
    hide Do, Enabled;
    NoActions(s);
    AfterPush(s, [], RefillStart) by { RefillBegins(s); }
    RefillBegins(s);
    actions := [] + [RefillStart];
    var now := Do(s, RefillStart);
    while exists u :: u in now.refill.value.todo
      invariant After(s, actions) == Some(now) && HalfRefilled(s, now)
      decreases now.refill.value.todo
    {
      var u :| u in now.refill.value.todo;
      RowRefills(s, now, u);
      AfterPush(s, actions, RefillRow(u));
      actions := actions + [RefillRow(u)];
      now := Do(now, RefillRow(u));
    }
    RefillEnds(s, now);
    AfterPush(s, actions, RefillCommit);
    actions := actions + [RefillCommit];
  }

  /** A refill is under way, and nothing else has happened since `s`. */
  ghost predicate HalfRefilled(s: State, now: State) {
    s.bot.Idle? && now.refill.Some? && RefillFacts(now) && s == now.(refill := None)
  }

  lemma RefillBegins(s: State)
    requires s.bot.Idle? && s.refill.None?
    ensures Enabled(s, RefillStart) && HalfRefilled(s, Do(s, RefillStart))
  {
  }

  lemma RowRefills(s: State, now: State, u: int)
    requires HalfRefilled(s, now) && u in now.refill.value.todo
    ensures Enabled(now, RefillRow(u)) && HalfRefilled(s, Do(now, RefillRow(u)))
    ensures Do(now, RefillRow(u)).refill.value.todo < now.refill.value.todo
  {
  }

  lemma RefillEnds(s: State, now: State)
    requires HalfRefilled(s, now) && !exists u :: u in now.refill.value.todo
    ensures Enabled(now, RefillCommit)
    ensures Do(now, RefillCommit) == s.(db := s.db.RefillAllLimits(), log := s.log + [Refilled])
  {
    RefillCommitIsRefill(now);
  }

  /**
   Refusals are not logged, but they too are the serial operation's answers: whenever the bot refuses an expence,
   the whole operation run after the logged ones would exceed the limit, and whenever it finds no user, so would
   the whole operation.
   */
  lemma RefusalIsSerial(t0: Tables, actions: seq<Action>, s: State)
    requires After(State(t0, Idle, None, []), actions) == Some(s)
    ensures var serial := Replay(t0, s.log);
            (Enabled(s, Refuse) ==>
               serial.PostExpence(s.bot.row, s.bot.monthStart) == Exec(serial, Some(LimitExceeded))) &&
            (Enabled(s, NoSuchUser) ==>
               serial.PostExpence(s.bot.row, s.bot.monthStart) == Exec(serial, Some(UserNotFound)))
  {
    hide After, Replay, AllAccepted, RefillFacts;
    RunKeepsInv(t0, actions, s);
  }

  /** Actions that are not failures and start nothing new. */
  predicate IsProgress(a: Action) {
    a.NoSuchUser? || a.Debit? || a.Refuse? || a.Insert? || a.Commit? || a.RefillRow? || a.RefillCommit? ||
    a == InsertError(false)
  }

  /** Bot and refill never wait for each other in a circle. */
  lemma NeverStuck(t0: Tables, s: State) returns (a: Action)
    requires Inv(t0, s) && (!s.bot.Idle? || s.refill.Some?)
    ensures IsProgress(a) && Enabled(s, a)
  {
    match s.bot
    case Debited(_, _, left) => a := if left < 0 then Refuse else Insert;
    case Aborted(_, _) => a := InsertError(false);
    case Inserted(_, _, _) => a := Commit;
    case Began(row, monthStart) =>
      if row.ts <= monthStart {
        a := Insert;
      } else if row.userId !in s.db.users {
        a := NoSuchUser;
      } else if !RefillLocks(s, row.userId) {
        a := Debit;
      } else {
        a := RefillMove(s);
      }
    case Idle => a := RefillMove(s);
  }

  lemma RefillMove(s: State) returns (a: Action)
    requires s.refill.Some? && (s.bot.Idle? || s.bot.Began?)
    ensures IsProgress(a) && Enabled(s, a)
  {
    if u :| u in s.refill.value.todo {
      a := RefillRow(u);
    } else {
      a := RefillCommit;
    }
  }

  // ----- background services between the reads and the transaction -----

  predicate IsBackground(steps: seq<Step>) { forall i :: 0 <= i < |steps| ==> IsGlobal(steps[i]) }

  function Select(steps: seq<Step>, refills: bool): (selected: seq<Step>)
  {
    if steps == [] then [] else
      var front, last := Select(steps[..|steps| - 1], refills), steps[|steps| - 1];
      if last.RefillLimits? == refills then front + [last] else front
  }

  /** Refills and rate updates touch different tables, so the refills may all go first. */
  lemma {:induction false} RefillsFirst(t: Tables, steps: seq<Step>)
    requires IsBackground(steps)
    ensures Run(t, steps) == t.(users := Run(t, steps).users, currencies := Run(t, steps).currencies)
    ensures Run(t, Select(steps, true)) == t.(users := Run(t, steps).users)
  {
    if steps != [] {
      var front, last := steps[..|steps| - 1], steps[|steps| - 1];
      RefillsFirst(t, front);
      assert IsGlobal(last);
      RunPush(t, Select(front, true), last);
      BackgroundEffect(Run(t, front), Run(t, Select(front, true)), last);
    }
  }

  lemma BackgroundEffect(t: Tables, t': Tables, s: Step)
    requires IsGlobal(s) && t.users == t'.users
    ensures Apply(t, s).tables == t.(users := Apply(t, s).tables.users, currencies := Apply(t, s).tables.currencies)
    ensures s.RefillLimits? ==> Apply(t', s).tables == t'.(users := Apply(t, s).tables.users)
    ensures !s.RefillLimits? ==> Apply(t, s).tables.users == t.users
  {
  }

  lemma {:induction false} RatesOnly(t: Tables, t': Tables, steps: seq<Step>)
    requires IsBackground(steps) && t.currencies == t'.currencies
    ensures Run(t', Select(steps, false)) == t'.(currencies := Run(t, steps).currencies)
  {
    hide Apply;
    if steps != [] {
      var front, last := steps[..|steps| - 1], steps[|steps| - 1];
      RatesOnly(t, t', front);
      assert IsGlobal(last);
      RunPush(t', Select(front, false), last);
      OnlyUpdatesChangeRates(Run(t, front), last);
    }
  }

  /**
   `Storage.AddExpence` reads the category, the currency and the rate before its transaction begins. Refills
   and rate updates that slip in between still leave a serial order: the refills, the whole command, the rates.
   */
  lemma LateBackground(t: Tables, steps: seq<Step>, s: Step, c: int)
    requires Sound(t) && IsBackground(steps) && s.AddExpence? && t.FindCategory(s.user, s.name) == Some(c)
    ensures s.user in t.users && t.users[s.user].baseCurrency in t.currencies
    ensures var total := ToBase(s.amount, t.currencies[t.users[s.user].baseCurrency].rate);
            var late := Run(t, steps).PostExpence(ExpenceRow(s.user, c, s.ts, total), s.monthStart);
            var whole := Apply(Run(t, Select(steps, true)), s);
            late.failure == whole.failure && late.tables == Run(whole.tables, Select(steps, false))
  {
    hide ToBase, Run, Select, RatesAfter;
    RefillsFirst(t, steps);
    var t1, t2 := Run(t, Select(steps, true)), Run(t, steps);
    BaseCurrenciesStay(t, steps);
    SameCategory(t, t1, s.user, s.name);
    var row := ExpenceRow(s.user, c, s.ts, ToBase(s.amount, t.currencies[t.users[s.user].baseCurrency].rate));
    assert Apply(t1, s) == t1.PostExpence(row, s.monthStart);
    RatesOnly(t, Apply(t1, s).tables, steps);
    PostIgnoresRates(t1, t2.currencies, row, s.monthStart);
  }

  lemma PostIgnoresRates(t: Tables, currencies: CurrencyTable, row: ExpenceRow, monthStart: int)
    ensures var t' := t.(currencies := currencies);
            t'.PostExpence(row, monthStart).failure == t.PostExpence(row, monthStart).failure &&
            t'.PostExpence(row, monthStart).tables ==
              t.PostExpence(row, monthStart).tables.(currencies := currencies) &&
            t.PostExpence(row, monthStart).tables.currencies == t.currencies
  {
  }

  lemma SameCategory(t: Tables, t': Tables, u: int, name: string)
    requires t.Consistent() && t.categories == t'.categories
    ensures t.FindCategory(u, name) == t'.FindCategory(u, name)
  {
    assert forall c :: t.Names(c, u, name) <==> t'.Names(c, u, name);
  }

  lemma {:induction false} BaseCurrenciesStay(t: Tables, steps: seq<Step>)
    requires IsBackground(steps)
    ensures Run(t, steps).users.Keys == t.users.Keys
    ensures forall u :: u in t.users ==> Run(t, steps).users[u].baseCurrency == t.users[u].baseCurrency
  {
    if steps != [] {
      assert IsGlobal(steps[|steps| - 1]);
      BaseCurrenciesStay(t, steps[..|steps| - 1]);
    }
  }
}
