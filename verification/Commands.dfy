/** The command handlers: argument checks, the storage operation they choose, and the answer they give. */
module Commands {
  import opened Wrappers
  import opened Conversion
  import opened Money
  import opened Steps
  import opened Tables
  import opened ReportCache

  // ----- splitting arguments -----

  predicate SpaceFree(s: string) { ' ' !in s }

  /** `strings.Split(s, " ")`. */
  function Split(s: string): (tokens: seq<string>)
    ensures |tokens| >= 1
  {
    if s == "" then [""]
    else
      var rest := Split(s[1..]);
      if s[0] == ' ' then [""] + rest else [[s[0]] + rest[0]] + rest[1..]
  }

  function Join(tokens: seq<string>): string
    requires |tokens| >= 1
  {
    if |tokens| == 1 then tokens[0] else tokens[0] + " " + Join(tokens[1..])
  }

  /** The tokens are space-free and make up the text. */
  lemma {:induction false} JoinSplit(s: string)
    ensures Join(Split(s)) == s
    ensures forall i :: 0 <= i < |Split(s)| ==> SpaceFree(Split(s)[i])
  {
    if s != "" {
      JoinSplit(s[1..]);
      var rest := Split(s[1..]);
      if s[0] == ' ' {
        assert Split(s)[1..] == rest;
      } else {
        assert Split(s)[1..] == rest[1..];
        assert s == [s[0]] + s[1..];
      }
    }
  }

  lemma {:induction false} SplitToken(token: string)
    requires SpaceFree(token)
    ensures Split(token) == [token]
  {
    if token != "" {
      SplitToken(token[1..]);
      assert token == [token[0]] + token[1..];
    }
  }

  lemma {:induction false} SplitFirst(token: string, rest: string)
    requires SpaceFree(token)
    ensures Split(token + " " + rest) == [token] + Split(rest)
  {
    var s := token + " " + rest;
    if token == "" {
      assert s[1..] == rest;
    } else {
      SplitFirst(token[1..], rest);
      assert s[1..] == token[1..] + " " + rest;
      assert token == [token[0]] + token[1..];
    }
  }

  /** Splitting undoes joining, for any space-free tokens. */
  lemma {:induction false} SplitJoin(tokens: seq<string>)
    requires |tokens| >= 1 && forall i :: 0 <= i < |tokens| ==> SpaceFree(tokens[i])
    ensures Split(Join(tokens)) == tokens
  {
    if |tokens| == 1 {
      SplitToken(tokens[0]);
    } else {
      SplitJoin(tokens[1..]);
      SplitFirst(tokens[0], Join(tokens[1..]));
    }
  }

  // ----- commands and answers -----

  datatype Command =
    | Start
    | Reset
    | NewCategory(text: string)
    | NewExpence(text: string)
    | Report(text: string)
    | SetCurrency(text: string)
    | SetLimit(text: string)
    | ResetLimit
    | Other

  /** Starts of the current day, month and year, and of the local year 1970, in Unix seconds. */
  datatype Clock = Clock(day: int, month: int, year: int, epoch: int)

  /** `time.Parse` for dates. */
  type DateParser = string -> Option<int>

  datatype Reply =
    | Help
    | Welcome
    | DataErased
    | CategoryAdded(name: string)
    | CategoryAlreadyAdded(name: string)
    | WrongCommandFormat
    | CategoryNotFound
    | InvalidAmount
    | WrongDateFormat
    | MonthLimitExceeded
    | ExpenceAdded
    | NoExpences
    | Totals(period: string, lines: map<string, string>)
    | CurrencyNotFound
    | CurrencyChanged
    | LimitIsTooSmall
    | LimitUpdated
    | LimitReset

  function CutoffOf(period: string, clock: Clock): int {
    if period == "day" then clock.day
    else if period == "month" then clock.month
    else if period == "year" then clock.year
    else clock.epoch
  }

  /** The operation a command asks for, or the reply that turns it down. */
  ghost function EventOf(t: Tables, u: int, command: Command, clock: Clock, dates: DateParser): Result<Event, Reply> {
    match command
    case Start => Failure(Welcome)
    case Reset => Success(Operate(ResetUser(u)))
    case NewCategory(text) =>
      if text == "" || |Split(text)| != 1 then Failure(WrongCommandFormat)
      else Success(Operate(AddCategory(u, Split(text)[0])))
    case NewExpence(text) =>
      var args := Split(text);
      if text == "" || |args| != 3 then Failure(WrongCommandFormat)
      else if t.FindCategory(u, args[0]).None? then Failure(CategoryNotFound)
      else
        (match ConvertStringAmountToSub(args[1])
         case Failure(_) => Failure(Reply.InvalidAmount)
         case Success(total) =>
           match dates(args[2])
           case None => Failure(WrongDateFormat)
           case Some(date) => Success(Operate(AddExpence(u, args[0], total, date, clock.month))))
    case Report(text) =>
      if |Split(text)| > 1 then Failure(WrongCommandFormat)
      else Success(GetReport(u, CutoffOf(Split(text)[0], clock)))
    case SetCurrency(text) =>
      if |Split(text)| > 1 then Failure(WrongCommandFormat)
      else Success(Operate(ChangeCurrency(u, Split(text)[0])))
    case SetLimit(text) =>
      if |Split(text)| > 1 then Failure(WrongCommandFormat)
      else
        (match ConvertStringAmountToSub(Split(text)[0])
         case Failure(_) => Failure(Reply.InvalidAmount)
         case Success(total) =>
           if total < 1 then Failure(LimitIsTooSmall) else Success(Operate(SetUserLimit(u, total))))
    case ResetLimit => Success(Operate(ResetUserLimit(u)))
    case Other => Failure(Help)
  }

  function Lines(r: Reports.Report): map<string, string> { map name | name in r :: ConvertSubToAmount(r[name]) }

  /** The answer once the operation has run. Any failure to add an expence but the limit reads as a missing category. */
  ghost function ReplyTo(m: Machine, e: Event, command: Command): Reply {
    match e
    case Operate(AddCategory(u, name)) =>
      if Apply(m.t, e.step).failure.None? then CategoryAdded(name) else CategoryAlreadyAdded(name)
    case Operate(AddExpence(_, _, _, _, _)) =>
      (match Apply(m.t, e.step).failure
       case None => ExpenceAdded
       case Some(LimitExceeded) => MonthLimitExceeded
       case _ => CategoryNotFound)
    case Operate(ChangeCurrency(_, _)) =>
      if Apply(m.t, e.step).failure.None? then CurrencyChanged else CurrencyNotFound
    case Operate(SetUserLimit(_, _)) => LimitUpdated
    case Operate(ResetUserLimit(_)) => LimitReset
    case GetReport(u, cutoff) =>
      (match Answer(m, u, cutoff)
       case None => NoExpences
       case Some(r) =>
         if r == map[] then NoExpences else Totals(if command.Report? then command.text else "", Lines(r)))
    case _ => DataErased
  }

  /** Whoever sends a command is added first, if that is possible. */
  ghost function Greeted(m: Machine, u: int): Machine {
    if u in m.t.users then m else Next(m, Operate(AddUser(u)))
  }

  /** One command handler: turned down at once, or carried out and answered. */
  ghost function Outcome(m: Machine, u: int, command: Command, clock: Clock, dates: DateParser): (Machine, Reply) {
    match EventOf(m.t, u, command, clock, dates)
    case Failure(reply) => (m, reply)
    case Success(e) => (Next(m, e), ReplyTo(m, e, command))
  }

  /** `IncomingCommandMessage`: the machine afterwards and the answer sent. */
  ghost function Handle(m: Machine, u: int, command: Command, clock: Clock, dates: DateParser): (Machine, Reply) {
    Outcome(Greeted(m, u), u, command, clock, dates)
  }

  /**
   With a known category and well-formed arguments, `/add_expence` is refused, and then changes nothing, exactly
   when the expence is dated after the start of the month and exceeds what is left of the limit.
   */
  lemma RefusedIffOverLimit(
    m: Machine, u: int, name: string, amount: string, date: string, clock: Clock, dates: DateParser)
    requires Sound(m.t) && m.t.FindCategory(u, name).Some?
    requires SpaceFree(name) && SpaceFree(amount) && SpaceFree(date)
    requires ConvertStringAmountToSub(amount).Success? && dates(date).Some?
    ensures u in m.t.users && m.t.users[u].baseCurrency in m.t.currencies
    ensures var (m', reply) := Handle(m, u, NewExpence(Join([name, amount, date])), clock, dates);
            var rate := m.t.currencies[m.t.users[u].baseCurrency].rate;
            var over := dates(date).value > clock.month &&
                        ToBase(ConvertStringAmountToSub(amount).value, rate) > m.t.users[u].currentLimit;
            reply == (if over then MonthLimitExceeded else ExpenceAdded) && (over ==> m' == m)
  {
    hide ToBase, ConvertStringAmountToSub;
    SplitJoin([name, amount, date]);
    assert Join([name, amount, date]) != "";
  }
}
