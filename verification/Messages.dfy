/** `Model`: one command after the other, each handled to the end before the next is read. */
module Messages {
  import opened Money
  import opened Steps
  import opened Tables
  import opened ReportCache
  import opened Commands
  import opened Storage

  class Model {
    const storage: Storage

    constructor (storage: Storage)
      ensures this.storage == storage
    {
      this.storage := storage;
    }

    method AddCategory(user: int, text: string) returns (reply: Reply)
      requires storage.Valid()
      modifies storage.db
      ensures storage.Valid()
      ensures forall clock, dates ::
                (storage.State(), reply) == Outcome(old(storage.State()), user, NewCategory(text), clock, dates)
    {
      if text == "" {
        return WrongCommandFormat;
      }
      var cat := Split(text);
      if |cat| == 1 {
        var added := storage.AddCategory(user, cat[0]);
        return if added then CategoryAdded(cat[0]) else CategoryAlreadyAdded(cat[0]);
      }
      return WrongCommandFormat;
    }

    method AddExpence(user: int, text: string, clock: Clock, dates: DateParser) returns (reply: Reply)
      requires storage.Valid()
      modifies storage.db, storage.rdb
      ensures storage.Valid()
      ensures (storage.State(), reply) == Outcome(old(storage.State()), user, NewExpence(text), clock, dates)
    {
      hide ConvertStringAmountToSub, Split, Apply;
      if text == "" {
        return WrongCommandFormat;
      }
      var args := Split(text);
      if |args| != 3 {
        return WrongCommandFormat;
      }
      var found := storage.IsCategoryExists(user, args[0]);
      if !found {
        return CategoryNotFound;
      }
      var total := ConvertStringAmountToSub(args[1]);
      if total.Failure? {
        return Reply.InvalidAmount;
      }
      var date := dates(args[2]);
      if date.None? {
        return WrongDateFormat;
      }
      var failure := storage.AddExpence(user, args[0], total.value, date.value, clock.month);
      match failure
      case None => return ExpenceAdded;
      case Some(LimitExceeded) => return MonthLimitExceeded;
      case Some(_) => return CategoryNotFound;
    }

    method GetReport(user: int, text: string, clock: Clock) returns (reply: Reply)
      requires storage.Valid()
      modifies storage.rdb
      ensures storage.Valid()
      ensures forall dates ::
                (storage.State(), reply) == Outcome(old(storage.State()), user, Report(text), clock, dates)
    {
      hide ConvertSubToAmount;
      var args := Split(text);
      if |args| > 1 {
        return WrongCommandFormat;
      }
      var totals := storage.GetExpencesMap(user, CutoffOf(args[0], clock));
      match totals
      case None => return NoExpences;
      case Some(r) => return if r == map[] then NoExpences else Totals(text, Lines(r));
    }

    method ChangeCurrency(user: int, text: string) returns (reply: Reply)
      requires storage.Valid()
      modifies storage.db, storage.rdb
      ensures storage.Valid()
      ensures DistinctCodes(old(storage.db.currencies)) ==> forall clock, dates ::
                (storage.State(), reply) == Outcome(old(storage.State()), user, SetCurrency(text), clock, dates)
    {
      var args := Split(text);
      if |args| > 1 {
        return WrongCommandFormat;
      }
      var changed := storage.ChangeCurrency(user, args[0]);
      return if changed then CurrencyChanged else CurrencyNotFound;
    }

    method SetUserLimit(user: int, text: string) returns (reply: Reply)
      requires storage.Valid()
      modifies storage.db
      ensures storage.Valid()
      ensures forall clock, dates ::
                (storage.State(), reply) == Outcome(old(storage.State()), user, SetLimit(text), clock, dates)
    {
      hide ConvertStringAmountToSub, Split, Apply;
      var args := Split(text);
      if |args| > 1 {
        return WrongCommandFormat;
      }
      var total := ConvertStringAmountToSub(args[0]);
      if total.Failure? {
        return Reply.InvalidAmount;
      }
      if total.value < 1 {
        return LimitIsTooSmall;
      }
      storage.SetUserLimit(user, total.value);
      return LimitUpdated;
    }

    /** State and reply are those of `Commands.Handle`; for `/set_currency`, provided currency codes are distinct. */
    method IncomingCommandMessage(user: int, command: Command, clock: Clock, dates: DateParser) returns (reply: Reply)
      requires storage.Valid()
      modifies storage.db, storage.rdb
      ensures storage.Valid()
      ensures !command.SetCurrency? || DistinctCodes(old(storage.db.currencies)) ==>
                (storage.State(), reply) == Handle(old(storage.State()), user, command, clock, dates)
    {
      hide Split, ConvertStringAmountToSub, Lines, Answer;
      var found := storage.IsUserAdded(user);
      if !found {
        var added := storage.AddUser(user);
      }
      assert storage.State() == Greeted(old(storage.State()), user);
      match command
      case Start => reply := Welcome;
      case Reset =>
        storage.ResetUser(user);
        reply := DataErased;
      case NewCategory(text) => reply := AddCategory(user, text);
      case NewExpence(text) => reply := AddExpence(user, text, clock, dates);
      case Report(text) => reply := GetReport(user, text, clock);
      case SetCurrency(text) => reply := ChangeCurrency(user, text);
      case SetLimit(text) => reply := SetUserLimit(user, text);
      case ResetLimit =>
        storage.ResetUserLimit(user);
        reply := LimitReset;
      case Other => reply := Help;
    }
  }
}
