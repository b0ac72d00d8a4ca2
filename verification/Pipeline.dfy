/**
 The way of a report request: bot, unbuffered channel, producer, topic partitions, consumer claims, gRPC
 handler, unbuffered channel, bot. Replies are anonymous and partitions run concurrently, so that a reply
 reaches the question it answers rests on there never being two unanswered requests. No message is lost,
 delivered twice or refused, and nothing is cancelled.
 */
module Pipeline {
  import opened Wrappers
  import opened Steps
  import opened Tables
  import opened Conversion
  import opened Refinement
  import opened Reports
  import opened ReportWire

  const PARTITIONS: nat := 2

  /** The goroutine that runs commands, one at a time. It blocks while it asks for a report. */
  datatype Bot = Idle | Offering(request: ReportRequest) | Awaiting(request: ReportRequest)

  datatype Producer = Listening | Holding(message: KafkaMessage) | AwaitingAck

  /** A consumer claim and its gRPC call: the handler blocks on the bot's channel, and the message is marked last. */
  datatype Claim =
    | Polling
    | Fetched(message: KafkaMessage)
    | Queried(found: seq<Expence>)
    | Handling(expences: seq<Expence>)
    | Returning

  /** A question, the expences that came back, and the tables at that moment. */
  datatype Reply = Reply(request: ReportRequest, expences: seq<Expence>, t: Tables)

  datatype State = State(
    t: Tables,
    bot: Bot,
    producer: Producer,
    input: seq<KafkaMessage>,
    acks: nat,
    topic: seq<seq<KafkaMessage>>,
    claims: seq<Claim>,
    replies: seq<Reply>)

  datatype Action =
    | Command(step: Step)
    | Background(step: Step)
    | Ask(request: ReportRequest)
    | Accept
    | Publish
    | Append(partition: int)
    | Ack
    | Fetch(partition: int)
    | Query(partition: int, rows: seq<Row>)
    | Call(partition: int)
    | Deliver(partition: int)
    | Mark(partition: int)

  ghost predicate Enabled(s: State, a: Action) {
    match a
    case Command(_) => s.bot.Idle?
    case Background(step) => IsGlobal(step)
    case Ask(_) => s.bot.Idle?
    case Accept => s.bot.Offering? && s.producer.Listening?
    case Publish => s.producer.Holding?
    case Append(p) => s.input != [] && 0 <= p < |s.topic|
    case Ack => s.producer.AwaitingAck? && s.acks > 0
    case Fetch(p) => 0 <= p < |s.topic| && p < |s.claims| && s.claims[p].Polling? && s.topic[p] != []
    case Query(p, rows) =>
      0 <= p < |s.claims| && s.claims[p].Fetched? && DecodeRequest(s.claims[p].message).Some? &&
      var r := DecodeRequest(s.claims[p].message).value;
      IsAnswer(s.t, r.user, r.cutoff, rows)
    case Call(p) => 0 <= p < |s.claims| && s.claims[p].Queried?
    case Deliver(p) => 0 <= p < |s.claims| && s.claims[p].Handling? && s.bot.Awaiting?
    case Mark(p) => 0 <= p < |s.claims| && s.claims[p].Returning?
  }

  ghost function Do(s: State, a: Action): State
    requires Enabled(s, a)
  {
    match a
    case Command(step) => s.(t := Apply(s.t, step).tables)
    case Background(step) => s.(t := Apply(s.t, step).tables)
    case Ask(r) => s.(bot := Offering(r))
    case Accept => s.(bot := Awaiting(s.bot.request), producer := Holding(EncodeRequest(s.bot.request)))
    case Publish => s.(producer := AwaitingAck, input := s.input + [s.producer.message])
    case Append(p) => s.(input := s.input[1..], acks := s.acks + 1, topic := s.topic[p := s.topic[p] + [s.input[0]]])
    case Ack => s.(producer := Listening, acks := s.acks - 1)
    case Fetch(p) => s.(topic := s.topic[p := s.topic[p][1..]], claims := s.claims[p := Fetched(s.topic[p][0])])
    case Query(p, rows) => s.(claims := s.claims[p := Queried(ScannedAll(rows))])
    case Call(p) => s.(claims := s.claims[p := Handling(FromWire(ToWire(s.claims[p].found)))])
    case Deliver(p) =>
      s.(bot := Idle, claims := s.claims[p := Returning],
         replies := s.replies + [Reply(s.bot.request, s.claims[p].expences, s.t)])
    case Mark(p) => s.(claims := s.claims[p := Polling])
  }

  ghost function Initial(t: Tables): State {
    State(t, Idle, Listening, [], 0, seq(PARTITIONS, _ => []), seq(PARTITIONS, _ => Polling), [])
  }

  ghost function After(s: State, actions: seq<Action>): Option<State> {
    if actions == [] then Some(s)
    else
      match After(s, actions[..|actions| - 1])
      case None => None
      case Some(before) =>
        if Enabled(before, actions[|actions| - 1]) then Some(Do(before, actions[|actions| - 1])) else None
  }

  // ----- the invariant -----

  /** Where the one unanswered request is, once the producer has accepted it. */
  datatype Place = Nowhere | AtProducer | AtInput | InTopic(p: int) | AtClaim(p: int)

  predicate Live(c: Claim) { c.Fetched? || c.Queried? || c.Handling? }

  /** `es` is a possible result of the report query for `r`. */
  ghost predicate RepliesTo(t: Tables, r: ReportRequest, es: seq<Expence>) {
    exists rows :: IsAnswer(t, r.user, r.cutoff, rows) && es == ScannedAll(rows)
  }

  ghost predicate ClaimHolds(t: Tables, c: Claim, r: ReportRequest) {
    match c
    case Fetched(message) => message == EncodeRequest(r)
    case Queried(found) => RepliesTo(t, r, found)
    case Handling(expences) => RepliesTo(t, r, expences)
    case _ => false
  }

  ghost predicate Located(s: State, place: Place, r: ReportRequest) {
    && s.producer.Holding? == (place == AtProducer)
    && (s.producer.Holding? ==> s.producer.message == EncodeRequest(r))
    && s.input == (if place == AtInput then [EncodeRequest(r)] else [])
    && (forall p :: 0 <= p < |s.topic| ==> s.topic[p] == if place == InTopic(p) then [EncodeRequest(r)] else [])
    && (forall p :: 0 <= p < |s.claims| ==> Live(s.claims[p]) == (place == AtClaim(p)))
    && (place.InTopic? ==> 0 <= place.p < |s.topic|)
    && (place.AtClaim? ==> 0 <= place.p < |s.claims| && ClaimHolds(s.t, s.claims[place.p], r))
  }

  function Asked(s: State): ReportRequest { if s.bot.Idle? then ReportRequest(0, 0) else s.bot.request }

  ghost predicate Matched(replies: seq<Reply>) {
    forall i :: 0 <= i < |replies| ==> RepliesTo(replies[i].t, replies[i].request, replies[i].expences)
  }

  ghost predicate Inv(s: State, place: Place) {
    && Sound(s.t)
    && |s.topic| == |s.claims| == PARTITIONS
    && Located(s, place, Asked(s))
    && (s.bot.Awaiting? <==> place != Nowhere)
    && (s.producer.AwaitingAck? ==> s.acks + |s.input| == 1)
    && (!s.producer.AwaitingAck? ==> s.acks == 0 && s.input == [])
    && Matched(s.replies)
  }

  /** Refills and rate updates leave every answer an answer. */
  lemma BackgroundKeepsAnswers(t: Tables, step: Step, r: ReportRequest, es: seq<Expence>)
    requires IsGlobal(step) && RepliesTo(t, r, es)
    ensures RepliesTo(Apply(t, step).tables, r, es)
  {
    var t' := Apply(t, step).tables;
    var rows :| IsAnswer(t, r.user, r.cutoff, rows) && es == ScannedAll(rows);
    var ids :| Enumerates(t, r.user, r.cutoff, t.nextExpence, ids) && RowsAt(t, ids, rows);
    assert forall e :: t.Selected(e, r.user, r.cutoff) <==> t'.Selected(e, r.user, r.cutoff);
    assert Enumerates(t', r.user, r.cutoff, t'.nextExpence, ids) && RowsAt(t', ids, rows);
    assert IsAnswer(t', r.user, r.cutoff, rows);
  }

  /** Where the request is after an action. */
  function NextPlace(place: Place, a: Action): Place {
    match a
    case Accept => AtProducer
    case Publish => AtInput
    case Append(p) => InTopic(p)
    case Fetch(p) => AtClaim(p)
    case Deliver(_) => Nowhere
    case _ => place
  }

  lemma TablesChangeKeepsInv(s: State, place: Place, a: Action)
    requires Inv(s, place) && Enabled(s, a) && (a.Command? || a.Background?)
    ensures Inv(Do(s, a), place)
  {
    hide RepliesTo, Apply, Sound;
    ApplyKeepsInvariants(s.t, a.step);
    if place.AtClaim? {
      match s.claims[place.p]
      case Queried(found) => BackgroundKeepsAnswers(s.t, a.step, Asked(s), found);
      case Handling(expences) => BackgroundKeepsAnswers(s.t, a.step, Asked(s), expences);
      case _ =>
    }
  }

  lemma QueryKeepsInv(s: State, place: Place, a: Action)
    requires Inv(s, place) && Enabled(s, a) && a.Query?
    ensures Inv(Do(s, a), place)
  {
    hide IsAnswer, Sound, Matched, RepliesTo, EncodeRequest, DecodeRequest;
    assert place == AtClaim(a.partition);
    RequestRoundTrip(Asked(s));
    AnswersScanned(s.t, Asked(s), a.rows);
  }

  lemma AnswersScanned(t: Tables, r: ReportRequest, rows: seq<Row>)
    requires IsAnswer(t, r.user, r.cutoff, rows)
    ensures RepliesTo(t, r, ScannedAll(rows))
  {
  }

  lemma CallKeepsInv(s: State, place: Place, a: Action)
    requires Inv(s, place) && Enabled(s, a) && a.Call?
    ensures Inv(Do(s, a), place)
  {
    hide IsAnswer, Sound, Matched, RepliesTo, FromWire, ToWire, EncodeRequest;
    assert place == AtClaim(a.partition);
    AnswersTravel(s.t, Asked(s), s.claims[a.partition].found);
  }

  lemma AnswersTravel(t: Tables, r: ReportRequest, es: seq<Expence>)
    requires RepliesTo(t, r, es)
    ensures FromWire(ToWire(es)) == es
  {
    var rows :| IsAnswer(t, r.user, r.cutoff, rows) && es == ScannedAll(rows);
    ReplyIsAnonymous(rows);
  }

  lemma ProducerKeepsInv(s: State, place: Place, a: Action)
    requires Inv(s, place) && Enabled(s, a) && (a.Ask? || a.Accept? || a.Publish? || a.Append? || a.Ack?)
    ensures Inv(Do(s, a), NextPlace(place, a))
  {
    hide RepliesTo, Sound, Matched, EncodeRequest;
  }

  lemma FetchKeepsInv(s: State, place: Place, a: Action)
    requires Inv(s, place) && Enabled(s, a) && a.Fetch?
    ensures Inv(Do(s, a), NextPlace(place, a))
  {
    hide RepliesTo, Sound, Matched, EncodeRequest;
    assert place == InTopic(a.partition);
  }

  lemma MarkKeepsInv(s: State, place: Place, a: Action)
    requires Inv(s, place) && Enabled(s, a) && a.Mark?
    ensures Inv(Do(s, a), place)
  {
    hide RepliesTo, Sound, Matched, EncodeRequest;
  }

  lemma DeliverKeepsInv(s: State, place: Place, a: Action)
    requires Inv(s, place) && Enabled(s, a) && a.Deliver?
    ensures Inv(Do(s, a), Nowhere)
    ensures RepliesTo(s.t, s.bot.request, s.claims[a.partition].expences)
  {
    hide RepliesTo, Sound;
    assert place == AtClaim(a.partition);
  }

  lemma StepKeepsInv(s: State, place: Place, a: Action)
    requires Inv(s, place) && Enabled(s, a)
    ensures Inv(Do(s, a), NextPlace(place, a))
  {
    hide RepliesTo, Sound, Inv, Do;
    match a
    case Command(_) => TablesChangeKeepsInv(s, place, a);
    case Background(_) => TablesChangeKeepsInv(s, place, a);
    case Query(_, _) => QueryKeepsInv(s, place, a);
    case Call(_) => CallKeepsInv(s, place, a);
    case Deliver(_) => DeliverKeepsInv(s, place, a);
    case Fetch(_) => FetchKeepsInv(s, place, a);
    case Mark(_) => MarkKeepsInv(s, place, a);
    case _ => ProducerKeepsInv(s, place, a);
  }

  lemma {:induction false} RunKeepsInv(t: Tables, actions: seq<Action>, s: State) returns (place: Place)
    requires Sound(t) && After(Initial(t), actions) == Some(s)
    ensures Inv(s, place)
  {
    if actions == [] {
      place := Nowhere;
    } else {
      var before := After(Initial(t), actions[..|actions| - 1]).value;
      place := RunKeepsInv(t, actions[..|actions| - 1], before);
      StepKeepsInv(before, place, actions[|actions| - 1]);
      place := NextPlace(place, actions[|actions| - 1]);
    }
  }

  // ----- what was asked, and when it was answered -----

  function AskedIn(actions: seq<Action>): seq<ReportRequest> {
    if actions == [] then [] else
      AskedIn(actions[..|actions| - 1]) + if actions[|actions| - 1].Ask? then [actions[|actions| - 1].request] else []
  }

  /** The steps on the tables, of commands and background services. */
  function StepsIn(actions: seq<Action>): seq<Step> {
    if actions == [] then [] else
      var last := actions[|actions| - 1];
      StepsIn(actions[..|actions| - 1]) + if last.Command? || last.Background? then [last.step] else []
  }

  /** The tables at each delivery. */
  ghost function Moments(t: Tables, actions: seq<Action>): seq<Tables> {
    if actions == [] then [] else
      var front := actions[..|actions| - 1];
      Moments(t, front) + if actions[|actions| - 1].Deliver? then [Run(t, StepsIn(front))] else []
  }

  function RequestsOf(replies: seq<Reply>): (requests: seq<ReportRequest>)
    ensures |requests| == |replies| && forall i :: 0 <= i < |replies| ==> requests[i] == replies[i].request
  {
    seq(|replies|, i requires 0 <= i < |replies| => replies[i].request)
  }

  function TablesOf(replies: seq<Reply>): (tables: seq<Tables>)
    ensures |tables| == |replies| && forall i :: 0 <= i < |replies| ==> tables[i] == replies[i].t
  {
    seq(|replies|, i requires 0 <= i < |replies| => replies[i].t)
  }

  function PendingRequest(bot: Bot): seq<ReportRequest> { if bot.Idle? then [] else [bot.request] }

  lemma DoAsks(s: State, a: Action)
    requires Enabled(s, a)
    ensures RequestsOf(Do(s, a).replies) + PendingRequest(Do(s, a).bot) ==
            RequestsOf(s.replies) + PendingRequest(s.bot) + if a.Ask? then [a.request] else []
    ensures TablesOf(Do(s, a).replies) == TablesOf(s.replies) + if a.Deliver? then [s.t] else []
    ensures Do(s, a).t == if a.Command? || a.Background? then Apply(s.t, a.step).tables else s.t
  {
    hide Apply, IsAnswer;
  }

  /** Every request put to the pipeline is one that was asked, in order, and every command takes its effect. */
  lemma {:induction false} AsAsked(t: Tables, actions: seq<Action>, s: State)
    requires After(Initial(t), actions) == Some(s)
    ensures RequestsOf(s.replies) + PendingRequest(s.bot) == AskedIn(actions)
    ensures TablesOf(s.replies) == Moments(t, actions) && s.t == Run(t, StepsIn(actions))
  {
    hide Do, Enabled, Apply, RequestsOf, TablesOf;
    if actions == [] {
      assert RequestsOf([]) == [] && TablesOf([]) == [];
    } else {
      var front, last := actions[..|actions| - 1], actions[|actions| - 1];
      var before := After(Initial(t), front).value;
      AsAsked(t, front, before);
      DoAsks(before, last);
      if last.Command? || last.Background? {
        RunPush(t, StepsIn(front), last.step);
      } else {
        assert StepsIn(front) + [] == StepsIn(front);
      }
    }
  }

  /**
   Matching. In every run the answered requests, and then the one the bot still waits for, are those that were
   asked, in order; and each list the bot received is an answer to its request on the tables of the moment it came,
   although no reply says whom it is for.
   */
  lemma RepliesMatch(t: Tables, actions: seq<Action>, s: State)
    requires Sound(t) && After(Initial(t), actions) == Some(s)
    ensures RequestsOf(s.replies) + PendingRequest(s.bot) == AskedIn(actions)
    ensures TablesOf(s.replies) == Moments(t, actions) && s.t == Run(t, StepsIn(actions))
    ensures forall i :: 0 <= i < |s.replies| ==>
              RepliesTo(s.replies[i].t, s.replies[i].request, s.replies[i].expences)
  {
    var place := RunKeepsInv(t, actions, s);
    AsAsked(t, actions, s);
  }

  /** What `GetExpencesMap` makes of a reply is the report of the user it asked about. */
  lemma ReplyFoldsToReport(t: Tables, r: ReportRequest, es: seq<Expence>, rate: Rate)
    requires Sound(t) && RepliesTo(t, r, es)
    ensures FoldRows(RowsOf(es), rate) == ReportOf(BookOf(t, r.user), r.cutoff, rate)
  {
    var rows :| IsAnswer(t, r.user, r.cutoff, rows) && es == ScannedAll(rows);
    RowsOfScanned(rows);
    AnswerFoldsToReport(t, r.user, r.cutoff, rate, rows);
  }

  // ----- how many requests are unanswered -----

  function Queued(topic: seq<seq<KafkaMessage>>): nat {
    if topic == [] then 0 else Queued(topic[..|topic| - 1]) + |topic[|topic| - 1]|
  }

  function InWork(claims: seq<Claim>): nat {
    if claims == [] then 0 else InWork(claims[..|claims| - 1]) + if Live(claims[|claims| - 1]) then 1 else 0
  }

  /** Requests taken from the bot and not yet given back, wherever they are. */
  function Unanswered(s: State): nat {
    (if s.producer.Holding? then 1 else 0) + |s.input| + Queued(s.topic) + InWork(s.claims)
  }

  lemma {:induction false} QueuedAt(topic: seq<seq<KafkaMessage>>, p: int)
    requires forall i :: 0 <= i < |topic| && i != p ==> topic[i] == []
    ensures Queued(topic) == if 0 <= p < |topic| then |topic[p]| else 0
  {
    if topic != [] {
      QueuedAt(topic[..|topic| - 1], p);
    }
  }

  lemma {:induction false} InWorkAt(claims: seq<Claim>, p: int)
    requires forall i :: 0 <= i < |claims| && i != p ==> !Live(claims[i])
    ensures InWork(claims) == if 0 <= p < |claims| && Live(claims[p]) then 1 else 0
  {
    if claims != [] {
      InWorkAt(claims[..|claims| - 1], p);
    }
  }

  /** In every reachable state exactly one request is under way while the bot awaits a reply, and none otherwise. */
  lemma AtMostOneUnanswered(t: Tables, actions: seq<Action>, s: State)
    requires Sound(t) && After(Initial(t), actions) == Some(s)
    ensures Unanswered(s) == if s.bot.Awaiting? then 1 else 0
  {
    hide RepliesTo, Sound, Matched;
    var place := RunKeepsInv(t, actions, s);
    QueuedAt(s.topic, if place.InTopic? then place.p else -1);
    InWorkAt(s.claims, if place.AtClaim? then place.p else -1);
  }

  // ----- progress -----

  /** Steps of producer, broker, consumer and handler, and the bot's hand-over: everything but new work. */
  predicate IsPipeline(a: Action) { !a.Command? && !a.Background? && !a.Ask? }

  function Unmarked(claims: seq<Claim>): nat {
    if claims == [] then 0 else Unmarked(claims[..|claims| - 1]) + if claims[|claims| - 1].Returning? then 1 else 0
  }

  /** Stages the request has yet to pass. */
  function Distance(s: State, place: Place): nat {
    match place
    case Nowhere => if s.bot.Offering? then 10 else 0
    case AtProducer => 8
    case AtInput => 6
    case InTopic(_) => 5
    case AtClaim(p) =>
      if 0 <= p < |s.claims| then
        (match s.claims[p] case Fetched(_) => 4 case Queried(_) => 3 case Handling(_) => 2 case _ => 0)
      else 0
  }

  /** Remaining stages, an outstanding acknowledgement, and messages still to be marked. */
  function Measure(s: State, place: Place): nat {
    Distance(s, place) + (if s.producer.AwaitingAck? then 1 else 0) + Unmarked(s.claims)
  }

  lemma {:induction false} UnmarkedUpdate(claims: seq<Claim>, p: nat, c: Claim)
    requires p < |claims|
    ensures Unmarked(claims[p := c]) + (if claims[p].Returning? then 1 else 0) ==
            Unmarked(claims) + if c.Returning? then 1 else 0
  {
    var front := claims[..|claims| - 1];
    if p < |front| {
      UnmarkedUpdate(front, p, c);
      assert claims[p := c][..|front|] == front[p := c];
    } else {
      assert claims[p := c][..|front|] == front;
    }
  }

  predicate AtClaimStep(a: Action) { a.Fetch? || a.Query? || a.Call? || a.Deliver? || a.Mark? }

  lemma ClaimStepDecreases(s: State, place: Place, a: Action)
    requires Inv(s, place) && Enabled(s, a) && AtClaimStep(a)
    ensures Measure(Do(s, a), NextPlace(place, a)) < Measure(s, place)
  {
    hide RepliesTo, Sound, Matched, IsAnswer, EncodeRequest, DecodeRequest, Unmarked;
    UnmarkedUpdate(s.claims, a.partition, Do(s, a).claims[a.partition]);
    assert Do(s, a).claims == s.claims[a.partition := Do(s, a).claims[a.partition]];
  }

  /** Every pipeline step brings the request closer to its answer; background steps do not take it back. */
  lemma StepDecreases(s: State, place: Place, a: Action)
    requires Inv(s, place) && Enabled(s, a)
    ensures IsPipeline(a) ==> Measure(Do(s, a), NextPlace(place, a)) < Measure(s, place)
    ensures a.Background? ==> Measure(Do(s, a), place) == Measure(s, place)
  {
    hide RepliesTo, Sound, Matched, IsAnswer, Apply, Unmarked;
    if AtClaimStep(a) {
      ClaimStepDecreases(s, place, a);
    }
  }

  /** No deadlock: while the bot is blocked on either channel, some pipeline step is possible. */
  lemma NeverStuck(s: State, place: Place) returns (a: Action)
    requires Inv(s, place) && !s.bot.Idle?
    ensures IsPipeline(a) && Enabled(s, a)
  {
    hide RepliesTo, Sound, Matched, IsAnswer, EncodeRequest, DecodeRequest;
    match place
    case Nowhere => a := if s.producer.Listening? then Accept else Ack;
    case AtProducer => a := Publish;
    case AtInput => a := Append(0);
    case InTopic(p) => a := if s.claims[p].Polling? then Fetch(p) else Mark(p);
    case AtClaim(p) =>
      match s.claims[p]
      case Fetched(_) =>
        var r := Asked(s);
        RequestRoundTrip(r);
        var rows := SomeAnswer(s.t, r.user, r.cutoff);
        a := Query(p, rows);
      case Queried(_) => a := Call(p);
      case Handling(_) => a := Deliver(p);
  }

  /** The report query always has an answer. */
  /** An idle bot may ask anything; the question is then under way. */
  lemma AskStarts(s: State, r: ReportRequest)
    requires s.bot.Idle?
    ensures Enabled(s, Ask(r)) && PendingRequest(Do(s, Ask(r)).bot) == [r]
  {
  }

  lemma SomeAnswer(t: Tables, u: int, cutoff: int) returns (rows: seq<Row>)
    ensures IsAnswer(t, u, cutoff, rows)
  {
    var ids;
    ids, rows := SomeListing(t, u, cutoff, t.nextExpence);
  }

  lemma {:induction false} SomeListing(t: Tables, u: int, cutoff: int, n: nat) returns (ids: seq<int>, rows: seq<Row>)
    ensures Enumerates(t, u, cutoff, n, ids) && RowsAt(t, ids, rows)
  {
    if n == 0 {
      ids, rows := [], [];
    } else {
      ids, rows := SomeListing(t, u, cutoff, n - 1);
      if t.Selected(n - 1, u, cutoff) {
        var ids' := ids + [n - 1];
        forall e ensures e in ids' <==> 0 <= e < n && t.Selected(e, u, cutoff) {
          assert e in ids' <==> e in ids || e == n - 1;
        }
        ids, rows := ids', rows + [RowAt(t, n - 1)];
      }
    }
  }

  function PipelineSteps(actions: seq<Action>): nat {
    if actions == [] then 0 else
      PipelineSteps(actions[..|actions| - 1]) + if IsPipeline(actions[|actions| - 1]) then 1 else 0
  }

  /** As long as no new work comes, the pipeline takes at most as many steps as the measure says. */
  lemma {:induction false} BoundedSteps(s: State, place: Place, actions: seq<Action>, s': State) returns (place': Place)
    requires Inv(s, place) && After(s, actions) == Some(s')
    requires NoNewWork(actions)
    ensures Inv(s', place') && Measure(s', place') + PipelineSteps(actions) <= Measure(s, place)
  {
    if actions == [] {
      place' := place;
    } else {
      var front, last := actions[..|actions| - 1], actions[|actions| - 1];
      var before := After(s, front).value;
      place' := BoundedSteps(s, place, front, before);
      StepDecreases(before, place', last);
      StepKeepsInv(before, place', last);
      place' := NextPlace(place', last);
    }
  }

  lemma {:induction false} UnmarkedBound(claims: seq<Claim>)
    ensures Unmarked(claims) <= |claims|
  {
    if claims != [] {
      UnmarkedBound(claims[..|claims| - 1]);
    }
  }

  predicate NoNewWork(actions: seq<Action>) {
    forall i :: 0 <= i < |actions| ==> IsPipeline(actions[i]) || actions[i].Background?
  }

  /** Still waiting with the same question, or answered once, with that question. */
  ghost predicate Pursues(s: State, s': State)
    requires !s.bot.Idle?
  {
    if s'.bot.Idle? then
      |s'.replies| == |s.replies| + 1 && s'.replies[..|s.replies|] == s.replies &&
      s'.replies[|s.replies|].request == s.bot.request
    else s'.bot.request == s.bot.request && s'.replies == s.replies
  }

  lemma {:induction false} OneQuestion(s: State, more: seq<Action>, s': State)
    requires !s.bot.Idle? && NoNewWork(more) && After(s, more) == Some(s')
    ensures Pursues(s, s')
  {
    hide Apply;
    if more != [] {
      OneQuestion(s, more[..|more| - 1], After(s, more[..|more| - 1]).value);
    }
  }

  /**
   Progress. From any reachable state in which the bot is blocked on a report, and whatever the background
   services do meanwhile, the pipeline takes at most thirteen steps before it rests, and it cannot rest, in
   whatever order it takes them, before the bot has received the reply to its question.
   */
  lemma AnsweredWithinThirteen(t: Tables, actions: seq<Action>, s: State, more: seq<Action>, s': State)
    requires Sound(t) && After(Initial(t), actions) == Some(s) && !s.bot.Idle?
    requires After(s, more) == Some(s') && NoNewWork(more)
    ensures PipelineSteps(more) <= 13
    ensures Pursues(s, s')
    ensures !s'.bot.Idle? ==> exists a :: IsPipeline(a) && Enabled(s', a)
  {
    hide RepliesTo, Sound, Matched;
    var place := RunKeepsInv(t, actions, s);
    UnmarkedBound(s.claims);
    var place' := BoundedSteps(s, place, more, s');
    OneQuestion(s, more, s');
    if !s'.bot.Idle? {
      var a := NeverStuck(s', place');
    }
  }
}
