/** What travels between the bot and the report generator: Kafka messages one way, gRPC reports the other. */
module ReportWire {
  import opened Wrappers
  import opened Decimal
  import opened Reports

  datatype ReportRequest = ReportRequest(user: int, cutoff: int)

  datatype KafkaMessage = KafkaMessage(key: string, value: string)

  datatype Expence = Expence(id: int, userId: int, categoryId: int, categoryName: string, ts: int, total: int)

  datatype WireExpence = WireExpence(id: int, categoryId: int, categoryName: string, ts: int, total: int)

  datatype WireReport = WireReport(userId: int, expences: seq<WireExpence>)

  function EncodeRequest(r: ReportRequest): KafkaMessage { KafkaMessage(FormatInt(r.user), FormatInt(r.cutoff)) }

  function DecodeRequest(m: KafkaMessage): Option<ReportRequest> {
    match (ParseInt(m.key), ParseInt(m.value))
    case (Some(user), Some(cutoff)) => Some(ReportRequest(user, cutoff))
    case _ => None
  }

  lemma RequestRoundTrip(r: ReportRequest)
    ensures DecodeRequest(EncodeRequest(r)) == Some(r)
  {
    ParseFormat(r.user);
    ParseFormat(r.cutoff);
  }

  /** Unix seconds of Go's zero time. */
  const ZERO_TIME := -62135596800

  /** The query scans a name and a total; every other field keeps its zero value. */
  function Scanned(row: Row): Expence { Expence(0, 0, 0, row.name, ZERO_TIME, row.total) }

  function ScannedAll(rows: seq<Row>): (es: seq<Expence>)
    ensures |es| == |rows| && forall i :: 0 <= i < |rows| ==> es[i] == Scanned(rows[i])
  {
    if rows == [] then [] else ScannedAll(rows[..|rows| - 1]) + [Scanned(rows[|rows| - 1])]
  }

  function ToWireExpence(e: Expence): WireExpence { WireExpence(e.id, e.categoryId, e.categoryName, e.ts, e.total) }

  function FromWireExpence(userId: int, e: WireExpence): Expence {
    Expence(e.id, userId, e.categoryId, e.categoryName, e.ts, e.total)
  }

  function ToWireAll(es: seq<Expence>): (ws: seq<WireExpence>)
    ensures |ws| == |es| && forall i :: 0 <= i < |es| ==> ws[i] == ToWireExpence(es[i])
  {
    if es == [] then [] else ToWireAll(es[..|es| - 1]) + [ToWireExpence(es[|es| - 1])]
  }

  function FromWireAll(userId: int, ws: seq<WireExpence>): (es: seq<Expence>)
    ensures |es| == |ws| && forall i :: 0 <= i < |ws| ==> es[i] == FromWireExpence(userId, ws[i])
  {
    if ws == [] then [] else FromWireAll(userId, ws[..|ws| - 1]) + [FromWireExpence(userId, ws[|ws| - 1])]
  }

  /** `CreateMessage`: the report carries the user id of the first expence, or -1. */
  function ToWire(es: seq<Expence>): WireReport {
    WireReport(if es == [] then -1 else es[0].userId, ToWireAll(es))
  }

  /** `SendReport`: every rebuilt expence takes the report's user id. */
  function FromWire(r: WireReport): seq<Expence> { FromWireAll(r.userId, r.expences) }

  /** Expences of one user survive the journey unchanged. */
  lemma WireRoundTrip(es: seq<Expence>)
    requires forall i :: 0 <= i < |es| ==> es[i].userId == es[0].userId
    ensures FromWire(ToWire(es)) == es
  {
  }

  /** A reply says nothing about whom it is for: its user id is 0, or -1 when it is empty. */
  lemma ReplyIsAnonymous(rows: seq<Row>)
    ensures ToWire(ScannedAll(rows)).userId == if rows == [] then -1 else 0
    ensures FromWire(ToWire(ScannedAll(rows))) == ScannedAll(rows)
  {
    WireRoundTrip(ScannedAll(rows));
  }

  /** Name and total of each expence, all that the bot reads of a reply. */
  function RowsOf(es: seq<Expence>): (rows: seq<Row>)
    ensures |rows| == |es| && forall i :: 0 <= i < |es| ==> rows[i] == Row(es[i].categoryName, es[i].total)
  {
    if es == [] then [] else RowsOf(es[..|es| - 1]) + [Row(es[|es| - 1].categoryName, es[|es| - 1].total)]
  }

  lemma RowsOfScanned(rows: seq<Row>)
    ensures RowsOf(ScannedAll(rows)) == rows
  {
  }
}
