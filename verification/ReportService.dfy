/** The two ends of the report route: the Kafka consumer that runs the query, and the gRPC server in the bot. */
module ReportService {
  import opened Wrappers
  import opened ReportWire
  import opened Pipeline
  import opened Database

  class Consumer {
    const expencesDB: ExpencesDB

    constructor (expencesDB: ExpencesDB)
      ensures this.expencesDB == expencesDB
    {
      this.expencesDB := expencesDB;
    }

    method CreateMessage(expences: seq<Expence>) returns (msg: WireReport)
      ensures msg == ToWire(expences)
    {
      var userId := -1;
      if |expences| > 0 {
        userId := expences[0].userId;
      }
      var fields: seq<WireExpence> := [];
      for i := 0 to |expences|
        invariant fields == ToWireAll(expences[..i])
      {
        var v := expences[i];
        fields := fields + [WireExpence(v.id, v.categoryId, v.categoryName, v.ts, v.total)];
        assert expences[..i + 1][..i] == expences[..i];
      }
      assert expences[..|expences|] == expences;
      msg := WireReport(userId, fields);
    }

    /** `None` when the key or the value is not a number. */
    method ProcessMessage(msg: KafkaMessage) returns (sent: Option<WireReport>)
      requires expencesDB.db.State().Consistent()
      ensures sent.None? <==> DecodeRequest(msg).None?
      ensures sent.Some? ==> exists es ::
                RepliesTo(expencesDB.db.State(), DecodeRequest(msg).value, es) && sent.value == ToWire(es)
    {
      match DecodeRequest(msg)
      case None => return None;
      case Some(request) =>
        var expences := expencesDB.GetUserExpences(request.user, request.cutoff);
        var report := CreateMessage(expences);
        assert RepliesTo(expencesDB.db.State(), request, expences);
        return Some(report);
    }
  }

  class GrpcReportServer {

    constructor () {
    }

    /** The list that goes to the bot's channel. */
    method SendReport(reportMsg: WireReport) returns (expences: seq<Expence>)
      ensures expences == FromWire(reportMsg)
    {
      var userId := reportMsg.userId;
      expences := [];
      for i := 0 to |reportMsg.expences|
        invariant expences == FromWireAll(userId, reportMsg.expences[..i])
      {
        var v := reportMsg.expences[i];
        expences := expences + [Expence(v.id, userId, v.categoryId, v.categoryName, v.ts, v.total)];
        assert reportMsg.expences[..i + 1][..i] == reportMsg.expences[..i];
      }
      assert reportMsg.expences[..|reportMsg.expences|] == reportMsg.expences;
    }
  }
}
