/**
 One request through the middleware chain. The logging middleware is
 registered before the rate limiter, so it builds the row, appends its
 line to the log and formats the notification for every request; only
 then does the limiter decide whether the request goes on or is answered
 with 429. The limiter's decision is an input here: its counting lives in
 a library.
 */
module Pipeline {
  import opened JsValues
  import VisitorRow
  import CsvLine
  import Notify

  /** The rate limiter's verdict on one request. */
  datatype Decision = Allow | Reject

  /** What happens to a request after the middleware: it reaches the routes, or it is answered directly. */
  datatype Response = PassOn | Answer(status: int, body: string)

  /** The limiter's answer to a rejected request. */
  const TooManyStatus: int := 429
  const TooManyBody: string := "Too many requests. Slow down."

  /** One inbound request: its facts, its capture time and the limiter's verdict on it. */
  datatype Visit = Visit(req: VisitorRow.Request, timestamp: string, decision: Decision)

  /** The effects of one request: the log after it, the notification formatted for it, the response. */
  datatype Outcome = Outcome(log: seq<string>, notice: Option<string>, response: Response)

  /** The row the logging middleware builds for a visit. */
  function RowOf(lookup: JsValue -> Option<VisitorRow.Geo>, v: Visit): seq<JsValue> {
    VisitorRow.Values(VisitorRow.BuildRow(v.req, lookup, v.timestamp))
  }

  /** The log line written for a visit. */
  function LineOf(lookup: JsValue -> Option<VisitorRow.Geo>, v: Visit): string {
    CsvLine.EncodeLine(RowOf(lookup, v))
  }

  /** The notification formatted for a visit. */
  function NoticeOf(webhook: Option<string>, lookup: JsValue -> Option<VisitorRow.Geo>, v: Visit): Option<string> {
    Notify.Format(webhook, RowOf(lookup, v))
  }

  /** `appendLogRow`: the log is a sequence of lines, and the row's line goes at its end. */
  function AppendLogRow(log: seq<string>, row: seq<JsValue>): (log': seq<string>)
    ensures |log'| == |log| + 1
    ensures log'[..|log|] == log
    ensures log'[|log|] == CsvLine.EncodeLine(row)
  {
    log + [CsvLine.EncodeLine(row)]
  }

  /** The limiter middleware: an allowed request passes on, a rejected one gets 429 and the fixed text. */
  function Limit(d: Decision): (resp: Response)
    ensures resp.PassOn? <==> d == Allow
    ensures resp.Answer? ==> resp.status == TooManyStatus && resp.body == TooManyBody
  {
    match d
    case Allow => PassOn
    case Reject => Answer(TooManyStatus, TooManyBody)
  }

  /** One request through the logging middleware and then the limiter. */
  function Step(log: seq<string>, webhook: Option<string>, lookup: JsValue -> Option<VisitorRow.Geo>, v: Visit): (o: Outcome)
    ensures |o.log| == |log| + 1 && o.log[..|log|] == log
    ensures o.log[|log|] == LineOf(lookup, v)
    ensures o.notice == NoticeOf(webhook, lookup, v)
    ensures o.notice.Some? <==> Notify.Enabled(webhook)
    ensures o.response.Answer? <==> v.decision == Reject
  {
    var row := RowOf(lookup, v);
    var logged := AppendLogRow(log, row);
    var notice := Notify.Format(webhook, row);
    Outcome(logged, notice, Limit(v.decision))
  }

  /**
   Logging does not depend on the limiter: the same request leaves the
   same log and the same notification whether it is allowed or rejected,
   and only the response differs.
   */
  lemma LoggedRegardless(log: seq<string>, webhook: Option<string>, lookup: JsValue -> Option<VisitorRow.Geo>,
                         req: VisitorRow.Request, timestamp: string)
    ensures var allowed := Step(log, webhook, lookup, Visit(req, timestamp, Allow));
            var rejected := Step(log, webhook, lookup, Visit(req, timestamp, Reject));
            && allowed.log == rejected.log
            && allowed.notice == rejected.notice
            && allowed.response == PassOn
            && rejected.response == Answer(TooManyStatus, TooManyBody)
  {
  }

  /**
   A run of requests, one at a time in arrival order: exactly one line per
   request is appended, in the same order, rejected requests included;
   the log's earlier lines are untouched; each request gets its limiter
   response.
   */
  method ProcessAll(log: seq<string>, webhook: Option<string>, lookup: JsValue -> Option<VisitorRow.Geo>, visits: seq<Visit>)
    returns (log': seq<string>, responses: seq<Response>)
    ensures |log'| == |log| + |visits|
    ensures log'[..|log|] == log
    ensures forall i :: 0 <= i < |visits| ==> log'[|log| + i] == LineOf(lookup, visits[i])
    ensures |responses| == |visits|
    ensures forall i :: 0 <= i < |visits| ==> (responses[i] == PassOn <==> visits[i].decision == Allow)
    ensures forall i :: 0 <= i < |visits| && visits[i].decision == Reject ==> responses[i] == Answer(TooManyStatus, TooManyBody)
  {
    log' := log;
    responses := [];
    var i := 0;
    ghost var lines := seq(|visits|, j requires 0 <= j < |visits| => LineOf(lookup, visits[j]));
    while i < |visits|
      invariant 0 <= i <= |visits|
      invariant |log'| == |log| + i
      invariant log'[..|log|] == log
      invariant log'[|log|..] == lines[..i]
      invariant |responses| == i
      invariant forall j :: 0 <= j < i ==> responses[j] == Limit(visits[j].decision)
    {
      ghost var line := LineOf(lookup, visits[i]);
      var o := Step(log', webhook, lookup, visits[i]);
      assert o.log == log' + [line];
      log' := o.log;
      responses := responses + [o.response];
      i := i + 1;
    }
  }
}
