/**
 The logging middleware's first half: turning the facts of one request
 into the nine-element row that is appended to the log and sent to the
 notification channel.
 */
module VisitorRow {
  import opened JsValues

  /** The value `req.query._trap` can take: missing, one string, or an array/object built by the query parser. */
  datatype QueryParam = Absent | Single(value: string) | Compound

  /** What the geolocation database returns for an address it knows; each field may be missing. */
  datatype Geo = Geo(city: Option<string>, region: Option<string>, country: Option<string>)

  /** The request facts the middleware reads. */
  datatype Request = Request(
    forwardedFor: Option<string>,   // the `x-forwarded-for` header
    remoteAddress: Option<string>,  // the socket's peer address
    userAgent: Option<string>,      // the `user-agent` header
    trap: QueryParam,               // the `_trap` query parameter
    verb: string,                   // the HTTP method
    originalUrl: string)

  /** One visitor record, in the field order the log and the message use. */
  datatype Row = Row(
    timestamp: string,
    ip: JsValue,
    city: string,
    region: string,
    country: string,
    verb: string,
    originalUrl: string,
    userAgent: string,
    botTrap: bool)

  /** The placeholder user agent for requests that send none. */
  const UnknownAgent: string := "unknown"

  /** The number of values in a row. */
  const RowWidth: nat := 9

  /** `!!v`: truthiness of the `_trap` query value; arrays and objects are always truthy. */
  function TrapSet(q: QueryParam): bool {
    match q
    case Absent => false
    case Single(s) => Truthy(Str(s))
    case Compound => true
  }

  /** `geo.<field> || ''` where `geo` is the lookup result or `{}` on a miss. */
  function GeoText(geo: Option<Geo>, pick: Geo -> Option<string>): string {
    var field := match geo
      case None => Undefined
      case Some(g) => Read(pick(g));
    ToJsString(Or(field, Str("")))
  }

  /** The client address: `x-forwarded-for || socket.remoteAddress`. */
  function ClientAddress(req: Request): (ip: JsValue)
    ensures req.forwardedFor.Some? && req.forwardedFor.value != "" ==> ip == Str(req.forwardedFor.value)
    ensures !(req.forwardedFor.Some? && req.forwardedFor.value != "") ==>
              ip == (if req.remoteAddress.Some? then Str(req.remoteAddress.value) else Undefined)
    ensures ip == Undefined <==> (req.forwardedFor.None? || req.forwardedFor.value == "") && req.remoteAddress.None?
  {
    Or(Read(req.forwardedFor), Read(req.remoteAddress))
  }

  /**
   Builds the row for one request. `lookup` stands for the geolocation
   database, queried with the chosen client address; `timestamp` is the
   ISO-8601 capture time.
   */
  function BuildRow(req: Request, lookup: JsValue -> Option<Geo>, timestamp: string): (r: Row)
    ensures r.timestamp == timestamp
    ensures r.ip == ClientAddress(req)
    ensures lookup(r.ip).None? ==> r.city == "" && r.region == "" && r.country == ""
    ensures lookup(r.ip).Some? ==>
              var g := lookup(r.ip).value;
              && r.city == (if g.city.Some? then g.city.value else "")
              && r.region == (if g.region.Some? then g.region.value else "")
              && r.country == (if g.country.Some? then g.country.value else "")
    ensures r.verb == req.verb && r.originalUrl == req.originalUrl
    ensures r.userAgent != ""
    ensures req.userAgent.Some? && req.userAgent.value != "" ==> r.userAgent == req.userAgent.value
    ensures !(req.userAgent.Some? && req.userAgent.value != "") ==> r.userAgent == UnknownAgent
    ensures r.botTrap <==> req.trap.Compound? || (req.trap.Single? && req.trap.value != "")
  {
    var ip := ClientAddress(req);
    var geo := lookup(ip);
    var userAgent := ToJsString(Or(Read(req.userAgent), Str(UnknownAgent)));
    var botTrap := TrapSet(req.trap);
    Row(timestamp, ip,
        GeoText(geo, (g: Geo) => g.city), GeoText(geo, (g: Geo) => g.region), GeoText(geo, (g: Geo) => g.country),
        req.verb, req.originalUrl, userAgent, botTrap)
  }

  /** The row as the JavaScript array handed to the log writer and the notifier. */
  function Values(r: Row): (vals: seq<JsValue>)
    ensures |vals| == RowWidth
    ensures vals[1] == r.ip
    ensures vals[8] == Bool(r.botTrap)
    ensures forall k :: 0 <= k < RowWidth && k != 1 && k != 8 ==> vals[k].Str?
  {
    [Str(r.timestamp), r.ip, Str(r.city), Str(r.region), Str(r.country),
     Str(r.verb), Str(r.originalUrl), Str(r.userAgent), Bool(r.botTrap)]
  }
}
