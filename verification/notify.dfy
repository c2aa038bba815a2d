/**
 The text of the notification `sendToDiscord` posts for a row. The post
 itself is not modelled: `Format` gives the message content, or `None`
 when no webhook is configured and nothing would be sent.
 */
module Notify {
  import opened JsValues
  import Text
  import VisitorRow

  /** Emoji in the message: a globe, a warning sign (with its emoji presentation selector) and an alarm clock. */
  const Globe: string := "\U{1F310}"
  const Warning: string := "\U{26A0}\U{FE0F}"
  const AlarmClock: string := "\U{23F0}"

  /** The placeholder shown for a location part the lookup did not provide. */
  const Unresolved: string := "??"

  /** `!process.env.DISCORD_WEBHOOK` fails: the variable is set and not empty. */
  predicate Enabled(webhook: Option<string>) {
    Truthy(Read(webhook))
  }

  /** Array destructuring: element `i` of the row, or `undefined` past its end. */
  function At(row: seq<JsValue>, i: nat): JsValue {
    if i < |row| then row[i] else Undefined
  }

  /** `${v || '??'}`: a location part as shown, or the placeholder when it is falsy. */
  function ShowPlace(v: JsValue): (t: string)
    ensures !Truthy(v) ==> t == Unresolved
    ensures Truthy(v) ==> t == ToJsString(v)
  {
    ToJsString(Or(v, Str(Unresolved)))
  }

  /** The row destructured positionally, each part as the template interpolates it. */
  datatype Shown = Shown(
    timestamp: string,
    ip: string,
    city: string,
    region: string,
    country: string,
    verb: string,
    urlPath: string,
    userAgent: string,
    trap: bool)

  /** `const [timestamp, ip, city, region, country, method, urlPath, userAgent, botTrap] = row`, then interpolated. */
  function Destructure(row: seq<JsValue>): Shown {
    Shown(ToJsString(At(row, 0)), ToJsString(At(row, 1)),
          ShowPlace(At(row, 2)), ShowPlace(At(row, 3)), ShowPlace(At(row, 4)),
          ToJsString(At(row, 5)), ToJsString(At(row, 6)), ToJsString(At(row, 7)),
          Truthy(At(row, 8)))
  }

  /** The lines of the message template; the header line is followed by an empty line. */
  function Lines(s: Shown): seq<string> {
    [ Globe + " **New Visitor**",
      "",
      "**IP:** " + s.ip,
      "**Location:** " + s.city + ", " + s.region + ", " + s.country,
      "**Page:** " + s.verb + " " + s.urlPath,
      "**Bot trap:** " + (if s.trap then Warning + " YES" else "No"),
      "**User Agent:** " + s.userAgent,
      AlarmClock + " " + s.timestamp ]
  }

  /** The message content: the template's lines separated by newlines. */
  function Message(row: seq<JsValue>): string {
    Text.Join(Lines(Destructure(row)), Text.Newline)
  }

  /** The notification for a row: nothing when the webhook is unset or empty, else the message. */
  function Format(webhook: Option<string>, row: seq<JsValue>): (r: Option<string>)
    ensures r.None? <==> webhook.None? || webhook.value == ""
    ensures r.Some? ==> r.value == Message(row)
  {
    if !Enabled(webhook) then None else Some(Message(row))
  }

  /** No value of the row prints with a newline. */
  predicate SingleLineValues(row: seq<JsValue>) {
    forall k :: 0 <= k < |row| ==> Text.Newline !in ToJsString(row[k])
  }

  /** No interpolated part of the message holds a newline. */
  predicate SingleLineParts(s: Shown) {
    && Text.Newline !in s.timestamp && Text.Newline !in s.ip && Text.Newline !in s.city && Text.Newline !in s.region
    && Text.Newline !in s.country && Text.Newline !in s.verb && Text.Newline !in s.urlPath && Text.Newline !in s.userAgent
  }

  /**
   What a reader of an enabled notification sees, line by line, when no
   value of the row prints with a newline: the header, a blank line, the
   client address, the three location parts with `??` for missing ones,
   method and path, `YES` exactly when the bot trap is set, the user
   agent and the timestamp.
   */
  lemma MessageContent(webhook: Option<string>, row: seq<JsValue>)
    requires Enabled(webhook)
    requires SingleLineValues(row)
    ensures Format(webhook, row).Some?
    ensures var lines := Text.Split(Format(webhook, row).value, Text.Newline);
            && |lines| == 8
            && lines[0] == Globe + " **New Visitor**"
            && lines[1] == ""
            && lines[2] == "**IP:** " + ToJsString(At(row, 1))
            && lines[3] == "**Location:** " + ShowPlace(At(row, 2)) + ", " + ShowPlace(At(row, 3)) + ", " + ShowPlace(At(row, 4))
            && lines[4] == "**Page:** " + ToJsString(At(row, 5)) + " " + ToJsString(At(row, 6))
            && (lines[5] == "**Bot trap:** " + Warning + " YES" <==> Truthy(At(row, 8)))
            && (lines[5] == "**Bot trap:** No" <==> !Truthy(At(row, 8)))
            && lines[6] == "**User Agent:** " + ToJsString(At(row, 7))
            && lines[7] == AlarmClock + " " + ToJsString(At(row, 0))
  {
    var shown := Destructure(row);
    ShownSingle(row);
    LinesSingle(shown);
    Text.SplitJoin(Lines(shown), Text.Newline);
    TrapLine(shown);
  }

  /** Destructuring keeps a single-line row single-line. */
  lemma ShownSingle(row: seq<JsValue>)
    requires SingleLineValues(row)
    ensures SingleLineParts(Destructure(row))
  {
  }

  /** Every line of the template is free of newlines when the interpolated parts are. */
  lemma LinesSingle(s: Shown)
    requires SingleLineParts(s)
    ensures forall k :: 0 <= k < |Lines(s)| ==> Text.Newline !in Lines(s)[k]
  {
  }

  /** The template's bot-trap line reads `YES` exactly for a set flag and `No` exactly for a clear one. */
  lemma TrapLine(s: Shown)
    ensures Lines(s)[5] == "**Bot trap:** " + Warning + " YES" <==> s.trap
    ensures Lines(s)[5] == "**Bot trap:** No" <==> !s.trap
  {
  }

  /**
   The notification for a logged row: the address line shows the client
   address (`undefined` when there is none), each location part shows as
   its text or as `??` when empty, the page line shows method and URL, and
   `YES` appears exactly for a set bot trap.
   */
  lemma RowMessage(webhook: Option<string>, r: VisitorRow.Row)
    requires Enabled(webhook)
    requires SingleLineValues(VisitorRow.Values(r))
    ensures var lines := Text.Split(Format(webhook, VisitorRow.Values(r)).value, Text.Newline);
            && |lines| == 8
            && lines[2] == "**IP:** " + ToJsString(r.ip)
            && (r.ip == Undefined ==> lines[2] == "**IP:** undefined")
            && lines[3] == "**Location:** " + ShowPlace(Str(r.city)) + ", " + ShowPlace(Str(r.region)) + ", " + ShowPlace(Str(r.country))
            && (r.city == "" && r.region == "" && r.country == "" ==> lines[3] == "**Location:** ??, ??, ??")
            && lines[4] == "**Page:** " + r.verb + " " + r.originalUrl
            && (lines[5] == "**Bot trap:** " + Warning + " YES" <==> r.botTrap)
  {
    var vals := VisitorRow.Values(r);
    var shown := Destructure(vals);
    assert shown == Shown(r.timestamp, ToJsString(r.ip), ShowPlace(Str(r.city)), ShowPlace(Str(r.region)),
                          ShowPlace(Str(r.country)), r.verb, r.originalUrl, r.userAgent, r.botTrap);
    ShownSingle(vals);
    LinesSingle(shown);
    Text.SplitJoin(Lines(shown), Text.Newline);
    TrapLine(shown);
  }
}
