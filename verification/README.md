# st-lgr request logger, modelled in Dafny

`st-lgr/server.js` is a small Express service whose first middleware records every
inbound request. For each request it builds a nine-value row
(timestamp, client address, city, region, country, method, URL, user agent, bot-trap flag),
appends the row to `visitors.csv` as one quoted, comma-separated line, and hands
the same row to `sendToDiscord`, which posts a text message to a Discord webhook
when one is configured. Only after that middleware does the rate limiter
(`express-rate-limit`, 15-second window, 20 requests) run, answering rejected
requests with 429.

This project models that data handling as pure functions over immutable values:

- `js_values.dfy` (`JsValues`): the JavaScript values a row can hold (`undefined`,
  booleans, strings), truthiness, `a || b`, reading a possibly missing header, and
  string conversion inside a template literal.
- `text.dfy` (`Text`): `join` and `split` with a one-character separator, proved
  inverse to each other.
- `visitor_row.dfy` (`VisitorRow`): the request facts the middleware reads and the
  row it builds from them, with the geolocation database as a function parameter.
- `csv_line.dfy` (`CsvLine`): the line `appendLogRow` writes, exactly as the code does
  it (`"${val || ''}"` joined with `,`, then `\n`, no escaping), and a naive reader
  that splits at commas and strips quotes.
- `notify.dfy` (`Notify`): the text of the Discord message, or nothing when the
  webhook variable is unset or empty.
- `pipeline.dfy` (`Pipeline`): one request through the logging middleware and then
  the limiter, with the log as a sequence of lines and the limiter's verdict as an
  input; and a loop over a run of requests.

Facts about the code that a reader might expect to be otherwise:

- Nothing is escaped: a value's quotes and commas go into the line as they are.
  `CsvLine.AmbiguousLine` shows that two different rows can then produce the same
  line, and `CsvLine.DecodeEncode` shows that a reader which splits at commas and
  strips quotes is exact when no value holds a comma.
- The bot-trap flag is not written as `true`/`false`. Because of `val || ''`, the
  line holds `"true"` or the empty field `""`.
- The logging middleware is registered first (line 43) and the limiter afterwards
  (line 78), so every request is logged before the limiter decides, rejected ones
  included.
- There is no queue or worker pool for notifications: `sendToDiscord` is called
  without being awaited. Only the message text is modelled.
- Notifications are off when `DISCORD_WEBHOOK` is unset and also when it is set to
  the empty string.
- A failed write of the log line is fatal to the request: `fs.appendFileSync`
  throws inside the middleware (lines 39 and 64), so no notification is formatted,
  the limiter never runs and Express answers with its 500 error handler. The model
  assumes the write succeeds (see `Pipeline.Step` under "Left out").

## Model

| member | source | states |
|---|---|---|
| `JsValues.Read` | st-lgr/server.js:44-47 | A missing header reads as `undefined`; a header is truthy exactly when it is present and not empty. |
| `Text.Split` | st-lgr/server.js:38 | Splitting at a separator gives at least one piece and no piece contains the separator. |
| `Text.SplitJoin` | st-lgr/server.js:38 | Splitting a comma join recovers the parts, when no part holds the separator. |
| `Text.JoinSplit` | st-lgr/server.js:38 | Joining the pieces of a split gives back the original text. |
| `Text.JoinContains` | st-lgr/server.js:38 | A character other than the separator occurs in a join exactly when it occurs in some part. |
| `VisitorRow.ClientAddress` | st-lgr/server.js:44 | The client address is the `x-forwarded-for` header when it is present and non-empty; otherwise the socket address, or `undefined` when that is missing too. |
| `VisitorRow.BuildRow` | st-lgr/server.js:44-62 | The row holds the given timestamp and the client address. City, region and country come from the lookup of that address, each `''` on a miss or a missing field. Method and URL are copied. The user agent is the header when non-empty, else `unknown`, so it is never empty. `botTrap` is set exactly when `_trap` is a non-empty string or an array/object. |
| `VisitorRow.Values` | st-lgr/server.js:52-62 | The row is an array of nine values in the fixed order. The address is second, the bot-trap boolean last, and the other seven are strings. |
| `CsvLine.FieldText` | st-lgr/server.js:38 | The text between a value's quotes is empty exactly for a falsy value. A string is copied verbatim, `true` becomes `true`, and `false` and `undefined` become empty. |
| `CsvLine.EncodeLine` | st-lgr/server.js:38 | A log line (the quoted field texts joined with `,` by `Text.Join`, then a newline) always ends with a newline. A non-empty row's line starts with a quote and has a quote just before the newline. |
| `CsvLine.Unquote` | st-lgr/server.js:38 | A field is accepted exactly when it is wrapped in quotes, and re-wrapping the result gives the field back. |
| `CsvLine.DecodeLine` | st-lgr/server.js:38 | A successfully read line yields at least one field, and no field contains a comma. |
| `CsvLine.DecodeEncode` | st-lgr/server.js:38 | When no value's text holds a comma, reading a line back yields each value's text in order, one field per value. |
| `CsvLine.LineBoundary` | st-lgr/server.js:38 | A line holds a newline before its final one exactly when some value's text holds a newline. |
| `CsvLine.TrapText` | st-lgr/server.js:50 | The bot-trap flag is logged as `true` when set and as the empty field when not. |
| `CsvLine.RowLine` | st-lgr/server.js:38 | A row's line is its nine quoted fields in the fixed order, with eight commas between them and one newline after. |
| `CsvLine.RowRoundTrip` | st-lgr/server.js:38 | When no text of the row holds a comma, reading the line back gives the nine texts in order. The address appears as its field text, empty when there is none, and the flag as `true` or empty. |
| `CsvLine.BotTrapLogged` | st-lgr/server.js:50 | A request's log line ends in `"true"` and a newline exactly when `_trap` is set, and in an empty field `,""` and a newline exactly when it is not. |
| `CsvLine.TrapSuffix` | st-lgr/server.js:38 | A line whose last value is a boolean ends in `"true"` exactly when the boolean is true, and in the empty field exactly when it is false. |
| `CsvLine.JoinLast` | st-lgr/server.js:38 | A comma join of two or more fields ends with a comma followed by the last field. |
| `CsvLine.AmbiguousLine` | st-lgr/server.js:38 | Since nothing is escaped, two different rows can share one log line: moving a `","` from the end of the URL to the start of the user agent does it. |
| `CsvLine.JoinEnds` | st-lgr/server.js:38 | A comma join of quoted fields starts and ends with a quote. |
| `Notify.ShowPlace` | st-lgr/server.js:22 | A falsy location part is shown as `??`; a truthy one is shown as its text. |
| `Notify.Format` | st-lgr/server.js:15-27 | No message is produced exactly when the webhook variable is unset or empty. Otherwise the message is the template's eight lines (`Notify.Lines`, lines 20-26) joined with newlines by `Text.Join`. |
| `Notify.MessageContent` | st-lgr/server.js:17-26 | When no value of the row prints with a newline, an enabled message has eight lines: the globe header `New Visitor`, a blank line, `IP` with row[1], `Location` with row[2..4] or `??`, `Page` with row[5] and row[6], `Bot trap` reading `YES` exactly when row[8] is truthy and `No` otherwise, `User Agent` with row[7], and the timestamp row[0]. |
| `Notify.TrapLine` | st-lgr/server.js:24 | The sixth line of the message template says `YES` exactly when the destructured flag is truthy and `No` exactly when it is not. |
| `Notify.RowMessage` | st-lgr/server.js:17-26 | For a built row whose values print without newlines, the IP line shows the client address, `undefined` when there is none. Each location part shows as its text, or `??` when it is empty. The page line shows method and URL, and `YES` appears exactly for a set bot trap. |
| `Pipeline.AppendLogRow` | st-lgr/server.js:37-40 | Appending a row adds exactly one line, its encoding, at the end of the log and leaves the earlier lines alone. |
| `Pipeline.Limit` | st-lgr/server.js:74-78 | An allowed request passes on. A rejected one is answered with status 429 and `Too many requests. Slow down.`. |
| `Pipeline.Step` | st-lgr/server.js:43-68 | One request adds exactly its row's line to the end of the log, whatever the limiter decides. It formats the notification for the same row, present exactly when the webhook is enabled. The response is an answer exactly when the limiter rejects. |
| `Pipeline.LoggedRegardless` | st-lgr/server.js:64-78 | The same request leaves the same log and the same notification whether the limiter allows or rejects it. Only the response differs. |
| `Pipeline.ProcessAll` | st-lgr/server.js:43-78 | A run of requests appends exactly one line per request, in arrival order, rejected requests included, after the untouched earlier log. Each request gets its limiter response. |

## Left out

- File I/O: `fs.appendFileSync` and the `visitors.csv` path (lines 11, 39). The log is an in-memory sequence of lines.
- The network: `axios.post` and its error handling (lines 29-33). The un-awaited call means a notification never delays a request; the model keeps only the message text and the disabled case.
- The geolocation database, `geoip.lookup` (line 45). It is a function parameter from address to an optional record.
- The rate limiter's algorithm, `express-rate-limit` (lines 71-77). It is a library whose counting is not in this source. Its verdict is an input (`Pipeline.Decision`). The 15-second window and the limit of 20 are not modelled.
- The clock, `new Date().toISOString()` (line 46). The timestamp is an input string.
- Bootstrap and routing: dotenv, `PORT`, `app.listen` and the `/` route (lines 1-10, 80-88).
- Pipeline.Step: a failed `fs.appendFileSync` is not modelled; the append always succeeds. In the code the exception leaves the middleware, so no line is written, `sendToDiscord` is not called, the limiter does not run and Express answers with status 500. `Step`'s and `ProcessAll`'s promises about notifications and limiter responses hold only for successful writes.
- Concurrency: Node runs the middleware on one thread and the append is synchronous, so requests are processed one after another.
- Pipeline.ProcessAll: returns the log and the responses of a run but not the list of notifications. Each request's notification is given by `Pipeline.Step`.
- JavaScript strings are UTF-16 while Dafny's `char` is a Unicode scalar value. The emoji in the message are the same text, but string lengths would differ.
- Values the middleware never puts in a row, such as numbers, `null` and objects, are outside `JsValues.JsValue`. The `_trap` query value is the exception: it can be an array or object from the query parser, which is always truthy (`VisitorRow.QueryParam.Compound`).
