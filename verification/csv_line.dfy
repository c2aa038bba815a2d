/**
 The log line `appendLogRow` writes for a row: every value passed through
 `val || ''`, wrapped in double quotes, the quoted values joined with
 commas, and one newline at the end. Nothing inside a value is escaped.
 `DecodeLine` is the naive reader that splits at commas and strips the
 quotes; it recovers the row exactly when no value holds a comma.
 */
module CsvLine {
  import opened JsValues
  import Text
  import VisitorRow

  const Quote: char := '"'
  const Comma: char := ','

  /** `${val || ''}`: the text written between a value's quotes. */
  function FieldText(v: JsValue): (t: string)
    ensures t == "" <==> !Truthy(v)
    ensures v.Str? ==> t == v.s
    ensures v.Bool? ==> t == (if v.b then "true" else "")
    ensures v.Undefined? ==> t == ""
  {
    ToJsString(Or(v, Str("")))
  }

  /** A text between double quotes, copied verbatim. */
  function Enclose(t: string): string {
    [Quote] + t + [Quote]
  }

  /** The texts of a row's values, in order. */
  function Texts(vals: seq<JsValue>): seq<string> {
    seq(|vals|, k requires 0 <= k < |vals| => FieldText(vals[k]))
  }

  /** `row.map(val => "\"" + (val || '') + "\"")`. */
  function QuoteAll(vals: seq<JsValue>): seq<string> {
    seq(|vals|, k requires 0 <= k < |vals| => Enclose(FieldText(vals[k])))
  }

  /** The line appended to the log for one row. */
  function EncodeLine(vals: seq<JsValue>): (line: string)
    ensures |line| >= 1 && line[|line| - 1] == Text.Newline
    ensures |vals| >= 1 ==> line[0] == Quote && |line| >= 3 && line[|line| - 2] == Quote
  {
    var body := Text.Join(QuoteAll(vals), Comma);
    assert |vals| >= 1 ==> |body| >= 2 && body[0] == Quote && body[|body| - 1] == Quote by {
      if |vals| >= 1 {
        JoinEnds(QuoteAll(vals));
      }
    }
    body + [Text.Newline]
  }

  /** Removes the surrounding double quotes of one field; a field without them is malformed. */
  function Unquote(f: string): (r: Option<string>)
    ensures r.Some? <==> |f| >= 2 && f[0] == Quote && f[|f| - 1] == Quote
    ensures r.Some? ==> Enclose(r.value) == f
  {
    if |f| >= 2 && f[0] == Quote && f[|f| - 1] == Quote then Some(f[1..|f| - 1]) else None
  }

  /** Reads a log line back: drop the newline, split at commas, strip each field's quotes. */
  function DecodeLine(line: string): (r: Option<seq<string>>)
    ensures r.Some? ==> |r.value| >= 1 && forall k :: 0 <= k < |r.value| ==> Comma !in r.value[k]
  {
    if |line| == 0 || line[|line| - 1] != Text.Newline then None
    else
      var fields := Text.Split(line[..|line| - 1], Comma);
      if forall k :: 0 <= k < |fields| ==> Unquote(fields[k]).Some? then
        var texts := seq(|fields|, k requires 0 <= k < |fields| => Unquote(fields[k]).value);
        assert forall k :: 0 <= k < |texts| ==> Comma !in texts[k] by {
          forall k | 0 <= k < |texts|
            ensures Comma !in texts[k]
          {
            assert Comma !in fields[k];
            assert forall c :: c in texts[k] ==> c in fields[k];
          }
        }
        Some(texts)
      else None
  }

  /** A join of quoted fields starts and ends with a quote. */
  lemma {:induction false} JoinEnds(fields: seq<string>)
    requires |fields| >= 1
    requires forall k :: 0 <= k < |fields| ==> |fields[k]| >= 2 && fields[k][0] == Quote && fields[k][|fields[k]| - 1] == Quote
    ensures var s := Text.Join(fields, Comma); |s| >= 2 && s[0] == Quote && s[|s| - 1] == Quote
    decreases |fields|
  {
    if |fields| > 1 {
      JoinEnds(fields[1..]);
    }
  }

  /**
   Round trip: when no value's text holds a comma, reading the line back
   gives each value's text, in order, one field per value.
   */
  lemma DecodeEncode(vals: seq<JsValue>)
    requires |vals| >= 1
    requires forall k :: 0 <= k < |vals| ==> Comma !in FieldText(vals[k])
    ensures DecodeLine(EncodeLine(vals)) == Some(Texts(vals))
  {
    var fields := QuoteAll(vals);
    forall k | 0 <= k < |fields|
      ensures Comma !in fields[k]
    {
      assert fields[k] == [Quote] + FieldText(vals[k]) + [Quote];
    }
    Text.SplitJoin(fields, Comma);
    var line := EncodeLine(vals);
    assert line[..|line| - 1] == Text.Join(fields, Comma);
    forall k | 0 <= k < |fields|
      ensures Unquote(fields[k]) == Some(FieldText(vals[k]))
    {
      var f := fields[k];
      assert f == [Quote] + FieldText(vals[k]) + [Quote];
      assert f[1..|f| - 1] == FieldText(vals[k]);
    }
    var decoded := seq(|fields|, k requires 0 <= k < |fields| => Unquote(fields[k]).value);
    assert decoded == Texts(vals);
  }

  /**
   Record boundaries: the line holds a newline before its terminating one
   exactly when some value's text holds a newline.
   */
  lemma LineBoundary(vals: seq<JsValue>)
    ensures var line := EncodeLine(vals);
            Text.Newline in line[..|line| - 1] <==> exists k :: 0 <= k < |vals| && Text.Newline in FieldText(vals[k])
  {
    var fields := QuoteAll(vals);
    var line := EncodeLine(vals);
    assert line[..|line| - 1] == Text.Join(fields, Comma);
    Text.JoinContains(fields, Comma, Text.Newline);
    forall k | 0 <= k < |vals|
      ensures Text.Newline in fields[k] <==> Text.Newline in FieldText(vals[k])
    {
      assert fields[k] == [Quote] + FieldText(vals[k]) + [Quote];
    }
  }

  /** The text a row's `botTrap` flag is logged as: `true` or the empty field. */
  function TrapText(b: bool): (t: string)
    ensures t == FieldText(Bool(b))
    ensures t == "" <==> !b
  {
    if b then "true" else ""
  }

  /**
   The line for a row spelled out: nine quoted fields in the fixed order,
   eight commas between them, one newline after them.
   */
  lemma RowLine(r: VisitorRow.Row)
    ensures EncodeLine(VisitorRow.Values(r))
         == Enclose(r.timestamp) + ([Comma] + (Enclose(FieldText(r.ip)) + ([Comma]
          + (Enclose(r.city) + ([Comma] + (Enclose(r.region) + ([Comma] + (Enclose(r.country) + ([Comma]
          + (Enclose(r.verb) + ([Comma] + (Enclose(r.originalUrl) + ([Comma] + (Enclose(r.userAgent) + ([Comma]
          + Enclose(TrapText(r.botTrap))))))))))))))))) + [Text.Newline]
  {
    var q := QuoteAll(VisitorRow.Values(r));
    assert |q| == 9;
    assert q[0] == Enclose(r.timestamp) && q[1] == Enclose(FieldText(r.ip)) && q[2] == Enclose(r.city);
    assert q[3] == Enclose(r.region) && q[4] == Enclose(r.country) && q[5] == Enclose(r.verb);
    assert q[6] == Enclose(r.originalUrl) && q[7] == Enclose(r.userAgent) && q[8] == Enclose(TrapText(r.botTrap));
    JoinNine(q);
  }

  /** Nine fields joined with commas, unfolded. */
  lemma JoinNine(q: seq<string>)
    requires |q| == 9
    ensures Text.Join(q, Comma)
         == q[0] + ([Comma] + (q[1] + ([Comma] + (q[2] + ([Comma] + (q[3] + ([Comma] + (q[4] + ([Comma]
          + (q[5] + ([Comma] + (q[6] + ([Comma] + (q[7] + ([Comma] + q[8])))))))))))))))
  {
    var j8 := Text.Join(q[8..], Comma);
    assert j8 == q[8];
    var j7 := Text.Join(q[7..], Comma);
    assert q[7..][1..] == q[8..];
    assert j7 == q[7] + ([Comma] + j8);
    var j6 := Text.Join(q[6..], Comma);
    assert q[6..][1..] == q[7..];
    assert j6 == q[6] + ([Comma] + j7);
    var j5 := Text.Join(q[5..], Comma);
    assert q[5..][1..] == q[6..];
    assert j5 == q[5] + ([Comma] + j6);
    var j4 := Text.Join(q[4..], Comma);
    assert q[4..][1..] == q[5..];
    assert j4 == q[4] + ([Comma] + j5);
    var j3 := Text.Join(q[3..], Comma);
    assert q[3..][1..] == q[4..];
    assert j3 == q[3] + ([Comma] + j4);
    var j2 := Text.Join(q[2..], Comma);
    assert q[2..][1..] == q[3..];
    assert j2 == q[2] + ([Comma] + j3);
    var j1 := Text.Join(q[1..], Comma);
    assert q[1..][1..] == q[2..];
    assert j1 == q[1] + ([Comma] + j2);
    assert Text.Join(q, Comma) == q[0] + ([Comma] + j1);
  }

  /**
   A row read back from its line: when no text of the row holds a comma,
   the reader gets the nine texts in order, with the client address as
   its `|| ''` text and the bot-trap flag as `true` or empty.
   */
  lemma RowRoundTrip(r: VisitorRow.Row)
    requires Comma !in FieldText(r.ip)
    requires Comma !in r.timestamp && Comma !in r.city && Comma !in r.region && Comma !in r.country
    requires Comma !in r.verb && Comma !in r.originalUrl && Comma !in r.userAgent
    ensures DecodeLine(EncodeLine(VisitorRow.Values(r)))
         == Some([r.timestamp, FieldText(r.ip), r.city, r.region, r.country,
                  r.verb, r.originalUrl, r.userAgent, TrapText(r.botTrap)])
  {
    var vals := VisitorRow.Values(r);
    forall k | 0 <= k < |vals|
      ensures Comma !in FieldText(vals[k])
    {
    }
    DecodeEncode(vals);
    assert Texts(vals) == [r.timestamp, FieldText(r.ip), r.city, r.region, r.country,
                           r.verb, r.originalUrl, r.userAgent, TrapText(r.botTrap)];
  }

  /**
   The bot trap as it lands in the log: a request whose `_trap` query value
   is set gets a line ending in `"true"`, any other request a line ending
   in the empty field.
   */
  lemma BotTrapLogged(req: VisitorRow.Request, lookup: JsValue -> Option<VisitorRow.Geo>, timestamp: string)
    ensures var line := EncodeLine(VisitorRow.Values(VisitorRow.BuildRow(req, lookup, timestamp)));
            && (Text.EndsWith(line, "\"true\"\n") <==> VisitorRow.TrapSet(req.trap))
            && (Text.EndsWith(line, ",\"\"\n") <==> !VisitorRow.TrapSet(req.trap))
  {
    TrapSuffix(VisitorRow.Values(VisitorRow.BuildRow(req, lookup, timestamp)));
  }

  /** A line whose last value is a boolean ends in `"true"` exactly when it is true, and in the empty field otherwise. */
  lemma TrapSuffix(vals: seq<JsValue>)
    requires |vals| >= 2 && vals[|vals| - 1].Bool?
    ensures var line := EncodeLine(vals);
            var b := vals[|vals| - 1].b;
            && (Text.EndsWith(line, "\"true\"\n") <==> b)
            && (Text.EndsWith(line, ",\"\"\n") <==> !b)
  {
    var b := vals[|vals| - 1].b;
    var q := QuoteAll(vals);
    var last := Enclose(TrapText(b));
    assert q[|q| - 1] == last;
    JoinLast(q);
    var j := Text.Join(q, Comma);
    var line := j + [Text.Newline];
    var tail := [Comma] + last + [Text.Newline];
    assert Text.EndsWith(line, tail) by {
      assert line[|line| - |tail|..] == j[|j| - |last| - 1..] + [Text.Newline];
    }
    if b {
      assert tail == ",\"true\"\n";
      Text.EndsWithTrans(line, tail, "\"true\"\n");
      assert line[|line| - 3] == tail[|tail| - 3] == 'e';
    } else {
      assert tail == ",\"\"\n";
      assert line[|line| - 3] == tail[|tail| - 3] == Quote;
    }
  }

  /** A join ends with its last part, preceded by a separator when there is more than one part. */
  lemma {:induction false} JoinLast(parts: seq<string>)
    requires |parts| >= 2
    ensures Text.EndsWith(Text.Join(parts, Comma), [Comma] + parts[|parts| - 1])
    decreases |parts|
  {
    var j := Text.Join(parts, Comma);
    var rest := Text.Join(parts[1..], Comma);
    var tail := [Comma] + parts[|parts| - 1];
    assert j == parts[0] + [Comma] + rest;
    if |parts| == 2 {
      assert rest == parts[1];
    } else {
      JoinLast(parts[1..]);
      assert parts[1..][|parts[1..]| - 1] == parts[|parts| - 1];
      assert j[|j| - |tail|..] == rest[|rest| - |tail|..];
    }
  }

  /** Shifting a `","` across one comma leaves the text unchanged. */
  lemma ShiftAcrossComma(a: string, b: string, c: string, tail: string)
    ensures Enclose(a + [Quote, Comma, Quote] + b) + ([Comma] + (Enclose(c) + tail))
         == Enclose(a) + ([Comma] + (Enclose(b + [Quote, Comma, Quote] + c) + tail))
  {
  }

  /**
   Since nothing is escaped, the encoding is not injective: moving a
   `","` from the end of the URL to the start of the user agent yields a
   different row with the very same log line.
   */
  lemma AmbiguousLine(r: VisitorRow.Row, a: string, b: string, c: string)
    ensures var sep := [Quote, Comma, Quote];
            var r1 := r.(originalUrl := a + sep + b, userAgent := c);
            var r2 := r.(originalUrl := a, userAgent := b + sep + c);
            r1 != r2 && EncodeLine(VisitorRow.Values(r1)) == EncodeLine(VisitorRow.Values(r2))
  {
    var sep := [Quote, Comma, Quote];
    var r1 := r.(originalUrl := a + sep + b, userAgent := c);
    var r2 := r.(originalUrl := a, userAgent := b + sep + c);
    assert |r1.originalUrl| != |r2.originalUrl|;
    RowLine(r1);
    RowLine(r2);
    ShiftAcrossComma(a, b, c, [Comma] + Enclose(TrapText(r.botTrap)));
  }
}
