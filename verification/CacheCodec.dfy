/** Cache keys and the JSON payload of cached price bars. */
module CacheCodec {
  import opened Wrappers
  import opened Sorting
  import opened Transactions

  /** A calendar date. */
  datatype Day = Day(year: nat, month: nat, day: nat)

  predicate IsLeap(year: nat) {
    year % 4 == 0 && (year % 100 != 0 || year % 400 == 0)
  }

  function DaysIn(year: nat, month: nat): nat {
    if month == 2 then (if IsLeap(year) then 29 else 28)
    else if month in {4, 6, 9, 11} then 30 else 31
  }

  predicate IsDay(d: Day) {
    1 <= d.year <= 9999 && 1 <= d.month <= 12 && 1 <= d.day <= DaysIn(d.year, d.month)
  }

  /** Calendar order as an order of integers. */
  function Rank(d: Day): int {
    d.year * 372 + d.month * 31 + d.day
  }

  predicate DayLe(a: Day, b: Day) {
    Rank(a) <= Rank(b)
  }

  lemma RankIsCalendarOrder(a: Day, b: Day)
    requires IsDay(a) && IsDay(b)
    ensures Rank(a) < Rank(b) <==>
      a.year < b.year || (a.year == b.year && (a.month < b.month || (a.month == b.month && a.day < b.day)))
    ensures Rank(a) == Rank(b) ==> a == b
  {}

  function Digit(n: nat): char
    requires n < 10
  {
    '0' + n as char
  }

  function TwoDigits(n: nat): string
    requires n < 100
  {
    [Digit(n / 10), Digit(n % 10)]
  }

  predicate IsDigit(c: char) {
    '0' <= c <= '9'
  }

  function DigitValue(c: char): nat
    requires IsDigit(c)
  {
    c as int - '0' as int
  }

  function TwoDigitValue(s: string): nat
    requires |s| == 2 && IsDigit(s[0]) && IsDigit(s[1])
  {
    DigitValue(s[0]) * 10 + DigitValue(s[1])
  }

  /** `date.isoformat()`: YYYY-MM-DD. */
  function Iso(d: Day): (s: string)
    requires IsDay(d)
    ensures |s| == 10
  {
    TwoDigits(d.year / 100) + TwoDigits(d.year % 100) + "-" + TwoDigits(d.month) + "-" + TwoDigits(d.day)
  }

  /** `date.fromisoformat()` on the extended format. */
  function ParseIso(s: string): (d: Option<Day>)
    ensures d.Some? ==> IsDay(d.value)
  {
    if |s| != 10 || s[4] != '-' || s[7] != '-' then None
    else if exists i :: 0 <= i < 10 && i != 4 && i != 7 && !IsDigit(s[i]) then None
    else
      var d := Day(TwoDigitValue(s[0..2]) * 100 + TwoDigitValue(s[2..4]), TwoDigitValue(s[5..7]), TwoDigitValue(s[8..10]));
      if IsDay(d) then Some(d) else None
  }

  lemma TwoDigitsRoundTrip(n: nat)
    requires n < 100
    ensures IsDigit(TwoDigits(n)[0]) && IsDigit(TwoDigits(n)[1]) && TwoDigitValue(TwoDigits(n)) == n
  {}

  lemma IsoRoundTrip(d: Day)
    requires IsDay(d)
    ensures ParseIso(Iso(d)) == Some(d)
  {
    var s := Iso(d);
    TwoDigitsRoundTrip(d.year / 100);
    TwoDigitsRoundTrip(d.year % 100);
    TwoDigitsRoundTrip(d.month);
    TwoDigitsRoundTrip(d.day);
    assert s[0..2] == TwoDigits(d.year / 100) && s[2..4] == TwoDigits(d.year % 100);
    assert s[5..7] == TwoDigits(d.month) && s[8..10] == TwoDigits(d.day);
    hide TwoDigits;
    assert forall i :: 0 <= i < 10 && i != 4 && i != 7 ==> IsDigit(s[i]) by {
      assert s[0] == s[0..2][0] && s[1] == s[0..2][1] && s[2] == s[2..4][0] && s[3] == s[2..4][1];
      assert s[5] == s[5..7][0] && s[6] == s[5..7][1] && s[8] == s[8..10][0] && s[9] == s[8..10][1];
    }
  }

  lemma IsoInjective(a: Day, b: Day)
    requires IsDay(a) && IsDay(b) && Iso(a) == Iso(b)
    ensures a == b
  {
    IsoRoundTrip(a);
    IsoRoundTrip(b);
  }

  datatype Query = Query(symbol: string, start: Day, end: Day)

  predicate IsQuery(q: Query) {
    IsDay(q.start) && IsDay(q.end)
  }

  /** `{namespace}:v1:{provider}:1d:adjusted-close:{symbol}:{start}:{end}` */
  function Key(prefix: string, q: Query): string
    requires IsQuery(q)
  {
    prefix + ":1d:adjusted-close:" + q.symbol + ":" + Iso(q.start) + ":" + Iso(q.end)
  }

  function StaleKey(key: string): string {
    key + ":stale"
  }

  lemma SplitTail(a: string, b: string, c: string, d: string)
    requires a + b == c + d && |b| == |d|
    ensures a == c && b == d
  {
    assert |a| == |c|;
    assert a == (a + b)[..|a|] && c == (c + d)[..|a|];
    assert b == (a + b)[|a|..] && d == (c + d)[|a|..];
  }

  lemma SplitHead(a: string, b: string, d: string)
    requires a + b == a + d
    ensures b == d
  {
    assert b == (a + b)[|a|..] && d == (a + d)[|a|..];
  }

  /** Keys are injective in symbol and dates, even when symbols contain ':'. */
  lemma KeyInjective(prefix: string, q: Query, r: Query)
    requires IsQuery(q) && IsQuery(r) && Key(prefix, q) == Key(prefix, r)
    ensures q == r
  {
    hide Iso;
    var head := prefix + ":1d:adjusted-close:";
    var q1, q2, q3 := head + q.symbol + ":" + Iso(q.start) + ":", head + q.symbol + ":", head + q.symbol;
    var r1, r2, r3 := head + r.symbol + ":" + Iso(r.start) + ":", head + r.symbol + ":", head + r.symbol;
    assert Key(prefix, q) == q1 + Iso(q.end) && Key(prefix, r) == r1 + Iso(r.end);
    SplitTail(q1, Iso(q.end), r1, Iso(r.end));
    assert q1 == (q2 + Iso(q.start)) + ":" && r1 == (r2 + Iso(r.start)) + ":";
    SplitTail(q2 + Iso(q.start), ":", r2 + Iso(r.start), ":");
    SplitTail(q2, Iso(q.start), r2, Iso(r.start));
    SplitTail(q3, ":", r3, ":");
    SplitHead(head, q.symbol, r.symbol);
    IsoInjective(q.start, r.start);
    IsoInjective(q.end, r.end);
  }

  lemma KeyEndsInDigit(prefix: string, q: Query)
    requires IsQuery(q)
    ensures Key(prefix, q) != [] && IsDigit(Key(prefix, q)[|Key(prefix, q)| - 1])
  {
    TwoDigitsRoundTrip(q.end.day);
    var k, iso := Key(prefix, q), Iso(q.end);
    assert k[|k| - 1] == iso[9];
    assert iso[9] == TwoDigits(q.end.day)[1];
  }

  /** No fresh key is a stale key, whatever the two queries are. */
  lemma FreshIsNeverStale(prefix: string, q: Query, r: Query)
    requires IsQuery(q) && IsQuery(r)
    ensures Key(prefix, q) != StaleKey(Key(prefix, r))
  {
    KeyEndsInDigit(prefix, q);
    var s := StaleKey(Key(prefix, r));
    assert s[|s| - 1] == 'e';
  }

  lemma StaleKeyInjective(prefix: string, q: Query, r: Query)
    requires IsQuery(q) && IsQuery(r) && StaleKey(Key(prefix, q)) == StaleKey(Key(prefix, r))
    ensures q == r
  {
    SplitTail(Key(prefix, q), ":stale", Key(prefix, r), ":stale");
    KeyInjective(prefix, q, r);
  }

  /** Parsed JSON. `JDecimalText(v)` is a string that `Decimal` reads as v, such as `str(v)`. */
  datatype Json =
    | JNull
    | JBool(flag: bool)
    | JNumber(value: Decimal)
    | JString(text: string)
    | JDecimalText(decimal: Decimal)
    | JArray(items: seq<Json>)
    | JObject(fields: map<string, Json>)

  /** What is stored under a key: text that is not JSON, or JSON. */
  datatype Payload = NotJson | Parsed(json: Json)

  datatype Bar = Bar(symbol: string, date: Day, adjustedClose: Decimal)

  datatype DecodeError =
    | PayloadNotJson | PayloadNotObject | MetadataMismatch | NoBars
    | BarNotObject | BarInvalid | BarViolatesInvariants | BarsNotOrdered

  function EncodeBar(bar: Bar): Json
    requires IsDay(bar.date)
  {
    JObject(map["date" := JString(Iso(bar.date)), "adjusted_close" := JDecimalText(bar.adjustedClose)])
  }

  function Encode(q: Query, bars: seq<Bar>): Payload
    requires IsQuery(q) && forall i :: 0 <= i < |bars| ==> IsDay(bars[i].date)
  {
    Parsed(JObject(map[
      "schema_version" := JNumber(Finite(1.0)),
      "symbol" := JString(q.symbol),
      "start_date" := JString(Iso(q.start)),
      "end_date" := JString(Iso(q.end)),
      "bars" := JArray(seq(|bars|, i requires 0 <= i < |bars| => EncodeBar(bars[i])))]))
  }

  function Field(fields: map<string, Json>, name: string): Json {
    if name in fields then fields[name] else JNull
  }

  /** `value == 1`: Python's `True` and `1.0` pass too. */
  predicate EqualsOne(j: Json) {
    j == JNumber(Finite(1.0)) || j == JBool(true)
  }

  /** `Decimal(value)` on a JSON value. */
  function ToDecimal(j: Json): Option<Decimal> {
    match j
    case JDecimalText(d) => Some(d)
    case JNumber(d) => Some(d)
    case JBool(b) => Some(Finite(if b then 1.0 else 0.0))
    case _ => None
  }

  function ToDay(j: Json): (d: Option<Day>)
    ensures d.Some? ==> IsDay(d.value)
  {
    if j.JString? then ParseIso(j.text) else None
  }

  predicate MetadataMatches(fields: map<string, Json>, q: Query)
    requires IsQuery(q)
  {
    && EqualsOne(Field(fields, "schema_version"))
    && Field(fields, "symbol") == JString(q.symbol)
    && Field(fields, "start_date") == JString(Iso(q.start))
    && Field(fields, "end_date") == JString(Iso(q.end))
  }

  function DecodeBar(j: Json, q: Query, earlier: seq<Bar>): Result<Bar, DecodeError>
    requires IsQuery(q)
  {
    if !j.JObject? then Err(BarNotObject)
    else
      var date, close := ToDay(Field(j.fields, "date")), ToDecimal(Field(j.fields, "adjusted_close"));
      if date.None? || close.None? then Err(BarInvalid)
      else if (exists b :: b in earlier && b.date == date.value)
           || !(DayLe(q.start, date.value) && DayLe(date.value, q.end))
           || close.value.NonFinite? || close.value.value <= 0.0
      then Err(BarViolatesInvariants)
      else Ok(Bar(q.symbol, date.value, close.value))
  }

  function DecodeBars(items: seq<Json>, q: Query): Result<seq<Bar>, DecodeError>
    requires IsQuery(q)
  {
    if items == [] then Ok([])
    else
      var earlier :- DecodeBars(items[..|items| - 1], q);
      var bar :- DecodeBar(items[|items| - 1], q, earlier);
      Ok(earlier + [bar])
  }

  predicate BarLe(a: Bar, b: Bar) {
    DayLe(a.date, b.date)
  }

  function Decode(payload: Payload, q: Query): Result<seq<Bar>, DecodeError>
    requires IsQuery(q)
  {
    if payload.NotJson? then Err(PayloadNotJson)
    else if !payload.json.JObject? then Err(PayloadNotObject)
    else if !MetadataMatches(payload.json.fields, q) then Err(MetadataMismatch)
    else
      var raw := Field(payload.json.fields, "bars");
      if !raw.JArray? || raw.items == [] then Err(NoBars)
      else
        var bars :- DecodeBars(raw.items, q);
        if bars != Sort(bars, BarLe) then Err(BarsNotOrdered) else Ok(bars)
  }

  lemma {:induction false} DecodeErrorPrefix(items: seq<Json>, q: Query, n: nat)
    requires IsQuery(q) && n <= |items| && DecodeBars(items[..n], q).Err?
    ensures DecodeBars(items, q) == DecodeBars(items[..n], q)
  {
    if n < |items| {
      assert items[..|items| - 1][..n] == items[..n];
      DecodeErrorPrefix(items[..|items| - 1], q, n);
    } else {
      assert items[..n] == items;
    }
  }

  lemma DecodeStep(items: seq<Json>, q: Query, i: nat)
    requires IsQuery(q) && i < |items| && DecodeBars(items[..i], q).Ok?
    ensures var earlier := DecodeBars(items[..i], q).value;
            var bar := DecodeBar(items[i], q, earlier);
            && (bar.Ok? ==> DecodeBars(items[..i + 1], q) == Ok(earlier + [bar.value]))
            && (bar.Err? ==> DecodeBars(items, q) == Err(bar.error))
  {
    hide DecodeBar;
    assert items[..i + 1][..i] == items[..i];
    if DecodeBar(items[i], q, DecodeBars(items[..i], q).value).Err? {
      DecodeErrorPrefix(items, q, i + 1);
    }
  }

  /** The loop of `_deserialize_price_bars`, filling `bars` and `seen_dates`. */
  method DeserializePriceBars(payload: Payload, q: Query) returns (r: Result<seq<Bar>, DecodeError>)
    requires IsQuery(q)
    ensures r == Decode(payload, q)
  {
    hide Sort, ToDay, ToDecimal, MetadataMatches;
    if payload.NotJson? {
      return Err(PayloadNotJson);
    }
    if !payload.json.JObject? {
      return Err(PayloadNotObject);
    }
    if !MetadataMatches(payload.json.fields, q) {
      return Err(MetadataMismatch);
    }
    var raw := Field(payload.json.fields, "bars");
    if !raw.JArray? || raw.items == [] {
      return Err(NoBars);
    }
    var items := raw.items;
    var bars: seq<Bar> := [];
    var seen: set<Day> := {};
    for i := 0 to |items|
      invariant DecodeBars(items[..i], q) == Ok(bars)
      invariant forall d :: d in seen <==> exists b :: b in bars && b.date == d
    {
      DecodeStep(items, q, i);
      var j := items[i];
      if !j.JObject? {
        return Err(BarNotObject);
      }
      var date, close := ToDay(Field(j.fields, "date")), ToDecimal(Field(j.fields, "adjusted_close"));
      if date.None? || close.None? {
        return Err(BarInvalid);
      }
      if date.value in seen || !(DayLe(q.start, date.value) && DayLe(date.value, q.end))
         || close.value.NonFinite? || close.value.value <= 0.0 {
        return Err(BarViolatesInvariants);
      }
      seen := seen + {date.value};
      bars := bars + [Bar(q.symbol, date.value, close.value)];
    }
    assert items[..|items|] == items;
    if bars != Sort(bars, BarLe) {
      return Err(BarsNotOrdered);
    }
    return Ok(bars);
  }

  /** The contract of a provider's series for a query. */
  ghost predicate GoodSeries(bars: seq<Bar>, q: Query) {
    && bars != []
    && (forall i :: 0 <= i < |bars| ==> GoodBar(bars[i], q))
    && (forall i, j :: 0 <= i < j < |bars| ==> Rank(bars[i].date) < Rank(bars[j].date))
  }

  predicate GoodBar(bar: Bar, q: Query) {
    && bar.symbol == q.symbol && IsDay(bar.date)
    && DayLe(q.start, bar.date) && DayLe(bar.date, q.end)
    && bar.adjustedClose.Finite? && bar.adjustedClose.value > 0.0
  }

  lemma {:induction false} DecodedBars(items: seq<Json>, q: Query)
    requires IsQuery(q) && DecodeBars(items, q).Ok?
    ensures var bars := DecodeBars(items, q).value;
            && |bars| == |items|
            && (forall i :: 0 <= i < |bars| ==> GoodBar(bars[i], q))
            && (forall i, j :: 0 <= i < j < |bars| ==> bars[i].date != bars[j].date)
  {
    hide ToDay, ToDecimal, Rank;
    if items != [] {
      DecodedBars(items[..|items| - 1], q);
      var earlier := DecodeBars(items[..|items| - 1], q).value;
      assert forall i :: 0 <= i < |earlier| ==> earlier[i] in earlier;
    }
  }

  lemma BarLeIsTotalPreorder()
    ensures TotalPreorder(BarLe)
  {}

  /** Decoding any payload rejects it, or yields a series that honours the contract for the query. */
  lemma DecodeIsSafe(payload: Payload, q: Query)
    requires IsQuery(q) && Decode(payload, q).Ok?
    ensures GoodSeries(Decode(payload, q).value, q)
  {
    hide MetadataMatches, DecodeBars;
    var items := Field(payload.json.fields, "bars").items;
    DecodedBars(items, q);
    var bars := Decode(payload, q).value;
    BarLeIsTotalPreorder();
    SortSorts(bars, BarLe);
    hide Rank;
    forall i, j | 0 <= i < j < |bars| ensures Rank(bars[i].date) < Rank(bars[j].date) {
      assert BarLe(bars[i], bars[j]);
      RankIsCalendarOrder(bars[i].date, bars[j].date);
    }
  }

  lemma DecodeEncodedBar(bar: Bar, q: Query, earlier: seq<Bar>)
    requires IsQuery(q) && GoodBar(bar, q) && forall b :: b in earlier ==> b.date != bar.date
    ensures DecodeBar(EncodeBar(bar), q, earlier) == Ok(bar)
  {
    hide Iso, ParseIso;
    IsoRoundTrip(bar.date);
    assert Field(EncodeBar(bar).fields, "date") == JString(Iso(bar.date));
    assert Field(EncodeBar(bar).fields, "adjusted_close") == JDecimalText(bar.adjustedClose);
  }

  lemma {:induction false} DecodeEncodedBars(bars: seq<Bar>, items: seq<Json>, q: Query)
    requires IsQuery(q) && |items| == |bars|
    requires forall i :: 0 <= i < |bars| ==> GoodBar(bars[i], q) && items[i] == EncodeBar(bars[i])
    requires forall i, j :: 0 <= i < j < |bars| ==> bars[i].date != bars[j].date
    ensures DecodeBars(items, q) == Ok(bars)
  {
    hide DecodeBar, EncodeBar, GoodBar;
    if bars != [] {
      var n := |bars| - 1;
      DecodeEncodedBars(bars[..n], items[..n], q);
      forall b | b in bars[..n] ensures b.date != bars[n].date {}
      DecodeEncodedBar(bars[n], q, bars[..n]);
      SplitLast(bars);
    }
  }

  lemma EncodedFields(q: Query, bars: seq<Bar>, items: seq<Json>)
    requires IsQuery(q) && |items| == |bars|
    requires forall i :: 0 <= i < |bars| ==> IsDay(bars[i].date) && items[i] == EncodeBar(bars[i])
    ensures var payload := Encode(q, bars);
            && payload.Parsed? && payload.json.JObject?
            && MetadataMatches(payload.json.fields, q)
            && Field(payload.json.fields, "bars") == JArray(items)
  {
    hide Iso, EncodeBar;
    var json := Field(Encode(q, bars).json.fields, "bars");
    assert json.items == items;
  }

  /** Decoding an encoded series gives the series back. */
  lemma CodecRoundTrip(q: Query, bars: seq<Bar>)
    requires IsQuery(q) && GoodSeries(bars, q)
    ensures (forall i :: 0 <= i < |bars| ==> IsDay(bars[i].date)) && Decode(Encode(q, bars), q) == Ok(bars)
  {
    hide Encode, DecodeBars, EncodeBar, Rank, MetadataMatches;
    var items := seq(|bars|, i requires 0 <= i < |bars| => EncodeBar(bars[i]));
    DecodeEncodedBars(bars, items, q);
    BarLeIsTotalPreorder();
    SortOfSorted(bars, BarLe);
    EncodedFields(q, bars, items);
  }

  lemma DigitsBack(s: string)
    requires |s| == 2 && IsDigit(s[0]) && IsDigit(s[1])
    ensures TwoDigitValue(s) < 100 && TwoDigits(TwoDigitValue(s)) == s
  {}

  /** Only the printed form of a date is read as it. */
  lemma ParsedIsPrinted(s: string)
    requires ParseIso(s).Some?
    ensures Iso(ParseIso(s).value) == s
  {
    var d := ParseIso(s).value;
    DigitsBack(s[0..2]);
    DigitsBack(s[2..4]);
    DigitsBack(s[5..7]);
    DigitsBack(s[8..10]);
    var hi, lo := TwoDigitValue(s[0..2]), TwoDigitValue(s[2..4]);
    assert d.year == hi * 100 + lo && d.year / 100 == hi && d.year % 100 == lo;
    hide TwoDigits, TwoDigitValue;
    assert s == s[0..2] + s[2..4] + "-" + s[5..7] + "-" + s[8..10];
  }

  /** A JSON object with the printed date and a number or decimal text of the close. */
  ghost predicate Depicts(j: Json, bar: Bar) {
    && IsDay(bar.date) && j.JObject? && "date" in j.fields && j.fields["date"] == JString(Iso(bar.date))
    && "adjusted_close" in j.fields && Denotes(j.fields["adjusted_close"], bar.adjustedClose)
  }

  /** The values that `Decimal` reads as d; true and false are 1 and 0. */
  ghost predicate Denotes(j: Json, d: Decimal) {
    j == JDecimalText(d) || j == JNumber(d) || (j == JBool(true) && d == Finite(1.0)) || (j == JBool(false) && d == Finite(0.0))
  }

  /** The payload is about this query: version 1 (or true), its symbol and its printed dates. */
  ghost predicate About(fields: map<string, Json>, q: Query)
    requires IsQuery(q)
  {
    && "schema_version" in fields && (fields["schema_version"] == JNumber(Finite(1.0)) || fields["schema_version"] == JBool(true))
    && "symbol" in fields && fields["symbol"] == JString(q.symbol)
    && "start_date" in fields && fields["start_date"] == JString(Iso(q.start))
    && "end_date" in fields && fields["end_date"] == JString(Iso(q.end))
  }

  lemma AboutIff(fields: map<string, Json>, q: Query)
    requires IsQuery(q)
    ensures MetadataMatches(fields, q) <==> About(fields, q)
  {
    hide Iso;
  }

  lemma DecodeBarIff(j: Json, q: Query, earlier: seq<Bar>, bar: Bar)
    requires IsQuery(q)
    ensures DecodeBar(j, q, earlier) == Ok(bar) <==>
      Depicts(j, bar) && GoodBar(bar, q) && forall b :: b in earlier ==> b.date != bar.date
  {
    hide Iso, ParseIso, Rank;
    if j.JObject? {
      var date := Field(j.fields, "date");
      if date.JString? && ParseIso(date.text).Some? {
        ParsedIsPrinted(date.text);
      }
      if IsDay(bar.date) {
        IsoRoundTrip(bar.date);
      }
    }
  }

  /** The items depict the bars one by one; the bars are good and of different dates. */
  ghost predicate Pictured(items: seq<Json>, q: Query, bars: seq<Bar>) {
    && |bars| == |items| && (forall i :: 0 <= i < |bars| ==> Depicts(items[i], bars[i]) && GoodBar(bars[i], q))
    && (forall i, j :: 0 <= i < j < |bars| ==> bars[i].date != bars[j].date)
  }

  lemma PicturedStep(items: seq<Json>, q: Query, bars: seq<Bar>, n: nat)
    requires |bars| == |items| == n + 1
    ensures Pictured(items, q, bars) <==>
      && Pictured(items[..n], q, bars[..n])
      && Depicts(items[n], bars[n]) && GoodBar(bars[n], q) && forall b :: b in bars[..n] ==> b.date != bars[n].date
  {
    hide Depicts, GoodBar;
    var init := bars[..n];
    assert forall i :: 0 <= i < n ==> init[i] == bars[i] && items[..n][i] == items[i];
    if Pictured(items, q, bars) {
      forall b | b in init ensures b.date != bars[n].date {
        var i :| 0 <= i < n && init[i] == b;
        assert bars[i] == b;
      }
    }
    forall i | 0 <= i < n ensures bars[i] in init {
      assert init[i] in init;
    }
  }

  lemma {:induction false} DecodeBarsIff(items: seq<Json>, q: Query, bars: seq<Bar>)
    requires IsQuery(q)
    ensures DecodeBars(items, q) == Ok(bars) <==> Pictured(items, q, bars)
  {
    hide DecodeBar, Depicts, GoodBar;
    if items != [] {
      var n := |items| - 1;
      if |bars| == |items| {
        hide Pictured;
        DecodeBarsIff(items[..n], q, bars[..n]);
        DecodeBarIff(items[n], q, bars[..n], bars[n]);
        PicturedStep(items, q, bars, n);
        SplitLast(bars);
      } else if DecodeBars(items, q) == Ok(bars) {
        DecodedLength(items, q);
      }
    }
  }

  lemma {:induction false} DecodedLength(items: seq<Json>, q: Query)
    requires IsQuery(q) && DecodeBars(items, q).Ok?
    ensures |DecodeBars(items, q).value| == |items|
  {
    hide DecodeBar;
    if items != [] {
      DecodedLength(items[..|items| - 1], q);
    }
  }

  /**
   * A payload decodes to a series exactly when it is an object about the query whose bars depict
   * that series, one by one, and the series honours the contract: not empty, of the symbol, in
   * range, positive, and in strictly ascending date order.
   */
  lemma DecodesIff(payload: Payload, q: Query, bars: seq<Bar>)
    requires IsQuery(q)
    ensures Decode(payload, q) == Ok(bars) <==>
      && payload.Parsed? && payload.json.JObject? && About(payload.json.fields, q)
      && "bars" in payload.json.fields && payload.json.fields["bars"].JArray?
      && var items := payload.json.fields["bars"].items;
      |bars| == |items| && (forall i :: 0 <= i < |bars| ==> Depicts(items[i], bars[i])) && GoodSeries(bars, q)
  {
    hide MetadataMatches, About, DecodeBars, Depicts, GoodBar, Sort, Rank;
    if payload.Parsed? && payload.json.JObject? {
      AboutIff(payload.json.fields, q);
      var raw := Field(payload.json.fields, "bars");
      if raw.JArray? {
        DecodeBarsIff(raw.items, q, bars);
        BarLeIsTotalPreorder();
        if GoodSeries(bars, q) {
          SortOfSorted(bars, BarLe);
        }
      }
      if Decode(payload, q) == Ok(bars) {
        DecodeIsSafe(payload, q);
      }
    }
  }

  /** February has 29 days in 2024 and 2000, and 28 in 2023 and 1900. */
  lemma LeapDays()
    ensures IsDay(Day(2024, 2, 29)) && IsDay(Day(2000, 2, 29)) && !IsDay(Day(2023, 2, 29)) && !IsDay(Day(1900, 2, 29))
    ensures IsDay(Day(2024, 4, 30)) && !IsDay(Day(2024, 4, 31)) && IsDay(Day(2024, 12, 31)) && !IsDay(Day(2024, 13, 1))
  {}

  lemma SomeDigits()
    ensures TwoDigits(20) == "20" && TwoDigits(24) == "24" && TwoDigits(1) == "01" && TwoDigits(2) == "02"
    ensures TwoDigits(3) == "03" && TwoDigits(29) == "29"
  {}

  /** A key in full. */
  lemma KeyOfApple()
    ensures Key("market-data:v1:yfinance", Query("AAPL", Day(2024, 1, 2), Day(2024, 3, 29)))
         == "market-data:v1:yfinance" + ":1d:adjusted-close:" + "AAPL" + ":" + "2024-01-02" + ":" + "2024-03-29"
  {
    hide TwoDigits;
    SomeDigits();
    assert "20" + "24" + "-" + "01" + "-" + "02" == "2024-01-02";
    assert "20" + "24" + "-" + "03" + "-" + "29" == "2024-03-29";
    assert Iso(Day(2024, 1, 2)) == "2024-01-02";
    assert Iso(Day(2024, 3, 29)) == "2024-03-29";
  }
}
