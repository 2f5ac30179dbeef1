/** `scrape_weather(city, format:, debug:)` (weather_scraper.rb, lines 4-140).

    The printed output is the sequence of `puts` arguments, one entry per
    call (an array argument gives one entry per element, and an empty array
    one empty line). The network, the HTML parser and the JSON parser are
    inputs: an `Env` holds the response each URL gets, the parsed document
    each HTML body gives and the parse result each JSON body gives.

    Each branch's `begin ... rescue ... end` is specified as a list of
    steps: a step prints its lines or raises, and a raise prints what the
    matching `rescue` clause prints and skips every later step. */
module Scraper {
  import opened Strings
  import opened FormEncoding
  import opened Temperatures

  /** The `format:` values the script passes; anything but the four named
      ones takes the `else` branch, which is `Full`. */
  datatype Format = Full | Simple | Plain | Custom | Json

  // ---------------------------------------------------------------------
  // URLs (lines 17, 33, 50, 66, 94)

  const Base: string := "https://wttr.in/"

  function Suffix(f: Format): string {
    match f
    case Simple => "?format=3"
    case Plain => "?format=4"
    case Custom => "?format=%l:+%c+%t+%w+%h"
    case Json => "?format=j1"
    case Full => ""
  }

  function Url(city: string, f: Format): string {
    Base + EncodeComponent(city) + Suffix(f)
  }

  /** The position of the first `?`, or the length when there is none. */
  function QueryStart(s: string): (k: nat)
    ensures k <= |s|
  {
    if s == [] || s[0] == '?' then 0 else 1 + QueryStart(s[1..])
  }

  function FormatOfSuffix(q: string): Option<Format> {
    if q == "" then Some(Full)
    else if q == "?format=3" then Some(Simple)
    else if q == "?format=4" then Some(Plain)
    else if q == "?format=%l:+%c+%t+%w+%h" then Some(Custom)
    else if q == "?format=j1" then Some(Json)
    else None
  }

  /** Reads a city and a format back from a URL. */
  function ParseUrl(u: string): Option<(string, Format)> {
    if !StartsWith(u, Base) then None
    else
      var rest := u[|Base|..];
      var k := QueryStart(rest);
      match (DecodeComponent(rest[..k]), FormatOfSuffix(rest[k..]))
      case (Some(city), Some(f)) => Some((city, f))
      case _ => None
  }

  lemma {:induction false} QueryStartSkips(e: string, q: string)
    requires forall i :: 0 <= i < |e| ==> InEncodedAlphabet(e[i])
    requires q == [] || q[0] == '?'
    ensures QueryStart(e + q) == |e|
    decreases |e|
  {
    if e != [] {
      assert (e + q)[0] == e[0] && (e + q)[1..] == e[1..] + q;
      QueryStartSkips(e[1..], q);
    } else {
      assert e + q == q;
    }
  }

  /** The base, the encoded city (which never holds `?`) and the format's
      suffix can be told apart again: the URL determines city and format. */
  lemma SuffixRoundTrip(f: Format)
    ensures Suffix(f) == [] || Suffix(f)[0] == '?'
    ensures FormatOfSuffix(Suffix(f)) == Some(f)
  {
  }

  lemma UrlRoundTrip(city: string, f: Format)
    ensures ParseUrl(Url(city, f)) == Some((city, f))
  {
    var e := EncodeComponent(city);
    var q := Suffix(f);
    var u := Url(city, f);
    EncodeComponentRoundTrip(city);
    SuffixRoundTrip(f);
    assert u == Base + (e + q);
    assert StartsWith(u, Base);
    var rest := u[|Base|..];
    assert rest == e + q;
    QueryStartSkips(e, q);
    assert rest[..|e|] == e && rest[|e|..] == q;
  }

  /** Different cities or formats never share a URL. */
  lemma UrlInjective(c1: string, f1: Format, c2: string, f2: Format)
    requires Url(c1, f1) == Url(c2, f2)
    ensures c1 == c2 && f1 == f2
  {
    UrlRoundTrip(c1, f1);
    UrlRoundTrip(c2, f2);
  }

  // ---------------------------------------------------------------------
  // The inputs that stand for the network and the parsing libraries

  /** What `URI.open(url, ...).read` gives: a body, or the exception it
      raises (`OpenURI::HTTPError`, or any other error with its class name
      and backtrace). */
  datatype Fetched =
    | Body(text: string)
    | HttpError(message: string)
    | OtherError(className: string, message: string, backtrace: seq<string>)

  /** What Nokogiri gives for a body: the `<title>` text, if any, and the
      text of every `<pre>` element in document order. */
  datatype Page = Page(title: Option<string>, pres: seq<string>)

  /** An object `{"value": ...}`; `None` is a missing key. */
  datatype Named = Named(value: Option<string>)

  /** An entry of `current_condition`; `None` is a missing key. */
  datatype Current = Current(tempC: Option<string>, tempF: Option<string>,
                             weatherDesc: Option<seq<Named>>, windspeedKmph: Option<string>,
                             winddir16Point: Option<string>, humidity: Option<string>,
                             visibility: Option<string>, feelsLikeC: Option<string>)

  /** An entry of `nearest_area`; `None` is a missing key. */
  datatype Area = Area(areaName: Option<seq<Named>>, country: Option<seq<Named>>)

  datatype Payload = Payload(currentCondition: Option<seq<Current>>, nearestArea: Option<seq<Area>>)

  /** What `JSON.parse` gives: a `JSON::ParserError`, or the document. */
  datatype Parsed = ParseError(message: string) | Parsed(payload: Payload)

  datatype Env = Env(fetch: string -> Fetched, parseHtml: string -> Page, parseJson: string -> Parsed,
                     nilMessage: string)

  // ---------------------------------------------------------------------
  // The fixed lines

  /** `"=" * 60`: sixty `=` signs, written as six runs of ten so that the
      verifier reads its characters without unfolding `Repeat` sixty times
      (`RuleShape`). */
  const Rule: string := Ten + Ten + Ten + Ten + Ten + Ten

  const Ten: string := "=========="

  lemma TenShape()
    ensures Ten == Repeat('=', 10)
  {
    assert Repeat('=', 10) == "==========";
  }

  /** The rule is sixty `=` signs. */
  lemma RuleShape()
    ensures |Rule| == 60 && forall i :: 0 <= i < |Rule| ==> Rule[i] == '='
  {
    TenShape();
  }

  /** `"\n" + "=" * 60`: a blank line, then the rule. */
  const OpenRule: string := "\n" + Rule

  function FetchingLine(url: string): string { "Fetching: " + url }

  function ErrorLine(message: string): string { "\U{274C} Error: " + message }

  function HeaderFor(city: string): string { "Weather for: " + Capitalize(city) }

  const DetailsHeader: string := "Weather Details"

  function Frame(header: string, body: string): seq<string> {
    [OpenRule, header, Rule, body, Rule]
  }

  function DebugBlock(page: Page): seq<string> {
    ["\n=== DEBUG MODE ===",
     "Page title: " + page.title.GetOr(""),
     "Found " + NatToString(|page.pres|) + " <pre> elements",
     "================\n"]
  }

  /** Lines 101-106: the debug block, printed only in debug mode. */
  function DebugLines(debug: bool, page: Page): seq<string> {
    if debug then DebugBlock(page) else []
  }

  function NotFoundLines(city: string): seq<string> {
    ["\n\U{274C} Could not find weather data for '" + city + "'.",
     "The city name might be incorrect or not recognized."]
  }

  const ExtractedHeader: string := "\n\U{1F4CA} Extracted Details (using Nokogiri):"

  function ReadingLine(k: nat, temp: string): string {
    "  Temperature reading " + NatToString(k) + ": " + temp + "°C"
  }

  /** `temps.each_with_index { |temp, i| puts "... #{i + 1}: #{temp}°C" }` */
  function Readings(temps: seq<string>): (r: seq<string>)
    ensures |r| == |temps|
  {
    seq(|temps|, k requires 0 <= k < |temps| => ReadingLine(k + 1, temps[k]))
  }

  /** Lines 119-125: printed only when the text holds a reading. */
  function Extracted(text: string): seq<string> {
    if Scan(text) != [] then [ExtractedHeader] + Readings(ExtractTemps(text)) else []
  }

  /** `puts array`: one line per element, and one empty line for `[]`. */
  function PutsArray(lines: seq<string>): seq<string> {
    if lines == [] then [""] else lines
  }

  function HttpErrorLines(message: string): seq<string> {
    ["\U{274C} HTTP Error: " + message, "The city name might be invalid or the service is unavailable."]
  }

  /** Lines 131-137: what the full format's `rescue` clauses print. */
  function FullErrorLines(e: Fetched, debug: bool): seq<string>
    requires !e.Body?
  {
    match e
    case HttpError(m) => HttpErrorLines(m)
    case OtherError(cls, m, backtrace) =>
      [ErrorLine(m)] + (if debug then ["Debug: " + cls] + PutsArray(First(backtrace, 3)) else [])
  }

  function JsonParseErrorLine(message: string): string { "\U{274C} Error parsing JSON: " + message }

  // ---------------------------------------------------------------------
  // begin ... rescue ... end

  /** A step of a `begin` block: it prints some lines, or it raises and the
      `rescue` clause that catches the exception prints `handler`. */
  datatype Step = Emit(lines: seq<string>) | Raise(handler: seq<string>)

  /** The output of a `begin` block with its `rescue` clauses. */
  function Rescued(steps: seq<Step>): seq<string> {
    if steps == [] then []
    else
      match steps[0]
      case Emit(lines) => lines + Rescued(steps[1..])
      case Raise(handler) => handler
  }

  predicate Raises(steps: seq<Step>) {
    exists k :: 0 <= k < |steps| && steps[k].Raise?
  }

  /** All lines of the steps, as if none raised. */
  function AllLines(steps: seq<Step>): seq<string> {
    if steps == [] then [] else (if steps[0].Emit? then steps[0].lines else []) + AllLines(steps[1..])
  }

  /** A block whose steps do not raise prints all their lines. */
  lemma {:induction false} RescuedNoRaise(steps: seq<Step>)
    requires !Raises(steps)
    ensures Rescued(steps) == AllLines(steps)
  {
    if steps != [] {
      assert steps[0].Emit?;
      assert !Raises(steps[1..]) by {
        forall k | 0 <= k < |steps[1..]| ensures steps[1..][k].Emit? {
          assert steps[1..][k] == steps[k + 1];
        }
      }
      RescuedNoRaise(steps[1..]);
    }
  }

  /** An exception stops the block: the lines of the steps before it, then
      the handler's lines, and nothing of the steps after it. */
  lemma {:induction false} RescuedStops(pre: seq<Step>, handler: seq<string>, post: seq<Step>)
    requires !Raises(pre)
    ensures Rescued(pre + [Raise(handler)] + post) == AllLines(pre) + handler
  {
    if pre == [] {
      assert (pre + [Raise(handler)] + post)[0] == Raise(handler);
    } else {
      var s := pre + [Raise(handler)] + post;
      assert s[0] == pre[0] && s[1..] == pre[1..] + [Raise(handler)] + post;
      assert pre[0].Emit?;
      assert !Raises(pre[1..]) by {
        forall k | 0 <= k < |pre[1..]| ensures pre[1..][k].Emit? {
          assert pre[1..][k] == pre[k + 1];
        }
      }
      RescuedStops(pre[1..], handler, post);
    }
  }

  // ---------------------------------------------------------------------
  // The JSON branch (lines 69-91)

  /** `a[0]`: the first element, or `None` (Ruby's `nil`) when `a` is empty. */
  function First0<T>(a: seq<T>): Option<T> {
    if |a| > 0 then Some(a[0]) else None
  }

  /** `x[0]['value']` interpolated: `None` when a lookup on `nil` raises. */
  function ValueOf(x: Option<seq<Named>>): Option<string> {
    match x
    case None => None
    case Some(a) =>
      match First0(a)
      case None => None
      case Some(n) => Some(n.value.GetOr(""))
  }

  /** A line that raises when `o` is `None`. */
  function LineStep(o: Option<string>, raised: Step): Step {
    if o.Some? then Emit([o.value]) else raised
  }

  function AreaLine(location: Option<Area>): Option<string> {
    match location
    case None => None
    case Some(l) =>
      match (ValueOf(l.areaName), ValueOf(l.country))
      case (Some(a), Some(c)) => Some("Weather for: " + a + ", " + c)
      case _ => None
  }

  function TemperatureLine(c: Current): string {
    "\U{1F321}\U{FE0F}  Temperature: " + c.tempC.GetOr("") + "°C (" + c.tempF.GetOr("") + "°F)"
  }

  function ConditionLine(c: Current): Option<string> {
    match ValueOf(c.weatherDesc)
    case Some(d) => Some("\U{2601}\U{FE0F}  Condition: " + d)
    case None => None
  }

  function WindLine(c: Current): string {
    "\U{1F4A8} Wind: " + c.windspeedKmph.GetOr("") + " km/h " + c.winddir16Point.GetOr("")
  }

  function HumidityLine(c: Current): string {
    "\U{1F4A7} Humidity: " + c.humidity.GetOr("") + "%"
  }

  function VisibilityLine(c: Current): string {
    "\U{1F441}\U{FE0F}  Visibility: " + c.visibility.GetOr("") + " km"
  }

  function FeelsLikeLine(c: Current): string {
    "\U{1F321}\U{FE0F}  Feels Like: " + c.feelsLikeC.GetOr("") + "°C"
  }

  /** `current[key]` interpolated: raises when `current` is `nil`. */
  function OnCurrent(current: Option<Current>, line: Current -> string): Option<string> {
    if current.Some? then Some(line(current.value)) else None
  }

  function ConditionOf(current: Option<Current>): Option<string> {
    if current.Some? then ConditionLine(current.value) else None
  }

  /** Lines 80-86: each step prints one line, or raises when `current`
      or a lookup inside it is `nil`. */
  function CurrentSteps(current: Option<Current>, nilMessage: string): seq<Step> {
    var raised := Raise([ErrorLine(nilMessage)]);
    [ LineStep(OnCurrent(current, TemperatureLine), raised),
      LineStep(ConditionOf(current), raised),
      LineStep(OnCurrent(current, WindLine), raised),
      LineStep(OnCurrent(current, HumidityLine), raised),
      LineStep(OnCurrent(current, VisibilityLine), raised),
      LineStep(OnCurrent(current, FeelsLikeLine), raised),
      Emit([Rule]) ]
  }

  /** Lines 77-86, once `current` and `location` are known. */
  function ReportSteps(current: Option<Current>, location: Option<Area>, nilMessage: string): seq<Step> {
    [ Emit([OpenRule]),
      LineStep(AreaLine(location), Raise([ErrorLine(nilMessage)])),
      Emit([Rule]) ]
    + CurrentSteps(current, nilMessage)
  }

  /** Lines 74-86 for a parsed document: indexing a missing top-level key
      raises before anything is printed. */
  function JsonSteps(data: Payload, nilMessage: string): seq<Step> {
    var raised := Raise([ErrorLine(nilMessage)]);
    [ if data.currentCondition.Some? then Emit([]) else raised,
      if data.nearestArea.Some? then Emit([]) else raised ]
    + ReportSteps(First0(data.currentCondition.GetOr([])), First0(data.nearestArea.GetOr([])), nilMessage)
  }

  // ---------------------------------------------------------------------
  // The whole report

  /** Lines 20-29, 36-45 and 53-62: the framed body, or the error. */
  function FramedBlock(header: string, response: Fetched): seq<Step> {
    match response
    case Body(text) => [Emit(Frame(header, text))]
    case _ => [Raise([ErrorLine(response.message)])]
  }

  /** Lines 69-91 after the URL is built. */
  function JsonBlock(response: Fetched, env: Env): seq<Step> {
    match response
    case Body(text) =>
      (match env.parseJson(text)
       case ParseError(m) => [Raise([JsonParseErrorLine(m)])]
       case Parsed(data) => JsonSteps(data, env.nilMessage))
    case _ => [Raise([ErrorLine(response.message)])]
  }

  /** The `<pre>` text Nokogiri finds first, or `""` when there is none. */
  function FirstPre(page: Page): string {
    if |page.pres| > 0 then page.pres[0] else ""
  }

  /** Lines 111-129: the framed text and its readings, or the not-found lines. */
  function PageLines(city: string, text: string): seq<string> {
    if text != "" then Frame(HeaderFor(city), text) + Extracted(text) else NotFoundLines(city)
  }

  /** Lines 97-138 after the URL is built. */
  function FullBlock(city: string, debug: bool, response: Fetched, env: Env): seq<Step> {
    if response.Body? then
      var page := env.parseHtml(response.text);
      [Emit(DebugLines(debug, page)), Emit(PageLines(city, FirstPre(page)))]
    else [Raise(FullErrorLines(response, debug))]
  }

  /** The steps of the `begin` block of each branch, given the response. */
  function Steps(city: string, format: Format, debug: bool, response: Fetched, env: Env): seq<Step> {
    match format
    case Simple => FramedBlock(HeaderFor(city), response)
    case Plain => FramedBlock(HeaderFor(city), response)
    case Custom => FramedBlock(DetailsHeader, response)
    case Json => JsonBlock(response, env)
    case Full => FullBlock(city, debug, response, env)
  }

  /** The lines printed before the fetch: `Fetching: <url>`, only in debug mode. */
  function Prefix(city: string, f: Format, debug: bool): seq<string> {
    if debug then [FetchingLine(Url(city, f))] else []
  }

  /** Everything `scrape_weather` prints. */
  function Report(city: string, format: Format, debug: bool, env: Env): seq<string> {
    Prefix(city, format, debug) + Rescued(Steps(city, format, debug, env.fetch(Url(city, format)), env))
  }

  // ---------------------------------------------------------------------
  // The procedure

  lemma EmitStep(steps: seq<Step>)
    requires steps != [] && steps[0].Emit?
    ensures Rescued(steps) == steps[0].lines + Rescued(steps[1..])
  {
  }

  lemma RaiseStep(steps: seq<Step>)
    requires steps != [] && steps[0].Raise?
    ensures Rescued(steps) == steps[0].handler
  {
  }

  lemma TwoEmits(a: seq<string>, b: seq<string>)
    ensures Rescued([Emit(a), Emit(b)]) == a + b
  {
    var steps := [Emit(a), Emit(b)];
    EmitStep(steps);
    assert steps[1..] == [Emit(b)];
    EmitStep(steps[1..]);
    assert steps[1..][1..] == [];
    assert b + [] == b;
  }

  /** Printing the lines of step `k` keeps `out + Rescued(steps[k..])` fixed. */
  lemma Advance(goal: seq<string>, out: seq<string>, steps: seq<Step>, k: nat)
    requires k < |steps| && steps[k].Emit?
    requires goal == out + Rescued(steps[k..])
    ensures goal == (out + steps[k].lines) + Rescued(steps[k + 1..])
  {
    assert steps[k..][0] == steps[k] && steps[k..][1..] == steps[k + 1..];
  }

  /** Printing the handler of a raising step `k` completes the block. */
  lemma Stop(goal: seq<string>, out: seq<string>, steps: seq<Step>, k: nat)
    requires k < |steps| && steps[k].Raise?
    requires goal == out + Rescued(steps[k..])
    ensures goal == out + steps[k].handler
  {
    assert steps[k..][0] == steps[k];
  }

  // Each lemma below gives the output of one outcome of the JSON steps.

  lemma CurrentComplete(c: Current, nilMessage: string)
    requires ConditionLine(c).Some?
    ensures Rescued(CurrentSteps(Some(c), nilMessage)) ==
              [TemperatureLine(c), ConditionLine(c).value, WindLine(c), HumidityLine(c),
               VisibilityLine(c), FeelsLikeLine(c), Rule]
  {
    var steps := CurrentSteps(Some(c), nilMessage);
    var goal := Rescued(steps);
    assert steps[0..] == steps;
    Advance(goal, [], steps, 0);
    var out := [TemperatureLine(c)];
    Advance(goal, out, steps, 1);
    out := out + [ConditionLine(c).value];
    Advance(goal, out, steps, 2);
    out := out + [WindLine(c)];
    Advance(goal, out, steps, 3);
    out := out + [HumidityLine(c)];
    Advance(goal, out, steps, 4);
    out := out + [VisibilityLine(c)];
    Advance(goal, out, steps, 5);
    out := out + [FeelsLikeLine(c)];
    Advance(goal, out, steps, 6);
    assert steps[7..] == [];
  }

  lemma CurrentAbsent(nilMessage: string)
    ensures Rescued(CurrentSteps(None, nilMessage)) == [ErrorLine(nilMessage)]
  {
    RaiseStep(CurrentSteps(None, nilMessage));
  }

  lemma ConditionAbsent(c: Current, nilMessage: string)
    requires ConditionLine(c).None?
    ensures Rescued(CurrentSteps(Some(c), nilMessage)) == [TemperatureLine(c), ErrorLine(nilMessage)]
  {
    var steps := CurrentSteps(Some(c), nilMessage);
    var goal := Rescued(steps);
    assert steps[0..] == steps;
    Advance(goal, [], steps, 0);
    Stop(goal, [TemperatureLine(c)], steps, 1);
  }

  lemma AreaAbsent(current: Option<Current>, location: Option<Area>, nilMessage: string)
    requires AreaLine(location).None?
    ensures Rescued(ReportSteps(current, location, nilMessage)) == [OpenRule, ErrorLine(nilMessage)]
  {
    var steps := ReportSteps(current, location, nilMessage);
    var goal := Rescued(steps);
    assert steps[0..] == steps;
    Advance(goal, [], steps, 0);
    Stop(goal, [OpenRule], steps, 1);
  }

  lemma AreaPresent(current: Option<Current>, location: Option<Area>, nilMessage: string)
    requires AreaLine(location).Some?
    ensures Rescued(ReportSteps(current, location, nilMessage)) ==
              [OpenRule, AreaLine(location).value, Rule] + Rescued(CurrentSteps(current, nilMessage))
  {
    var steps := ReportSteps(current, location, nilMessage);
    var goal := Rescued(steps);
    assert steps[0..] == steps;
    Advance(goal, [], steps, 0);
    Advance(goal, [OpenRule], steps, 1);
    Advance(goal, [OpenRule, AreaLine(location).value], steps, 2);
    assert steps[3..] == CurrentSteps(current, nilMessage);
  }

  lemma JsonMissingKey(data: Payload, nilMessage: string)
    requires data.currentCondition.None? || data.nearestArea.None?
    ensures Rescued(JsonSteps(data, nilMessage)) == [ErrorLine(nilMessage)]
  {
    var steps := JsonSteps(data, nilMessage);
    if data.currentCondition.Some? {
      EmitStep(steps);
      RaiseStep(steps[1..]);
    } else {
      RaiseStep(steps);
    }
  }

  lemma JsonKeysPresent(data: Payload, nilMessage: string)
    requires data.currentCondition.Some? && data.nearestArea.Some?
    ensures Rescued(JsonSteps(data, nilMessage)) ==
              Rescued(ReportSteps(First0(data.currentCondition.value), First0(data.nearestArea.value), nilMessage))
  {
    var steps := JsonSteps(data, nilMessage);
    EmitStep(steps);
    EmitStep(steps[1..]);
    assert steps[1..][1..] == ReportSteps(First0(data.currentCondition.value), First0(data.nearestArea.value), nilMessage);
  }

  /** Lines 20-29, 36-45 and 53-62. */
  method PrintFramed(out0: seq<string>, header: string, response: Fetched) returns (out: seq<string>)
    ensures out == out0 + Rescued(FramedBlock(header, response))
  {
    out := out0;
    if response.Body? {
      out := out + [OpenRule];
      out := out + [header];
      out := out + [Rule];
      out := out + [response.text];
      out := out + [Rule];
      EmitStep(FramedBlock(header, response));
    } else {
      out := out + [ErrorLine(response.message)];
      RaiseStep(FramedBlock(header, response));
    }
  }

  /** Lines 122-124: one numbered line per reading, counting from 1. */
  method PrintReadings(out0: seq<string>, temps: seq<string>) returns (out: seq<string>)
    ensures out == out0 + Readings(temps)
  {
    out := out0;
    var i := 0;
    while i < |temps|
      invariant 0 <= i <= |temps|
      invariant |out| == |out0| + i && out[..|out0|] == out0
      invariant forall k :: 0 <= k < i ==> out[|out0| + k] == ReadingLine(k + 1, temps[k])
    {
      out := out + [ReadingLine(i + 1, temps[i])];
      i := i + 1;
    }
    assert out == out0 + Readings(temps);
  }

  /** Lines 112-125: the framed text, then the readings found in it. */
  method PrintWeather(out0: seq<string>, city: string, text: string) returns (out: seq<string>)
    ensures out == out0 + Frame(HeaderFor(city), text) + Extracted(text)
  {
    out := out0 + [OpenRule];
    out := out + [HeaderFor(city)];
    out := out + [Rule];
    out := out + [text];
    out := out + [Rule];
    assert out == out0 + Frame(HeaderFor(city), text);
    if Scan(text) != [] {
      out := out + [ExtractedHeader];
      var temps := First(Uniq(Scan(text)), 3);
      out := PrintReadings(out, temps);
    }
  }

  /** Lines 101-106. */
  method PrintDebug(out0: seq<string>, debug: bool, doc: Page) returns (out: seq<string>)
    ensures out == out0 + DebugLines(debug, doc)
  {
    out := out0;
    if debug {
      out := out + ["\n=== DEBUG MODE ==="];
      out := out + ["Page title: " + doc.title.GetOr("")];
      out := out + ["Found " + NatToString(|doc.pres|) + " <pre> elements"];
      out := out + ["================\n"];
    }
  }

  /** Lines 126-128. */
  method PrintNotFound(out0: seq<string>, city: string) returns (out: seq<string>)
    ensures out == out0 + NotFoundLines(city)
  {
    out := out0 + ["\n\U{274C} Could not find weather data for '" + city + "'."];
    out := out + ["The city name might be incorrect or not recognized."];
  }

  /** Lines 99-129 for a fetched body. */
  method PrintPage(out0: seq<string>, city: string, debug: bool, doc: Page) returns (out: seq<string>)
    ensures out == out0 + DebugLines(debug, doc) + PageLines(city, FirstPre(doc))
  {
    out := PrintDebug(out0, debug, doc);
    var weatherData := if |doc.pres| > 0 then Some(doc.pres[0]) else None;
    if weatherData.Some? && weatherData.value != "" {
      out := PrintWeather(out, city, weatherData.value);
    } else {
      out := PrintNotFound(out, city);
    }
  }

  /** Lines 131-137. */
  method PrintFullError(out0: seq<string>, city: string, debug: bool, response: Fetched, env: Env)
    returns (out: seq<string>)
    requires !response.Body?
    ensures out == out0 + Rescued(FullBlock(city, debug, response, env))
  {
    match response
    case HttpError(m) =>
      out := out0 + ["\U{274C} HTTP Error: " + m];
      out := out + ["The city name might be invalid or the service is unavailable."];
    case OtherError(cls, m, backtrace) =>
      out := out0 + [ErrorLine(m)];
      if debug {
        out := out + ["Debug: " + cls];
        out := out + PutsArray(First(backtrace, 3));
      }
    assert out == out0 + FullErrorLines(response, debug);
    RaiseStep(FullBlock(city, debug, response, env));
  }

  /** Lines 98-129. */
  method PrintFullBody(out0: seq<string>, city: string, debug: bool, response: Fetched, env: Env)
    returns (out: seq<string>)
    requires response.Body?
    ensures out == out0 + Rescued(FullBlock(city, debug, response, env))
  {
    var doc := env.parseHtml(response.text);
    out := PrintPage(out0, city, debug, doc);
    TwoEmits(DebugLines(debug, doc), PageLines(city, FirstPre(doc)));
  }

  /** Lines 97-138 after the URL is built. */
  method PrintFull(out0: seq<string>, city: string, debug: bool, response: Fetched, env: Env)
    returns (out: seq<string>)
    ensures out == out0 + Rescued(FullBlock(city, debug, response, env))
  {
    if response.Body? {
      out := PrintFullBody(out0, city, debug, response, env);
    } else {
      out := PrintFullError(out0, city, debug, response, env);
    }
  }

  /** Lines 80-86. */
  method PrintCurrent(out0: seq<string>, current: Option<Current>, nilMessage: string)
    returns (out: seq<string>)
    ensures out == out0 + Rescued(CurrentSteps(current, nilMessage))
  {
    if current.None? {
      out := out0 + [ErrorLine(nilMessage)];
      CurrentAbsent(nilMessage);
    } else {
      var c := current.value;
      out := out0 + [TemperatureLine(c)];
      var condition := ConditionLine(c);
      if condition.None? {
        out := out + [ErrorLine(nilMessage)];
        ConditionAbsent(c, nilMessage);
      } else {
        out := out + [condition.value];
        out := out + [WindLine(c)];
        out := out + [HumidityLine(c)];
        out := out + [VisibilityLine(c)];
        out := out + [FeelsLikeLine(c)];
        out := out + [Rule];
        CurrentComplete(c, nilMessage);
      }
    }
  }

  /** Lines 77-86, once `current` and `location` are known. */
  method PrintReport(out0: seq<string>, current: Option<Current>, location: Option<Area>, nilMessage: string)
    returns (out: seq<string>)
    ensures out == out0 + Rescued(ReportSteps(current, location, nilMessage))
  {
    out := out0 + [OpenRule];
    var area := AreaLine(location);
    if area.None? {
      out := out + [ErrorLine(nilMessage)];
      AreaAbsent(current, location, nilMessage);
    } else {
      out := out + [area.value];
      out := out + [Rule];
      out := PrintCurrent(out, current, nilMessage);
      AreaPresent(current, location, nilMessage);
    }
  }

  /** Lines 71-86 for a fetched body. */
  method PrintParsed(out0: seq<string>, text: string, env: Env) returns (out: seq<string>)
    ensures out == out0 + Rescued(JsonBlock(Body(text), env))
  {
    match env.parseJson(text)
    case ParseError(m) =>
      out := out0 + [JsonParseErrorLine(m)];
      RaiseStep(JsonBlock(Body(text), env));
    case Parsed(data) =>
      if data.currentCondition.None? || data.nearestArea.None? {
        out := out0 + [ErrorLine(env.nilMessage)];
        JsonMissingKey(data, env.nilMessage);
      } else {
        var current := First0(data.currentCondition.value);
        var location := First0(data.nearestArea.value);
        out := PrintReport(out0, current, location, env.nilMessage);
        JsonKeysPresent(data, env.nilMessage);
      }
  }

  /** Lines 69-91 after the URL is built. */
  method PrintJson(out0: seq<string>, response: Fetched, env: Env) returns (out: seq<string>)
    ensures out == out0 + Rescued(JsonBlock(response, env))
  {
    if response.Body? {
      out := PrintParsed(out0, response.text, env);
    } else {
      out := out0 + [ErrorLine(response.message)];
      RaiseStep(JsonBlock(response, env));
    }
  }

  /** `scrape_weather(city, format: format, debug: debug)`: prints the
      report, having requested exactly the one URL. */
  method ScrapeWeather(city: string, format: Format, debug: bool, env: Env)
    returns (out: seq<string>, requested: seq<string>)
    ensures requested == [Url(city, format)]
    ensures out == Report(city, format, debug, env)
  {
    var url := Url(city, format);
    out := [];
    if debug {
      out := out + [FetchingLine(url)];
    }
    var response := env.fetch(url);
    requested := [url];
    match format
    case Simple =>
      out := PrintFramed(out, HeaderFor(city), response);
    case Plain =>
      out := PrintFramed(out, HeaderFor(city), response);
    case Custom =>
      out := PrintFramed(out, DetailsHeader, response);
    case Json =>
      out := PrintJson(out, response, env);
    case Full =>
      out := PrintFull(out, city, debug, response, env);
  }

  // ---------------------------------------------------------------------
  // What the report holds

  /** Simple, plain and custom: a body is printed verbatim inside the frame;
      any fetch error prints only the error line. */
  lemma FramedReport(city: string, f: Format, debug: bool, env: Env)
    requires f == Simple || f == Plain || f == Custom
    ensures var r := env.fetch(Url(city, f));
            var header := if f == Custom then DetailsHeader else "Weather for: " + Capitalize(city);
            Report(city, f, debug, env) ==
              Prefix(city, f, debug) + (if r.Body? then [OpenRule, header, Rule, r.text, Rule]
                                        else [ErrorLine(r.message)])
  {
    var r := env.fetch(Url(city, f));
    var header := if f == Custom then DetailsHeader else HeaderFor(city);
    assert Steps(city, f, debug, r, env) == FramedBlock(header, r);
    if r.Body? {
      EmitStep(FramedBlock(header, r));
    } else {
      RaiseStep(FramedBlock(header, r));
    }
  }

  /** Outside the full format, debug mode only adds the `Fetching:` line. */
  lemma DebugOnlyPrefixes(city: string, f: Format, env: Env)
    requires f != Full
    ensures Report(city, f, true, env) == [FetchingLine(Url(city, f))] + Report(city, f, false, env)
  {
    var r := env.fetch(Url(city, f));
    assert Steps(city, f, true, r, env) == Steps(city, f, false, r, env);
  }

  /** No block's first line starts like `Fetching:`. */
  lemma FramedFirstLine(header: string, r: Fetched)
    ensures var out := Rescued(FramedBlock(header, r));
            out != [] && out[0] != [] && out[0][0] != 'F'
  {
    if r.Body? {
      EmitStep(FramedBlock(header, r));
    } else {
      RaiseStep(FramedBlock(header, r));
    }
  }

  lemma JsonFirstLine(r: Fetched, env: Env)
    ensures var out := Rescued(JsonBlock(r, env));
            out != [] && out[0] != [] && out[0][0] != 'F'
  {
    if r.Body? && env.parseJson(r.text).Parsed? {
      var data := env.parseJson(r.text).payload;
      if data.currentCondition.Some? && data.nearestArea.Some? {
        JsonKeysPresent(data, env.nilMessage);
        ReportOpens(First0(data.currentCondition.value), First0(data.nearestArea.value), env.nilMessage);
      } else {
        JsonMissingKey(data, env.nilMessage);
      }
    } else {
      RaiseStep(JsonBlock(r, env));
    }
  }

  lemma FullFirstLine(city: string, debug: bool, r: Fetched, env: Env)
    ensures var out := Rescued(FullBlock(city, debug, r, env));
            out != [] && out[0] != [] && out[0][0] != 'F'
  {
    if r.Body? {
      var page := env.parseHtml(r.text);
      TwoEmits(DebugLines(debug, page), PageLines(city, FirstPre(page)));
    } else {
      RaiseStep(FullBlock(city, debug, r, env));
    }
  }

  lemma BlockFirstLine(city: string, f: Format, debug: bool, r: Fetched, env: Env)
    ensures var out := Rescued(Steps(city, f, debug, r, env));
            out != [] && out[0] != [] && out[0][0] != 'F'
  {
    match f
    case Full => FullFirstLine(city, debug, r, env);
    case Json => JsonFirstLine(r, env);
    case Custom => FramedFirstLine(DetailsHeader, r);
    case _ => FramedFirstLine(HeaderFor(city), r);
  }

  /** In every format the report opens with `Fetching: <url>` exactly when
      debug mode is on. */
  lemma FetchingLineIffDebug(city: string, f: Format, debug: bool, env: Env)
    ensures Report(city, f, debug, env) != []
    ensures Report(city, f, debug, env)[0] == FetchingLine(Url(city, f)) <==> debug
  {
    BlockFirstLine(city, f, debug, env.fetch(Url(city, f)), env);
    assert FetchingLine(Url(city, f))[0] == 'F';
  }

  /** The Extracted Details block is printed exactly when the text holds a
      `\d+°C` match; it is the header and then at most three readings,
      numbered from 1. */
  lemma ExtractedShape(text: string)
    ensures Extracted(text) != [] <==> HasMatch(text)
    ensures HasMatch(text) ==> Extracted(text)[0] == ExtractedHeader && 2 <= |Extracted(text)| <= 4
    ensures forall k :: 1 <= k < |Extracted(text)| ==>
              Extracted(text)[k] == ReadingLine(k, ExtractTemps(text)[k - 1])
  {
    HasMatchIffScan(text);
    ExtractTempsEmptyIff(text);
    ExtractTempsDistinct(text);
  }

  /** Full format with a body: the debug block only in debug mode, then the
      framed `<pre>` text and its readings, or, when that text is missing or
      empty, the two not-found lines naming the city as given. */
  lemma FullBody(city: string, debug: bool, env: Env)
    requires env.fetch(Url(city, Full)).Body?
    ensures var page := env.parseHtml(env.fetch(Url(city, Full)).text);
            var text := FirstPre(page);
            Report(city, Full, debug, env) ==
              Prefix(city, Full, debug) + DebugLines(debug, page)
              + (if text != "" then [OpenRule, HeaderFor(city), Rule, text, Rule] + Extracted(text)
                 else ["\n\U{274C} Could not find weather data for '" + city + "'.",
                       "The city name might be incorrect or not recognized."])
  {
    var page := env.parseHtml(env.fetch(Url(city, Full)).text);
    TwoEmits(DebugLines(debug, page), PageLines(city, FirstPre(page)));
  }

  /** Full format with a fetch error: an HTTP error prints its two lines;
      any other error prints the error line, and the class and the first
      three backtrace lines only in debug mode. */
  lemma FullErrors(city: string, debug: bool, env: Env)
    requires !env.fetch(Url(city, Full)).Body?
    ensures var r := env.fetch(Url(city, Full));
            Report(city, Full, debug, env) ==
              Prefix(city, Full, debug) +
              (if r.HttpError? then ["\U{274C} HTTP Error: " + r.message,
                                     "The city name might be invalid or the service is unavailable."]
               else [ErrorLine(r.message)] + (if debug then ["Debug: " + r.className] + PutsArray(First(r.backtrace, 3)) else []))
  {
    RaiseStep(Steps(city, Full, debug, env.fetch(Url(city, Full)), env));
  }

  /** The JSON failures that print nothing of the report: a fetch error, a
      syntax error (which leaves no partial report) and a missing top-level
      key. */
  lemma JsonFailures(city: string, debug: bool, env: Env)
    ensures var r := env.fetch(Url(city, Json));
            var out := Report(city, Json, debug, env);
            (!r.Body? ==> out == Prefix(city, Json, debug) + [ErrorLine(r.message)]) &&
            (r.Body? && env.parseJson(r.text).ParseError? ==>
               out == Prefix(city, Json, debug) + [JsonParseErrorLine(env.parseJson(r.text).message)]) &&
            (r.Body? && env.parseJson(r.text).Parsed? &&
             (env.parseJson(r.text).payload.currentCondition.None? || env.parseJson(r.text).payload.nearestArea.None?) ==>
               out == Prefix(city, Json, debug) + [ErrorLine(env.nilMessage)])
  {
    var r := env.fetch(Url(city, Json));
    var steps := Steps(city, Json, debug, r, env);
    if r.Body? && env.parseJson(r.text).Parsed? {
      var data := env.parseJson(r.text).payload;
      if data.currentCondition.Some? && data.nearestArea.None? {
        EmitStep(steps);
        RaiseStep(steps[1..]);
      } else if data.currentCondition.None? {
        RaiseStep(steps);
      }
    } else {
      RaiseStep(steps);
    }
  }

  /** The JSON document the report reads, when the fetch and the parse succeed. */
  predicate JsonParsed(city: string, env: Env, data: Payload) {
    var r := env.fetch(Url(city, Json));
    r.Body? && env.parseJson(r.text) == Parsed(data)
  }

  lemma JsonBlockIs(city: string, debug: bool, env: Env, data: Payload)
    requires JsonParsed(city, env, data)
    requires data.currentCondition.Some? && data.nearestArea.Some?
    ensures Report(city, Json, debug, env) ==
              Prefix(city, Json, debug) +
              Rescued(ReportSteps(First0(data.currentCondition.value), First0(data.nearestArea.value), env.nilMessage))
  {
    JsonKeysPresent(data, env.nilMessage);
  }

  lemma ReportComplete(c: Current, l: Area, nilMessage: string)
    requires AreaLine(Some(l)).Some? && ConditionLine(c).Some?
    ensures Rescued(ReportSteps(Some(c), Some(l), nilMessage)) ==
              [OpenRule, AreaLine(Some(l)).value, Rule, TemperatureLine(c), ConditionLine(c).value,
               WindLine(c), HumidityLine(c), VisibilityLine(c), FeelsLikeLine(c), Rule]
  {
    AreaPresent(Some(c), Some(l), nilMessage);
    CurrentComplete(c, nilMessage);
  }

  /** With both top-level keys present, every lookup that succeeds prints
      its line: the full ten-line report (see `LondonReport`). */
  lemma JsonComplete(city: string, debug: bool, env: Env, data: Payload, c: Current, l: Area)
    requires JsonParsed(city, env, data)
    requires data.currentCondition.Some? && First0(data.currentCondition.value) == Some(c)
    requires data.nearestArea.Some? && First0(data.nearestArea.value) == Some(l)
    requires AreaLine(Some(l)).Some? && ConditionLine(c).Some?
    ensures Report(city, Json, debug, env) ==
              Prefix(city, Json, debug) +
              [OpenRule, AreaLine(Some(l)).value, Rule, TemperatureLine(c), ConditionLine(c).value,
               WindLine(c), HumidityLine(c), VisibilityLine(c), FeelsLikeLine(c), Rule]
  {
    JsonBlockIs(city, debug, env, data);
    ReportComplete(c, l, env.nilMessage);
  }

  lemma ReportOpens(current: Option<Current>, location: Option<Area>, nilMessage: string)
    ensures var out := Rescued(ReportSteps(current, location, nilMessage));
            out != [] && out[0] == OpenRule &&
            (AreaLine(location).None? ==> out == [OpenRule, ErrorLine(nilMessage)]) &&
            (AreaLine(location).Some? && current.None? ==>
               out == [OpenRule, AreaLine(location).value, Rule, ErrorLine(nilMessage)]) &&
            (AreaLine(location).Some? && current.Some? && ConditionLine(current.value).None? ==>
               out == [OpenRule, AreaLine(location).value, Rule, TemperatureLine(current.value),
                       ErrorLine(nilMessage)])
  {
    if AreaLine(location).None? {
      AreaAbsent(current, location, nilMessage);
    } else {
      AreaPresent(current, location, nilMessage);
      if current.None? {
        CurrentAbsent(nilMessage);
      } else if ConditionLine(current.value).None? {
        ConditionAbsent(current.value, nilMessage);
      }
    }
  }

  /** With both top-level keys present the separator is printed before any
      field lookup, so a lookup that meets `nil` leaves a partial report:
      the separator, the lines before the failing lookup, then the error. */
  lemma JsonPartial(city: string, debug: bool, env: Env, data: Payload)
    requires JsonParsed(city, env, data)
    requires data.currentCondition.Some? && data.nearestArea.Some?
    ensures var out := Report(city, Json, debug, env);
            var pre := Prefix(city, Json, debug);
            var current := First0(data.currentCondition.value);
            var location := First0(data.nearestArea.value);
            |out| > |pre| && out[|pre|] == OpenRule &&
            (AreaLine(location).None? ==> out == pre + [OpenRule, ErrorLine(env.nilMessage)]) &&
            (AreaLine(location).Some? && current.None? ==>
               out == pre + [OpenRule, AreaLine(location).value, Rule, ErrorLine(env.nilMessage)]) &&
            (AreaLine(location).Some? && current.Some? && ConditionLine(current.value).None? ==>
               out == pre + [OpenRule, AreaLine(location).value, Rule, TemperatureLine(current.value),
                             ErrorLine(env.nilMessage)])
  {
    JsonBlockIs(city, debug, env, data);
    ReportOpens(First0(data.currentCondition.value), First0(data.nearestArea.value), env.nilMessage);
  }

  /** A sample document: London, UK, 15 degrees and clear. */
  const LondonCurrent: Current :=
    Current(Some("15"), Some("59"), Some([Named(Some("Clear"))]), Some("10"), Some("N"),
            Some("50"), Some("10"), Some("14"))

  const LondonArea: Area := Area(Some([Named(Some("London"))]), Some([Named(Some("UK"))]))

  const London: Payload := Payload(Some([LondonCurrent]), Some([LondonArea]))

  /** Every field of the sample document lands in its labelled line. */
  lemma LondonReport(city: string, env: Env)
    requires JsonParsed(city, env, London)
    ensures Report(city, Json, false, env) ==
              [OpenRule,
               "Weather for: " + "London" + ", " + "UK",
               Rule,
               "\U{1F321}\U{FE0F}  Temperature: " + "15" + "°C (" + "59" + "°F)",
               "\U{2601}\U{FE0F}  Condition: " + "Clear",
               "\U{1F4A8} Wind: " + "10" + " km/h " + "N",
               "\U{1F4A7} Humidity: " + "50" + "%",
               "\U{1F441}\U{FE0F}  Visibility: " + "10" + " km",
               "\U{1F321}\U{FE0F}  Feels Like: " + "14" + "°C",
               Rule]
  {
    JsonComplete(city, false, env, London, LondonCurrent, LondonArea);
  }

}
