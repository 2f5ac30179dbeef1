/** The top-level argument handling of weather_scraper.rb (lines 143-181):
    an empty argument list prints the usage text and exits with status 1;
    otherwise the flags choose the format and debug mode, and the remaining
    words, joined by single spaces, are the city. */
module Cli {
  import opened Strings
  import opened Scraper

  /** What `puts` prints for lines 145-158; the bare `puts` is one empty line. */
  const UsageLines: seq<string> := [
    "\nUsage: ruby weather_scraper.rb <city_name> [options]",
    "\nExamples:",
    "  ruby weather_scraper.rb Mumbai",
    "  ruby weather_scraper.rb \"New York\" --simple",
    "  ruby weather_scraper.rb Tokyo --json",
    "  ruby weather_scraper.rb London --debug",
    "\nFormat Options:",
    "  --full     Full ASCII art weather (default)",
    "  --simple   One-line simple format",
    "  --plain    Plain text detailed format",
    "  --custom   Custom format with specific fields",
    "  --json     JSON format with detailed data",
    "  --debug    Show debug information",
    ""
  ]

  /** The outcome of reading the arguments. */
  datatype Invocation =
    | Usage(lines: seq<string>, status: int)
    | Scrape(city: string, format: Format, debug: bool)

  /** `arg.start_with?("--")` */
  predicate IsFlag(arg: string) {
    StartsWith(arg, "--")
  }

  /** Lines 165-175: a fixed precedence among the format flags. */
  function SelectFormat(args: seq<string>): Format {
    if "--simple" in args then Simple
    else if "--plain" in args then Plain
    else if "--custom" in args then Custom
    else if "--json" in args then Json
    else Full
  }

  /** `args.reject { |arg| arg.start_with?("--") }` */
  function CityWords(args: seq<string>): seq<string> {
    if args == [] then []
    else (if IsFlag(args[0]) then [] else [args[0]]) + CityWords(args[1..])
  }

  /** Lines 178-179. */
  function City(args: seq<string>): string {
    Join(CityWords(args))
  }

  /** Lines 144-181 up to the call of `scrape_weather`. */
  function Interpret(args: seq<string>): Invocation {
    if args == [] then Usage(UsageLines, 1)
    else Scrape(City(args), SelectFormat(args), "--debug" in args)
  }

  // ---------------------------------------------------------------------
  // Properties

  /** Each format is chosen exactly when its flag is present and no flag
      ranked above it is; `--full` and unknown flags fall through to full. */
  lemma FormatPrecedence(args: seq<string>)
    ensures SelectFormat(args) == Simple <==> "--simple" in args
    ensures SelectFormat(args) == Plain <==> "--plain" in args && "--simple" !in args
    ensures SelectFormat(args) == Custom <==>
              "--custom" in args && "--plain" !in args && "--simple" !in args
    ensures SelectFormat(args) == Json <==>
              "--json" in args && "--custom" !in args && "--plain" !in args && "--simple" !in args
    ensures SelectFormat(args) == Full <==>
              "--json" !in args && "--custom" !in args && "--plain" !in args && "--simple" !in args
  {
  }

  /** The flags' order and repetition do not matter: the earliest-ranked
      flag wins, not the last one given. */
  lemma FormatIgnoresOrder(xs: seq<string>, ys: seq<string>)
    requires forall a :: a in xs <==> a in ys
    ensures SelectFormat(xs) == SelectFormat(ys)
    ensures Interpret(xs).Scrape? && Interpret(ys).Scrape? ==> Interpret(xs).debug == Interpret(ys).debug
  {
    if xs != [] {
      assert xs[0] in ys;
    }
    if ys != [] {
      assert ys[0] in xs;
    }
  }

  lemma LastFlagDoesNotWin()
    ensures SelectFormat(["Paris", "--json", "--simple"]) == Simple
    ensures SelectFormat(["Paris", "--simple", "--json"]) == Simple
    ensures SelectFormat(["Paris", "--full", "--plain"]) == Plain
    ensures SelectFormat(["Paris", "--full"]) == Full
  {
    assert ["Paris", "--json", "--simple"][2] == "--simple";
    assert ["Paris", "--simple", "--json"][1] == "--simple";
    assert ["Paris", "--full", "--plain"][2] == "--plain";
  }

  /** Rejecting flags from two parts is rejecting them from the whole: the
      kept words stay in their original order. */
  lemma {:induction false} CityWordsAppend(a: seq<string>, b: seq<string>)
    ensures CityWords(a + b) == CityWords(a) + CityWords(b)
    decreases |a|
  {
    if a == [] {
      assert a + b == b;
    } else {
      assert (a + b)[0] == a[0] && (a + b)[1..] == a[1..] + b;
      CityWordsAppend(a[1..], b);
    }
  }

  /** A word is kept exactly when it is an argument and not a flag. */
  lemma {:induction false} CityWordsMembers(args: seq<string>, w: string)
    ensures w in CityWords(args) <==> w in args && !IsFlag(w)
    decreases |args|
  {
    if args != [] {
      CityWordsMembers(args[1..], w);
      assert args == [args[0]] + args[1..];
    }
  }

  /** Every non-flag argument is kept, and nothing else. */
  lemma CityWordsCount(args: seq<string>)
    ensures |CityWords(args)| <= |args|
    ensures (forall k :: 0 <= k < |args| ==> IsFlag(args[k])) ==> CityWords(args) == []
    ensures (forall k :: 0 <= k < |args| ==> !IsFlag(args[k])) ==> CityWords(args) == args
    decreases |args|
  {
    if args != [] {
      CityWordsCount(args[1..]);
    }
  }

  /** When no argument holds a space, splitting the city at its spaces gives
      back exactly the non-flag arguments, so no word of the city is a flag. */
  lemma CityWordsRecovered(args: seq<string>)
    requires forall k :: 0 <= k < |args| ==> SpaceFree(args[k])
    requires CityWords(args) != []
    ensures Split(City(args)) == CityWords(args)
    ensures forall k :: 0 <= k < |Split(City(args))| ==> !IsFlag(Split(City(args))[k])
  {
    var ws := CityWords(args);
    forall k | 0 <= k < |ws| ensures SpaceFree(ws[k]) && !IsFlag(ws[k]) {
      CityWordsMembers(args, ws[k]);
    }
    SplitJoin(ws);
  }

  /** Lines 144-160: no arguments, the usage text and status 1. */
  lemma UsageIffEmpty(args: seq<string>)
    ensures Interpret(args).Usage? <==> args == []
    ensures Interpret(args).Usage? ==> Interpret(args).status == 1 && |Interpret(args).lines| == 14
  {
  }

  /** A lone `--debug` still scrapes, for the empty city in full format. */
  lemma DebugOnly()
    ensures Interpret(["--debug"]) == Scrape("", Full, true)
  {
    assert CityWords(["--debug"]) == [] by {
      assert IsFlag(["--debug"][0]);
      assert ["--debug"][1..] == [];
    }
  }

  // ---------------------------------------------------------------------
  // The script

  /** Runs the script on `args`: the printed lines, the exit status and the
      URLs fetched. */
  method Execute(args: seq<string>, env: Env) returns (out: seq<string>, status: int, requested: seq<string>)
    ensures args == [] ==> out == UsageLines && status == 1 && requested == []
    ensures args != [] ==>
              status == 0 &&
              requested == [Url(City(args), SelectFormat(args))] &&
              out == Report(City(args), SelectFormat(args), "--debug" in args, env)
  {
    match Interpret(args)
    case Usage(lines, code) =>
      out := lines;
      status := code;
      requested := [];
    case Scrape(city, format, debug) =>
      out, requested := ScrapeWeather(city, format, debug, env);
      status := 0;
  }
}
