# weather_scraper.rb in Dafny

`weather_scraper.rb` is a command-line script. It looks up a city on wttr.in and prints the weather in one of five formats.

This project models the script's deterministic core and proves properties of it. The model has five modules:

- `Strings`: the Ruby string operations the script relies on.
  - `start_with?`.
  - `Array#join(" ")` and its inverse on words without spaces.
  - `String#capitalize`, on ASCII letters only.
  - `"=" * 60`.
  - `Integer#to_s` inside an interpolation.
- `FormEncoding`: `URI.encode_www_form_component`. This is the byte serializer of the application/x-www-form-urlencoded format in section 5.2 of the WHATWG URL Standard.
  - The city is UTF-8 encoded.
  - `*`, `-`, `.`, `_`, digits and ASCII letters pass through.
  - A space becomes `+`.
  - Every other byte becomes `%XX` with upper-case hex digits.
  - A strict decoder is proved to be its exact inverse, both on bytes and on strings: it rejects overlong UTF-8, so it accepts exactly the encoder's outputs.
- `Temperatures`: the temperature readings of the full report, `scan(/(\d+)°C/).flatten.uniq.first(3)`.
  - The scan is modelled position by position, as Ruby's leftmost, non-overlapping matcher runs.
  - The scan is proved equal to a reference definition: one entry per maximal digit run that is followed by `°C`.
- `Scraper`: `scrape_weather`.
  - The printed output is the sequence of `puts` arguments. Each call gives one entry per argument, an array gives one entry per element, and a bare `puts` or an empty array gives one empty line.
  - The method `ScrapeWeather` appends lines step by step.
  - The function `Report` states what the method prints. It lists each `begin` block as steps, where a step prints lines or raises. A raise prints what its `rescue` clause prints and skips every later step.
- `Cli`: the top-level argument handling and the whole run (`Execute`).

The network, Nokogiri and `JSON.parse` are inputs, gathered in the record `Scraper.Env`:

- `fetch` gives, for each URL, a body or the exception `URI.open` raises. That is `OpenURI::HTTPError` with its message, or any other error with its class name, message and backtrace.
- `parseHtml` gives, for each body, the `<title>` text (if any) and the texts of the `<pre>` elements in document order.
- `parseJson` gives, for each body, a `JSON::ParserError` message or a document. Every field of the document is optional; a missing key is Ruby's `nil`.
- `nilMessage` is the message of the `NoMethodError` raised when the JSON branch indexes `nil`.

`ScrapeWeather` and `Execute` also return the list of URLs fetched.

The code fixes a precedence among the format flags: `--simple`, then `--plain`, then `--custom`, then `--json`. This model follows the code. The last flag given does not win (`Cli.LastFlagDoesNotWin`), and the order and repetition of the flags do not matter (`Cli.FormatIgnoresOrder`).

## Model

| member | source | states |
|---|---|---|
| Strings.SplitJoin | weather_scraper.rb:178-179 | joining a non-empty list of words without spaces by `" "`, then splitting at spaces, gives the words back |
| Strings.CapitalizeShape | weather_scraper.rb:23 | `capitalize` keeps the length and the letters up to case; the first letter is not lower-case and no later letter is upper-case |
| Strings.CapitalizeIdempotent | weather_scraper.rb:113 | capitalizing twice is capitalizing once |
| Strings.Repeat | weather_scraper.rb:24 | `c * n` has length `n` and every character is `c` |
| Strings.NatToString | weather_scraper.rb:104 | the interpolated count is a non-empty digit string without leading zero whose decimal value is the number |
| FormEncoding.Utf8RoundTrip | weather_scraper.rb:17 | decoding the UTF-8 bytes of a string gives the string back |
| FormEncoding.Utf8DecodeSound | weather_scraper.rb:17 | whatever the UTF-8 decoder accepts (it rejects overlong forms and surrogates) is the encoding of the string it returns |
| FormEncoding.EncodedBytesIff | weather_scraper.rb:17 | the strict decoder accepts `e` and gives `bs` exactly when `e` is the encoding of `bs` (both directions) |
| FormEncoding.EncodeComponentRoundTrip | weather_scraper.rb:17 | the encoded city holds only `*-._`, digits, letters, `+` and `%`, never a space, and decodes back to the city |
| FormEncoding.EncodedComponentIff | weather_scraper.rb:17 | the strict decoder accepts `e` and gives the string `s` exactly when `e` is the encoding of `s` (both directions) |
| FormEncoding.OverlongRejected | weather_scraper.rb:17 | the overlong two-byte form `%C0%80` of U+0000, which the encoder never writes (it writes `%00`), is rejected |
| FormEncoding.EncodeAsciiChar | weather_scraper.rb:17 | an ASCII space encodes as `+`, an unreserved byte as itself, any other ASCII byte as `%` and two upper-case hex digits of its value |
| Scraper.UrlRoundTrip | weather_scraper.rb:17 | the URL (built the same way at lines 33, 50, 66 and 94) is `https://wttr.in/`, the encoded city, then the format's suffix; reading it back gives the city and the format |
| Scraper.UrlInjective | weather_scraper.rb:94 | at every URL-building line, two different (city, format) pairs never give the same URL |
| Scraper.RuleShape | weather_scraper.rb:24 | the rule line is sixty `=` |
| Scraper.RescuedNoRaise | weather_scraper.rb:19-30 | a `begin` block that does not raise prints every line of every step |
| Scraper.RescuedStops | weather_scraper.rb:69-91 | an exception prints the lines of the steps before it, then its handler's lines, and nothing of the steps after it |
| Scraper.PrintReadings | weather_scraper.rb:122-124 | the loop prints one line per reading, numbered from 1, in order |
| Scraper.PrintWeather | weather_scraper.rb:112-125 | prints the framed `<pre>` text, then the Extracted Details block |
| Scraper.PrintDebug | weather_scraper.rb:101-106 | prints the title and `<pre>` count block, only in debug mode |
| Scraper.PrintNotFound | weather_scraper.rb:126-128 | prints the two not-found lines with the city as given |
| Scraper.PrintPage | weather_scraper.rb:99-129 | prints the debug block, then the framed text or the not-found lines |
| Scraper.PrintFramed | weather_scraper.rb:20-29 | the simple, plain and custom `begin` block: the frame lines, or the error line when the fetch raises |
| Scraper.PrintFullBody | weather_scraper.rb:98-129 | the full `begin` block for a fetched body, as its two steps print |
| Scraper.PrintFullError | weather_scraper.rb:131-137 | the full format's `rescue` clauses print their lines and end the block |
| Scraper.PrintFull | weather_scraper.rb:97-138 | the full `begin` block prints the lines of its steps up to the first raise, then that raise's handler |
| Scraper.PrintCurrent | weather_scraper.rb:80-86 | prints the current-condition lines one by one and stops at the first lookup that meets `nil`, printing the error |
| Scraper.PrintReport | weather_scraper.rb:77-86 | prints the separator, the area line and the rule, then the current-condition lines, stopping at the first failed lookup |
| Scraper.PrintParsed | weather_scraper.rb:72-90 | a syntax error prints only its line; a missing top-level key prints only the error; otherwise the report |
| Scraper.PrintJson | weather_scraper.rb:69-91 | the JSON `begin` block prints the lines of its steps up to the first raise, then that raise's handler |
| Scraper.ScrapeWeather | weather_scraper.rb:4-140 | the method fetches exactly one URL, the one for the city and format, and prints `Report` |
| Scraper.FramedReport | weather_scraper.rb:17-62 | simple, plain and custom: a body is printed verbatim between a blank line and rules under `Weather for: ` plus the capitalized city (or `Weather Details`); any fetch error prints only `❌ Error: <message>` |
| Scraper.DebugOnlyPrefixes | weather_scraper.rb:17-18 | outside the full format (lines 18, 34, 51 and 67), debug mode only adds `Fetching: <url>` in front |
| Scraper.FetchingLineIffDebug | weather_scraper.rb:94-95 | in every format (lines 18, 34, 51, 67 and 95) the output is non-empty and opens with `Fetching: <url>` exactly when debug mode is on |
| Scraper.ExtractedShape | weather_scraper.rb:119-125 | the Extracted Details block appears exactly when the text holds a `\d+°C` match; it is its header and then one to three readings numbered from 1 |
| Scraper.FullBody | weather_scraper.rb:99-129 | full format with a body: the debug block only in debug mode, then the framed `<pre>` text and its readings, or, for missing or empty text, the two not-found lines quoting the city as given |
| Scraper.FullErrors | weather_scraper.rb:131-137 | full format: an HTTP error prints its two lines; any other error prints the error line, then the class and the first three backtrace lines only in debug mode |
| Scraper.JsonFailures | weather_scraper.rb:69-91 | JSON: a fetch error, a syntax error or a missing top-level key prints only its one error line, with no partial report |
| Scraper.JsonPartial | weather_scraper.rb:74-86 | JSON with both top-level keys: the separator comes before any field lookup; a failed area lookup leaves the separator and the error, a missing current condition leaves the separator, the area line, the rule and the error, and a missing `weatherDesc` leaves those lines, then the temperature line and the error |
| Scraper.JsonComplete | weather_scraper.rb:77-86 | JSON with every lookup succeeding: exactly the ten report lines, in order |
| Scraper.LondonReport | weather_scraper.rb:77-86 | the London sample document prints `London, UK`, `15°C (59°F)`, `Clear`, `10 km/h N`, `50%`, `10 km` and `14°C` in their labelled lines |
| Temperatures.ScanIsHits | weather_scraper.rb:121 | `scan` gives exactly the maximal digit runs followed by `°C`, in the order they occur |
| Temperatures.HasMatchIffScan | weather_scraper.rb:119 | `=~` succeeds exactly when `scan` finds something |
| Temperatures.UniqSpec | weather_scraper.rb:121 | `uniq` keeps exactly the elements, each once, ordered by first occurrence |
| Temperatures.First | weather_scraper.rb:121 | `first(n)` gives the prefix of the list of length `n`, or the whole list when it has no more than `n` elements |
| Temperatures.ExtractTempsDistinct | weather_scraper.rb:119-124 | the readings are exactly the first three distinct scanned values (all of them when there are fewer than three), with no repeats (compared as strings), in first-occurrence order |
| Temperatures.ExtractTempsSound | weather_scraper.rb:119-124 | each reading is a non-empty digit string standing right before `°C`, after a non-digit (a leading `-` is not part of it) |
| Temperatures.ExtractTempsComplete | weather_scraper.rb:119-124 | when fewer than three readings are listed, every maximal digit run before `°C` is among them |
| Temperatures.ExtractTempsEmptyIff | weather_scraper.rb:119-121 | the readings are empty exactly when the text has no match |
| Temperatures.ExtractTempsExample | weather_scraper.rb:119-124 | `20°C, 18°C, 20°C` gives the readings `20` and `18` |
| Cli.FormatPrecedence | weather_scraper.rb:165-175 | each format is chosen exactly when its flag is present and no flag ranked above it is; with none of the four, the format is full |
| Cli.FormatIgnoresOrder | weather_scraper.rb:162-175 | the same arguments in any order or repetition give the same format and debug flag |
| Cli.LastFlagDoesNotWin | weather_scraper.rb:165-175 | `--simple` wins over a later `--json`, and `--full` falls through |
| Cli.CityWordsAppend | weather_scraper.rb:178 | rejecting flags from two parts is rejecting them from the whole, keeping order |
| Cli.CityWordsMembers | weather_scraper.rb:178 | a word is in the city exactly when it is an argument and not a `--` flag |
| Cli.CityWordsCount | weather_scraper.rb:178 | no more words than arguments; only flags give no words; no flags keeps every argument |
| Cli.CityWordsRecovered | weather_scraper.rb:178-179 | for arguments without spaces, splitting the city at its spaces gives the non-flag arguments, none of them a flag |
| Cli.UsageIffEmpty | weather_scraper.rb:144-160 | the usage outcome happens exactly for an empty list, with status 1 and fourteen lines |
| Cli.DebugOnly | weather_scraper.rb:162-181 | a lone `--debug` scrapes the empty city in full format with debug on |
| Cli.Execute | weather_scraper.rb:143-181 | no arguments: the usage lines, status 1, no fetch; otherwise status 0, one fetch of the city's URL and the report |
| Strings.Join | weather_scraper.rb:179 | `join(" ")`: the words with one space between each pair; `Strings.SplitJoin` is its inverse |
| Strings.Capitalize | weather_scraper.rb:23 | `capitalize`: the first character upper-cased and the rest lower-cased; its shape is `Strings.CapitalizeShape` |
| FormEncoding.EncodeComponent | weather_scraper.rb:17 | `URI.encode_www_form_component`: the serializer applied to the city's UTF-8 bytes; `FormEncoding.EncodeComponentRoundTrip` gives its alphabet and its inverse |
| Scraper.Suffix | weather_scraper.rb:17 | the query each format appends: `?format=3`, `?format=4`, `?format=j1`, the custom format string, or nothing for the full report; `Scraper.SuffixRoundTrip` reads it back |
| Scraper.Url | weather_scraper.rb:17 | `https://wttr.in/`, the encoded city, then the format's suffix; `Scraper.UrlRoundTrip` parses it back |
| Scraper.Rescued | weather_scraper.rb:20-29 | a `begin`/`rescue` block: the lines of its steps up to the first raising one, then that step's handler; `Scraper.RescuedNoRaise` and `Scraper.RescuedStops` state both cases |
| Scraper.Steps | weather_scraper.rb:4-140 | the steps of the chosen format's `begin` block for the fetched response |
| Scraper.Report | weather_scraper.rb:4-140 | the whole output: the `Fetching:` line in debug mode, then the rescued steps of the format's block; `Scraper.ScrapeWeather` prints exactly it |
| Scraper.Readings | weather_scraper.rb:122-124 | one line `  Temperature reading <i>: <t>°C` per reading, in order, numbered from 1; `Scraper.PrintReadings` is the loop that prints it |
| Scraper.Extracted | weather_scraper.rb:119-124 | the Extracted Details header and readings when the text matches, else nothing; `Scraper.ExtractedShape` gives its shape |
| Temperatures.Scan | weather_scraper.rb:121 | `scan(/(\d+)°C/).flatten`, leftmost and non-overlapping; `Temperatures.ScanIsHits` equates it with the maximal digit runs before `°C` |
| Temperatures.Uniq | weather_scraper.rb:121 | `uniq`; `Temperatures.UniqSpec` states what it keeps and in which order |
| Temperatures.ExtractTemps | weather_scraper.rb:119-124 | `scan(...).flatten.uniq.first(3)`; its properties are the `Temperatures.ExtractTemps…` lemmas |
| Cli.SelectFormat | weather_scraper.rb:165-175 | the `include?` chain choosing the format; `Cli.FormatPrecedence` states it as five iffs |
| Cli.CityWords | weather_scraper.rb:178 | `reject { start_with?("--") }`; `Cli.CityWordsMembers` and `Cli.CityWordsAppend` state what it keeps and in which order |
| Cli.City | weather_scraper.rb:178-179 | the kept words joined by single spaces; `Cli.CityWordsRecovered` splits it back |
| Cli.Interpret | weather_scraper.rb:144-181 | the usage outcome for no arguments, otherwise the city, format and debug flag; `Cli.UsageIffEmpty` and `Cli.Execute` state it |

## Left out

- The HTTP exchange of `URI.open`, including the `User-Agent` header, is an input (`Env.fetch`). So is the text of each exception's message.
- Nokogiri's HTML parsing is an input (`Env.parseHtml`): the title text and the `<pre>` texts.
- `JSON.parse` is an input (`Env.parseJson`). The model has no JSON value other than objects, arrays of objects and strings in the places the script reads. A field of some other JSON type, such as an array where an object is expected, is not modelled.
- The wording of Ruby's `NoMethodError` message for indexing `nil` depends on the Ruby version, so it is an input (`Env.nilMessage`).
- Backtrace contents are an opaque sequence of strings.
- `Strings.Capitalize`: models `String#capitalize` on ASCII letters only. Other letters pass unchanged; Ruby's full Unicode case mapping is not modelled.
- Output is the list of `puts` arguments, not the bytes on the console. `puts` adds a newline only when one is missing, and that is not modelled.
- Process exit is modelled by the status value only.
- The `require` lines are not modelled, because loading a library is outside the script's own logic.
- The city is taken to be valid Unicode text in a UTF-8 locale. `URI.encode_www_form_component` without an encoding argument encodes the string's own bytes in whatever encoding it carries, and a Dafny `string` cannot hold invalid byte sequences, so other locales and malformed input are not modelled.
