/** Ruby string built-ins that the scraper relies on, restricted to what it
    uses: `start_with?`, `Array#join(" ")`, `String#capitalize` and the
    decimal rendering of an `Integer` inside a string interpolation. */
module Strings {

  datatype Option<T> = None | Some(value: T) {
    /** The value, or `d` when there is none (Ruby's `nil` interpolates as `""`). */
    function GetOr(d: T): T {
      match this
      case Some(v) => v
      case None => d
    }
  }

  predicate IsDigit(c: char) {
    '0' <= c <= '9'
  }

  predicate IsDigits(s: string) {
    forall i :: 0 <= i < |s| ==> IsDigit(s[i])
  }

  predicate IsUpper(c: char) {
    'A' <= c <= 'Z'
  }

  predicate IsLower(c: char) {
    'a' <= c <= 'z'
  }

  /** `s.start_with?(p)` */
  predicate StartsWith(s: string, p: string) {
    |p| <= |s| && s[..|p|] == p
  }

  /** `c.to_s * n`: `n` copies of `c`. */
  function Repeat(c: char, n: nat): (r: string)
    ensures |r| == n
    ensures forall i :: 0 <= i < n ==> r[i] == c
  {
    if n == 0 then "" else Repeat(c, n - 1) + [c]
  }

  // ---------------------------------------------------------------------
  // Array#join(" ") and its inverse on space-free words

  /** `ws.join(" ")`: the words, in order, separated by exactly one space. */
  function Join(ws: seq<string>): string
  {
    if |ws| == 0 then ""
    else if |ws| == 1 then ws[0]
    else ws[0] + " " + Join(ws[1..])
  }

  /** Splits at every space: one piece more than there are spaces. */
  function Split(s: string): (r: seq<string>)
    ensures |r| >= 1
    decreases |s|
  {
    if s == [] then [""]
    else if s[0] == ' ' then [""] + Split(s[1..])
    else
      var rest := Split(s[1..]);
      [[s[0]] + rest[0]] + rest[1..]
  }

  predicate SpaceFree(w: string) {
    forall i :: 0 <= i < |w| ==> w[i] != ' '
  }

  lemma {:induction false} SplitWord(w: string, t: string)
    requires SpaceFree(w)
    ensures Split(w + t) == [w + Split(t)[0]] + Split(t)[1..]
    decreases |w|
  {
    var r := Split(t);
    if w != [] {
      assert (w + t)[0] == w[0] && (w + t)[1..] == w[1..] + t;
      SplitWord(w[1..], t);
      assert [w[0]] + (w[1..] + r[0]) == w + r[0];
    } else {
      assert w + t == t && w + r[0] == r[0];
      assert [r[0]] + r[1..] == r;
    }
  }

  /** Joining space-free words and splitting at spaces gives the words back. */
  lemma {:induction false} SplitJoin(ws: seq<string>)
    requires ws != []
    requires forall k :: 0 <= k < |ws| ==> SpaceFree(ws[k])
    ensures Split(Join(ws)) == ws
    decreases |ws|
  {
    if |ws| == 1 {
      SplitWord(ws[0], "");
      assert ws[0] + "" == ws[0];
    } else {
      SplitJoin(ws[1..]);
      assert ws[0] + " " + Join(ws[1..]) == ws[0] + (" " + Join(ws[1..]));
      SplitWord(ws[0], " " + Join(ws[1..]));
      assert Split(" " + Join(ws[1..])) == [""] + Split(Join(ws[1..]));
      assert ws[0] + "" == ws[0];
      assert [ws[0]] + ws[1..] == ws;
    }
  }

  // ---------------------------------------------------------------------
  // String#capitalize on ASCII letters

  function ToUpper(c: char): (u: char)
    ensures IsLower(c) ==> u as int == c as int - 32
    ensures !IsLower(c) ==> u == c
  {
    if IsLower(c) then (c as int - 32) as char else c
  }

  function ToLower(c: char): (l: char)
    ensures IsUpper(c) ==> l as int == c as int + 32
    ensures !IsUpper(c) ==> l == c
  {
    if IsUpper(c) then (c as int + 32) as char else c
  }

  /** `s.downcase` on ASCII letters; every other character is kept. */
  function Downcase(s: string): (r: string)
    ensures |r| == |s|
    ensures forall i :: 0 <= i < |s| ==> r[i] == ToLower(s[i])
  {
    seq(|s|, i requires 0 <= i < |s| => ToLower(s[i]))
  }

  /** `s.capitalize`: the first character upper-cased, all others lower-cased. */
  function Capitalize(s: string): (r: string)
  {
    if s == [] then "" else [ToUpper(s[0])] + Downcase(s[1..])
  }

  /** Capitalizing keeps the length and the letters, changes only their case,
      and leaves no lower-case first letter and no upper-case later letter. */
  lemma CapitalizeShape(s: string)
    ensures |Capitalize(s)| == |s|
    ensures Downcase(Capitalize(s)) == Downcase(s)
    ensures s != [] ==> !IsLower(Capitalize(s)[0])
    ensures forall i :: 1 <= i < |s| ==> !IsUpper(Capitalize(s)[i])
  {
    var r := Capitalize(s);
    if s != [] {
      assert forall i :: 1 <= i < |s| ==> r[i] == ToLower(s[i]);
    }
    assert forall i :: 0 <= i < |s| ==> ToLower(r[i]) == ToLower(s[i]);
  }

  /** Capitalizing twice is capitalizing once. */
  lemma CapitalizeIdempotent(s: string)
    ensures Capitalize(Capitalize(s)) == Capitalize(s)
  {
    var r := Capitalize(s);
    CapitalizeShape(s);
    if s != [] {
      assert forall i :: 1 <= i < |r| ==> ToLower(r[i]) == r[i];
      assert Downcase(r[1..]) == r[1..];
    }
  }

  // ---------------------------------------------------------------------
  // Integer#to_s, as used by string interpolation

  function DigitChar(d: nat): (c: char)
    requires d < 10
    ensures IsDigit(c)
  {
    ('0' as int + d) as char
  }

  function DigitValue(c: char): nat
    requires IsDigit(c)
  {
    c as int - '0' as int
  }

  /** The number a decimal digit string stands for. */
  function DecimalValue(s: string): nat
    requires IsDigits(s)
  {
    if s == [] then 0 else 10 * DecimalValue(s[..|s| - 1]) + DigitValue(s[|s| - 1])
  }

  /** `n.to_s`: a non-empty digit string, without leading zero, whose value is `n`. */
  function NatToString(n: nat): (r: string)
    ensures r != [] && IsDigits(r)
    ensures |r| > 1 ==> r[0] != '0'
    ensures DecimalValue(r) == n
  {
    if n < 10 then [DigitChar(n)]
    else
      var p := NatToString(n / 10);
      var r := p + [DigitChar(n % 10)];
      assert r[..|r| - 1] == p;
      r
  }
}
