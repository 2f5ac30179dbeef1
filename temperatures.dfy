/** The temperature readings of the full report: `weather_data.scan(/(\d+)°C/)`
    flattened, `uniq` and `first(3)` (weather_scraper.rb, lines 119-124).

    At a start position the pattern matches exactly when a digit starts a
    digit run whose end is followed by `°C` (greedy `\d+` must give back
    digits, and no digit can be `°`), and the captured group is that whole
    run. `scan` tries positions left to right and resumes after each match,
    so its hits are precisely the maximal digit runs followed by `°C`. */
module Temperatures {
  import opened Strings

  const Degree: char := '°'

  /** The first position at or after `i` that does not hold a digit. */
  function RunEnd(s: string, i: nat): (e: nat)
    requires i <= |s|
    ensures i <= e <= |s|
    decreases |s| - i
  {
    if i < |s| && IsDigit(s[i]) then RunEnd(s, i + 1) else i
  }

  /** The run from `i` to `RunEnd(s, i)` is all digits, and it cannot be
      extended. */
  lemma {:induction false} RunEndSpec(s: string, i: nat)
    requires i <= |s|
    ensures forall k :: i <= k < RunEnd(s, i) ==> IsDigit(s[k])
    ensures RunEnd(s, i) == |s| || !IsDigit(s[RunEnd(s, i)])
    decreases |s| - i
  {
    if i < |s| && IsDigit(s[i]) {
      RunEndSpec(s, i + 1);
    }
  }

  predicate CelsiusAt(s: string, e: nat) {
    e + 2 <= |s| && s[e] == Degree && s[e + 1] == 'C'
  }

  /** `/(\d+)°C/` matches when started at position `i`. */
  predicate MatchAt(s: string, i: nat)
    requires i <= |s|
  {
    i < |s| && IsDigit(s[i]) && CelsiusAt(s, RunEnd(s, i))
  }

  /** `weather_data =~ /(\d+)°C/`: there is a match somewhere. */
  ghost predicate HasMatch(s: string) {
    exists i :: 0 <= i < |s| && MatchAt(s, i)
  }

  /** `s.scan(/(\d+)°C/).flatten` from position `p` on. */
  function ScanFrom(s: string, p: nat): seq<string>
    requires p <= |s|
    decreases |s| - p
  {
    if p == |s| then []
    else if MatchAt(s, p) then
      var e := RunEnd(s, p);
      [s[p..e]] + ScanFrom(s, e + 2)
    else ScanFrom(s, p + 1)
  }

  function Scan(s: string): seq<string> {
    ScanFrom(s, 0)
  }

  // ---------------------------------------------------------------------
  // The reference definition: one entry per maximal digit run before `°C`

  /** A maximal digit run starts at `i` and is followed by `°C`. */
  predicate HitAt(s: string, i: nat)
    requires i <= |s|
  {
    MatchAt(s, i) && (i == 0 || !IsDigit(s[i - 1]))
  }

  function HitsFrom(s: string, p: nat): seq<string>
    requires p <= |s|
    decreases |s| - p
  {
    if p == |s| then []
    else (if HitAt(s, p) then [s[p..RunEnd(s, p)]] else []) + HitsFrom(s, p + 1)
  }

  /** A position where `scan` may resume without having skipped a hit. */
  predicate Resumable(s: string, p: nat)
    requires p <= |s|
  {
    p == 0 || !IsDigit(s[p - 1]) || !MatchAt(s, p - 1)
  }

  lemma {:induction false} NoHitsBetween(s: string, a: nat, b: nat)
    requires a <= b <= |s|
    requires forall k :: a <= k < b ==> !HitAt(s, k)
    ensures HitsFrom(s, a) == HitsFrom(s, b)
    decreases b - a
  {
    if a < b {
      NoHitsBetween(s, a + 1, b);
    }
  }

  /** A match at a resumable position is a hit, and no hit starts inside
      it or in its `°C`. */
  lemma MatchSkipsNoHit(s: string, p: nat)
    requires p < |s| && Resumable(s, p) && MatchAt(s, p)
    ensures HitAt(s, p) && RunEnd(s, p) + 2 <= |s|
    ensures forall k :: p + 1 <= k < RunEnd(s, p) + 2 ==> !HitAt(s, k)
  {
    var e := RunEnd(s, p);
    RunEndSpec(s, p);
    forall k | p + 1 <= k < e + 2 ensures !HitAt(s, k) {
      if k < e {
        assert IsDigit(s[k - 1]);
      } else {
        assert !IsDigit(s[k]);
      }
    }
  }

  lemma {:induction false} ScanFromIsHits(s: string, p: nat)
    requires p <= |s| && Resumable(s, p)
    ensures ScanFrom(s, p) == HitsFrom(s, p)
    decreases |s| - p
  {
    if p < |s| {
      if MatchAt(s, p) {
        var e := RunEnd(s, p);
        MatchSkipsNoHit(s, p);
        NoHitsBetween(s, p + 1, e + 2);
        ScanFromIsHits(s, e + 2);
      } else {
        if IsDigit(s[p]) && p + 1 < |s| && IsDigit(s[p + 1]) {
          assert RunEnd(s, p) == RunEnd(s, p + 1);
        }
        ScanFromIsHits(s, p + 1);
      }
    }
  }

  /** `scan` returns exactly the maximal digit runs followed by `°C`, in
      the order they occur. */
  lemma ScanIsHits(s: string)
    ensures Scan(s) == HitsFrom(s, 0)
  {
    ScanFromIsHits(s, 0);
  }

  /** The reading `t` stands in `s` at `i`, right before `°C` and right
      after a non-digit (so a leading `-` is not part of it). */
  predicate ReadingAt(s: string, i: nat, t: string) {
    i + |t| + 2 <= |s| && s[i..i + |t|] == t && CelsiusAt(s, i + |t|)
    && (i == 0 || !IsDigit(s[i - 1]))
  }

  /** Every hit is a non-empty digit string standing in `s` before `°C`. */
  lemma {:induction false} HitsSound(s: string, p: nat, t: string)
    requires p <= |s| && t in HitsFrom(s, p)
    ensures t != [] && IsDigits(t)
    ensures exists i: nat :: p <= i && ReadingAt(s, i, t)
    decreases |s| - p
  {
    if HitAt(s, p) && t == s[p..RunEnd(s, p)] {
      RunEndSpec(s, p);
      assert p + |t| == RunEnd(s, p);
      assert ReadingAt(s, p, t);
    } else {
      HitsSound(s, p + 1, t);
    }
  }

  /** A reading standing before `°C` is a hit at that position. */
  lemma ReadingIsHit(s: string, i: nat, t: string)
    requires t != [] && IsDigits(t) && ReadingAt(s, i, t)
    ensures HitAt(s, i) && RunEnd(s, i) == i + |t|
  {
    assert forall k :: i <= k < i + |t| ==> s[k] == t[k - i];
    assert !IsDigit(s[i + |t|]);
    RunEndIs(s, i, i + |t|);
  }

  /** Every maximal digit run followed by `°C` at or after `p` is a hit. */
  lemma {:induction false} HitsComplete(s: string, p: nat, i: nat)
    requires p <= i < |s| && HitAt(s, i)
    ensures s[i..RunEnd(s, i)] in HitsFrom(s, p)
    decreases i - p
  {
    if p < i {
      HitsComplete(s, p + 1, i);
    }
  }

  /** A match that starts inside a digit run also starts at the run's start. */
  lemma {:induction false} MatchHasHit(s: string, i: nat)
    requires i < |s| && MatchAt(s, i)
    ensures exists j: nat :: j <= i && HitAt(s, j)
  {
    if i > 0 && IsDigit(s[i - 1]) {
      assert RunEnd(s, i - 1) == RunEnd(s, i);
      MatchHasHit(s, i - 1);
    } else {
      assert HitAt(s, i);
    }
  }

  /** `weather_data =~ /(\d+)°C/` holds exactly when `scan` finds something. */
  lemma HasMatchIffScan(s: string)
    ensures HasMatch(s) <==> Scan(s) != []
  {
    ScanIsHits(s);
    if HasMatch(s) {
      var i :| 0 <= i < |s| && MatchAt(s, i);
      MatchHasHit(s, i);
      var j: nat :| j <= i && HitAt(s, j);
      HitsComplete(s, 0, j);
    }
    if Scan(s) != [] {
      var t := Scan(s)[0];
      HitsSound(s, 0, t);
      var i: nat :| ReadingAt(s, i, t);
      ReadingIsHit(s, i, t);
    }
  }

  // ---------------------------------------------------------------------
  // Array#uniq and Array#first(3)

  predicate NoDuplicates(xs: seq<string>) {
    forall i, j :: 0 <= i < j < |xs| ==> xs[i] != xs[j]
  }

  /** The index of the first occurrence of `x` in `xs`. */
  function FirstIndex(xs: seq<string>, x: string): (k: nat)
    requires x in xs
    ensures k < |xs| && xs[k] == x && x !in xs[..k]
  {
    if xs[0] == x then 0 else 1 + FirstIndex(xs[1..], x)
  }

  /** `xs.uniq`: each element once, where it first occurs. */
  function Uniq(xs: seq<string>): seq<string>
  {
    if xs == [] then []
    else
      var r := Uniq(xs[..|xs| - 1]);
      if xs[|xs| - 1] in r then r else r + [xs[|xs| - 1]]
  }

  lemma FirstIndexPrefix(xs: seq<string>, x: string)
    requires xs != [] && x in xs[..|xs| - 1]
    ensures FirstIndex(xs, x) == FirstIndex(xs[..|xs| - 1], x)
  {
    var k := FirstIndex(xs[..|xs| - 1], x);
    var m := FirstIndex(xs, x);
    assert xs[..|xs| - 1][..k] == xs[..k];
    assert xs[..|xs| - 1][k] == xs[k];
  }

  /** `uniq` keeps exactly the elements of `xs`, each once, ordered by where
      they first occur in `xs`. */
  lemma {:induction false} UniqSpec(xs: seq<string>)
    ensures NoDuplicates(Uniq(xs))
    ensures forall x :: x in Uniq(xs) <==> x in xs
    ensures forall i, j :: 0 <= i < j < |Uniq(xs)| ==>
              FirstIndex(xs, Uniq(xs)[i]) < FirstIndex(xs, Uniq(xs)[j])
  {
    if xs != [] {
      var init := xs[..|xs| - 1];
      var last := xs[|xs| - 1];
      UniqSpec(init);
      var r := Uniq(init);
      assert xs == init + [last];
      forall x | x in r ensures FirstIndex(xs, x) == FirstIndex(init, x) {
        assert x in init;
        FirstIndexPrefix(xs, x);
      }
      if last !in r {
        assert FirstIndex(xs, last) == |xs| - 1 by {
          assert last !in init && xs[..|xs| - 1] == init;
        }
        var u := r + [last];
        forall i, j | 0 <= i < j < |u|
          ensures FirstIndex(xs, u[i]) < FirstIndex(xs, u[j])
        {
          if j == |u| - 1 {
            assert u[i] in r;
            assert FirstIndex(init, u[i]) < |init|;
          } else {
            assert u[i] == r[i] && u[j] == r[j];
          }
        }
      }
    }
  }

  /** `ary.first(n)`: the first `n` elements, or all of them when there
      are no more than `n`. */
  function First<T>(xs: seq<T>, n: nat): (r: seq<T>)
    ensures |r| == if |xs| <= n then |xs| else n
    ensures r == xs[..|r|]
  {
    if |xs| <= n then xs else xs[..n]
  }

  /** `weather_data.scan(/(\d+)°C/).flatten.uniq.first(3)` */
  function ExtractTemps(s: string): seq<string> {
    First(Uniq(Scan(s)), 3)
  }

  /** The first three distinct readings (all of them when there are fewer),
      none repeated (compared as strings), in the order of their first
      occurrence in the scan. */
  lemma ExtractTempsDistinct(s: string)
    ensures |ExtractTemps(s)| == if |Uniq(Scan(s))| <= 3 then |Uniq(Scan(s))| else 3
    ensures ExtractTemps(s) == Uniq(Scan(s))[..|ExtractTemps(s)|]
    ensures NoDuplicates(ExtractTemps(s))
    ensures forall i, j :: 0 <= i < j < |ExtractTemps(s)| ==>
              ExtractTemps(s)[i] in Scan(s) && ExtractTemps(s)[j] in Scan(s) &&
              FirstIndex(Scan(s), ExtractTemps(s)[i]) < FirstIndex(Scan(s), ExtractTemps(s)[j])
  {
    UniqSpec(Scan(s));
    var u := Uniq(Scan(s));
    assert forall i :: 0 <= i < |ExtractTemps(s)| ==> ExtractTemps(s)[i] == u[i];
  }

  /** Each reading is a non-empty digit string that stands in the text right
      before `°C` (and is not the tail of a longer digit run). */
  lemma ExtractTempsSound(s: string, t: string)
    requires t in ExtractTemps(s)
    ensures t != [] && IsDigits(t)
    ensures exists i: nat :: ReadingAt(s, i, t)
  {
    UniqSpec(Scan(s));
    ScanIsHits(s);
    HitsSound(s, 0, t);
  }

  /** When fewer than three distinct readings exist, every one is listed. */
  lemma ExtractTempsComplete(s: string, i: nat)
    requires i < |s| && HitAt(s, i) && |ExtractTemps(s)| < 3
    ensures s[i..RunEnd(s, i)] in ExtractTemps(s)
  {
    UniqSpec(Scan(s));
    ScanIsHits(s);
    HitsComplete(s, 0, i);
  }

  /** The reading list is empty exactly when `weather_data =~ /(\d+)°C/` fails. */
  lemma ExtractTempsEmptyIff(s: string)
    ensures ExtractTemps(s) == [] <==> !HasMatch(s)
  {
    UniqSpec(Scan(s));
    HasMatchIffScan(s);
    if Scan(s) != [] {
      assert Scan(s)[0] in Uniq(Scan(s));
    }
  }

  predicate NoDigits(s: string) {
    forall i :: 0 <= i < |s| ==> !IsDigit(s[i])
  }

  lemma {:induction false} ScanSkip(s: string, a: nat, b: nat)
    requires a <= b <= |s| && NoDigits(s[a..b])
    ensures ScanFrom(s, a) == ScanFrom(s, b)
    decreases b - a
  {
    if a < b {
      assert s[a] == s[a..b][0];
      assert s[a + 1..b] == s[a..b][1..];
      ScanSkip(s, a + 1, b);
    }
  }

  lemma {:induction false} RunEndShift(u: string, v: string, p: nat)
    requires p <= |v|
    ensures RunEnd(u + v, |u| + p) == |u| + RunEnd(v, p)
    decreases |v| - p
  {
    if p < |v| && IsDigit(v[p]) {
      RunEndShift(u, v, p + 1);
    }
  }

  lemma MatchShift(u: string, v: string, p: nat)
    requires p < |v|
    ensures MatchAt(u + v, |u| + p) == MatchAt(v, p)
  {
    RunEndShift(u, v, p);
    var e := RunEnd(v, p);
    assert (u + v)[|u| + p] == v[p];
    if e + 2 <= |v| {
      assert (u + v)[|u| + e] == v[e] && (u + v)[|u| + e + 1] == v[e + 1];
    }
  }

  /** What `scan` finds after a prefix does not depend on the prefix. */
  lemma {:induction false} ScanShift(u: string, v: string, p: nat)
    requires p <= |v|
    ensures ScanFrom(u + v, |u| + p) == ScanFrom(v, p)
    decreases |v| - p
  {
    if p < |v| {
      MatchShift(u, v, p);
      if MatchAt(v, p) {
        var e := RunEnd(v, p);
        MatchedShift(u, v, p);
        ScanShift(u, v, e + 2);
      } else {
        ScanShift(u, v, p + 1);
      }
    }
  }

  lemma MatchedShift(u: string, v: string, p: nat)
    requires p < |v| && MatchAt(v, p) && MatchAt(u + v, |u| + p)
    ensures RunEnd(v, p) + 2 <= |v|
    ensures ScanFrom(u + v, |u| + p) == [v[p..RunEnd(v, p)]] + ScanFrom(u + v, |u| + (RunEnd(v, p) + 2))
  {
    RunEndShift(u, v, p);
    var e := RunEnd(v, p);
    assert (u + v)[|u| + p..|u| + e] == v[p..e];
  }

  lemma ScanNoDigitsPrefix(u: string, v: string)
    requires NoDigits(u)
    ensures Scan(u + v) == Scan(v)
  {
    assert (u + v)[0..|u|] == u;
    ScanSkip(u + v, 0, |u|);
    ScanShift(u, v, 0);
  }

  lemma {:induction false} RunEndIs(s: string, i: nat, e: nat)
    requires i <= e <= |s|
    requires forall k :: i <= k < e ==> IsDigit(s[k])
    requires e == |s| || !IsDigit(s[e])
    ensures RunEnd(s, i) == e
    decreases e - i
  {
    if i < e {
      RunEndIs(s, i + 1, e);
    }
  }

  lemma ScanReadingPrefix(d: string, v: string)
    requires d != [] && IsDigits(d)
    ensures Scan(d + "°C" + v) == [d] + Scan(v)
  {
    var s := d + "°C" + v;
    assert forall k :: 0 <= k < |d| ==> s[k] == d[k];
    RunEndIs(s, 0, |d|);
    assert s[..|d|] == d;
    assert s == (d + "°C") + v;
    ScanShift(d + "°C", v, 0);
  }

  /** A `<pre>` text in which the reading 20 occurs twice. */
  const Sample: string := "Weather: 20°C, feels like 18°C, max 20°C"

  lemma SampleParts()
    ensures Sample == "Weather: " + ("20" + "°C" + (", feels like " + ("18" + "°C" + (", max " + ("20" + "°C")))))
  {
  }

  lemma SampleScan()
    ensures Scan(Sample) == ["20", "18", "20"]
  {
    var t0 := "20" + "°C";
    ScanReadingPrefix("20", "");
    assert t0 + "" == t0;
    var t1 := ", max " + t0;
    ScanNoDigitsPrefix(", max ", t0);
    var t2 := "18" + "°C" + t1;
    ScanReadingPrefix("18", t1);
    var t3 := ", feels like " + t2;
    ScanNoDigitsPrefix(", feels like ", t2);
    var t4 := "20" + "°C" + t3;
    ScanReadingPrefix("20", t3);
    ScanNoDigitsPrefix("Weather: ", t4);
    SampleParts();
  }

  lemma UniqSample()
    ensures Uniq(["20", "18", "20"]) == ["20", "18"]
  {
    var sc := ["20", "18", "20"];
    assert sc[..2] == ["20", "18"] && sc[..2][..1] == ["20"] && sc[..1][..0] == [];
    assert Uniq(sc[..1]) == ["20"];
    assert Uniq(sc[..2]) == ["20", "18"];
  }

  /** The reading list of the sample text is ["20", "18"]: the repeated 20
      is listed once. */
  lemma ExtractTempsExample()
    ensures ExtractTemps(Sample) == ["20", "18"]
  {
    SampleScan();
    UniqSample();
  }
}
