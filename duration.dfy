/** Durations in the `PT#H#M#S` designator form of ISO 8601 (section 4.4.3.2 of
    ISO 8601:2004, hours, minutes and seconds only).

    `LengthOf` reads a duration the way `Entry._set_api_data` does: it searches
    the string for the first `PT` and then, one after the other, for an optional
    hours, minutes and seconds component, each a run of decimal digits followed
    by its designator letter.  A string without `PT` makes the regular-expression
    search return no match, and the source then raises; here that is `None`.

    `ScrapedDuration` is the other direction: the string that the HTML scraper
    assembles from the hours, minutes and seconds it matched. */
module Duration {
  import opened Wrappers

  predicate IsDigit(c: char) {
    '0' <= c <= '9'
  }

  predicate AllDigits(s: string) {
    forall i :: 0 <= i < |s| ==> IsDigit(s[i])
  }

  /** A non-empty run of decimal digits, as a regular-expression group `\d+` or `[0-9]+` matches. */
  predicate IsNumeral(s: string) {
    |s| > 0 && AllDigits(s)
  }

  /** The decimal value of a digit string, as Python's `int` reads it. */
  function DecimalValue(s: string): nat
    requires AllDigits(s)
  {
    DecimalPrefix(s, |s|)
  }

  /** The decimal value of the first `n` digits of `s`. */
  function DecimalPrefix(s: string, n: nat): nat
    requires n <= |s| && AllDigits(s)
  {
    if n == 0 then 0 else 10 * DecimalPrefix(s, n - 1) + (s[n - 1] as int - '0' as int)
  }

  /** The end of the longest run of digits that starts at `i`. */
  function DigitRunEnd(s: string, i: nat): (j: nat)
    requires i <= |s|
    ensures i <= j <= |s|
    ensures forall k :: i <= k < j ==> IsDigit(s[k])
    ensures j < |s| ==> !IsDigit(s[j])
    decreases |s| - i
  {
    if i < |s| && IsDigit(s[i]) then DigitRunEnd(s, i + 1) else i
  }

  /** The optional group `((?P<name>\d+)D)?` tried at position `i`: the value of the
      component and the position after it, or `None` and `i` when the group is skipped.
      Greedy `\d+` can only be followed by the designator at the end of the whole run. */
  function MatchComponent(s: string, i: nat, designator: char): (g: (Option<nat>, nat))
    requires i <= |s|
    ensures i <= g.1 <= |s|
    ensures g.0.None? <==> g.1 == i
  {
    var j := DigitRunEnd(s, i);
    assert AllDigits(s[i..j]);
    if i < j < |s| && s[j] == designator then (Some(DecimalValue(s[i..j])), j + 1)
    else (None, i)
  }

  /** A group that matches consumes at least one digit and ends on its designator. */
  lemma MatchShape(s: string, i: nat, designator: char)
    requires i <= |s|
    ensures var g := MatchComponent(s, i, designator);
            g.0.Some? ==> i + 2 <= g.1 && s[g.1 - 1] == designator && forall k :: i <= k < g.1 - 1 ==> IsDigit(s[k])
  {
  }

  predicate PTAt(s: string, p: nat)
    requires p + 2 <= |s|
  {
    s[p] == 'P' && s[p + 1] == 'T'
  }

  /** The leftmost position at or after `from` where `PT` occurs. */
  function FindPT(s: string, from: nat): (r: Option<nat>)
    requires from <= |s|
    ensures r.Some? ==> from <= r.value && r.value + 2 <= |s| && PTAt(s, r.value)
    ensures r.Some? ==> forall p :: from <= p < r.value ==> !PTAt(s, p)
    ensures r.None? ==> forall p :: from <= p && p + 2 <= |s| ==> !PTAt(s, p)
    decreases |s| - from
  {
    if from + 2 > |s| then None
    else if PTAt(s, from) then Some(from)
    else FindPT(s, from + 1)
  }

  /** The three optional components of a duration; `None` is a skipped group. */
  datatype Parts = Parts(hours: Option<nat>, minutes: Option<nat>, seconds: Option<nat>)

  /** `re.search('PT((?P<hours>\d+)H)?((?P<minutes>\d+)M)?((?P<seconds>\d+)S)?', s)`;
      `None` is "no match". */
  function ParseDuration(s: string): Option<Parts> {
    match FindPT(s, 0)
    case None => None
    case Some(p) =>
      var (h, i1) := MatchComponent(s, p + 2, 'H');
      var (m, i2) := MatchComponent(s, i1, 'M');
      var (sec, _) := MatchComponent(s, i2, 'S');
      Some(Parts(h, m, sec))
  }

  /** hours * 3600 + minutes * 60 + seconds, a missing component counting 0. */
  function TotalSeconds(p: Parts): nat {
    p.hours.GetOr(0) * 3600 + p.minutes.GetOr(0) * 60 + p.seconds.GetOr(0)
  }

  /** The `length` of a raw item's duration string; `None` where the source raises. */
  function LengthOf(s: string): Option<nat> {
    match ParseDuration(s)
    case None => None
    case Some(p) => Some(TotalSeconds(p))
  }

  /** One `<digits><designator>` piece of a scraped duration, or nothing. */
  function Segment(o: Option<string>, designator: char): string {
    match o
    case None => ""
    case Some(d) => d + [designator]
  }

  /** The scraper's assembly: `duration` collects `h'H'`, `m'M'` and `s'S'` for the
      groups that matched; an empty `duration` gives no duration string, any other
      gives `'PT' + duration`. */
  function ScrapedDuration(hours: Option<string>, minutes: Option<string>, seconds: Option<string>): Option<string> {
    var duration := Segment(hours, 'H') + Segment(minutes, 'M') + Segment(seconds, 'S');
    if duration != "" then Some("PT" + duration) else None
  }

  function NumeralValue(o: Option<string>): Option<nat>
    requires o.Some? ==> AllDigits(o.value)
  {
    match o
    case None => None
    case Some(d) => Some(DecimalValue(d))
  }

  predicate NumeralOrNone(o: Option<string>) {
    o.Some? ==> IsNumeral(o.value)
  }

  /** A run of digits that ends before a non-digit is seen whole by `DigitRunEnd`. */
  lemma {:induction false} RunEnds(s: string, i: nat, k: nat)
    requires i + k <= |s|
    requires forall n :: i <= n < i + k ==> IsDigit(s[n])
    requires i + k == |s| || !IsDigit(s[i + k])
    ensures DigitRunEnd(s, i) == i + k
    decreases k
  {
    if k > 0 {
      RunEnds(s, i + 1, k - 1);
    }
  }

  /** At a position where the text reads `<digits><c>`, the group for designator `d`
      matches exactly when `c` is `d`. */
  lemma MatchSegment(s: string, i: nat, digits: string, c: char, d: char)
    requires i + |digits| < |s| && s[i..i + |digits|] == digits && s[i + |digits|] == c
    requires IsNumeral(digits) && !IsDigit(c)
    ensures MatchComponent(s, i, d) ==
              if c == d then (Some(DecimalValue(digits)), i + |digits| + 1) else (None, i)
  {
    var k := |digits|;
    forall n | i <= n < i + k ensures IsDigit(s[n]) {
      assert s[n] == s[i..i + k][n - i];
    }
    RunEnds(s, i, k);
  }

  /** Reading `x + [c] + rest` off the text at position `i`. */
  lemma SplitAt(s: string, i: nat, x: string, c: char, rest: string)
    requires i <= |s| && s[i..] == x + [c] + rest
    ensures i + |x| < |s| && s[i..i + |x|] == x && s[i + |x|] == c
  {
    assert s[i..][..|x|] == x;
    assert s[i..][|x|] == c;
  }

  /** At the end of the text every group is skipped. */
  lemma MatchAtEnd(s: string, d: char)
    ensures MatchComponent(s, |s|, d) == (None, |s|)
  {
  }

  /** The group for designator `c1` at a position where the text reads
      `Segment(o1, c1) + Segment(o2, c2) + Segment(o3, c3)` takes exactly the first segment. */
  lemma MatchFirst(s: string, i: nat, o1: Option<string>, c1: char, o2: Option<string>, c2: char,
                   o3: Option<string>, c3: char)
    requires i <= |s| && s[i..] == Segment(o1, c1) + Segment(o2, c2) + Segment(o3, c3)
    requires NumeralOrNone(o1) && NumeralOrNone(o2) && NumeralOrNone(o3)
    requires !IsDigit(c1) && !IsDigit(c2) && !IsDigit(c3)
    requires c2 != c1 && c3 != c1
    ensures MatchComponent(s, i, c1) == (NumeralValue(o1), i + |Segment(o1, c1)|)
  {
    if o1.Some? {
      MatchTaken(s, i, o1.value, c1, Segment(o2, c2) + Segment(o3, c3));
    } else {
      assert s[i..] == Segment(o2, c2) + Segment(o3, c3);
      SkipAbsent(s, i, o2, c2, o3, c3, c1);
    }
  }

  /** The group for designator `c` at a position where the text reads `<digits><c>`
      followed by anything takes the digits and the designator. */
  lemma MatchTaken(s: string, i: nat, digits: string, c: char, rest: string)
    requires i <= |s| && s[i..] == digits + [c] + rest
    requires IsNumeral(digits) && !IsDigit(c)
    ensures MatchComponent(s, i, c) == (Some(DecimalValue(digits)), i + |digits| + 1)
  {
    SplitAt(s, i, digits, c, rest);
    MatchSegment(s, i, digits, c, c);
  }

  /** A group whose designator occurs in neither of the following segments is skipped. */
  lemma SkipAbsent(s: string, i: nat, o2: Option<string>, c2: char, o3: Option<string>, c3: char, d: char)
    requires i <= |s| && s[i..] == Segment(o2, c2) + Segment(o3, c3)
    requires NumeralOrNone(o2) && NumeralOrNone(o3)
    requires !IsDigit(c2) && !IsDigit(c3)
    requires c2 != d && c3 != d
    ensures MatchComponent(s, i, d) == (None, i)
  {
    if o2.Some? {
      SplitAt(s, i, o2.value, c2, Segment(o3, c3));
      MatchSegment(s, i, o2.value, c2, d);
    } else if o3.Some? {
      SplitAt(s, i, o3.value, c3, "");
      MatchSegment(s, i, o3.value, c3, d);
    } else {
      assert |s[i..]| == 0;
    }
  }

  /** The duration the scraper assembles parses back to exactly the components it was
      assembled from. */
  lemma ScrapedRoundTrip(hours: Option<string>, minutes: Option<string>, seconds: Option<string>)
    requires NumeralOrNone(hours) && NumeralOrNone(minutes) && NumeralOrNone(seconds)
    requires ScrapedDuration(hours, minutes, seconds).Some?
    ensures ParseDuration(ScrapedDuration(hours, minutes, seconds).value)
            == Some(Parts(NumeralValue(hours), NumeralValue(minutes), NumeralValue(seconds)))
  {
    var s := ScrapedDuration(hours, minutes, seconds).value;
    ScrapedShape(hours, minutes, seconds);
    ParseAtStart(s);
    MatchAll(s, hours, minutes, seconds);
  }

  /** The scraped duration is `PT` followed by the segments. */
  lemma ScrapedShape(hours: Option<string>, minutes: Option<string>, seconds: Option<string>)
    requires ScrapedDuration(hours, minutes, seconds).Some?
    ensures var s := ScrapedDuration(hours, minutes, seconds).value;
            2 <= |s| && PTAt(s, 0) && s[2..] == Segment(hours, 'H') + Segment(minutes, 'M') + Segment(seconds, 'S')
  {
  }

  /** A string that starts with `PT` is matched from there. */
  lemma ParseAtStart(s: string)
    requires 2 <= |s| && PTAt(s, 0)
    ensures var (h, i1) := MatchComponent(s, 2, 'H');
            var (m, i2) := MatchComponent(s, i1, 'M');
            ParseDuration(s) == Some(Parts(h, m, MatchComponent(s, i2, 'S').0))
  {
  }

  /** After `PT`, the three groups take the three segments in turn. */
  lemma MatchAll(s: string, hours: Option<string>, minutes: Option<string>, seconds: Option<string>)
    requires NumeralOrNone(hours) && NumeralOrNone(minutes) && NumeralOrNone(seconds)
    requires 2 <= |s| && s[2..] == Segment(hours, 'H') + Segment(minutes, 'M') + Segment(seconds, 'S')
    ensures var (h, i1) := MatchComponent(s, 2, 'H');
            var (m, i2) := MatchComponent(s, i1, 'M');
            h == NumeralValue(hours) && m == NumeralValue(minutes)
            && MatchComponent(s, i2, 'S').0 == NumeralValue(seconds)
  {
    MatchHours(s, hours, minutes, seconds);
    var i1 := 2 + |Segment(hours, 'H')|;
    MatchMinutes(s, i1, minutes, seconds);
    var i2 := i1 + |Segment(minutes, 'M')|;
    MatchSeconds(s, i2, seconds);
    assert MatchComponent(s, 2, 'H') == (NumeralValue(hours), i1);
    assert MatchComponent(s, i1, 'M') == (NumeralValue(minutes), i2);
  }

  lemma MatchHours(s: string, hours: Option<string>, minutes: Option<string>, seconds: Option<string>)
    requires NumeralOrNone(hours) && NumeralOrNone(minutes) && NumeralOrNone(seconds)
    requires 2 <= |s| && s[2..] == Segment(hours, 'H') + Segment(minutes, 'M') + Segment(seconds, 'S')
    ensures MatchComponent(s, 2, 'H') == (NumeralValue(hours), 2 + |Segment(hours, 'H')|)
    ensures 2 + |Segment(hours, 'H')| <= |s|
    ensures s[2 + |Segment(hours, 'H')|..] == Segment(minutes, 'M') + Segment(seconds, 'S')
  {
    MatchFirst(s, 2, hours, 'H', minutes, 'M', seconds, 'S');
    var rest := Segment(minutes, 'M') + Segment(seconds, 'S');
    assert s[2..] == Segment(hours, 'H') + rest;
    assert s[2 + |Segment(hours, 'H')|..] == s[2..][|Segment(hours, 'H')|..];
  }

  lemma MatchMinutes(s: string, i: nat, minutes: Option<string>, seconds: Option<string>)
    requires NumeralOrNone(minutes) && NumeralOrNone(seconds)
    requires i <= |s| && s[i..] == Segment(minutes, 'M') + Segment(seconds, 'S')
    ensures MatchComponent(s, i, 'M') == (NumeralValue(minutes), i + |Segment(minutes, 'M')|)
    ensures i + |Segment(minutes, 'M')| <= |s|
    ensures s[i + |Segment(minutes, 'M')|..] == Segment(seconds, 'S')
  {
    assert s[i..] == Segment(minutes, 'M') + Segment(seconds, 'S') + Segment(None, 'H');
    MatchFirst(s, i, minutes, 'M', seconds, 'S', None, 'H');
    assert s[i + |Segment(minutes, 'M')|..] == s[i..][|Segment(minutes, 'M')|..];
  }

  lemma MatchSeconds(s: string, i: nat, seconds: Option<string>)
    requires NumeralOrNone(seconds)
    requires i <= |s| && s[i..] == Segment(seconds, 'S')
    ensures MatchComponent(s, i, 'S').0 == NumeralValue(seconds)
  {
    assert s[i..] == Segment(seconds, 'S') + Segment(None, 'H') + Segment(None, 'M');
    MatchFirst(s, i, seconds, 'S', None, 'H', None, 'M');
  }

  /** ... and so its `length` is hours * 3600 + minutes * 60 + seconds. */
  lemma ScrapedLength(hours: Option<string>, minutes: Option<string>, seconds: Option<string>)
    requires NumeralOrNone(hours) && NumeralOrNone(minutes) && NumeralOrNone(seconds)
    requires ScrapedDuration(hours, minutes, seconds).Some?
    ensures LengthOf(ScrapedDuration(hours, minutes, seconds).value)
            == Some(NumeralValue(hours).GetOr(0) * 3600 + NumeralValue(minutes).GetOr(0) * 60
                    + NumeralValue(seconds).GetOr(0))
  {
    var p := Parts(NumeralValue(hours), NumeralValue(minutes), NumeralValue(seconds));
    var d := ScrapedDuration(hours, minutes, seconds).value;
    ScrapedRoundTrip(hours, minutes, seconds);
    assert LengthOf(d) == Some(TotalSeconds(p));
  }

  /** The scraper builds a `PT` string exactly when at least one component was matched. */
  lemma ScrapedDurationPresent(hours: Option<string>, minutes: Option<string>, seconds: Option<string>)
    requires NumeralOrNone(hours) && NumeralOrNone(minutes) && NumeralOrNone(seconds)
    ensures ScrapedDuration(hours, minutes, seconds).Some? <==> hours.Some? || minutes.Some? || seconds.Some?
  {
    var duration := Segment(hours, 'H') + Segment(minutes, 'M') + Segment(seconds, 'S');
    assert |duration| == |Segment(hours, 'H')| + |Segment(minutes, 'M')| + |Segment(seconds, 'S')|;
  }

  /** The `contentDetails` a scraped match ends with.  Each `item.update` replaces the
      whole dictionary under its key, so a matched `itemCount` replaces the duration. */
  datatype ScrapedDetails = NoDetails | DurationDetails(duration: string) | ItemCountDetails(itemCount: string)

  function ScrapedContentDetails(hours: Option<string>, minutes: Option<string>, seconds: Option<string>,
                                 itemCount: Option<string>): ScrapedDetails
  {
    if itemCount.Some? then ItemCountDetails(itemCount.value)
    else match ScrapedDuration(hours, minutes, seconds)
      case Some(d) => DurationDetails(d)
      case None => NoDetails
  }

  /** A scraped item carries its duration exactly when some component matched and no
      `itemCount` did; the duration it carries is the assembled `PT` string. */
  lemma ScrapedDurationKept(hours: Option<string>, minutes: Option<string>, seconds: Option<string>,
                            itemCount: Option<string>)
    requires NumeralOrNone(hours) && NumeralOrNone(minutes) && NumeralOrNone(seconds)
    ensures var r := ScrapedContentDetails(hours, minutes, seconds, itemCount);
            (r.DurationDetails? <==> itemCount.None? && (hours.Some? || minutes.Some? || seconds.Some?))
            && (r.DurationDetails? ==> r.duration == ScrapedDuration(hours, minutes, seconds).value)
            && (r.ItemCountDetails? <==> itemCount.Some?)
  {
    ScrapedDurationPresent(hours, minutes, seconds);
  }

  /** Parsing fails exactly when the string contains no `PT`. */
  lemma LengthFailsWithoutPT(s: string)
    ensures LengthOf(s).None? <==> forall p: nat :: p + 2 <= |s| ==> !PTAt(s, p)
  {
  }

  /** The documented examples: `PT1H2M10S` is 3730 seconds, ... */
  lemma LengthExampleFull()
    ensures LengthOf("PT1H2M10S") == Some(3730)
  {
    var h, m, s := Some("1"), Some("2"), Some("10");
    assert NumeralValue(h) == Some(1) && NumeralValue(m) == Some(2);
    assert NumeralValue(s) == Some(10) by {
      assert DecimalPrefix("10", 1) == 1;
    }
    assert Segment(h, 'H') == "1H" && Segment(m, 'M') == "2M" && Segment(s, 'S') == "10S";
    var d := Segment(h, 'H') + Segment(m, 'M') + Segment(s, 'S');
    assert d == "1H2M10S";
    assert "PT" + d == "PT1H2M10S";
    assert ScrapedDuration(h, m, s) == Some("PT1H2M10S");
    ScrapedLength(h, m, s);
    assert LengthOf(ScrapedDuration(h, m, s).value) == Some(3730);
  }

  /** ... `PT5M` is 300 seconds ... */
  lemma LengthExampleMinutes()
    ensures LengthOf("PT5M") == Some(300)
  {
    var m := Some("5");
    var d := Segment(None, 'H') + Segment(m, 'M') + Segment(None, 'S');
    assert d == "5M";
    assert "PT" + d == "PT5M";
    assert ScrapedDuration(None, m, None) == Some("PT5M");
    ScrapedLength(None, m, None);
    assert NumeralValue(None).GetOr(0) * 3600 + NumeralValue(m).GetOr(0) * 60 + NumeralValue(None).GetOr(0) == 300;
  }

  /** ... and `PT10S` is 10 seconds. */
  lemma LengthExampleSeconds()
    ensures LengthOf("PT10S") == Some(10)
  {
    var s := Some("10");
    assert NumeralValue(s) == Some(10) by {
      assert DecimalPrefix("10", 1) == 1;
    }
    var d := Segment(None, 'H') + Segment(None, 'M') + Segment(s, 'S');
    assert d == "10S";
    assert "PT" + d == "PT10S";
    assert ScrapedDuration(None, None, s) == Some("PT10S");
    ScrapedLength(None, None, s);
    assert NumeralValue(None).GetOr(0) * 3600 + NumeralValue(None).GetOr(0) * 60 + NumeralValue(s).GetOr(0) == 10;
  }

  /** A duration in days has no `PT`: the search finds no match and the source raises. */
  lemma LengthExampleDays()
    ensures LengthOf("P1D") == None
  {
  }
}
