/** Candles and the list transforms shared by both candle-loading helpers: splitting a CSV row,
    rolling consecutive candles up into bars, and grouping candles into per-date sessions. */
module Candles {
  import opened Common

  /** A CandleStick record: one OHLCV bar. */
  datatype Candle = Candle(timeOfDay: DateTime, open: real, high: real, low: real, close: real, volume: real)

  /** What a foreign field conversion (DateTime.Parse, Convert.ToDecimal) can do with a field. */
  datatype Parsed<T> = Parsed(value: T) | FormatError | OtherError

  // ---------------------------------------------------------------------------------------------
  // String.Split(',')

  /** The pieces of `s` between occurrences of `sep`, as String.Split returns them. */
  function Split(s: string, sep: char): (parts: seq<string>)
    ensures |parts| >= 1
    decreases |s|
  {
    if s == [] then [""]
    else
      var rest := Split(s[1..], sep);
      if s[0] == sep then [""] + rest else [[s[0]] + rest[0]] + rest[1..]
  }

  /** String.Join: the inverse of Split. */
  function Join(parts: seq<string>, sep: char): string
    requires |parts| >= 1
    decreases |parts|
  {
    if |parts| == 1 then parts[0] else parts[0] + [sep] + Join(parts[1..], sep)
  }

  /** Splitting loses nothing: joining the pieces back gives the row, and no piece holds a separator. */
  lemma {:induction false} SplitJoin(s: string, sep: char)
    ensures Join(Split(s, sep), sep) == s
    ensures forall i :: 0 <= i < |Split(s, sep)| ==> sep !in Split(s, sep)[i]
    decreases |s|
  {
    if s != [] {
      var rest := Split(s[1..], sep);
      SplitJoin(s[1..], sep);
      if s[0] == sep {
        assert Split(s, sep) == [""] + rest;
        assert Split(s, sep)[1..] == rest;
      } else {
        var parts := [[s[0]] + rest[0]] + rest[1..];
        assert Split(s, sep) == parts;
        if |rest| == 1 {
          assert Join(parts, sep) == [s[0]] + rest[0];
        } else {
          assert parts[1..] == rest[1..];
          calc {
            Join(parts, sep);
            ([s[0]] + rest[0]) + [sep] + Join(rest[1..], sep);
            [s[0]] + (rest[0] + [sep] + Join(rest[1..], sep));
            [s[0]] + Join(rest, sep);
            s;
          }
        }
        forall i | 0 <= i < |parts| ensures sep !in parts[i] {
          if i > 0 { assert parts[i] == rest[i]; }
        }
      }
    }
  }

  // ---------------------------------------------------------------------------------------------
  // One CSV row: timestamp,open,high,low,close,volume

  function Field(split: seq<string>, i: nat): Result<string> {
    if i < |split| then Success(split[i]) else Failure(IndexOutOfRange)
  }

  function Convert<T>(p: Parsed<T>): Result<T> {
    match p
    case Parsed(v) => Success(v)
    case FormatError => Failure(FormatException)
    case OtherError => Failure(OtherParseException)
  }

  /** The six field conversions of one row, in source order; the first failure is raised. */
  function ParseRow(line: string, parseDate: string -> Parsed<DateTime>, parseDecimal: string -> Parsed<real>)
    : (r: Result<Candle>)
    ensures r.Success? ==> |Split(line, ',')| >= 6
    ensures r.Success? ==> parseDate(Split(line, ',')[0]) == Parsed(r.value.timeOfDay)
    ensures r.Success? ==> parseDecimal(Split(line, ',')[4]) == Parsed(r.value.close)
    ensures r.Failure? ==> r.error in {FormatException, IndexOutOfRange, OtherParseException}
  {
    var split := Split(line, ',');
    var timeOfDay :- Convert(parseDate(split[0]));
    var f1 :- Field(split, 1);
    var open :- Convert(parseDecimal(f1));
    var f2 :- Field(split, 2);
    var high :- Convert(parseDecimal(f2));
    var f3 :- Field(split, 3);
    var low :- Convert(parseDecimal(f3));
    var f4 :- Field(split, 4);
    var close :- Convert(parseDecimal(f4));
    var f5 :- Field(split, 5);
    var volume :- Convert(parseDecimal(f5));
    Success(Candle(timeOfDay, open, high, low, close, volume))
  }

  /** A row parses exactly when it has six fields, the first a date and the next five decimals;
      the candle is then the fields in order (timestamp, open, high, low, close, volume), and a
      date that does not parse raises its own error before any other field is read. */
  lemma ParseRowExactly(line: string, parseDate: string -> Parsed<DateTime>, parseDecimal: string -> Parsed<real>)
    ensures var p, r := Split(line, ','), ParseRow(line, parseDate, parseDecimal);
      r.Success? <==> |p| >= 6 && parseDate(p[0]).Parsed? && forall i :: 1 <= i <= 5 ==> parseDecimal(p[i]).Parsed?
    ensures var p, r := Split(line, ','), ParseRow(line, parseDate, parseDecimal);
      r.Success? ==> r.value == Candle(parseDate(p[0]).value, parseDecimal(p[1]).value, parseDecimal(p[2]).value,
                                       parseDecimal(p[3]).value, parseDecimal(p[4]).value, parseDecimal(p[5]).value)
    ensures var p := Split(line, ',');
      !parseDate(p[0]).Parsed? ==> ParseRow(line, parseDate, parseDecimal) == Convert(parseDate(p[0])).PropagateFailure()
  {
  }

  /** DateTime.Parse rejects the empty string with a FormatException, so a blank row never parses. */
  lemma BlankRowFails(parseDate: string -> Parsed<DateTime>, parseDecimal: string -> Parsed<real>)
    requires parseDate("") == FormatError
    ensures ParseRow("", parseDate, parseDecimal) == Failure(FormatException)
  {
    assert Split("", ',') == [""];
  }

  // ---------------------------------------------------------------------------------------------
  // Rolling candles up into bars

  /** Sum(m => m.Volume) */
  function SumVolume(g: seq<Candle>): real
    decreases |g|
  {
    if g == [] then 0.0 else SumVolume(g[..|g| - 1]) + g[|g| - 1].volume
  }

  /** Max(m => m.High): an upper bound of every High that is itself one of them. */
  function MaxHigh(g: seq<Candle>): (r: real)
    requires |g| > 0
    ensures forall i :: 0 <= i < |g| ==> g[i].high <= r
    ensures exists i :: 0 <= i < |g| && g[i].high == r
    decreases |g|
  {
    if |g| == 1 then g[0].high
    else
      var m := MaxHigh(g[..|g| - 1]);
      assert forall i :: 0 <= i < |g| - 1 ==> g[..|g| - 1][i] == g[i];
      Max(m, g[|g| - 1].high)
  }

  /** Min(m => m.Low): a lower bound of every Low that is itself one of them. */
  function MinLow(g: seq<Candle>): (r: real)
    requires |g| > 0
    ensures forall i :: 0 <= i < |g| ==> r <= g[i].low
    ensures exists i :: 0 <= i < |g| && g[i].low == r
    decreases |g|
  {
    if |g| == 1 then g[0].low
    else
      var m := MinLow(g[..|g| - 1]);
      assert forall i :: 0 <= i < |g| - 1 ==> g[..|g| - 1][i] == g[i];
      Min(m, g[|g| - 1].low)
  }

  /** The bar built from one group of candles. */
  function Bar(g: seq<Candle>): (b: Candle)
    requires |g| > 0
    ensures b.open == g[0].open && b.close == g[|g| - 1].close && b.timeOfDay == g[0].timeOfDay
    ensures b.volume == SumVolume(g)
    ensures forall i :: 0 <= i < |g| ==> b.low <= g[i].low && g[i].high <= b.high
    ensures (exists i :: 0 <= i < |g| && g[i].high == b.high) && (exists i :: 0 <= i < |g| && g[i].low == b.low)
  {
    Candle(g[0].timeOfDay, g[0].open, MaxHigh(g), MinLow(g), g[|g| - 1].close, SumVolume(g))
  }

  function MinNat(x: nat, y: nat): nat {
    if x <= y then x else y
  }

  /** The number of bars: one per started group of `tf` candles. */
  function BarCount(n: nat, tf: nat): nat
    requires tf > 0
  {
    (n + tf - 1) / tf
  }

  /** BarCount is ceil(n / tf): the last group starts before the end and the groups reach it. */
  lemma BarCountIsCeiling(n: nat, tf: nat)
    requires tf > 0
    ensures n == 0 ==> BarCount(n, tf) == 0
    ensures n > 0 ==> BarCount(n, tf) > 0 && (BarCount(n, tf) - 1) * tf < n <= BarCount(n, tf) * tf
  {
    var k := BarCount(n, tf);
    assert k * tf <= n + tf - 1 < (k + 1) * tf;
    MulSucc(k - 1, tf);
  }

  lemma MulSucc(j: int, tf: int)
    ensures (j + 1) * tf == j * tf + tf
  {
  }

  /** A group index below the bar count starts inside the input. */
  lemma BelowCount(n: nat, tf: nat, j: nat)
    requires tf > 0 && j < BarCount(n, tf)
    ensures j * tf < n
  {
    BarCountIsCeiling(n, tf);
    MulMono(BarCount(n, tf) - 1, j, tf);
  }

  /** A group that starts inside the input is one of the counted groups. */
  lemma StartsInside(n: nat, tf: nat, j: nat)
    requires tf > 0 && j * tf < n
    ensures j < BarCount(n, tf)
  {
    BarCountIsCeiling(n, tf);
    if j >= BarCount(n, tf) {
      MulMono(j, BarCount(n, tf), tf);
    }
  }

  /** A group that starts at or past the end is not counted. */
  lemma StartsPastEnd(n: nat, tf: nat, j: nat)
    requires tf > 0 && j * tf >= n
    ensures j >= BarCount(n, tf)
  {
    if j < BarCount(n, tf) {
      BelowCount(n, tf, j);
    }
  }

  lemma MulMono(i: nat, j: nat, tf: nat)
    requires i >= j
    ensures i * tf >= j * tf
  {
  }

  /** The `k`-th consecutive group of `tf` candles (Skip(k*tf).Take(tf)); the last may be partial. */
  function Window(cs: seq<Candle>, tf: nat, k: nat): (g: seq<Candle>)
    requires tf > 0 && k * tf < |cs|
    ensures 0 < |g| <= tf
  {
    MulSucc(k, tf);
    cs[k * tf .. MinNat((k + 1) * tf, |cs|)]
  }

  /** The bar of the `k`-th group. */
  function BarAt(cs: seq<Candle>, tf: nat, k: nat): Candle
    requires tf > 0 && k < BarCount(|cs|, tf)
  {
    BelowCount(|cs|, tf, k);
    Bar(Window(cs, tf, k))
  }

  /** The windows 0..k-1 laid end to end. */
  function Windows(cs: seq<Candle>, tf: nat, k: nat): seq<Candle>
    requires tf > 0 && k <= BarCount(|cs|, tf)
  {
    if k == 0 then []
    else
      BelowCount(|cs|, tf, k - 1);
      Windows(cs, tf, k - 1) + Window(cs, tf, k - 1)
  }

  /** The groups partition the input: together, in order, they are exactly the input candles. */
  lemma {:induction false} WindowsCover(cs: seq<Candle>, tf: nat, k: nat)
    requires tf > 0 && k <= BarCount(|cs|, tf)
    ensures Windows(cs, tf, k) == cs[..MinNat(k * tf, |cs|)]
  {
    if k > 0 {
      WindowsCover(cs, tf, k - 1);
      BelowCount(|cs|, tf, k - 1);
      var a := (k - 1) * tf;
      var b := k * tf;
      MulSucc(k - 1, tf);
      assert b == a + tf;
      assert MinNat(a, |cs|) == a;
      assert Window(cs, tf, k - 1) == cs[a .. MinNat(b, |cs|)];
      assert cs[..a] + cs[a .. MinNat(b, |cs|)] == cs[..MinNat(b, |cs|)];
    }
  }

  lemma {:induction false} SumVolumeAppend(a: seq<Candle>, b: seq<Candle>)
    ensures SumVolume(a + b) == SumVolume(a) + SumVolume(b)
    decreases |b|
  {
    if b == [] {
      assert a + b == a;
    } else {
      var b' := b[..|b| - 1];
      assert (a + b)[..|a + b| - 1] == a + b';
      assert (a + b)[|a + b| - 1] == b[|b| - 1];
      SumVolumeAppend(a, b');
    }
  }

  function SumBarVolume(bars: seq<Candle>): real
    decreases |bars|
  {
    if bars == [] then 0.0 else SumBarVolume(bars[..|bars| - 1]) + bars[|bars| - 1].volume
  }

  /** Rolling up never creates or loses volume: the bars' volumes add up to the candles'. */
  lemma BarsConserveVolume(cs: seq<Candle>, tf: nat, bars: seq<Candle>)
    requires tf > 0 && |bars| == BarCount(|cs|, tf)
    requires forall k :: 0 <= k < |bars| ==> bars[k] == BarAt(cs, tf, k)
    ensures SumBarVolume(bars) == SumVolume(cs)
  {
    PrefixVolume(cs, tf, bars, |bars|);
    WindowsCover(cs, tf, |bars|);
    BarCountIsCeiling(|cs|, tf);
    assert MinNat(|bars| * tf, |cs|) == |cs|;
    assert cs[..|cs|] == cs;
    assert bars[..|bars|] == bars;
  }

  lemma {:induction false} PrefixVolume(cs: seq<Candle>, tf: nat, bars: seq<Candle>, k: nat)
    requires tf > 0 && |bars| == BarCount(|cs|, tf) && k <= |bars|
    requires forall j :: 0 <= j < |bars| ==> bars[j] == BarAt(cs, tf, j)
    ensures SumBarVolume(bars[..k]) == SumVolume(Windows(cs, tf, k))
  {
    if k > 0 {
      PrefixVolume(cs, tf, bars, k - 1);
      BelowCount(|cs|, tf, k - 1);
      assert bars[k - 1] == BarAt(cs, tf, k - 1);
      PrefixVolumeStep(cs, tf, bars, k);
    }
  }

  /** One step of PrefixVolume: adding bar k-1 to the prefix adds window k-1 to the windows. */
  lemma PrefixVolumeStep(cs: seq<Candle>, tf: nat, bars: seq<Candle>, k: nat)
    requires tf > 0 && 0 < k <= |bars| && k <= BarCount(|cs|, tf) && (k - 1) * tf < |cs|
    requires SumBarVolume(bars[..k - 1]) == SumVolume(Windows(cs, tf, k - 1))
    requires bars[k - 1].volume == SumVolume(Window(cs, tf, k - 1))
    ensures SumBarVolume(bars[..k]) == SumVolume(Windows(cs, tf, k))
  {
    var prefix := bars[..k];
    assert prefix[..k - 1] == bars[..k - 1];
    assert prefix[k - 1] == bars[k - 1];
    assert SumBarVolume(prefix) == SumBarVolume(bars[..k - 1]) + bars[k - 1].volume;
    var w := Window(cs, tf, k - 1);
    assert Windows(cs, tf, k) == Windows(cs, tf, k - 1) + w;
    SumVolumeAppend(Windows(cs, tf, k - 1), w);
  }

  // ---------------------------------------------------------------------------------------------
  // Splitting candles into per-date sessions

  /** An insertion-ordered dictionary from session key to that session's candles. */
  datatype SessionTable = SessionTable(keys: seq<int>, sessions: map<int, seq<Candle>>)

  /** The distinct dates of `cs`, in the order in which they are first met. */
  function FirstSeenKeys(cs: seq<Candle>): seq<int>
    decreases |cs|
  {
    if cs == [] then []
    else
      var ks := FirstSeenKeys(cs[..|cs| - 1]);
      var k := DateKey(cs[|cs| - 1].timeOfDay);
      if k in ks then ks else ks + [k]
  }

  /** The candles of `cs` dated `key`, in input order. */
  function OnDate(cs: seq<Candle>, key: int): seq<Candle>
    decreases |cs|
  {
    if cs == [] then []
    else OnDate(cs[..|cs| - 1], key) + (if DateKey(cs[|cs| - 1].timeOfDay) == key then [cs[|cs| - 1]] else [])
  }

  /** The table SplitCandlesIntoSessions builds: sessions in first-seen order, each holding exactly
      the candles of its date in input order. */
  ghost predicate IsSessionSplit(cs: seq<Candle>, t: SessionTable) {
    && t.keys == FirstSeenKeys(cs)
    && t.sessions.Keys == set k | k in t.keys
    && forall k :: k in t.sessions ==> t.sessions[k] == OnDate(cs, k)
  }

  function CountAll(cs: seq<Candle>, keys: seq<int>): nat
    decreases |keys|
  {
    if keys == [] then 0 else CountAll(cs, keys[..|keys| - 1]) + |OnDate(cs, keys[|keys| - 1])|
  }

  /** The session keys are distinct. */
  lemma {:induction false} FirstSeenKeysDistinct(cs: seq<Candle>)
    ensures forall i, j :: 0 <= i < j < |FirstSeenKeys(cs)| ==> FirstSeenKeys(cs)[i] != FirstSeenKeys(cs)[j]
    decreases |cs|
  {
    if cs != [] {
      FirstSeenKeysDistinct(cs[..|cs| - 1]);
    }
  }

  /** A key is present exactly when some candle carries that date. */
  lemma {:induction false} FirstSeenKeysCover(cs: seq<Candle>, key: int)
    ensures key in FirstSeenKeys(cs) <==> exists i :: 0 <= i < |cs| && DateKey(cs[i].timeOfDay) == key
    decreases |cs|
  {
    if cs != [] {
      var init := cs[..|cs| - 1];
      FirstSeenKeysCover(init, key);
      if key in FirstSeenKeys(init) {
        var i :| 0 <= i < |init| && DateKey(init[i].timeOfDay) == key;
        assert cs[i] == init[i];
      }
      if exists i :: 0 <= i < |cs| - 1 && DateKey(cs[i].timeOfDay) == key {
        var i :| 0 <= i < |cs| - 1 && DateKey(cs[i].timeOfDay) == key;
        assert init[i] == cs[i];
      }
    }
  }

  /** A session holds only candles of its own date, each taken from the input. */
  lemma {:induction false} OnDateMembers(cs: seq<Candle>, key: int)
    ensures forall c :: c in OnDate(cs, key) ==> c in cs && DateKey(c.timeOfDay) == key
    decreases |cs|
  {
    if cs != [] {
      var init := cs[..|cs| - 1];
      OnDateMembers(init, key);
      assert forall c :: c in init ==> c in cs;
    }
  }

  lemma {:induction false} OnDateAbsent(cs: seq<Candle>, key: int)
    requires key !in FirstSeenKeys(cs)
    ensures OnDate(cs, key) == []
    decreases |cs|
  {
    if cs != [] {
      var init := cs[..|cs| - 1];
      assert key !in FirstSeenKeys(init);
      OnDateAbsent(init, key);
    }
  }

  /** Splitting preserves the number of candles: the sessions together hold every candle once. */
  lemma {:induction false} SessionsPreserveCount(cs: seq<Candle>)
    ensures CountAll(cs, FirstSeenKeys(cs)) == |cs|
    decreases |cs|
  {
    if cs != [] {
      var init := cs[..|cs| - 1];
      var last := cs[|cs| - 1];
      var key := DateKey(last.timeOfDay);
      var ks := FirstSeenKeys(init);
      assert cs == init + [last];
      SessionsPreserveCount(init);
      FirstSeenKeysDistinct(init);
      CountStep(init, last, ks);
      if key in ks {
        assert FirstSeenKeys(cs) == ks;
      } else {
        OnDateAbsent(init, key);
        assert OnDate(cs, key) == [last];
        assert FirstSeenKeys(cs) == ks + [key];
        assert (ks + [key])[..|ks|] == ks;
        assert CountAll(cs, ks + [key]) == CountAll(cs, ks) + |OnDate(cs, key)|;
      }
    }
  }

  /** Adding one candle at the end adds one to the count of exactly the session of its date. */
  lemma {:induction false} CountStep(init: seq<Candle>, last: Candle, keys: seq<int>)
    requires forall i, j :: 0 <= i < j < |keys| ==> keys[i] != keys[j]
    ensures CountAll(init + [last], keys) == CountAll(init, keys) + (if DateKey(last.timeOfDay) in keys then 1 else 0)
    decreases |keys|
  {
    var cs := init + [last];
    assert cs[..|cs| - 1] == init;
    if keys != [] {
      var ks := keys[..|keys| - 1];
      CountStep(init, last, ks);
      assert keys == ks + [keys[|keys| - 1]];
    }
  }
}
