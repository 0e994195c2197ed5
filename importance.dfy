/** Newsworthiness scores of messages: a product of factors for the kind of value, its
    outlierness, its age and its rank, then a cohesion boost from a previous article's messages and
    a descending sort. The current year is a parameter, and so is the float power 0.7^x for a
    non-integral x. */
module Importance {
  import opened Wrappers
  import opened Text
  import opened Models
  import opened Ranking

  // ---------------------------------------------------------------- the factors

  /** `fact.outlierness or 1`, with NaN counted as 0; `isnan` rejects strings and sets. */
  function OutlierScore(o: Value): (r: Result<real>)
    ensures !Truthy(o) ==> r == Ok(1.0)
    ensures o.VNaN? ==> r == Ok(0.0)
    ensures Truthy(o) && Num(o).Some? ==> r == Ok(Num(o).value)
    ensures r.Err? <==> Truthy(o) && (o.VStr? || o.VSet?)
  {
    if !Truthy(o) then Ok(1.0)
    else match o
      case VNaN => Ok(0.0)
      case VStr(_) => Err(TypeError("must be real number, not str"))
      case VSet(_) => Err(TypeError("must be real number, not set"))
      case VBool(_) => Ok(1.0)
      case VInt(i) => Ok(i as real)
      case VReal(x) => Ok(x)
      case VNone => Ok(1.0)
  }

  /** The age-group tags whose facts are not reported. */
  function AgeTags(): seq<string> {
    ["y-lt6", "y6-10", "y6-11", "y11-15", "y12-17", "y-lt16", "y16-24", "y16-64", "y-ge16", "y-lt18"]
  }

  predicate HasAgeTag(vt: string) {
    exists i :: 0 <= i < |AgeTags()| && Contains(vt, AgeTags()[i])
  }

  /** Value types that score nothing: national currencies, young age groups, and "_t_" totals. */
  predicate Zeroed(vt: string) {
    Contains(vt, "_nac") || HasAgeTag(vt) || Contains(vt, "_t_")
  }

  function TrendFactor(vt: string): real {
    if Contains(vt, "_trend") then 500.0 else 1.0
  }

  /** The unit factor; "_nac" is excluded by `Zeroed` before this applies. */
  function UnitFactor(vt: string): real {
    if Contains(vt, "_pps") then 10.0 else if Contains(vt, "_eur") then 40.0 else 1.0
  }

  function ReverseFactor(vt: string): real {
    if !Contains(vt, "_reverse") then 1.0 else if Contains(vt, "_change") then 0.7 else 0.25
  }

  function Min1(x: real): real {
    if x < 1.0 then x else 1.0
  }

  /** `min(1, (1 / (now + 1 - year)) ** 2)`; a fact dated next year divides by zero. */
  function YearFactor(now: int, year: int): (r: Result<real>)
    ensures r.Err? <==> year == now + 1
  {
    var d := now + 1 - year;
    if d == 0 then Err(ZeroDivisionError) else Ok(Min1(1.0 / ((d * d) as real)))
  }

  /** The time factor of a fact: 40 times the year factor for yearly data; for monthly data 20 times
      the year factor moved toward last year's by (13 - month) thirteenths of their difference;
      20 for any other kind of timestamp. */
  function TimeFactor(ts: string, tsType: string, now: int): Result<real> {
    if tsType == "year" then
      var year := ParseInt(ts);
      if year.None? then Err(NotAnInt(ts))
      else
        var f :- YearFactor(now, year.value);
        Ok(20.0 * f * 2.0)
    else if tsType == "month" then
      var parts := SplitOn(ts, 'M');
      if |parts| != 2 then Err(BadUnpack())
      else
        var year := ParseInt(parts[0]);
        if year.None? then Err(NotAnInt(parts[0]))
        else
          var current :- YearFactor(now, year.value);
          var prev :- YearFactor(now, year.value - 1);
          var month := ParseInt(parts[1]);
          if month.None? then Err(NotAnInt(parts[1]))
          else Ok(20.0 * MonthFactor(current, prev, month.value))
    else Ok(20.0)
  }

  /** `current - (current - prev) / 13 * (13 - month)`. */
  function MonthFactor(current: real, prev: real, month: int): real {
    current - (current - prev) / 13.0 * ((13 - month) as real)
  }

  /** 0.7 to a natural power. */
  function Pow07(n: nat): (r: real)
    ensures r > 0.0
  {
    if n == 0 then 1.0 else 0.7 * Pow07(n - 1)
  }

  /** 0.7 to an integer power. */
  function Pow07Int(e: int): real {
    if e >= 0 then Pow07(e) else 1.0 / Pow07(-e)
  }

  /** `math.pow(0.7, value - 1)` for the value of a "_rank" fact; the power of a non-integral float is
      the parameter `pow07`. */
  function RankFactor(v: Value, pow07: real -> real): (r: Result<real>)
    ensures v.VInt? ==> r == Ok(Pow07Int(v.i - 1))
    ensures r.Err? <==> !(v.VInt? || v.VBool? || v.VReal?)
  {
    match v
    case VInt(i) => Ok(Pow07Int(i - 1))
    case VBool(b) => Ok(Pow07Int(if b then 0 else -1))
    case VReal(x) => if x == x.Floor as real then Ok(Pow07Int(x.Floor - 1)) else Ok(pow07(x - 1.0))
    case VNaN => Err(ValueError("nan score"))
    case _ => Err(TypeError("operand for -"))
  }

  // ---------------------------------------------------------------- one message

  /** `score_importance_single` before the importance coefficient: the score a fact earns. */
  function FactScore(f: Fact, now: int, pow07: real -> real): (r: Result<real>)
    ensures OutlierScore(f.outlierness).Err? ==> r == Err(OutlierScore(f.outlierness).error)
    ensures OutlierScore(f.outlierness).Ok? && Zeroed(f.valueType) ==> r == Ok(0.0)
  {
    hide Contains, Product;
    var vt := f.valueType;
    var outlier :- OutlierScore(f.outlierness);
    if Zeroed(vt) then Ok(0.0)
    else
      var time :- TimeFactor(f.timestamp, f.timestampType, now);
      var rank :- if Contains(vt, "_rank") then RankFactor(f.value, pow07) else Ok(1.0);
      Ok(Product([TrendFactor(vt), UnitFactor(vt), outlier, time, rank, ReverseFactor(vt)]))
  }

  /** The product of a list of factors. */
  function Product(xs: seq<real>): real {
    if xs == [] then 1.0 else xs[0] * Product(xs[1..])
  }

  /** `score_importance_single`: the main fact's score scaled by the importance coefficient (a zero
      score is returned before scaling, which is the same value). */
  function ScoreSingle(m: Message, now: int, pow07: real -> real): (r: Result<real>)
    ensures r.Ok? <==> FactScore(m.mainFact, now, pow07).Ok?
    ensures r.Ok? ==> r.value == Product([FactScore(m.mainFact, now, pow07).value, m.importanceCoefficient])
  {
    hide FactScore, Product;
    var s :- FactScore(m.mainFact, now, pow07);
    Ok(Product([s, m.importanceCoefficient]))
  }

  /** A counted fact's score is the product of its factors: 500 for a trend, 10 for "_pps" or else 40
      for "_eur", the outlier score, the time factor, the rank factor for "_rank" and 0.7 or 0.25 for
      "_reverse". */
  lemma FactScoreProduct(f: Fact, now: int, pow07: real -> real)
    requires OutlierScore(f.outlierness).Ok? && !Zeroed(f.valueType)
    requires TimeFactor(f.timestamp, f.timestampType, now).Ok?
    requires Contains(f.valueType, "_rank") ==> RankFactor(f.value, pow07).Ok?
    ensures var vt := f.valueType;
      var rank := if Contains(vt, "_rank") then RankFactor(f.value, pow07).value else 1.0;
      FactScore(f, now, pow07) == Ok(Product([TrendFactor(vt), UnitFactor(vt), OutlierScore(f.outlierness).value,
        TimeFactor(f.timestamp, f.timestampType, now).value, rank, ReverseFactor(vt)]))
  {
    hide Contains, Product;
  }

  /** A fact tagged with a young age group scores 0 whatever its other fields. */
  lemma AgeTagScoresNothing(f: Fact, now: int, pow07: real -> real, tag: nat)
    requires tag < |AgeTags()| && Contains(f.valueType, AgeTags()[tag])
    requires OutlierScore(f.outlierness).Ok?
    ensures FactScore(f, now, pow07) == Ok(0.0)
  {
    hide Contains;
  }

  // ---------------------------------------------------------------- properties of the factors

  lemma RecipMonotone(a: real, b: real)
    requires 0.0 < b <= a
    ensures 1.0 / a <= 1.0 / b
  {
    assert 1.0 / b - 1.0 / a == (a - b) / (a * b);
  }

  lemma SquareMonotone(d1: int, d2: int)
    requires d1 >= d2 >= 1
    ensures d1 * d1 >= d2 * d2 >= 1
  {
    assert d1 * d1 >= d2 * d1;
    assert d2 * d1 >= d2 * d2;
    assert d2 * d2 >= d2;
  }

  /** For years up to now the year factor is 1/(now+1-year)^2, at most 1 and 1 for the current year. */
  lemma YearFactorPast(now: int, year: int)
    requires year <= now
    ensures var d := now + 1 - year;
      YearFactor(now, year) == Ok(1.0 / ((d * d) as real)) && 0.0 < YearFactor(now, year).value <= 1.0
    ensures year == now ==> YearFactor(now, year) == Ok(1.0)
  {
    var d := now + 1 - year;
    SquareMonotone(d, 1);
    RecipMonotone((d * d) as real, 1.0);
  }

  /** A more recent year never scores less, up to the current year. */
  lemma YearFactorMonotone(now: int, y1: int, y2: int)
    requires y1 <= y2 <= now
    ensures YearFactor(now, y1).value <= YearFactor(now, y2).value
  {
    YearFactorPast(now, y1);
    YearFactorPast(now, y2);
    var d1 := now + 1 - y1;
    var d2 := now + 1 - y2;
    SquareMonotone(d1, d2);
    RecipMonotone((d1 * d1) as real, (d2 * d2) as real);
  }

  /** The yearly time factor is non-decreasing in the year, up to the current year. */
  lemma YearlyTimeMonotone(now: int, y1: int, y2: int)
    requires y1 <= y2 <= now
    ensures TimeFactor(IntToString(y1), "year", now).Ok? && TimeFactor(IntToString(y2), "year", now).Ok?
    ensures TimeFactor(IntToString(y1), "year", now).value <= TimeFactor(IntToString(y2), "year", now).value
  {
    ParseIntOfInt(y1);
    ParseIntOfInt(y2);
    YearFactorMonotone(now, y1, y2);
  }

  /** A month's factor lies between last year's and current year's when current year scores higher:
      month 13 would be current year's, and every earlier month leans toward last year's. */
  lemma MonthFactorBetween(current: real, prev: real, month: int)
    requires prev <= current && 0 <= month <= 13
    ensures prev <= MonthFactor(current, prev, month) <= current
    ensures month == 13 ==> MonthFactor(current, prev, month) == current
    ensures month == 0 ==> MonthFactor(current, prev, month) == prev
  {
    var step := (current - prev) / 13.0;
    var k := (13 - month) as real;
    var sk := step * k;
    assert MonthFactor(current, prev, month) == current - sk;
    assert step * 13.0 == current - prev;
    ScaleMonotone(step, 0.0, k);
    ScaleMonotone(step, k, 13.0);
    assert step * 0.0 == 0.0;
    assert sk <= step * 13.0;
  }

  lemma ScaleMonotone(s: real, a: real, b: real)
    requires 0.0 <= s && a <= b
    ensures s * a <= s * b
  {
    assert s * b - s * a == s * (b - a);
  }

  /** A later month of the same year never scores less (when current year scores higher than the last). */
  lemma MonthFactorMonotone(current: real, prev: real, m1: int, m2: int)
    requires prev <= current && m1 <= m2
    ensures MonthFactor(current, prev, m1) <= MonthFactor(current, prev, m2)
  {
    var step := (current - prev) / 13.0;
    assert step >= 0.0;
    assert step * ((13 - m1) as real) >= step * ((13 - m2) as real);
  }

  lemma {:induction false} Pow07Decreasing(n: nat)
    ensures Pow07(n + 1) < Pow07(n)
  {
  }

  lemma {:induction false} Pow07Antitone(a: nat, b: nat)
    requires a < b
    ensures Pow07(b) < Pow07(a)
    decreases b - a
  {
    Pow07Decreasing(b - 1);
    if a < b - 1 {
      Pow07Antitone(a, b - 1);
    }
  }

  /** Rank 1 keeps the score, and a worse rank scores strictly less. */
  lemma RankFactorOrder(r1: int, r2: int, pow07: real -> real)
    requires 1 <= r1 < r2
    ensures RankFactor(VInt(1), pow07) == Ok(1.0)
    ensures RankFactor(VInt(r2), pow07).value < RankFactor(VInt(r1), pow07).value
  {
    Pow07Antitone(r1 - 1, r2 - 1);
  }

  // ---------------------------------------------------------------- all messages

  /** Every message with its score replaced, or the first error. */
  function ScoreAll(ms: seq<Message>, now: int, pow07: real -> real): (r: Result<seq<Message>>)
    ensures r.Ok? ==> |r.value| == |ms|
    decreases |ms|
  {
    if ms == [] then Ok([])
    else
      var s := ScoreSingle(ms[0], now, pow07);
      if s.Err? then Err(s.error)
      else
        var rest := ScoreAll(ms[1..], now, pow07);
        if rest.Err? then Err(rest.error) else Ok([ms[0].(score := s.value)] + rest.value)
  }

  /** Scoring succeeds iff every message scores, and then each message keeps everything but its score. */
  lemma {:induction false} ScoreAllMeaning(ms: seq<Message>, now: int, pow07: real -> real)
    ensures ScoreAll(ms, now, pow07).Ok? <==> forall k :: 0 <= k < |ms| ==> ScoreSingle(ms[k], now, pow07).Ok?
    ensures ScoreAll(ms, now, pow07).Ok? ==> forall k :: 0 <= k < |ms| ==>
      ScoreAll(ms, now, pow07).value[k] == ms[k].(score := ScoreSingle(ms[k], now, pow07).value)
    decreases |ms|
  {
    hide ScoreSingle, FactScore, Product;
    if ms != [] {
      ScoreAllStep(ms, now, pow07);
      hide ScoreAll;
      ScoreAllMeaning(ms[1..], now, pow07);
      assert forall k :: 1 <= k < |ms| ==> ms[k] == ms[1..][k - 1];
    }
  }

  lemma ScoreAllStep(ms: seq<Message>, now: int, pow07: real -> real)
    requires ms != []
    ensures ScoreAll(ms, now, pow07) ==
      if ScoreSingle(ms[0], now, pow07).Err? then Err(ScoreSingle(ms[0], now, pow07).error)
      else if ScoreAll(ms[1..], now, pow07).Err? then Err(ScoreAll(ms[1..], now, pow07).error)
      else Ok([ms[0].(score := ScoreSingle(ms[0], now, pow07).value)] + ScoreAll(ms[1..], now, pow07).value)
  {
    hide ScoreSingle;
  }

  /** The error of scoring is that of the first message that fails. */
  lemma {:induction false} ScoreAllError(ms: seq<Message>, now: int, pow07: real -> real, k: nat)
    requires k < |ms| && ScoreSingle(ms[k], now, pow07).Err?
    requires forall i :: 0 <= i < k ==> ScoreSingle(ms[i], now, pow07).Ok?
    ensures ScoreAll(ms, now, pow07) == Err(ScoreSingle(ms[k], now, pow07).error)
    decreases k
  {
    hide ScoreSingle, FactScore, Product;
    ScoreAllStep(ms, now, pow07);
    hide ScoreAll;
    if k > 0 {
      assert ScoreSingle(ms[0], now, pow07).Ok?;
      assert forall i :: 0 <= i < k - 1 ==> ms[1..][i] == ms[i + 1];
      ScoreAllError(ms[1..], now, pow07, k - 1);
      assert ms[1..][k - 1] == ms[k];
    }
  }

  /** `score_importance`: overwrites every message's score in place and returns the same list; the
      first message that cannot be scored raises, leaving the later ones as they were. */
  method ScoreImportance(a: array<Message>, now: int, pow07: real -> real) returns (r: Result<seq<Message>>)
    modifies a
    ensures r == ScoreAll(old(a[..]), now, pow07)
    ensures r.Ok? ==> r.value == a[..]
  {
    hide ScoreSingle, FactScore;
    ghost var ms := a[..];
    var i := 0;
    while i < a.Length
      invariant 0 <= i <= a.Length
      invariant forall k :: 0 <= k < i ==> ScoreSingle(ms[k], now, pow07).Ok?
      invariant forall k :: 0 <= k < i ==> a[k] == ms[k].(score := ScoreSingle(ms[k], now, pow07).value)
      invariant forall k :: i <= k < a.Length ==> a[k] == ms[k]
    {
      var s := ScoreSingle(a[i], now, pow07);
      if s.Err? {
        ScoreAllError(ms, now, pow07, i);
        return Err(s.error);
      }
      a[i] := a[i].(score := s.value);
      i := i + 1;
    }
    ScoreAllMeaning(ms, now, pow07);
    assert a[..] == ScoreAll(ms, now, pow07).value;
    return Ok(a[..]);
  }

  // ---------------------------------------------------------------- cohesion with a previous article

  /** The (value type, timestamp) a previous message is remembered under. */
  function Key(m: Message): (string, string) {
    (m.mainFact.valueType, m.mainFact.timestamp)
  }

  /** The remembered score of every key: the last previous message with that key wins. */
  function KeyScores(previous: seq<Message>): map<(string, string), real>
    decreases |previous|
  {
    if previous == [] then map[]
    else
      var last := previous[|previous| - 1];
      KeyScores(previous[..|previous| - 1])[Key(last) := last.score]
  }

  /** The `defaultdict` look-up: 0 for a key never seen. */
  function Lookup(keys: map<(string, string), real>, k: (string, string)): real {
    if k in keys then keys[k] else 0.0
  }

  /** A key no previous message has reads 0; otherwise it reads the last such message's score. */
  lemma {:induction false} KeyScoresMeaning(previous: seq<Message>, k: (string, string), j: nat)
    requires j < |previous| && Key(previous[j]) == k
    requires forall i :: j < i < |previous| ==> Key(previous[i]) != k
    ensures Lookup(KeyScores(previous), k) == previous[j].score
    decreases |previous|
  {
    var n := |previous|;
    if j < n - 1 {
      var init := previous[..n - 1];
      assert forall i :: j < i < |init| ==> init[i] == previous[i];
      KeyScoresMeaning(init, k, j);
    }
  }

  lemma {:induction false} KeyScoresAbsent(previous: seq<Message>, k: (string, string))
    requires forall i :: 0 <= i < |previous| ==> Key(previous[i]) != k
    ensures Lookup(KeyScores(previous), k) == 0.0
    decreases |previous|
  {
    if previous != [] {
      var init := previous[..|previous| - 1];
      assert forall i :: 0 <= i < |init| ==> init[i] == previous[i];
      KeyScoresAbsent(init, k);
    }
  }

  /** The boosted score: multiplied by the remembered score / 10 + 1. */
  function Boosted(m: Message, keys: map<(string, string), real>): (r: Message)
    ensures r == m.(score := r.score)
    ensures Lookup(keys, Key(m)) == 0.0 ==> r == m
    ensures m.score >= 0.0 && Lookup(keys, Key(m)) >= 0.0 ==> r.score >= m.score
  {
    m.(score := m.score * (Lookup(keys, Key(m)) / 10.0 + 1.0))
  }

  function BoostAll(ms: seq<Message>, keys: map<(string, string), real>): (r: seq<Message>)
    ensures |r| == |ms| && forall k :: 0 <= k < |ms| ==> r[k] == Boosted(ms[k], keys)
  {
    seq(|ms|, k requires 0 <= k < |ms| => Boosted(ms[k], keys))
  }

  /** The `key_components` loop over the previous messages. */
  method RememberScores(previous: seq<Message>) returns (keys: map<(string, string), real>)
    ensures keys == KeyScores(previous)
  {
    keys := map[];
    var i := 0;
    while i < |previous|
      invariant 0 <= i <= |previous|
      invariant keys == KeyScores(previous[..i])
    {
      assert previous[..i + 1][..i] == previous[..i];
      keys := keys[Key(previous[i]) := previous[i].score];
      i := i + 1;
    }
    assert previous[..i] == previous;
  }

  /** The cohesion loop: every core message's score is boosted in place. */
  method Boost(a: array<Message>, keys: map<(string, string), real>)
    modifies a
    ensures a[..] == BoostAll(old(a[..]), keys)
  {
    var i := 0;
    while i < a.Length
      invariant 0 <= i <= a.Length
      invariant forall k :: 0 <= k < i ==> a[k] == Boosted(old(a[k]), keys)
      invariant forall k :: i <= k < a.Length ==> a[k] == old(a[k])
    {
      a[i] := Boosted(a[i], keys);
      i := i + 1;
    }
  }

  // ---------------------------------------------------------------- avoiding redundancy

  /** The locations the previous article's messages are about. */
  function PreviousLocations(previous: seq<Message>): set<string> {
    set m | m in previous :: m.mainFact.location
  }

  /** `expanded_in_prev`: the scores of the messages at one of the locations, in order. */
  function ScoresAt(ms: seq<Message>, locs: set<string>): (r: seq<real>)
    ensures forall x :: x in r <==> exists m :: m in ms && m.mainFact.location in locs && m.score == x
    ensures r == [] <==> forall m :: m in ms ==> m.mainFact.location !in locs
  {
    if ms == [] then []
    else
      var rest := ScoresAt(ms[1..], locs);
      assert forall m :: m in ms <==> m == ms[0] || m in ms[1..];
      if ms[0].mainFact.location in locs then [ms[0].score] + rest else rest
  }

  /** `max` of a non-empty list: a member no smaller than any other. */
  function MaxOf(xs: seq<real>): (r: real)
    requires xs != []
    ensures r in xs && forall x :: x in xs ==> x <= r
  {
    if |xs| == 1 then xs[0]
    else
      var m := MaxOf(xs[1..]);
      assert forall x :: x in xs <==> x == xs[0] || x in xs[1..];
      if xs[0] >= m then xs[0] else m
  }

  /** A message at one of the locations has its score multiplied by 1.1^score / 1.1^max, where
      `pow11` is the float power 1.1^x and `denominator` is its value at the highest such score. */
  function Damped(m: Message, locs: set<string>, pow11: real -> real, denominator: real): Message
    requires denominator != 0.0
  {
    if m.mainFact.location in locs then m.(score := m.score * (pow11(m.score) / denominator)) else m
  }

  /** The redundancy damping of the expanded messages given the previous article's messages:
      nothing changes when no expanded message is at a previous location; a denominator that
      underflows to 0 raises ZeroDivisionError. */
  function DampAll(ms: seq<Message>, previous: seq<Message>, pow11: real -> real): Result<seq<Message>> {
    var locs := PreviousLocations(previous);
    var xs := ScoresAt(ms, locs);
    if xs == [] then Ok(ms)
    else
      var denominator := pow11(MaxOf(xs));
      if denominator == 0.0 then Err(ZeroDivisionError)
      else Ok(seq(|ms|, k requires 0 <= k < |ms| => Damped(ms[k], locs, pow11, denominator)))
  }

  /** One damped score against another: a non-negative score at or below the highest one is
      never raised when the power is positive and does not decrease, and the highest one is kept. */
  lemma DampedFactor(score: real, top: real, pow11: real -> real)
    requires score <= top && 0.0 < pow11(score) <= pow11(top)
    ensures score >= 0.0 ==> score * (pow11(score) / pow11(top)) <= score
    ensures score == top ==> score * (pow11(score) / pow11(top)) == score
  {
    var num, den := pow11(score), pow11(top);
    var f := num / den;
    assert f * den == num;
    assert f <= 1.0;
    if score >= 0.0 {
      assert score * f <= score * 1.0;
    }
    if score == top {
      assert num == den;
      assert f == 1.0;
    }
  }

  /** The damped messages, one at a time: a message at a previous location keeps all but its score;
      the highest one keeps its score and no non-negative score goes up. */
  lemma DampedMessage(m: Message, locs: set<string>, pow11: real -> real, top: real)
    requires m.score <= top
    requires forall x: real, y: real :: x <= y ==> 0.0 < pow11(x) <= pow11(y)
    ensures pow11(top) != 0.0
    ensures Damped(m, locs, pow11, pow11(top)) == m.(score := Damped(m, locs, pow11, pow11(top)).score)
    ensures m.score >= 0.0 ==> Damped(m, locs, pow11, pow11(top)).score <= m.score
    ensures m.score == top ==> Damped(m, locs, pow11, pow11(top)) == m
  {
    assert 0.0 < pow11(m.score) <= pow11(top);
    DampedFactor(m.score, top, pow11);
  }

  /** "Can repeat at most one previous message": only messages at a previous location change, and
      only their scores. With a power that is positive and does not decrease, the messages holding
      the highest such score keep it and no other non-negative score goes up. */
  lemma DampMeaning(ms: seq<Message>, previous: seq<Message>, pow11: real -> real)
    requires forall x: real, y: real :: x <= y ==> 0.0 < pow11(x) <= pow11(y)
    ensures DampAll(ms, previous, pow11).Ok?
    ensures var r := DampAll(ms, previous, pow11).value;
      |r| == |ms|
      && (forall k :: 0 <= k < |ms| ==> r[k] == ms[k].(score := r[k].score))
      && (forall k :: 0 <= k < |ms| && ms[k].mainFact.location !in PreviousLocations(previous) ==> r[k] == ms[k])
      && (forall k :: 0 <= k < |ms| && ms[k].score >= 0.0 ==> r[k].score <= ms[k].score)
      && (forall k :: 0 <= k < |ms| && (forall j :: 0 <= j < |ms| && ms[j].mainFact.location in PreviousLocations(previous) ==> ms[j].score <= ms[k].score)
            ==> r[k] == ms[k])
  {
    var locs := PreviousLocations(previous);
    var xs := ScoresAt(ms, locs);
    if xs != [] {
      var top := MaxOf(xs);
      assert pow11(top) > 0.0 by {
        assert top <= top;
      }
      var r := DampAll(ms, previous, pow11).value;
      assert forall k :: 0 <= k < |ms| ==> r[k] == Damped(ms[k], locs, pow11, pow11(top));
      assert |r| == |ms|;
      var i := TopAttained(ms, locs);
      BelowTop(ms, locs);
      hide ScoresAt, MaxOf, PreviousLocations, DampAll, Damped;
      forall k | 0 <= k < |ms|
        ensures r[k] == ms[k].(score := r[k].score)
        ensures ms[k].score >= 0.0 ==> r[k].score <= ms[k].score
        ensures (forall j :: 0 <= j < |ms| && ms[j].mainFact.location in locs ==> ms[j].score <= ms[k].score) ==> r[k] == ms[k]
      {
        DampAt(ms, locs, pow11, top, i, k);
      }
    }
  }

  /** One position of the damping. */
  lemma DampAt(ms: seq<Message>, locs: set<string>, pow11: real -> real, top: real, i: nat, k: nat)
    requires forall x: real, y: real :: x <= y ==> 0.0 < pow11(x) <= pow11(y)
    requires i < |ms| && k < |ms| && ms[i].mainFact.location in locs && ms[i].score == top
    requires ms[k].mainFact.location in locs ==> ms[k].score <= top
    ensures pow11(top) != 0.0
    ensures var d := Damped(ms[k], locs, pow11, pow11(top));
      d == ms[k].(score := d.score)
      && (ms[k].score >= 0.0 ==> d.score <= ms[k].score)
      && ((forall j :: 0 <= j < |ms| && ms[j].mainFact.location in locs ==> ms[j].score <= ms[k].score) ==> d == ms[k])
  {
    assert 0.0 < pow11(top) by {
      assert top <= top;
    }
    if ms[k].mainFact.location in locs {
      DampedMessage(ms[k], locs, pow11, top);
      if forall j :: 0 <= j < |ms| && ms[j].mainFact.location in locs ==> ms[j].score <= ms[k].score {
        assert ms[i].score <= ms[k].score;
      }
    }
  }

  /** No score at one of the locations exceeds their maximum. */
  lemma BelowTop(ms: seq<Message>, locs: set<string>)
    requires ScoresAt(ms, locs) != []
    ensures forall k :: 0 <= k < |ms| && ms[k].mainFact.location in locs ==> ms[k].score <= MaxOf(ScoresAt(ms, locs))
  {
    forall k | 0 <= k < |ms| && ms[k].mainFact.location in locs ensures ms[k].score <= MaxOf(ScoresAt(ms, locs)) {
      assert ms[k] in ms;
      assert ms[k].score in ScoresAt(ms, locs);
    }
  }

  /** Some message at one of the locations holds the highest score there. */
  lemma TopAttained(ms: seq<Message>, locs: set<string>) returns (i: nat)
    requires ScoresAt(ms, locs) != []
    ensures i < |ms| && ms[i].mainFact.location in locs && ms[i].score == MaxOf(ScoresAt(ms, locs))
  {
    var top := MaxOf(ScoresAt(ms, locs));
    var m :| m in ms && m.mainFact.location in locs && m.score == top;
    i :| 0 <= i < |ms| && ms[i] == m;
  }

  /** The redundancy loop: the highest score at a previous location first, then every expanded
      message there damped in place; a failure leaves the array as it was. */
  method Damp(a: array<Message>, previous: seq<Message>, pow11: real -> real) returns (r: Result<()>)
    modifies a
    ensures r.Ok? <==> DampAll(old(a[..]), previous, pow11).Ok?
    ensures r.Ok? ==> a[..] == DampAll(old(a[..]), previous, pow11).value
    ensures r.Err? ==> r == Err(ZeroDivisionError) && a[..] == old(a[..])
  {
    hide ScoresAt, MaxOf, PreviousLocations, Damped;
    var locs := PreviousLocations(previous);
    var xs := ScoresAt(a[..], locs);
    if xs == [] {
      return Ok(());
    }
    var denominator := pow11(MaxOf(xs));
    if denominator == 0.0 {
      return Err(ZeroDivisionError);
    }
    var i := 0;
    while i < a.Length
      invariant 0 <= i <= a.Length
      invariant forall k :: 0 <= k < i ==> a[k] == Damped(old(a[k]), locs, pow11, denominator)
      invariant forall k :: i <= k < a.Length ==> a[k] == old(a[k])
    {
      a[i] := Damped(a[i], locs, pow11, denominator);
      i := i + 1;
    }
    assert a[..] == seq(|old(a[..])|, k requires 0 <= k < |old(a[..])| => Damped(old(a[..])[k], locs, pow11, denominator));
    return Ok(());
  }

  /** The allocator's `run`: scores both lists in place, boosts the core messages that repeat a
      previous article's (value type, timestamp), damps the expanded messages at a previous
      article's locations, and returns both lists sorted by descending score. */
  method Run(core: array<Message>, expanded: array<Message>, previous: seq<Message>, now: int, pow07: real -> real,
             pow11: real -> real)
    returns (r: Result<(seq<Message>, seq<Message>)>)
    requires core != expanded
    modifies core, expanded
    ensures r.Ok? <==> ScoreAll(old(core[..]), now, pow07).Ok? && ScoreAll(old(expanded[..]), now, pow07).Ok?
                       && DampAll(ScoreAll(old(expanded[..]), now, pow07).value, previous, pow11).Ok?
    ensures r.Ok? ==> core[..] == BoostAll(ScoreAll(old(core[..]), now, pow07).value, KeyScores(previous))
    ensures r.Ok? ==> expanded[..] == DampAll(ScoreAll(old(expanded[..]), now, pow07).value, previous, pow11).value
    ensures r.Ok? ==> r.value == (SortByScore(core[..]), SortByScore(expanded[..]))
  {
    var c := ScoreImportance(core, now, pow07);
    if c.Err? {
      return Err(c.error);
    }
    var e := ScoreImportance(expanded, now, pow07);
    if e.Err? {
      return Err(e.error);
    }
    if |previous| > 0 {
      var keys := RememberScores(previous);
      Boost(core, keys);
      var d := Damp(expanded, previous, pow11);
      if d.Err? {
        return Err(d.error);
      }
    } else {
      assert KeyScores(previous) == map[];
      assert core[..] == BoostAll(core[..], map[]);
      assert PreviousLocations(previous) == {};
    }
    return Ok((SortByScore(core[..]), SortByScore(expanded[..])));
  }
}
