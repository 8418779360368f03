/**
 * Scoring on save: the glow band of a rating, validation of the rating
 * form, the weighted score with its rounding and clamp, the song-average
 * calculator, and the songs map written with a record.
 */
module Scoring {
  import opened Wrappers
  import opened Text
  import opened Tokens
  import opened Records

  // ---------------------------------------------------------------------
  // Rounding to hundredths (`+x.toFixed(2)` on exact reals)

  /** `r` has at most two decimals. */
  predicate Hundredths(r: real) {
    (r * 100.0).Floor as real == r * 100.0
  }

  /** Rounds to the nearest hundredth, halves away from zero, as `toFixed(2)` does. */
  function Round2(x: real): (r: real)
    ensures Hundredths(r)
    ensures -0.005 < r - x <= 0.005 || -0.005 <= r - x < 0.005
  {
    if x >= 0.0 then RoundUpHalf(x)
    else
      NegatedHundredths(RoundUpHalf(-x));
      -RoundUpHalf(-x)
  }

  lemma NegatedHundredths(r: real)
    requires Hundredths(r)
    ensures Hundredths(-r)
  {
    var k := (r * 100.0).Floor;
    assert -r * 100.0 == -(k as real);
    assert (-r * 100.0).Floor == -k;
  }

  function RoundUpHalf(x: real): (r: real)
    ensures Hundredths(r)
    ensures -0.005 < r - x <= 0.005
  {
    var n := (x * 100.0 + 0.5).Floor;
    assert (n as real / 100.0) * 100.0 == n as real;
    n as real / 100.0
  }

  lemma RoundUpHalfMonotone(x: real, y: real)
    requires x <= y
    ensures RoundUpHalf(x) <= RoundUpHalf(y)
  {
    assert (x * 100.0 + 0.5).Floor <= (y * 100.0 + 0.5).Floor;
  }

  /** Rounding never reverses an order. */
  lemma Round2Monotone(x: real, y: real)
    requires x <= y
    ensures Round2(x) <= Round2(y)
  {
    if 0.0 <= x {
      RoundUpHalfMonotone(x, y);
    } else if y < 0.0 {
      RoundUpHalfMonotone(-y, -x);
    } else {
      assert RoundUpHalf(0.0) == 0.0;
      RoundUpHalfMonotone(0.0, y);
      RoundUpHalfMonotone(0.0, -x);
    }
  }

  /** A number with at most two decimals is its own rounding. */
  lemma Round2OfHundredths(n: int)
    ensures Round2(n as real / 100.0) == n as real / 100.0
  {
    var x := n as real / 100.0;
    if n >= 0 {
      assert x * 100.0 + 0.5 == n as real + 0.5;
      assert (x * 100.0 + 0.5).Floor == n;
    } else {
      assert -x * 100.0 + 0.5 == -n as real + 0.5;
      assert (-x * 100.0 + 0.5).Floor == -n;
    }
  }

  // ---------------------------------------------------------------------
  // Glow classes

  datatype GlowClass = Skip | Weak | Decent | Good | Great | Excellent | Masterpiece

  function Rank(g: GlowClass): nat {
    match g
    case Skip => 0
    case Weak => 1
    case Decent => 2
    case Good => 3
    case Great => 4
    case Excellent => 5
    case Masterpiece => 6
  }

  /** The lower edge of band `k`, for `1 <= k <= 6`. */
  function Threshold(k: nat): real
    requires 1 <= k <= 6
  {
    [2.0, 4.0, 6.0, 7.0, 8.0, 9.0][k - 1]
  }

  /**
   * The glow band of a rating. "S" is a skip; "I" makes every comparison
   * with a number false (NaN) and so lands in the top band.
   */
  function GetGlowClass(rating: Rating): (g: GlowClass)
    ensures rating.S? ==> g == Skip
    ensures rating.I? ==> g == Masterpiece
    ensures rating.Numeric? ==> (Rank(g) == 0 || Threshold(Rank(g)) <= rating.r)
    ensures rating.Numeric? ==> (Rank(g) == 6 || rating.r < Threshold(Rank(g) + 1))
  {
    match rating
    case S => Skip
    case I => Masterpiece
    case Numeric(r) =>
      if r < 2.0 then Skip
      else if r < 4.0 then Weak
      else if r < 6.0 then Decent
      else if r < 7.0 then Good
      else if r < 8.0 then Great
      else if r < 9.0 then Excellent
      else Masterpiece
  }

  /** A higher number never gets a lower band. */
  lemma GlowMonotone(x: real, y: real)
    requires x <= y
    ensures Rank(GetGlowClass(Numeric(x))) <= Rank(GetGlowClass(Numeric(y)))
  {
  }

  // ---------------------------------------------------------------------
  // Validation and the weighted score

  /** The form's numeric fields as `parseFloat` / `parseInt(…, 10)` read them. */
  datatype RatingForm = RatingForm(
    avgSong: Parsed<real>,
    lyricism: Parsed<real>,
    instrumentation: Parsed<real>,
    vibe: Parsed<real>,
    skips: Parsed<int>)

  /** Validated scores. */
  datatype Scores = Scores(avgSong: real, lyricism: real, instrumentation: real, vibe: real, skips: int)

  const InvalidForm: string := "Please enter valid numbers (1–10) for ratings and non-negative skips."

  /** `isNaN(v) || v < 1 || v > 10` with JavaScript's NaN comparisons. */
  predicate Rejects(v: Parsed<real>) {
    match v
    case NaN => true
    case Num(x) => x < 1.0 || x > 10.0
  }

  /** `skips < 0`: false for NaN. */
  predicate NegativeSkips(skips: Parsed<int>) {
    match skips
    case NaN => false
    case Num(n) => n < 0
  }

  /** The guard as written: it lets a NaN skip count through. */
  function AcceptsAsWritten(f: RatingForm): (accepted: bool)
    ensures accepted <==>
      (forall v | v in [f.avgSong, f.lyricism, f.instrumentation, f.vibe] :: v.Num? && 1.0 <= v.value <= 10.0) &&
      (f.skips.NaN? || f.skips.value >= 0)
  {
    !(Rejects(f.avgSong) || Rejects(f.lyricism) || Rejects(f.instrumentation) || Rejects(f.vibe) ||
      NegativeSkips(f.skips))
  }

  /**
   * The score the save path computes for a form the guard accepted: NaN
   * exactly when the skip count is NaN, otherwise the final rating of the
   * validated scores, a number in [1, 10].
   */
  function ScoreAsWritten(f: RatingForm): (score: Parsed<real>)
    requires AcceptsAsWritten(f)
    ensures score.NaN? <==> f.skips.NaN?
    ensures f.skips.Num? ==> score == Num(FinalRating(Validate(f).value))
    ensures score.Num? ==> InUnitRange(score.value) && Hundredths(score.value)
  {
    match f.skips
    case NaN => NaN
    case Num(n) => Num(FinalRating(Scores(f.avgSong.value, f.lyricism.value, f.instrumentation.value, f.vibe.value, n)))
  }

  /**
   * The guard as intended: the four factors in [1, 10] and a skip count
   * that is a non-negative number.
   */
  function Validate(f: RatingForm): (r: Result<Scores, string>)
    ensures r.Ok? <==> AcceptsAsWritten(f) && f.skips.Num?
    ensures r.Err? ==> r.error == InvalidForm
    ensures r.Ok? ==> r.value == Scores(f.avgSong.value, f.lyricism.value, f.instrumentation.value, f.vibe.value, f.skips.value)
    ensures r.Ok? ==> ValidScores(r.value)
  {
    if AcceptsAsWritten(f) && f.skips.Num? then
      Ok(Scores(f.avgSong.value, f.lyricism.value, f.instrumentation.value, f.vibe.value, f.skips.value))
    else Err(InvalidForm)
  }

  predicate InUnitRange(x: real) { 1.0 <= x <= 10.0 }

  predicate ValidScores(sc: Scores) {
    InUnitRange(sc.avgSong) && InUnitRange(sc.lyricism) && InUnitRange(sc.instrumentation) &&
    InUnitRange(sc.vibe) && sc.skips >= 0
  }

  /**
   * `(avgSong*2 + lyricism*1.5 + instrumentation*1.5 + vibe*1.5) / 6.5 - skips*0.2`:
   * a weighted mean of the four factors, so with all four in range it lies
   * in [1, 10] less 0.2 per skip.
   */
  function WeightedScore(sc: Scores): (w: real)
    ensures ValidScores(sc) ==> 1.0 - sc.skips as real * 0.2 <= w <= 10.0 - sc.skips as real * 0.2
  {
    (sc.avgSong * 2.0 + sc.lyricism * 1.5 + sc.instrumentation * 1.5 + sc.vibe * 1.5) / 6.5 - sc.skips as real * 0.2
  }

  /**
   * `Math.max(1, Math.min(10, +weightedScore.toFixed(2)))`: the weighted
   * score rounded to hundredths and clamped to [1, 10].
   */
  function FinalRating(sc: Scores): (r: real)
    ensures InUnitRange(r) && Hundredths(r)
    ensures WeightedScore(sc) <= 1.0 ==> r == 1.0
    ensures WeightedScore(sc) >= 10.0 ==> r == 10.0
    ensures InUnitRange(WeightedScore(sc)) ==> -0.005 <= r - WeightedScore(sc) <= 0.005
  {
    var w := WeightedScore(sc);
    RoundingAtEdges(w);
    Max(1.0, Min(10.0, Round2(w)))
  }

  lemma RoundingAtEdges(w: real)
    ensures w <= 1.0 ==> Round2(w) <= 1.0
    ensures w >= 10.0 ==> Round2(w) >= 10.0
    ensures InUnitRange(w) ==> InUnitRange(Round2(w))
    ensures Hundredths(1.0) && Hundredths(10.0)
  {
    Round2OfHundredths(100);
    Round2OfHundredths(1000);
    assert 1.0 == 100 as real / 100.0 && 10.0 == 1000 as real / 100.0;
    if w <= 1.0 { Round2Monotone(w, 1.0); }
    if w >= 10.0 { Round2Monotone(10.0, w); }
    if InUnitRange(w) { Round2Monotone(1.0, w); Round2Monotone(w, 10.0); }
  }

  function Min(a: real, b: real): real { if a <= b then a else b }
  function Max(a: real, b: real): real { if a >= b then a else b }

  /** More skips never raise the rating. */
  lemma SkipsNeverRaise(sc: Scores, more: nat)
    ensures FinalRating(sc.(skips := sc.skips + more)) <= FinalRating(sc)
  {
    var sc' := sc.(skips := sc.skips + more);
    assert WeightedScore(sc') <= WeightedScore(sc);
    Round2Monotone(WeightedScore(sc'), WeightedScore(sc));
  }

  /** Top marks with no skips give 10; bottom marks with no skips give 1. */
  lemma ExtremeRatings()
    ensures FinalRating(Scores(10.0, 10.0, 10.0, 10.0, 0)) == 10.0
    ensures FinalRating(Scores(1.0, 1.0, 1.0, 1.0, 0)) == 1.0
  {
    assert WeightedScore(Scores(10.0, 10.0, 10.0, 10.0, 0)) == 10.0;
    assert WeightedScore(Scores(1.0, 1.0, 1.0, 1.0, 0)) == 1.0;
  }

  /** Every form the intended guard accepts is saved with a rating in [1, 10]. */
  lemma AcceptedFormScoresInRange(f: RatingForm)
    requires Validate(f).Ok?
    ensures ScoreAsWritten(f).Num? && InUnitRange(ScoreAsWritten(f).value)
    ensures ScoreAsWritten(f) == Num(FinalRating(Validate(f).value))
  {
  }

  /** The guard as written accepts an empty skip field, and the saved rating is then NaN. */
  lemma NaNSkipsSlipThrough()
    ensures var f := RatingForm(Num(5.0), Num(5.0), Num(5.0), Num(5.0), NaN);
      AcceptsAsWritten(f) && ScoreAsWritten(f) == NaN && Validate(f).Err?
  {
    var f := RatingForm(Num(5.0), Num(5.0), Num(5.0), Num(5.0), NaN);
    assert !Rejects(f.avgSong);
  }

  // ---------------------------------------------------------------------
  // The song-average calculator

  /** One song box, after `trim().toUpperCase()`: "I", "S", or whatever `parseFloat` reads. */
  datatype SongInput = SongInterlude | SongSkip | SongValue(v: Parsed<real>)

  /** The calculator's running `total`, `count` and `skips`. */
  datatype SongTally = SongTally(total: real, count: int, skips: int)

  const NoSongs := SongTally(0.0, 0, 0)

  /** What one box adds to the tally. */
  function SongContribution(x: SongInput): (t: SongTally)
    ensures x.SongInterlude? ==> t == NoSongs
    ensures x.SongSkip? ==> t == SongTally(0.0, 0, 1)
    ensures x.SongValue? && x.v.Num? && InUnitRange(x.v.value) ==> t == SongTally(x.v.value, 1, 0)
    ensures x.SongValue? && !(x.v.Num? && InUnitRange(x.v.value)) ==> t == NoSongs
  {
    match x
    case SongInterlude => NoSongs
    case SongSkip => SongTally(0.0, 0, 1)
    case SongValue(v) => if v.Num? && v.value >= 1.0 && v.value <= 10.0 then SongTally(v.value, 1, 0) else NoSongs
  }

  function Combine(a: SongTally, b: SongTally): SongTally {
    SongTally(a.total + b.total, a.count + b.count, a.skips + b.skips)
  }

  lemma CombineAssociative(x: SongTally, y: SongTally, z: SongTally)
    ensures Combine(Combine(x, y), z) == Combine(x, Combine(y, z))
  {
  }

  lemma CombineIdentity(t: SongTally)
    ensures Combine(NoSongs, t) == t && Combine(t, NoSongs) == t
  {
  }

  /** The tally of a list of boxes, read left to right. */
  function TallySongs(s: seq<SongInput>): SongTally {
    if |s| == 0 then NoSongs else Combine(TallySongs(s[..|s| - 1]), SongContribution(s[|s| - 1]))
  }

  /** The tally of two lists is the sum of their tallies. */
  lemma {:induction false} TallyAppend(a: seq<SongInput>, b: seq<SongInput>)
    ensures TallySongs(a + b) == Combine(TallySongs(a), TallySongs(b))
    decreases |b|
  {
    if b == [] {
      assert a + b == a;
      CombineIdentity(TallySongs(a));
    } else {
      var b', c := b[..|b| - 1], b[|b| - 1];
      assert (a + b)[..|a + b| - 1] == a + b';
      assert (a + b)[|a + b| - 1] == c;
      TallyAppend(a, b');
      CombineAssociative(TallySongs(a), TallySongs(b'), SongContribution(c));
    }
  }

  lemma TallySingle(x: SongInput)
    ensures TallySongs([x]) == SongContribution(x)
  {
    assert [x][..0] == [];
    CombineIdentity(SongContribution(x));
  }

  /** An "I" box changes nothing. */
  lemma InterludeIgnored(a: seq<SongInput>, b: seq<SongInput>)
    ensures TallySongs(a + [SongInterlude] + b) == TallySongs(a + b)
  {
    var A, B := TallySongs(a), TallySongs(b);
    TallyAppend(a + [SongInterlude], b);
    TallyAppend(a, [SongInterlude]);
    TallySingle(SongInterlude);
    CombineIdentity(A);
    assert TallySongs(a + [SongInterlude]) == A;
    TallyAppend(a, b);
  }

  lemma CombineSkip(x: SongTally, y: SongTally)
    ensures Combine(Combine(x, SongTally(0.0, 0, 1)), y) == Combine(x, y).(skips := Combine(x, y).skips + 1)
  {
  }

  /** An "S" box only adds a skip. */
  lemma SkipCounted(a: seq<SongInput>, b: seq<SongInput>)
    ensures TallySongs(a + [SongSkip] + b) == TallySongs(a + b).(skips := TallySongs(a + b).skips + 1)
  {
    var A, B := TallySongs(a), TallySongs(b);
    TallyAppend(a + [SongSkip], b);
    TallyAppend(a, [SongSkip]);
    TallySingle(SongSkip);
    assert TallySongs(a + [SongSkip]) == Combine(A, SongTally(0.0, 0, 1));
    CombineSkip(A, B);
    TallyAppend(a, b);
  }

  /** Only numbers in [1, 10] are counted, so the total lies between `count` and 10 × `count`. */
  lemma {:induction false} TallyBounds(s: seq<SongInput>)
    ensures TallySongs(s).count as real <= TallySongs(s).total <= 10.0 * TallySongs(s).count as real
    ensures 0 <= TallySongs(s).count && 0 <= TallySongs(s).skips
    ensures TallySongs(s).count + TallySongs(s).skips <= |s|
  {
    if s != [] {
      TallyBounds(s[..|s| - 1]);
    }
  }

  lemma SkipBoxesSnoc(s: seq<SongInput>)
    requires s != []
    ensures multiset(s)[SongSkip] ==
      multiset(s[..|s| - 1])[SongSkip] + (if s[|s| - 1] == SongSkip then 1 else 0)
  {
    var n := |s| - 1;
    assert s == s[..n] + [s[n]];
  }

  /** The skip tally is the number of "S" boxes. */
  lemma {:induction false} TallySkipsAreSBoxes(s: seq<SongInput>)
    ensures TallySongs(s).skips == multiset(s)[SongSkip]
  {
    if s != [] {
      var n := |s| - 1;
      TallySkipsAreSBoxes(s[..n]);
      var one := if s[n] == SongSkip then 1 else 0;
      assert TallySongs(s).skips == TallySongs(s[..n]).skips + SongContribution(s[n]).skips;
      assert SongContribution(s[n]).skips == one;
      SkipBoxesSnoc(s);
    }
  }

  lemma MeanBounds(total: real, count: nat)
    requires count > 0
    requires count as real <= total <= 10.0 * count as real
    ensures InUnitRange(total / count as real)
  {
    var c := count as real;
    assert total / c * c == total;
  }

  /** When some song counted, the rounded average lies in [1, 10]. */
  lemma AverageInRange(inputs: seq<SongInput>)
    requires TallySongs(inputs).count != 0
    ensures InUnitRange(Round2(TallySongs(inputs).total / TallySongs(inputs).count as real))
  {
    TallyBounds(inputs);
    var t := TallySongs(inputs);
    MeanBounds(t.total, t.count);
    RoundingAtEdges(t.total / t.count as real);
  }

  lemma TallyStep(inputs: seq<SongInput>, i: nat)
    requires i < |inputs|
    ensures TallySongs(inputs[..i + 1]) == Combine(TallySongs(inputs[..i]), SongContribution(inputs[i]))
  {
    assert inputs[..i + 1][..i] == inputs[..i];
  }

  /**
   * The "Calculate Average" button: the skip count, which is the number of
   * "S" boxes, and the average of the counted songs rounded to hundredths,
   * or none when no song counted.
   */
  method SongAverage(inputs: seq<SongInput>) returns (average: Option<real>, skips: nat)
    ensures skips == TallySongs(inputs).skips == multiset(inputs)[SongSkip]
    ensures average.None? <==> TallySongs(inputs).count == 0
    ensures average.Some? ==>
      average.value == Round2(TallySongs(inputs).total / TallySongs(inputs).count as real)
    ensures average.Some? ==> InUnitRange(average.value)
  {
    var total, count := 0.0, 0;
    skips := 0;
    var i := 0;
    while i < |inputs|
      invariant 0 <= i <= |inputs|
      invariant TallySongs(inputs[..i]) == SongTally(total, count, skips)
    {
      TallyStep(inputs, i);
      match inputs[i] {
        case SongInterlude =>
        case SongSkip =>
          skips := skips + 1;
        case SongValue(v) =>
          if v.Num? && v.value >= 1.0 && v.value <= 10.0 {
            total := total + v.value;
            count := count + 1;
          }
      }
      i := i + 1;
    }
    assert inputs[..i] == inputs;
    TallySkipsAreSBoxes(inputs);
    if count == 0 {
      average := None;
    } else {
      AverageInRange(inputs);
      average := Some(Round2(total / count as real));
    }
  }

  // ---------------------------------------------------------------------
  // The songs map saved with a record

  /** The label of the `i`-th song box (0-based): "Song 1", "Song 2", … */
  function SongTitle(i: nat): string {
    "Song " + NatToString(i + 1)
  }

  lemma SongTitleInjective(i: nat, j: nat)
    requires SongTitle(i) == SongTitle(j)
    ensures i == j
  {
    assert SongTitle(i)[5..] == NatToString(i + 1);
    assert SongTitle(j)[5..] == NatToString(j + 1);
    NatToStringInjective(i + 1, j + 1);
  }

  /** A song box's text as saved: trimmed and upper-cased. */
  function SongText(value: string): string {
    UpperStr(Trim(value))
  }

  /**
   * The songs map written on submit: in individual mode, every non-empty
   * box `i` is saved under "Song i+1"; otherwise the map is empty.
   */
  method BuildSongs(individual: bool, values: seq<string>) returns (songs: map<string, string>)
    ensures !individual ==> songs == map[]
    ensures individual ==> forall i | 0 <= i < |values| :: SongTitle(i) in songs <==> SongText(values[i]) != ""
    ensures forall i | 0 <= i < |values| && SongTitle(i) in songs :: songs[SongTitle(i)] == SongText(values[i])
    ensures forall k | k in songs :: exists i :: 0 <= i < |values| && k == SongTitle(i)
  {
    songs := map[];
    if !individual {
      return;
    }
    var i := 0;
    while i < |values|
      invariant 0 <= i <= |values|
      invariant forall j | 0 <= j < i :: SongTitle(j) in songs <==> SongText(values[j]) != ""
      invariant forall j | 0 <= j < i && SongTitle(j) in songs :: songs[SongTitle(j)] == SongText(values[j])
      invariant forall k | k in songs :: exists j :: 0 <= j < i && k == SongTitle(j)
      invariant forall j | i <= j < |values| :: SongTitle(j) !in songs
    {
      var val := SongText(values[i]);
      forall j | i < j < |values| ensures SongTitle(j) != SongTitle(i) {
        if SongTitle(j) == SongTitle(i) { SongTitleInjective(i, j); }
      }
      forall j | 0 <= j < i ensures SongTitle(j) != SongTitle(i) {
        if SongTitle(j) == SongTitle(i) { SongTitleInjective(i, j); }
      }
      if val != "" {
        songs := songs[SongTitle(i) := val];
      }
      i := i + 1;
    }
  }
}
