/**
 * The backend's weather heuristics: a transition detector over hourly
 * probabilities and cloud cover, and the storyboard builder that cuts the
 * hours into rain episodes and summarises the day.
 *
 * The hourly timestamps are consecutive whole hours: the hour at index x is
 * firstHour + x, counted in hours from some midnight.
 */
module Weather {

  /** The hourly forecast: one entry per hour in each list. */
  datatype Hourly = Hourly(firstHour: int, pprob: seq<int>, wcode: seq<int>, cloud: seq<int>)

  predicate WellFormed(h: Hourly) {
    |h.wcode| == |h.pprob| && |h.cloud| == |h.pprob|
  }

  /** The hour of the day (datetime.hour) of the entry at index x. */
  function HourOfDay(h: Hourly, x: int): int {
    (h.firstHour + x) % 24
  }

  // ------------------------------------------------------ transitions

  /** The labels and index detect_transition returns. */
  datatype Transition = Transition(from: string, to: string, index: int)

  const CloudHi: int := 70
  const CloudLo: int := 30

  predicate RainDrop(probs: seq<int>, i: int, pRainHi: int, pRainLo: int)
    requires 0 <= i && i + 1 < |probs|
  {
    probs[i] >= pRainHi && probs[i + 1] <= pRainLo
  }

  predicate CloudDrop(clouds: seq<int>, i: int)
    requires 0 <= i && i + 1 < |clouds|
  {
    clouds[i] >= CloudHi && clouds[i + 1] <= CloudLo
  }

  predicate HasRainDrop(probs: seq<int>, pRainHi: int, pRainLo: int) {
    exists i | 0 <= i && i + 1 < |probs| :: RainDrop(probs, i, pRainHi, pRainLo)
  }

  predicate HasCloudDrop(clouds: seq<int>) {
    exists i | 0 <= i && i + 1 < |clouds| :: CloudDrop(clouds, i)
  }

  /**
   * detect_transition: the first hour after which the rain probability falls
   * from at least pRainHi to at most pRainLo; failing that, the first hour
   * after which the cloud cover falls from at least 70 to at most 30;
   * failing both, SUNNY to SUNNY at index 0.
   */
  method DetectTransition(h: Hourly, pRainHi: int := 50, pRainLo: int := 20) returns (r: Transition)
    ensures HasRainDrop(h.pprob, pRainHi, pRainLo) ==>
              && r.from == "RAIN" && r.to == "CLEAR"
              && 0 <= r.index && r.index + 1 < |h.pprob|
              && RainDrop(h.pprob, r.index, pRainHi, pRainLo)
              && forall j | 0 <= j < r.index :: !RainDrop(h.pprob, j, pRainHi, pRainLo)
    ensures !HasRainDrop(h.pprob, pRainHi, pRainLo) && HasCloudDrop(h.cloud) ==>
              && r.from == "CLOUDY" && r.to == "SUNNY"
              && 0 <= r.index && r.index + 1 < |h.cloud|
              && CloudDrop(h.cloud, r.index)
              && forall j | 0 <= j < r.index :: !CloudDrop(h.cloud, j)
    ensures !HasRainDrop(h.pprob, pRainHi, pRainLo) && !HasCloudDrop(h.cloud) ==>
              r == Transition("SUNNY", "SUNNY", 0)
  {
    var probs := h.pprob;
    var i := 0;
    while i + 1 < |probs|
      invariant 0 <= i
      invariant forall j | 0 <= j < i && j + 1 < |probs| :: !RainDrop(probs, j, pRainHi, pRainLo)
    {
      if probs[i] >= pRainHi && probs[i + 1] <= pRainLo {
        assert RainDrop(probs, i, pRainHi, pRainLo);
        return Transition("RAIN", "CLEAR", i);
      }
      i := i + 1;
    }
    var clouds := h.cloud;
    i := 0;
    while i + 1 < |clouds|
      invariant 0 <= i
      invariant forall j | 0 <= j < i && j + 1 < |clouds| :: !CloudDrop(clouds, j)
    {
      if clouds[i] >= CloudHi && clouds[i + 1] <= CloudLo {
        assert CloudDrop(clouds, i);
        return Transition("CLOUDY", "SUNNY", i);
      }
      i := i + 1;
    }
    return Transition("SUNNY", "SUNNY", 0);
  }

  // ---------------------------------------------------------- rain hours

  const RainCodes: set<int> := {51, 53, 55, 56, 57, 61, 63, 65, 66, 67, 80, 81, 82, 95, 96, 99}
  const HeavyCodes: set<int> := {65, 75, 82, 99}
  const StormCodes: set<int> := {95, 96, 99}

  /** is_rain: a rain weather code, or a precipitation probability of at least 50. */
  predicate IsRain(h: Hourly, x: int)
    requires WellFormed(h) && 0 <= x < |h.pprob|
  {
    h.wcode[x] in RainCodes || h.pprob[x] >= 50
  }

  /**
   * A probability of 50 or more makes any hour rainy; below that only a rain
   * code does, and every thunderstorm code is one, while heavy snow (75) is not.
   */
  lemma RainRule(h: Hourly, x: int)
    requires WellFormed(h) && 0 <= x < |h.pprob|
    ensures h.pprob[x] >= 50 ==> IsRain(h, x)
    ensures h.pprob[x] < 50 ==> (IsRain(h, x) <==> h.wcode[x] in RainCodes)
    ensures h.wcode[x] in StormCodes ==> IsRain(h, x)
    ensures h.wcode[x] == 75 && h.pprob[x] < 50 ==> !IsRain(h, x)
  {
  }

  // ------------------------------------------------------------ episodes

  datatype EpisodeKind = ProlongedStrong | LightModerate

  function KindName(k: EpisodeKind): string {
    match k
    case ProlongedStrong => "prolonged-strong"
    case LightModerate => "light/moderate"
  }

  /** A rain episode: first and last hour (as timestamps), length in hours, intensity class. */
  datatype Episode = Episode(start: int, end: int, duration: int, kind: EpisodeKind)

  /**
   * int((end - start).seconds / 3600) + 1 for a span of whole hours:
   * timedelta.seconds drops whole days, so the span counts modulo 24.
   */
  function DurationHours(span: int): (d: int)
    ensures 1 <= d <= 24
  {
    span % 24 + 1
  }

  /** DurationHours agrees with the seconds-based formula. */
  lemma DurationFromSeconds(span: int)
    ensures (span * 3600) % 86400 / 3600 + 1 == DurationHours(span)
  {
    var q := span / 24;
    var r := span % 24;
    assert span == 24 * q + r && 0 <= r < 24;
    var secs := span * 3600;
    assert secs == 86400 * q + 3600 * r;
    assert secs / 86400 == q && secs % 86400 == 3600 * r;
    assert (3600 * r) / 3600 == r;
  }

  lemma DurationWithinADay(span: int)
    requires 0 <= span < 24
    ensures DurationHours(span) == span + 1
  {
  }

  /** Hours s..e hold a heavy weather code. */
  function KindOf(h: Hourly, s: int, e: int): EpisodeKind
    requires 0 <= s <= e < |h.wcode|
  {
    if exists x | s <= x <= e :: h.wcode[x] in HeavyCodes then ProlongedStrong else LightModerate
  }

  /** The episode record for hours s..e. */
  function EpisodeOver(h: Hourly, s: int, e: int): Episode
    requires WellFormed(h) && 0 <= s <= e < |h.pprob|
  {
    Episode(h.firstHour + s, h.firstHour + e, DurationHours(e - s), KindOf(h, s, e))
  }

  /**
   * Hours s..e form one episode: they start and end rainy, with a dry hour
   * (or the edge of the data) on each side; they hold at most one dry hour;
   * and a dry hour followed by rain right after the end is absorbed unless
   * one was absorbed already.
   */
  predicate RunShape(h: Hourly, s: int, e: int)
    requires WellFormed(h)
  {
    && 0 <= s <= e < |h.pprob|
    && IsRain(h, s) && IsRain(h, e)
    && (s == 0 || !IsRain(h, s - 1))
    && (e + 1 == |h.pprob| || !IsRain(h, e + 1))
    && (forall x, y | s <= x < y <= e :: IsRain(h, x) || IsRain(h, y))
    && (e + 2 < |h.pprob| && IsRain(h, e + 2) ==> exists x | s < x < e :: !IsRain(h, x))
  }

  predicate IsEpisode(h: Hourly, ep: Episode)
    requires WellFormed(h)
  {
    var s := ep.start - h.firstHour;
    var e := ep.end - h.firstHour;
    RunShape(h, s, e) && ep == EpisodeOver(h, s, e)
  }

  /** The one dry hour an episode may hold lies strictly inside it, between two rainy hours. */
  lemma DryHourFlanked(h: Hourly, s: int, e: int, x: int)
    requires WellFormed(h) && RunShape(h, s, e)
    requires s <= x <= e && !IsRain(h, x)
    ensures s < x < e && IsRain(h, x - 1) && IsRain(h, x + 1)
  {
  }

  /** Hour x lies within one of the episodes. */
  predicate Covered(h: Hourly, eps: seq<Episode>, x: int) {
    exists a | 0 <= a < |eps| :: eps[a].start - h.firstHour <= x <= eps[a].end - h.firstHour
  }

  /** eps is the episode list of h: episodes in increasing order, not touching, covering every rainy hour. */
  predicate EpisodesOf(h: Hourly, eps: seq<Episode>)
    requires WellFormed(h)
  {
    && (forall a {:trigger IsEpisode(h, eps[a])} | 0 <= a < |eps| :: IsEpisode(h, eps[a]))
    && (forall a, b | 0 <= a < b < |eps| :: eps[a].end + 1 < eps[b].start)
    && (forall x {:trigger Covered(h, eps, x)} | 0 <= x < |h.pprob| && IsRain(h, x) :: Covered(h, eps, x))
  }

  /** A run of rain i..j-1 that absorbs no dry hour. */
  lemma PlainRun(h: Hourly, i: int, j: int)
    requires WellFormed(h) && 0 <= i < j <= |h.pprob|
    requires forall x | i <= x < j :: IsRain(h, x)
    requires i == 0 || !IsRain(h, i - 1)
    requires j == |h.pprob| || !IsRain(h, j)
    requires j + 1 < |h.pprob| ==> !IsRain(h, j + 1)
    ensures RunShape(h, i, j - 1)
  {
  }

  /** A run of rain i..g-1, the dry hour g, and a run of rain g+1..k. */
  lemma MergedRun(h: Hourly, i: int, g: int, k: int)
    requires WellFormed(h) && 0 <= i < g < k < |h.pprob|
    requires forall x | i <= x < g :: IsRain(h, x)
    requires !IsRain(h, g)
    requires forall x | g < x <= k :: IsRain(h, x)
    requires i == 0 || !IsRain(h, i - 1)
    requires k + 1 == |h.pprob| || !IsRain(h, k + 1)
    ensures RunShape(h, i, k)
  {
    assert IsRain(h, g - 1) && IsRain(h, g + 1);
  }

  lemma CoveredByPrefix(h: Hourly, eps: seq<Episode>, ep: Episode, x: int)
    requires Covered(h, eps, x)
    ensures Covered(h, eps + [ep], x)
  {
    var a :| 0 <= a < |eps| && eps[a].start - h.firstHour <= x <= eps[a].end - h.firstHour;
    assert (eps + [ep])[a] == eps[a];
  }

  /**
   * From a rainy hour i that follows a dry hour (or the start), extend the
   * run of rain and merge across one dry hour; j is one past the episode.
   */
  method ScanRun(h: Hourly, i: int) returns (j: int)
    requires WellFormed(h) && 0 <= i < |h.pprob| && IsRain(h, i)
    requires i == 0 || !IsRain(h, i - 1)
    ensures i < j <= |h.pprob| && RunShape(h, i, j - 1)
  {
    var n := |h.pprob|;
    j := i + 1;
    while j < n && IsRain(h, j)
      invariant i < j <= n
      invariant forall x | i <= x < j :: IsRain(h, x)
    {
      j := j + 1;
    }
    var k := j;
    ghost var runEnd := j;
    // the merge loop ends in break on both branches: it runs at most once
    if k + 1 < n && !IsRain(h, k) {
      if IsRain(h, k + 1) {
        k := k + 1;
        while k + 1 < n && IsRain(h, k + 1)
          invariant runEnd < k < n
          invariant forall x | runEnd < x <= k :: IsRain(h, x)
        {
          k := k + 1;
        }
        j := k + 1;
      }
    }
    if j == runEnd {
      PlainRun(h, i, j);
    } else {
      MergedRun(h, i, runEnd, j - 1);
    }
  }

  /** Appending the episode over hours i..j-1 keeps every entry an episode ending before j. */
  lemma AppendKeepsEpisodes(h: Hourly, eps: seq<Episode>, i: int, j: int)
    requires WellFormed(h) && 0 <= i < j <= |h.pprob| && RunShape(h, i, j - 1)
    requires forall a {:trigger IsEpisode(h, eps[a])} | 0 <= a < |eps| :: IsEpisode(h, eps[a])
    requires forall a | 0 <= a < |eps| :: eps[a].end - h.firstHour < i
    ensures var eps' := eps + [EpisodeOver(h, i, j - 1)];
            forall a {:trigger IsEpisode(h, eps'[a])} | 0 <= a < |eps'| :: IsEpisode(h, eps'[a])
    ensures var eps' := eps + [EpisodeOver(h, i, j - 1)];
            forall a | 0 <= a < |eps'| :: eps'[a].end - h.firstHour < j
  {
    var ep := EpisodeOver(h, i, j - 1);
    var eps' := eps + [ep];
    assert IsEpisode(h, ep);
    forall a | 0 <= a < |eps'|
      ensures IsEpisode(h, eps'[a]) && eps'[a].end - h.firstHour < j
    {
      if a < |eps| {
        assert eps'[a] == eps[a];
      }
    }
  }

  /** ... keeps the episodes apart, when the new one starts more than an hour after the others end ... */
  lemma AppendKeepsOrder(h: Hourly, eps: seq<Episode>, i: int, j: int)
    requires WellFormed(h) && 0 <= i < j <= |h.pprob|
    requires forall a | 0 <= a < |eps| :: eps[a].end - h.firstHour + 1 < i
    requires forall a, b | 0 <= a < b < |eps| :: eps[a].end + 1 < eps[b].start
    ensures var eps' := eps + [EpisodeOver(h, i, j - 1)];
            forall a, b | 0 <= a < b < |eps'| :: eps'[a].end + 1 < eps'[b].start
  {
  }

  /** ... and covers every rainy hour before j. */
  lemma AppendKeepsCoverage(h: Hourly, eps: seq<Episode>, i: int, j: int)
    requires WellFormed(h) && 0 <= i < j <= |h.pprob|
    requires forall x | 0 <= x < i && IsRain(h, x) :: Covered(h, eps, x)
    ensures var eps' := eps + [EpisodeOver(h, i, j - 1)];
            forall x | 0 <= x < j && IsRain(h, x) :: Covered(h, eps', x)
  {
    var ep := EpisodeOver(h, i, j - 1);
    var eps' := eps + [ep];
    forall x | 0 <= x < i && IsRain(h, x)
      ensures Covered(h, eps', x)
    {
      CoveredByPrefix(h, eps, ep, x);
    }
    forall x | i <= x < j
      ensures Covered(h, eps', x)
    {
      assert eps'[|eps|] == ep;
    }
  }

  /** Episode construction: scan for rain, extend the run, merge across one dry hour. */
  method BuildEpisodes(h: Hourly) returns (eps: seq<Episode>)
    requires WellFormed(h)
    ensures EpisodesOf(h, eps)
  {
    var n := |h.pprob|;
    eps := [];
    var i := 0;
    while i < n
      invariant 0 <= i <= n
      invariant forall a {:trigger IsEpisode(h, eps[a])} | 0 <= a < |eps| :: IsEpisode(h, eps[a])
      invariant forall a | 0 <= a < |eps| :: eps[a].end - h.firstHour < i
      invariant forall a, b | 0 <= a < b < |eps| :: eps[a].end + 1 < eps[b].start
      invariant i < n && IsRain(h, i) ==>
                  && (i == 0 || !IsRain(h, i - 1))
                  && forall a | 0 <= a < |eps| :: eps[a].end - h.firstHour + 1 < i
      invariant forall x | 0 <= x < i && IsRain(h, x) :: Covered(h, eps, x)
    {
      if !IsRain(h, i) {
        i := i + 1;
        continue;
      }
      var j := ScanRun(h, i);
      AppendKeepsEpisodes(h, eps, i, j);
      AppendKeepsOrder(h, eps, i, j);
      AppendKeepsCoverage(h, eps, i, j);
      eps := eps + [EpisodeOver(h, i, j - 1)];
      i := j;
    }
  }

  /** Every rainy hour lies in exactly one episode. */
  lemma CoveredOnce(h: Hourly, eps: seq<Episode>, x: int, a: int, b: int)
    requires WellFormed(h) && EpisodesOf(h, eps)
    requires 0 <= a < |eps| && eps[a].start - h.firstHour <= x <= eps[a].end - h.firstHour
    requires 0 <= b < |eps| && eps[b].start - h.firstHour <= x <= eps[b].end - h.firstHour
    ensures a == b
  {
  }

  /** x is the first rainy hour after hour t. */
  predicate FirstRainAfter(h: Hourly, t: int, x: int)
    requires WellFormed(h)
  {
    && t < x && 0 <= x < |h.pprob| && IsRain(h, x)
    && forall y | t < y < x && 0 <= y :: !IsRain(h, y)
  }

  lemma FirstRainUnique(h: Hourly, t: int, x1: int, x2: int)
    requires WellFormed(h) && FirstRainAfter(h, t, x1) && FirstRainAfter(h, t, x2)
    ensures x1 == x2
  {
  }

  /** The end of the episode before the a-th, as an index; -1 before the first. */
  function PrevEnd(h: Hourly, eps: seq<Episode>, a: int): int
    requires 0 <= a < |eps|
  {
    if a == 0 then -1 else eps[a - 1].end - h.firstHour
  }

  /** Each episode starts at the first rainy hour after the previous one ends. */
  lemma EpisodeStart(h: Hourly, eps: seq<Episode>, a: int)
    requires WellFormed(h) && EpisodesOf(h, eps) && 0 <= a < |eps|
    ensures FirstRainAfter(h, PrevEnd(h, eps, a), eps[a].start - h.firstHour)
  {
    assert IsEpisode(h, eps[a]);
    if a > 0 {
      assert IsEpisode(h, eps[a - 1]);
    }
    var t := PrevEnd(h, eps, a);
    forall y | t < y < eps[a].start - h.firstHour && 0 <= y
      ensures !IsRain(h, y)
    {
      forall b | 0 <= b < |eps|
        ensures !(eps[b].start - h.firstHour <= y <= eps[b].end - h.firstHour)
      {
        if b < a - 1 {
          assert eps[b].end + 1 < eps[a - 1].start;
        }
        if b > a {
          assert eps[a].end + 1 < eps[b].start;
        }
      }
      assert !Covered(h, eps, y);
      assert IsRain(h, y) ==> Covered(h, eps, y);
    }
  }

  /** No rainy hour comes after the last episode. */
  lemma LastEpisodeEndsTheRain(h: Hourly, eps: seq<Episode>, y: int)
    requires WellFormed(h) && EpisodesOf(h, eps)
    requires 0 <= y < |h.pprob| && IsRain(h, y)
    ensures |eps| > 0 && y <= eps[|eps| - 1].end - h.firstHour
  {
    assert Covered(h, eps, y);
    var b :| 0 <= b < |eps| && eps[b].start - h.firstHour <= y <= eps[b].end - h.firstHour;
    var last := |eps| - 1;
    assert IsEpisode(h, eps[last]);
    assert b < last ==> eps[b].end + 1 < eps[last].start;
  }

  /** Hour x exists and is rainy: IsRain, extended with false outside the data. */
  predicate RainyAt(h: Hourly, x: int) {
    0 <= x < |h.pprob| && 0 <= x < |h.wcode| && (h.wcode[x] in RainCodes || h.pprob[x] >= 50)
  }

  /** A run that starts at s cannot end before another run that starts at s. */
  lemma RunNotShorter(h: Hourly, s: int, e1: int, e2: int)
    requires WellFormed(h) && RunShape(h, s, e1) && RunShape(h, s, e2)
    ensures e2 <= e1
  {
    // were e1 < e2, the dry hour e1 + 1 would be the one gap of s..e2, so e1 + 2
    // would be rainy and s..e1 would need a gap of its own: two gaps in s..e2
    assert e1 < e2 ==> !RainyAt(h, e1 + 1);
    assert e1 < e2 ==> RainyAt(h, e1 + 2);
    assert e1 < e2 ==> exists x | s < x < e1 :: !RainyAt(h, x);
  }

  /** Where an episode starts decides where it ends. */
  lemma RunEndUnique(h: Hourly, s: int, e1: int, e2: int)
    requires WellFormed(h) && RunShape(h, s, e1) && RunShape(h, s, e2)
    ensures e1 == e2
  {
    RunNotShorter(h, s, e1, e2);
    RunNotShorter(h, s, e2, e1);
  }

  /** Two episodes that start at the same hour are the same episode. */
  lemma SameStartSameEpisode(h: Hourly, ep1: Episode, ep2: Episode)
    requires WellFormed(h) && IsEpisode(h, ep1) && IsEpisode(h, ep2) && ep1.start == ep2.start
    ensures ep1 == ep2
  {
    RunEndUnique(h, ep1.start - h.firstHour, ep1.end - h.firstHour, ep2.end - h.firstHour);
  }

  /** Episodes at the same position start at the same hour once the ones before them agree. */
  lemma SameStartAt(h: Hourly, eps1: seq<Episode>, eps2: seq<Episode>, a: int)
    requires WellFormed(h) && EpisodesOf(h, eps1) && EpisodesOf(h, eps2)
    requires 0 <= a < |eps1| && a < |eps2|
    requires a > 0 ==> eps1[a - 1] == eps2[a - 1]
    ensures eps1[a].start == eps2[a].start
  {
    var t := PrevEnd(h, eps1, a);
    assert t == PrevEnd(h, eps2, a);
    EpisodeStart(h, eps1, a);
    EpisodeStart(h, eps2, a);
    FirstRainUnique(h, t, eps1[a].start - h.firstHour, eps2[a].start - h.firstHour);
  }

  lemma {:induction false} SameEpisodeAt(h: Hourly, eps1: seq<Episode>, eps2: seq<Episode>, a: int)
    requires WellFormed(h) && EpisodesOf(h, eps1) && EpisodesOf(h, eps2)
    requires 0 <= a < |eps1| && a < |eps2|
    ensures eps1[a] == eps2[a]
    decreases a
  {
    if a > 0 {
      SameEpisodeAt(h, eps1, eps2, a - 1);
    }
    SameStartAt(h, eps1, eps2, a);
    SameStartSameEpisode(h, eps1[a], eps2[a]);
  }

  lemma {:induction false} NoLongerThan(h: Hourly, eps1: seq<Episode>, eps2: seq<Episode>, a: int)
    requires WellFormed(h) && EpisodesOf(h, eps1) && EpisodesOf(h, eps2)
    requires 0 <= a < |eps2|
    ensures a < |eps1|
    decreases a
  {
    EpisodeStart(h, eps2, a);
    LastEpisodeEndsTheRain(h, eps1, eps2[a].start - h.firstHour);
    if a > 0 {
      NoLongerThan(h, eps1, eps2, a - 1);
      SameEpisodeAt(h, eps1, eps2, a - 1);
      // eps1 has an episode at a - 1 ending before eps2[a] starts, yet some episode of eps1 reaches that start
      assert eps2[a - 1].end + 1 < eps2[a].start;
    }
  }

  /** The episode list is determined by the hours: EpisodesOf has exactly one solution. */
  lemma EpisodesUnique(h: Hourly, eps1: seq<Episode>, eps2: seq<Episode>)
    requires WellFormed(h) && EpisodesOf(h, eps1) && EpisodesOf(h, eps2)
    ensures eps1 == eps2
  {
    if |eps2| > 0 {
      NoLongerThan(h, eps1, eps2, |eps2| - 1);
    }
    if |eps1| > 0 {
      NoLongerThan(h, eps2, eps1, |eps1| - 1);
    }
    forall a | 0 <= a < |eps1|
      ensures eps1[a] == eps2[a]
    {
      SameEpisodeAt(h, eps1, eps2, a);
    }
  }

  /** Over a day of at most 24 hours, an episode lasts end - start + 1 hours. */
  lemma EpisodeDuration(h: Hourly, ep: Episode)
    requires WellFormed(h) && IsEpisode(h, ep) && |h.pprob| <= 24
    ensures ep.duration == ep.end - ep.start + 1 >= 1
  {
    DurationWithinADay(ep.end - ep.start);
  }

  // ---------------------------------------------------------- day summary

  /** The total duration of the episodes, in hours. */
  function TotalRainHours(eps: seq<Episode>): (total: int)
    ensures (forall a | 0 <= a < |eps| :: eps[a].duration >= 1) ==>
              |eps| <= total && forall a | 0 <= a < |eps| :: eps[a].duration <= total
  {
    if |eps| == 0 then 0 else eps[0].duration + TotalRainHours(eps[1..])
  }

  datatype StoryType = DryDay | ProlongedRain | IntermittentShowers | PassingShowerThenClearing | Showers

  function StoryName(t: StoryType): string {
    match t
    case DryDay => "Dry day"
    case ProlongedRain => "Prolonged rain"
    case IntermittentShowers => "Intermittent showers"
    case PassingShowerThenClearing => "Passing shower then clearing"
    case Showers => "Showers"
  }

  /** The latest end among the episodes. */
  function LastRainEnd(eps: seq<Episode>): (t: int)
    requires |eps| > 0
    ensures forall a | 0 <= a < |eps| :: eps[a].end <= t
    ensures exists a | 0 <= a < |eps| :: eps[a].end == t
  {
    if |eps| == 1 then eps[0].end
    else
      var rest := LastRainEnd(eps[1..]);
      if eps[0].end >= rest then eps[0].end else rest
  }

  /** Some hour after t has cloud cover below 40. */
  predicate ClearsAfter(h: Hourly, t: int) {
    exists x | 0 <= x < |h.cloud| && h.firstHour + x > t :: h.cloud[x] < 40
  }

  /** The day's story type, the first rule that applies. */
  function StoryTypeOf(h: Hourly, eps: seq<Episode>): (t: StoryType)
    ensures TotalRainHours(eps) >= 6 ==> t == ProlongedRain
    ensures t == ProlongedRain <==>
              TotalRainHours(eps) >= 1 &&
              ((exists a | 0 <= a < |eps| :: eps[a].duration >= 4) || TotalRainHours(eps) >= 6)
    ensures t == IntermittentShowers ==> |eps| >= 2 && 2 <= TotalRainHours(eps) <= 4
    ensures t == PassingShowerThenClearing ==>
              |eps| == 1 && eps[0].duration < 2 && ClearsAfter(h, LastRainEnd(eps))
  {
    var total := TotalRainHours(eps);
    if total < 1 then DryDay
    else if (exists a | 0 <= a < |eps| :: eps[a].duration >= 4) || total >= 6 then ProlongedRain
    else if |eps| >= 2 && 2 <= total <= 4 then IntermittentShowers
    else if |eps| == 1 && eps[0].duration < 2 && ClearsAfter(h, LastRainEnd(eps)) then PassingShowerThenClearing
    else Showers
  }

  /** Every episode lasts at least an hour. */
  lemma DurationsPositive(h: Hourly, eps: seq<Episode>)
    requires WellFormed(h) && EpisodesOf(h, eps)
    ensures forall a | 0 <= a < |eps| :: eps[a].duration >= 1
  {
    forall a | 0 <= a < |eps|
      ensures eps[a].duration >= 1
    {
      assert IsEpisode(h, eps[a]);
    }
  }

  /** The story type is "Dry day" exactly when the total is below one hour. */
  lemma DryDayIffNoRainHours(h: Hourly, eps: seq<Episode>)
    ensures StoryTypeOf(h, eps) == DryDay <==> TotalRainHours(eps) < 1
  {
  }

  /** A dry day is exactly a day without a rainy hour. */
  lemma DryDayIffNoRain(h: Hourly, eps: seq<Episode>)
    requires WellFormed(h) && EpisodesOf(h, eps)
    ensures StoryTypeOf(h, eps) == DryDay <==> forall x | 0 <= x < |h.pprob| :: !IsRain(h, x)
  {
    DurationsPositive(h, eps);
    DryDayIffNoRainHours(h, eps);
    if |eps| > 0 {
      assert IsEpisode(h, eps[0]);
      assert IsRain(h, eps[0].start - h.firstHour);
    } else {
      assert TotalRainHours(eps) == 0;
      forall x | 0 <= x < |h.pprob|
        ensures !IsRain(h, x)
      {
        assert IsRain(h, x) ==> Covered(h, eps, x);
      }
    }
  }

  /** With every duration at least one hour, each episode leaves at least an hour per other episode in the total. */
  lemma {:induction false} DurationWithOthers(eps: seq<Episode>, a: int)
    requires forall b | 0 <= b < |eps| :: eps[b].duration >= 1
    requires 0 <= a < |eps|
    ensures eps[a].duration + |eps| - 1 <= TotalRainHours(eps)
  {
    if a > 0 {
      assert forall b | 0 <= b < |eps| - 1 :: eps[1..][b] == eps[b + 1];
      DurationWithOthers(eps[1..], a - 1);
      assert eps[1..][a - 1] == eps[a];
    } else {
      var rest := eps[1..];
      assert forall b | 0 <= b < |rest| :: rest[b] == eps[b + 1];
      assert |rest| <= TotalRainHours(rest);
    }
  }

  /** At least two episodes totalling two to four hours make a day of intermittent showers. */
  lemma TwoShortEpisodesAreIntermittent(h: Hourly, eps: seq<Episode>)
    requires WellFormed(h) && EpisodesOf(h, eps)
    requires |eps| >= 2 && 2 <= TotalRainHours(eps) <= 4
    ensures StoryTypeOf(h, eps) == IntermittentShowers
  {
    DurationsPositive(h, eps);
    forall a | 0 <= a < |eps|
      ensures eps[a].duration < 4
    {
      DurationWithOthers(eps, a);
    }
  }

  /** An episode of four hours or more makes the day one of prolonged rain. */
  lemma LongEpisodeMeansProlonged(h: Hourly, eps: seq<Episode>, a: int)
    requires WellFormed(h) && EpisodesOf(h, eps)
    requires 0 <= a < |eps| && eps[a].duration >= 4
    ensures StoryTypeOf(h, eps) == ProlongedRain
  {
    DurationsPositive(h, eps);
  }

  /**
   * A rainy day that none of the earlier rules claims: no episode of four
   * hours, under six hours in all, not two or more episodes within four
   * hours, and not one short episode followed by clearing.
   */
  lemma ShowersOtherwise(h: Hourly, eps: seq<Episode>)
    requires WellFormed(h) && EpisodesOf(h, eps)
    ensures StoryTypeOf(h, eps) == Showers <==>
              && 1 <= TotalRainHours(eps) < 6
              && (forall a | 0 <= a < |eps| :: eps[a].duration < 4)
              && !(|eps| >= 2 && TotalRainHours(eps) <= 4)
              && !(|eps| == 1 && eps[0].duration < 2 && ClearsAfter(h, LastRainEnd(eps)))
  {
    DurationsPositive(h, eps);
    if |eps| >= 2 && TotalRainHours(eps) <= 4 {
      DurationWithOthers(eps, 0);
      DurationWithOthers(eps, 1);
    }
  }

  /** A single one-hour episode followed by an hour with cloud below 40 is a passing shower. */
  lemma SingleShortShowerClears(h: Hourly, eps: seq<Episode>, x: int)
    requires WellFormed(h) && EpisodesOf(h, eps)
    requires |eps| == 1 && eps[0].start == eps[0].end
    requires 0 <= x < |h.cloud| && h.firstHour + x > eps[0].end && h.cloud[x] < 40
    ensures StoryTypeOf(h, eps) == PassingShowerThenClearing
  {
    assert IsEpisode(h, eps[0]);
    assert eps[0].duration == 1;
    assert TotalRainHours(eps) == 1 by {
      assert eps[1..] == [];
    }
    assert LastRainEnd(eps) == eps[0].end;
    assert ClearsAfter(h, eps[0].end);
  }

  // -------------------------------------------------------------- scenes

  /** What a block of hours looks like; NoData is the "—" of an empty block. */
  datatype Scene = NoData | Rain | Overcast | Cloudy | Clear

  function SceneName(s: Scene): string {
    match s
    case NoData => "—"
    case Rain => "Rain"
    case Overcast => "Overcast"
    case Cloudy => "Cloudy"
    case Clear => "Clear"
  }

  /** The indices below m whose hour of the day lies in lo..hi, in order. */
  function BlockIndices(h: Hourly, lo: int, hi: int, m: int): (idx: seq<int>)
    requires 0 <= m
    ensures forall x :: x in idx <==> 0 <= x < m && lo <= HourOfDay(h, x) <= hi
    ensures forall p, q | 0 <= p < q < |idx| :: idx[p] < idx[q]
    ensures forall p | 0 <= p < |idx| :: 0 <= idx[p] < m
    decreases m
  {
    if m == 0 then []
    else
      var rest := BlockIndices(h, lo, hi, m - 1);
      if lo <= HourOfDay(h, m - 1) <= hi then rest + [m - 1] else rest
  }

  /** The number of rainy hours among idx. */
  function RainHours(h: Hourly, idx: seq<int>): (r: int)
    requires WellFormed(h) && forall p | 0 <= p < |idx| :: 0 <= idx[p] < |h.pprob|
    ensures 0 <= r <= |idx|
  {
    if |idx| == 0 then 0
    else RainHours(h, idx[..|idx| - 1]) + (if IsRain(h, idx[|idx| - 1]) then 1 else 0)
  }

  /** The total cloud cover over idx. */
  function CloudSum(h: Hourly, idx: seq<int>): int
    requires WellFormed(h) && forall p | 0 <= p < |idx| :: 0 <= idx[p] < |h.pprob|
  {
    if |idx| == 0 then 0 else CloudSum(h, idx[..|idx| - 1]) + h.cloud[idx[|idx| - 1]]
  }

  /** dominant(lo, hi), with the averages compared by cross-multiplication. */
  function Dominant(h: Hourly, lo: int, hi: int): (s: Scene)
    requires WellFormed(h)
    ensures s == NoData <==> forall x | 0 <= x < |h.pprob| :: !(lo <= HourOfDay(h, x) <= hi)
  {
    var idx := BlockIndices(h, lo, hi, |h.pprob|);
    if |idx| == 0 then NoData
    else
      assert idx[0] in idx;
      if 2 * RainHours(h, idx) >= |idx| then Rain
    else if CloudSum(h, idx) >= 70 * |idx| then Overcast
    else if CloudSum(h, idx) >= 40 * |idx| then Cloudy
    else Clear
  }

  /** dominant(lo, hi) as written: the share of rainy hours and the average cloud cover as fractions. */
  function DominantByAverage(h: Hourly, lo: int, hi: int): Scene
    requires WellFormed(h)
  {
    var idx := BlockIndices(h, lo, hi, |h.pprob|);
    if |idx| == 0 then NoData
    else
      var len := |idx| as real;
      var avgCloud := CloudSum(h, idx) as real / len;
      if RainHours(h, idx) as real / len >= 0.5 then Rain
      else if avgCloud >= 70.0 then Overcast
      else if avgCloud >= 40.0 then Cloudy
      else Clear
  }

  lemma AtLeastAverage(total: int, len: int, bound: int)
    requires len > 0
    ensures total as real / len as real >= bound as real <==> total >= bound * len
  {
    var avg := total as real / len as real;
    assert avg * len as real == total as real;
    if avg >= bound as real {
      assert avg * len as real >= bound as real * len as real;
    } else {
      assert avg * len as real < bound as real * len as real;
    }
  }

  lemma AtLeastHalf(part: int, len: int)
    requires len > 0
    ensures part as real / len as real >= 0.5 <==> 2 * part >= len
  {
    var share := part as real / len as real;
    assert share * len as real == part as real;
    if share >= 0.5 {
      assert share * len as real >= 0.5 * len as real;
    } else {
      assert share * len as real < 0.5 * len as real;
    }
  }

  /** Cross-multiplying gives the same scene as comparing the averages. */
  lemma DominantMatchesAverage(h: Hourly, lo: int, hi: int)
    requires WellFormed(h)
    ensures Dominant(h, lo, hi) == DominantByAverage(h, lo, hi)
  {
    var idx := BlockIndices(h, lo, hi, |h.pprob|);
    if |idx| > 0 {
      AtLeastHalf(RainHours(h, idx), |idx|);
      AtLeastAverage(CloudSum(h, idx), |idx|, 70);
      AtLeastAverage(CloudSum(h, idx), |idx|, 40);
    }
  }

  /** Over a whole day of hourly data every block of the day has data. */
  lemma FullDayHasEveryBlock(h: Hourly, lo: int, hi: int)
    requires WellFormed(h) && |h.pprob| >= 24 && 0 <= lo <= hi <= 23
    ensures Dominant(h, lo, hi) != NoData
  {
    var x := (lo - h.firstHour) % 24;
    assert HourOfDay(h, x) == lo;
    assert x in BlockIndices(h, lo, hi, |h.pprob|);
  }

  /** The morning, afternoon and evening scenes. */
  function Scenes(h: Hourly): seq<(string, Scene)>
    requires WellFormed(h)
  {
    [("Morning", Dominant(h, 0, 11)), ("Afternoon", Dominant(h, 12, 17)), ("Evening", Dominant(h, 18, 23))]
  }

  /** Whether some code is a storm code. */
  function AnyStormCode(codes: seq<int>): (r: bool)
    ensures r <==> exists x | 0 <= x < |codes| :: codes[x] in StormCodes
  {
    if |codes| == 0 then false
    else codes[0] in StormCodes || AnyStormCode(codes[1..])
  }

  // ---------------------------------------------------------- storyboard

  datatype Storyboard = Storyboard(storyType: StoryType, episodes: seq<Episode>,
                                   scenes: seq<(string, Scene)>, stormy: bool)

  /** The storyboard's string-valued entries, as the prompt builder reads them. */
  function TextFields(sb: Storyboard): map<string, string> {
    map["story_type" := StoryName(sb.storyType)]
  }

  /** build_storyboard. */
  method BuildStoryboard(h: Hourly) returns (sb: Storyboard)
    requires WellFormed(h)
    ensures EpisodesOf(h, sb.episodes)
    ensures sb.storyType == StoryTypeOf(h, sb.episodes)
    ensures sb.storyType == DryDay <==> forall x | 0 <= x < |h.pprob| :: !IsRain(h, x)
    ensures sb.scenes == Scenes(h)
    ensures sb.stormy <==> exists x | 0 <= x < |h.wcode| :: h.wcode[x] in StormCodes
  {
    var episodes := BuildEpisodes(h);
    DryDayIffNoRain(h, episodes);
    var storyType := StoryTypeOf(h, episodes);
    var scenes := Scenes(h);
    var stormy := AnyStormCode(h.wcode);
    sb := Storyboard(storyType, episodes, scenes, stormy);
  }
}
