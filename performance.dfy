/** One match performance of a player, its dictionary form, and the two rating
    formulas built on a player's match history: recent form and the skill
    rating update. Ratings are exact reals; Python's floats are not modelled. */
module Performance {
  import opened Wrappers

  /** A logged match performance. `matchId` is never empty once a log has
      been constructed with a non-empty clock reading. */
  datatype PerformanceLog = PerformanceLog(
    goals: int, assists: int, tackles: int, saves: int,
    rating: real, matchId: string)

  /** The JSON dictionary of a log; `None` is a missing key. */
  datatype LogDict = LogDict(
    goals: Option<int>, assists: Option<int>, tackles: Option<int>,
    saves: Option<int>, rating: Option<real>, matchId: Option<string>)

  /** `PerformanceLog(goals, ..., match_id)`: a missing or empty match id is
      replaced by the current time `now` (an ISO timestamp). */
  function NewLog(goals: int, assists: int, tackles: int, saves: int,
                  rating: real, matchId: Option<string>, now: string): (log: PerformanceLog)
    ensures log.goals == goals && log.assists == assists && log.tackles == tackles
    ensures log.saves == saves && log.rating == rating
    ensures matchId.Some? && matchId.value != "" ==> log.matchId == matchId.value
    ensures (matchId.None? || matchId.value == "") ==> log.matchId == now
    ensures now != "" ==> log.matchId != ""
  {
    var id := if matchId.Some? && matchId.value != "" then matchId.value else now;
    PerformanceLog(goals, assists, tackles, saves, rating, id)
  }

  /** `PerformanceLog.from_dict`: every missing count and the rating default
      to 0, and a missing or empty match id becomes the clock reading. */
  function LogFromDict(d: LogDict, now: string): (log: PerformanceLog)
    ensures log.goals == d.goals.GetOr(0) && log.assists == d.assists.GetOr(0)
    ensures log.tackles == d.tackles.GetOr(0) && log.saves == d.saves.GetOr(0)
    ensures log.rating == d.rating.GetOr(0.0)
    ensures d.matchId.Some? && d.matchId.value != "" ==> log.matchId == d.matchId.value
    ensures (d.matchId.None? || d.matchId.value == "") ==> log.matchId == now
  {
    NewLog(d.goals.GetOr(0), d.assists.GetOr(0), d.tackles.GetOr(0), d.saves.GetOr(0),
           d.rating.GetOr(0.0), d.matchId, now)
  }

  /** `PerformanceLog.to_dict`: reading the dictionary back gives the same
      log, whatever the clock says, because the match id is never empty. */
  function LogToDict(log: PerformanceLog): (d: LogDict)
    ensures log.matchId != "" ==> forall now :: LogFromDict(d, now) == log
  {
    LogDict(Some(log.goals), Some(log.assists), Some(log.tackles), Some(log.saves),
            Some(log.rating), Some(log.matchId))
  }

  // ---- rating arithmetic ----

  /** `round(x, 2)`, modelled as rounding half up to two decimals of the
      exact value. */
  function Round2(x: real): (r: real)
    ensures x - 1.0 / 200.0 < r <= x + 1.0 / 200.0
    ensures (r * 100.0).Floor as real == r * 100.0
    ensures x >= 10.0 ==> r >= 10.0
    ensures x <= 1.0 ==> r <= 1.0
  {
    (x * 100.0 + 0.5).Floor as real / 100.0
  }

  /** `max(1, min(10, x))` */
  function Clamp(x: real): (r: real)
    ensures 1.0 <= r <= 10.0
    ensures 1.0 <= x <= 10.0 ==> r == x
    ensures x < 1.0 ==> r == 1.0
    ensures x > 10.0 ==> r == 10.0
  {
    if x < 1.0 then 1.0 else if x > 10.0 then 10.0 else x
  }

  /** `match_history[-n:]`: the last min(n, |h|) logs. The slice is only
      taken with n = 3 and n = 5; Python's `h[-0:]` would be the whole list. */
  function LastN(h: seq<PerformanceLog>, n: nat): (r: seq<PerformanceLog>)
    requires n > 0
    ensures |r| == if |h| < n then |h| else n
    ensures r == h[|h| - |r|..]
  {
    if |h| <= n then h else h[|h| - n..]
  }

  function SumRatings(h: seq<PerformanceLog>): real {
    if h == [] then 0.0 else SumRatings(h[..|h| - 1]) + h[|h| - 1].rating
  }

  /** `sum(log.rating for log in h) / len(h)` */
  function MeanRating(h: seq<PerformanceLog>): real
    requires h != []
  {
    SumRatings(h) / |h| as real
  }

  /** A sum of ratings that each lie in [lo, hi] lies in [n*lo, n*hi]. */
  lemma {:induction false} SumWithin(h: seq<PerformanceLog>, lo: real, hi: real)
    requires forall i :: 0 <= i < |h| ==> lo <= h[i].rating <= hi
    ensures |h| as real * lo <= SumRatings(h) <= |h| as real * hi
  {
    if h != [] {
      SumWithin(h[..|h| - 1], lo, hi);
    }
  }

  /** The mean of ratings in [lo, hi] lies in [lo, hi]; in particular the
      mean of equal ratings is that rating. */
  lemma MeanWithin(h: seq<PerformanceLog>, lo: real, hi: real)
    requires h != []
    requires forall i :: 0 <= i < |h| ==> lo <= h[i].rating <= hi
    ensures lo <= MeanRating(h) <= hi
  {
    SumWithin(h, lo, hi);
    var n := |h| as real;
    assert n * lo <= SumRatings(h) <= n * hi;
    assert lo == (n * lo) / n && hi == (n * hi) / n;
  }

  /** `recent_form(match_history, fallback_rating)`: the mean rating of the
      last three logs, or the fallback when there is no history. */
  function RecentForm(h: seq<PerformanceLog>, fallback: real): (r: real)
    ensures h == [] ==> r == fallback
    ensures 0 < |h| <= 3 ==> r == MeanRating(h)
    ensures |h| > 3 ==> r == MeanRating(h[|h| - 3..])
  {
    if h == [] then fallback else MeanRating(LastN(h, 3))
  }

  /** Recent form of an empty history is the fallback; otherwise it lies
      between the lowest and the highest of the last min(3, n) ratings, so a
      run of equal recent ratings is the form itself. */
  lemma RecentFormWithin(h: seq<PerformanceLog>, fallback: real, lo: real, hi: real)
    requires forall i :: |h| - 3 <= i < |h| && 0 <= i ==> lo <= h[i].rating <= hi
    ensures h == [] ==> RecentForm(h, fallback) == fallback
    ensures h != [] ==> lo <= RecentForm(h, fallback) <= hi
  {
    if h != [] {
      var r := LastN(h, 3);
      assert forall i :: 0 <= i < |r| ==> r[i] == h[|h| - |r| + i];
      MeanWithin(r, lo, hi);
    }
  }

  /** `update_skill_rating(current_rating, match_history)` before rounding
      and clamping: 60% of the current rating and 40% of the mean of the last
      five match ratings. */
  function BlendedRating(current: real, h: seq<PerformanceLog>): real
    requires h != []
  {
    current * 0.6 + MeanRating(LastN(h, 5)) * 0.4
  }

  /** `update_skill_rating`: the current rating when there is no history;
      otherwise the rounded blend, clamped to [1, 10]. */
  function UpdateSkillRating(current: real, h: seq<PerformanceLog>): (r: real)
    ensures h == [] ==> r == current
    ensures h != [] ==> 1.0 <= r <= 10.0
    ensures h != [] && 1.0 <= BlendedRating(current, h) <= 10.0 ==>
              BlendedRating(current, h) - 1.0 / 200.0 < r <= BlendedRating(current, h) + 1.0 / 200.0
    ensures h != [] && BlendedRating(current, h) >= 10.0 ==> r == 10.0
    ensures h != [] && BlendedRating(current, h) <= 1.0 ==> r == 1.0
  {
    if h == [] then current
    else Clamp(Round2(BlendedRating(current, h)))
  }

  /** A player whose rating and last five match ratings all lie in [lo, hi],
      a sub-range of [1, 10], keeps a rating within that range up to the
      rounding step. */
  lemma UpdateStaysNearRange(current: real, h: seq<PerformanceLog>, lo: real, hi: real)
    requires 1.0 <= lo <= hi <= 10.0 && lo <= current <= hi && h != []
    requires forall i :: |h| - 5 <= i < |h| && 0 <= i ==> lo <= h[i].rating <= hi
    ensures lo - 1.0 / 200.0 < UpdateSkillRating(current, h) <= hi + 1.0 / 200.0
  {
    var r := LastN(h, 5);
    assert forall i :: 0 <= i < |r| ==> r[i] == h[|h| - |r| + i];
    MeanWithin(r, lo, hi);
  }

  /** `_calculate_rating_diff`: last minus second-to-last match rating,
      rounded, or 0 with fewer than two matches. */
  function RatingDiff(h: seq<PerformanceLog>): real {
    if |h| >= 2 then Round2(h[|h| - 1].rating - h[|h| - 2].rating) else 0.0
  }

  /** Appending a log makes the difference that of the new rating against
      the previous last one. */
  lemma RatingDiffAfterAppend(h: seq<PerformanceLog>, log: PerformanceLog)
    ensures h == [] ==> RatingDiff(h + [log]) == 0.0
    ensures h != [] ==> RatingDiff(h + [log]) == Round2(log.rating - h[|h| - 1].rating)
  {
  }
}
