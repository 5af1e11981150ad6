/** The player record: a class whose fields the routes update in place, with
    its dictionary form for the JSON player store. */
module PlayerModel {
  import opened Wrappers
  import opened Text
  import opened Performance

  /** A notification or inbox entry. Every producer in the repository writes
      a message; `kind` is the optional "type" key. */
  datatype Notification = Notification(kind: Option<string>, message: string, timestamp: Option<string>)

  /** An entry of `ratings_received` / `players_player_ratings`. */
  datatype PeerRating = PeerRating(from: string, matchId: string, rating: int, comment: string)

  /** The JSON dictionary of a player; `None` is a missing key.
      `name` is required: the loader skips entries without one. */
  datatype PlayerDict = PlayerDict(
    id: Option<string>, name: string, position: Option<string>,
    skillRating: Option<real>, age: Option<int>, available: Option<bool>,
    role: Option<string>, preferredFoot: Option<string>, preferredDays: Option<string>,
    preferredTimes: Option<string>, preferredLocations: Option<string>,
    accessCode: Option<string>, isCaptain: Option<bool>,
    matchHistory: Option<seq<LogDict>>, ratingsReceived: Option<seq<PeerRating>>,
    notifications: Option<seq<Notification>>, inbox: Option<seq<Notification>>,
    playersPlayerRatings: Option<seq<PeerRating>>)

  /** Python's `value or fresh` for an optional string: a missing or empty
      value is replaced. */
  function OrFresh(v: Option<string>, replacement: string): (r: string)
    ensures v.Some? && v.value != "" ==> r == v.value
    ensures (v.None? || v.value == "") ==> r == replacement
  {
    if v.Some? && v.value != "" then v.value else replacement
  }

  function OrEmpty<T>(v: Option<seq<T>>): seq<T> {
    if v.Some? then v.value else []
  }

  function LogsFromDicts(ds: seq<LogDict>, now: string): (r: seq<PerformanceLog>)
    ensures |r| == |ds|
    ensures forall i :: 0 <= i < |ds| ==> r[i] == LogFromDict(ds[i], now)
  {
    if ds == [] then [] else [LogFromDict(ds[0], now)] + LogsFromDicts(ds[1..], now)
  }

  function LogsToDicts(h: seq<PerformanceLog>): (r: seq<LogDict>)
    ensures |r| == |h|
    ensures forall i :: 0 <= i < |h| ==> r[i] == LogToDict(h[i])
  {
    if h == [] then [] else [LogToDict(h[0])] + LogsToDicts(h[1..])
  }

  /** `any(r['from'] == from_id and r['match_id'] == match_id for r in rs)` */
  function AnyRatingFrom(rs: seq<PeerRating>, fromId: string, matchId: string): (b: bool)
    ensures b <==> exists i :: 0 <= i < |rs| && rs[i].from == fromId && rs[i].matchId == matchId
  {
    if rs == [] then false
    else
      assert forall i :: 1 <= i < |rs| ==> rs[i] == rs[1..][i - 1];
      (rs[0].from == fromId && rs[0].matchId == matchId) || AnyRatingFrom(rs[1..], fromId, matchId)
  }

  class Player {
    var id: string
    var name: string
    var position: string
    var skillRating: real
    var age: Option<int>
    var available: bool
    var role: string
    var preferredFoot: Option<string>
    var preferredDays: Option<string>
    var preferredTimes: Option<string>
    var preferredLocations: Option<string>
    var accessCode: string
    var isCaptain: bool
    var matchHistory: seq<PerformanceLog>
    var ratingsReceived: seq<PeerRating>
    var notifications: seq<Notification>
    var inbox: seq<Notification>
    var playersPlayerRatings: seq<PeerRating>
    var ratingDiff: real

    /** `Player(...)`. `freshId` and `freshCode` stand for the random UUID
        and the six-character access code drawn when none is given. The
        position is stored upper-cased. */
    constructor (name: string, position: string, skillRating: real,
                 freshId: string, freshCode: string,
                 age: Option<int> := None, playerId: Option<string> := None,
                 available: bool := true, role: string := "player",
                 preferredFoot: Option<string> := None, preferredDays: Option<string> := None,
                 preferredTimes: Option<string> := None, preferredLocations: Option<string> := None,
                 isCaptain: bool := false, matchHistory: Option<seq<PerformanceLog>> := None,
                 accessCode: Option<string> := None,
                 ratingsReceived: Option<seq<PeerRating>> := None,
                 notifications: Option<seq<Notification>> := None,
                 inbox: Option<seq<Notification>> := None,
                 playersPlayerRatings: Option<seq<PeerRating>> := None)
      ensures this.id == OrFresh(playerId, freshId)
      ensures this.name == name && this.position == Upper(position)
      ensures this.skillRating == skillRating && this.age == age
      ensures this.available == available && this.role == role && this.isCaptain == isCaptain
      ensures this.preferredFoot == preferredFoot && this.preferredDays == preferredDays
      ensures this.preferredTimes == preferredTimes && this.preferredLocations == preferredLocations
      ensures this.accessCode == OrFresh(accessCode, freshCode)
      ensures this.matchHistory == OrEmpty(matchHistory)
      ensures this.ratingsReceived == OrEmpty(ratingsReceived)
      ensures this.notifications == OrEmpty(notifications) && this.inbox == OrEmpty(inbox)
      ensures this.playersPlayerRatings == OrEmpty(playersPlayerRatings)
      ensures this.ratingDiff == RatingDiff(this.matchHistory)
    {
      this.id := OrFresh(playerId, freshId);
      this.name := name;
      this.position := Upper(position);
      this.skillRating := skillRating;
      this.age := age;
      this.available := available;
      this.role := role;
      this.preferredFoot := preferredFoot;
      this.preferredDays := preferredDays;
      this.preferredTimes := preferredTimes;
      this.preferredLocations := preferredLocations;
      this.accessCode := OrFresh(accessCode, freshCode);
      this.isCaptain := isCaptain;
      this.matchHistory := OrEmpty(matchHistory);
      this.ratingsReceived := OrEmpty(ratingsReceived);
      this.notifications := OrEmpty(notifications);
      this.inbox := OrEmpty(inbox);
      this.playersPlayerRatings := OrEmpty(playersPlayerRatings);
      this.ratingDiff := RatingDiff(OrEmpty(matchHistory));
    }

    /** `Player.from_dict(data)`: the defaults are position "Unknown"
        (stored as "UNKNOWN"), skill 5.0, available, role "player", not a
        captain, and empty lists; `now` is the clock reading used for logs
        without a match id. */
    constructor FromDict(d: PlayerDict, freshId: string, freshCode: string, now: string)
      ensures id == OrFresh(d.id, freshId) && name == d.name
      ensures position == Upper(d.position.GetOr("Unknown"))
      ensures skillRating == d.skillRating.GetOr(5.0) && age == d.age
      ensures available == d.available.GetOr(true) && role == d.role.GetOr("player")
      ensures isCaptain == d.isCaptain.GetOr(false)
      ensures preferredFoot == d.preferredFoot && preferredDays == d.preferredDays
      ensures preferredTimes == d.preferredTimes && preferredLocations == d.preferredLocations
      ensures accessCode == OrFresh(d.accessCode, freshCode)
      ensures matchHistory == LogsFromDicts(OrEmpty(d.matchHistory), now)
      ensures ratingsReceived == OrEmpty(d.ratingsReceived)
      ensures notifications == OrEmpty(d.notifications) && inbox == OrEmpty(d.inbox)
      ensures playersPlayerRatings == OrEmpty(d.playersPlayerRatings)
      ensures ratingDiff == RatingDiff(matchHistory)
    {
      id := OrFresh(d.id, freshId);
      name := d.name;
      position := Upper(d.position.GetOr("Unknown"));
      skillRating := d.skillRating.GetOr(5.0);
      age := d.age;
      available := d.available.GetOr(true);
      role := d.role.GetOr("player");
      preferredFoot := d.preferredFoot;
      preferredDays := d.preferredDays;
      preferredTimes := d.preferredTimes;
      preferredLocations := d.preferredLocations;
      accessCode := OrFresh(d.accessCode, freshCode);
      isCaptain := d.isCaptain.GetOr(false);
      matchHistory := LogsFromDicts(OrEmpty(d.matchHistory), now);
      ratingsReceived := OrEmpty(d.ratingsReceived);
      notifications := OrEmpty(d.notifications);
      inbox := OrEmpty(d.inbox);
      playersPlayerRatings := OrEmpty(d.playersPlayerRatings);
      ratingDiff := RatingDiff(LogsFromDicts(OrEmpty(d.matchHistory), now));
    }

    /** `to_dict()`: every key holds its field; an optional field that is
        `None` (age, the preferences) is written as a missing key, which
        `from_dict` reads back the same way. */
    function ToDict(): (d: PlayerDict)
      reads this
      ensures d.id == Some(id) && d.name == name && d.position == Some(position)
      ensures d.skillRating == Some(skillRating) && d.available == Some(available)
      ensures d.isCaptain == Some(isCaptain) && d.accessCode == Some(accessCode)
      ensures d.notifications == Some(notifications) && d.inbox == Some(inbox)
      ensures d.age == age && d.role == Some(role)
      ensures d.preferredFoot == preferredFoot && d.preferredDays == preferredDays
      ensures d.preferredTimes == preferredTimes && d.preferredLocations == preferredLocations
      ensures d.matchHistory == Some(LogsToDicts(matchHistory))
      ensures d.ratingsReceived == Some(ratingsReceived)
      ensures d.playersPlayerRatings == Some(playersPlayerRatings)
    {
      PlayerDict(Some(id), name, Some(position), Some(skillRating), age, Some(available),
                 Some(role), preferredFoot, preferredDays, preferredTimes, preferredLocations,
                 Some(accessCode), Some(isCaptain), Some(LogsToDicts(matchHistory)),
                 Some(ratingsReceived), Some(notifications), Some(inbox),
                 Some(playersPlayerRatings))
    }

    /** `_calculate_rating_diff()` */
    method CalculateRatingDiff()
      modifies this`ratingDiff
      ensures ratingDiff == RatingDiff(matchHistory)
    {
      if |matchHistory| >= 2 {
        var last := matchHistory[|matchHistory| - 1].rating;
        var secondLast := matchHistory[|matchHistory| - 2].rating;
        ratingDiff := Round2(last - secondLast);
      } else {
        ratingDiff := 0.0;
      }
    }

    /** `update_performance(log)`: exactly one log is appended and the
        rating difference recomputed. */
    method UpdatePerformance(log: PerformanceLog)
      modifies this`matchHistory, this`ratingDiff
      ensures matchHistory == old(matchHistory) + [log]
      ensures ratingDiff == RatingDiff(matchHistory)
    {
      matchHistory := matchHistory + [log];
      CalculateRatingDiff();
    }

    /** `update_skill_rating()`: no change without history. */
    method UpdateSkillRating()
      modifies this`skillRating
      ensures matchHistory == [] ==> skillRating == old(skillRating)
      ensures skillRating == Performance.UpdateSkillRating(old(skillRating), matchHistory)
    {
      if matchHistory == [] {
        return;
      }
      skillRating := Performance.UpdateSkillRating(skillRating, matchHistory);
    }

    /** `recent_form()`: the player's own skill rating stands in for the form
        of a player without matches. */
    function RecentForm(): (f: real)
      reads this`matchHistory, this`skillRating
      ensures matchHistory == [] ==> f == skillRating
      ensures 0 < |matchHistory| <= 3 ==> f == Performance.MeanRating(matchHistory)
      ensures |matchHistory| > 3 ==> f == Performance.MeanRating(matchHistory[|matchHistory| - 3..])
    {
      Performance.RecentForm(matchHistory, skillRating)
    }

    /** `has_rated_player(target, match_id)`: the target's peer ratings hold
        an entry from this player for that match. */
    function HasRatedPlayer(target: Player, matchId: string): (b: bool)
      reads this`id, target`playersPlayerRatings
      ensures b <==> exists i :: 0 <= i < |target.playersPlayerRatings| &&
                       target.playersPlayerRatings[i].from == id &&
                       target.playersPlayerRatings[i].matchId == matchId
    {
      AnyRatingFrom(target.playersPlayerRatings, id, matchId)
    }

    /** `add_notification(data)`: the same entry, stamped with `now` only
        when it has no timestamp, is appended to both lists. */
    method AddNotification(n: Notification, now: string)
      modifies this`notifications, this`inbox
      ensures var stamped := if n.timestamp.Some? then n else n.(timestamp := Some(now));
              notifications == old(notifications) + [stamped] && inbox == old(inbox) + [stamped]
    {
      var stamped := n;
      if n.timestamp.None? {
        stamped := n.(timestamp := Some(now));
      }
      notifications := notifications + [stamped];
      inbox := inbox + [stamped];
    }

    /** `clear_notifications()`: the inbox is kept. */
    method ClearNotifications()
      modifies this`notifications
      ensures notifications == []
    {
      notifications := [];
    }
  }

  /** A player saved with `to_dict` and loaded back with `from_dict` has the
      same fields, provided it was itself built by the constructor (id and
      access code filled in, position already upper-case, every log with a
      match id). */
  method SaveAndLoad(p: Player, freshId: string, freshCode: string, now: string) returns (q: Player)
    requires p.id != "" && p.accessCode != "" && p.position == Upper(p.position)
    requires forall i :: 0 <= i < |p.matchHistory| ==> p.matchHistory[i].matchId != ""
    ensures fresh(q)
    ensures q.id == p.id && q.name == p.name && q.position == p.position
    ensures q.skillRating == p.skillRating && q.age == p.age
    ensures q.available == p.available && q.isCaptain == p.isCaptain && q.role == p.role
    ensures q.accessCode == p.accessCode && q.matchHistory == p.matchHistory
    ensures q.ratingsReceived == p.ratingsReceived && q.playersPlayerRatings == p.playersPlayerRatings
    ensures q.notifications == p.notifications && q.inbox == p.inbox
    ensures q.ratingDiff == RatingDiff(p.matchHistory)
  {
    var d := p.ToDict();
    q := new Player.FromDict(d, freshId, freshCode, now);
    UpperIdempotent(p.position);
    assert forall i :: 0 <= i < |p.matchHistory| ==> q.matchHistory[i] == p.matchHistory[i];
  }
}
