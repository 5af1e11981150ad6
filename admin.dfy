/** The two admin routes with logic of their own: toggling a player's captain
    flag (at most two captains, one captain notice per player), and the
    admin player list (rating difference refreshed, sorted by skill, then
    filtered by name, position and availability). */
module Admin {
  import opened Wrappers
  import opened Text
  import opened Ranking
  import opened Performance
  import opened PlayerModel
  import opened TeamGenerator

  /** No player may be promoted while this many captains exist. */
  const MAX_CAPTAINS: nat := 2

  /** A notification whose message contains this is a captain notice. */
  const CAPTAIN_PHRASE := "assigned as a captain"

  const CAPTAIN_MESSAGE := "You've been " + CAPTAIN_PHRASE + "! Go to your dashboard when the draft begins."

  /** The notice appended on promotion, stamped with the clock reading `now`. */
  function CaptainNotice(now: string): Notification {
    Notification(None, CAPTAIN_MESSAGE, Some(now))
  }

  // ---------------------------------------------------------------------
  // Captain assignment
  // ---------------------------------------------------------------------

  /** What `assign_captain` reads and writes of a player. */
  datatype Entry = Entry(id: string, isCaptain: bool, notifications: seq<Notification>, inbox: seq<Notification>)

  datatype AssignError = TooManyCaptains

  function EntryOf(p: Player): Entry
    reads p`id, p`isCaptain, p`notifications, p`inbox
  {
    Entry(p.id, p.isCaptain, p.notifications, p.inbox)
  }

  function Entries(ps: seq<Player>): (es: seq<Entry>)
    reads ps
    ensures |es| == |ps|
    ensures forall i :: 0 <= i < |ps| ==> es[i] == EntryOf(ps[i])
    decreases |ps|
  {
    if ps == [] then [] else Entries(ps[..|ps| - 1]) + [EntryOf(ps[|ps| - 1])]
  }

  /** `sum(1 for p in players if p.is_captain)` */
  function CaptainCount(es: seq<Entry>): nat
    decreases |es|
  {
    if es == [] then 0
    else CaptainCount(es[..|es| - 1]) + (if es[|es| - 1].isCaptain then 1 else 0)
  }

  /** The position of the first entry with the id, if any. Kept per record type
      (`Member`, `Entry`, `Invite`) rather than one search over a key function,
      so that contracts and lemmas quantify over the record field directly. */
  function FirstWithId(es: seq<Entry>, id: string): (r: Option<nat>)
    ensures r.Some? ==> r.value < |es| && es[r.value].id == id &&
                        forall j :: 0 <= j < r.value ==> es[j].id != id
    ensures r.None? ==> forall j :: 0 <= j < |es| ==> es[j].id != id
  {
    if es == [] then None
    else if es[0].id == id then Some(0)
    else
      var r := FirstWithId(es[1..], id);
      if r.Some? then Some(r.value + 1) else None
  }

  predicate IsCaptainNotice(n: Notification) {
    Contains(n.message, CAPTAIN_PHRASE)
  }

  /** `any("assigned as a captain" in note["message"] for note in ns)` */
  function HasCaptainNotice(ns: seq<Notification>): (b: bool)
    ensures b <==> exists i :: 0 <= i < |ns| && IsCaptainNotice(ns[i])
  {
    if ns == [] then false
    else
      assert forall i :: 1 <= i < |ns| ==> ns[i] == ns[1..][i - 1];
      IsCaptainNotice(ns[0]) || HasCaptainNotice(ns[1..])
  }

  /** How many captain notices `ns` holds. */
  function NoticeCount(ns: seq<Notification>): nat
    decreases |ns|
  {
    if ns == [] then 0
    else NoticeCount(ns[..|ns| - 1]) + (if IsCaptainNotice(ns[|ns| - 1]) then 1 else 0)
  }

  /** The flag is flipped; a promoted player without a captain notice gets
      `notice` in both lists. */
  function Toggle(e: Entry, notice: Notification): Entry {
    if !e.isCaptain && !HasCaptainNotice(e.notifications) then
      e.(isCaptain := true, notifications := e.notifications + [notice], inbox := e.inbox + [notice])
    else
      e.(isCaptain := !e.isCaptain)
  }

  /** `assign_captain(player_id)` on the loaded players: the new list to
      save, or the rejection (which saves nothing). */
  function AssignSpec(es: seq<Entry>, id: string, notice: Notification): Result<seq<Entry>, AssignError> {
    match FirstWithId(es, id)
    case None => Ok(es)
    case Some(k) =>
      if !es[k].isCaptain && CaptainCount(es) >= MAX_CAPTAINS then Err(TooManyCaptains)
      else Ok(es[k := Toggle(es[k], notice)])
  }

  /** The captain message is itself a captain notice. */
  lemma CaptainMessageIsNotice(now: string)
    ensures IsCaptainNotice(CaptainNotice(now))
  {
    assert OccursAt(CAPTAIN_MESSAGE, CAPTAIN_PHRASE, 12);
    ContainsAt(CAPTAIN_MESSAGE, CAPTAIN_PHRASE);
  }

  /** Replacing one entry changes the count by the flags of the old and the
      new entry. */
  lemma {:induction false} CaptainCountUpdate(es: seq<Entry>, k: nat, e: Entry)
    requires k < |es|
    ensures CaptainCount(es[k := e]) + (if es[k].isCaptain then 1 else 0) ==
            CaptainCount(es) + (if e.isCaptain then 1 else 0)
    decreases |es|
  {
    var n := |es| - 1;
    if k < n {
      assert es[k := e][..n] == es[..n][k := e];
      CaptainCountUpdate(es[..n], k, e);
    } else {
      assert es[k := e][..n] == es[..n];
    }
  }

  /** No captain notice means a count of zero. */
  lemma {:induction false} NoNoticeCount(ns: seq<Notification>)
    requires !HasCaptainNotice(ns)
    ensures NoticeCount(ns) == 0
    decreases |ns|
  {
    if ns != [] {
      var n := |ns| - 1;
      assert !IsCaptainNotice(ns[n]);
      assert !HasCaptainNotice(ns[..n]) by {
        forall i | 0 <= i < n ensures !IsCaptainNotice(ns[..n][i]) {
          assert ns[..n][i] == ns[i];
        }
      }
      NoNoticeCount(ns[..n]);
    }
  }

  /** An accepted toggle changes the count by one, and adds a captain only
      while fewer than two exist; an unknown id changes nothing. A rejected
      toggle is exactly a promotion attempt with two or more captains. */
  lemma AssignCaptainCount(es: seq<Entry>, id: string, notice: Notification)
    ensures var r := AssignSpec(es, id, notice);
      match FirstWithId(es, id)
      case None => r == Ok(es)
      case Some(k) =>
        (r.Err? <==> !es[k].isCaptain && CaptainCount(es) >= MAX_CAPTAINS) &&
        (r.Ok? && !es[k].isCaptain ==> CaptainCount(r.value) == CaptainCount(es) + 1 < MAX_CAPTAINS + 1) &&
        (r.Ok? && es[k].isCaptain ==> CaptainCount(r.value) + 1 == CaptainCount(es))
  {
    var f := FirstWithId(es, id);
    if f.Some? {
      var k := f.value;
      var e := Toggle(es[k], notice);
      assert e.isCaptain == !es[k].isCaptain;
      CaptainCountUpdate(es, k, e);
    }
  }

  /** Only the entry of the first player with the id changes, and only in
      its flag and, on promotion, its two lists. */
  lemma AssignChangesOne(es: seq<Entry>, id: string, notice: Notification)
    requires AssignSpec(es, id, notice).Ok?
    ensures var r := AssignSpec(es, id, notice).value;
      |r| == |es| &&
      forall i :: 0 <= i < |es| && FirstWithId(es, id) != Some(i) ==> r[i] == es[i]
    ensures var r := AssignSpec(es, id, notice).value;
      forall i :: 0 <= i < |es| && FirstWithId(es, id) == Some(i) ==>
        r[i].id == es[i].id && r[i].isCaptain == !es[i].isCaptain &&
        (r[i].notifications == es[i].notifications || r[i].notifications == es[i].notifications + [notice]) &&
        (r[i].notifications == es[i].notifications + [notice] <==> r[i].inbox == es[i].inbox + [notice])
  {
  }

  /** A toggle never gives a player a second captain notice. */
  lemma ToggleNotice(e: Entry, now: string)
    requires NoticeCount(e.notifications) <= 1
    ensures NoticeCount(Toggle(e, CaptainNotice(now)).notifications) <= 1
  {
    var ns := e.notifications;
    if !e.isCaptain && !HasCaptainNotice(ns) {
      NoNoticeCount(ns);
      CaptainMessageIsNotice(now);
      assert (ns + [CaptainNotice(now)])[..|ns|] == ns;
    }
  }

  /** Every player has at most one captain notice. */
  predicate NoticesOk(es: seq<Entry>) {
    forall i :: 0 <= i < |es| ==> NoticeCount(es[i].notifications) <= 1
  }

  /** Any sequence of `assign_captain` calls, each given its player id and
      clock reading; a rejected call saves nothing. */
  function AssignAll(es: seq<Entry>, reqs: seq<(string, string)>): seq<Entry>
    decreases |reqs|
  {
    if reqs == [] then es
    else
      var r := AssignSpec(es, reqs[0].0, CaptainNotice(reqs[0].1));
      AssignAll(if r.Ok? then r.value else es, reqs[1..])
  }

  /** One call keeps the players, their ids, at most two captains and at
      most one captain notice each. */
  lemma AssignStep(es: seq<Entry>, id: string, now: string)
    requires CaptainCount(es) <= MAX_CAPTAINS && NoticesOk(es)
    ensures var r := AssignSpec(es, id, CaptainNotice(now));
      r.Ok? ==> |r.value| == |es| && CaptainCount(r.value) <= MAX_CAPTAINS && NoticesOk(r.value) &&
                forall i :: 0 <= i < |es| ==> r.value[i].id == es[i].id
  {
    var r := AssignSpec(es, id, CaptainNotice(now));
    AssignCaptainCount(es, id, CaptainNotice(now));
    var f := FirstWithId(es, id);
    if r.Ok? && f.Some? {
      ToggleNotice(es[f.value], now);
    }
  }

  /** However the admin toggles captains, starting from at most two
      captains and at most one notice per player, both bounds hold
      afterwards: there is never a third captain, and no player is told
      twice. */
  lemma {:induction false} AssignAllKeepsBounds(es: seq<Entry>, reqs: seq<(string, string)>)
    requires CaptainCount(es) <= MAX_CAPTAINS && NoticesOk(es)
    ensures var r := AssignAll(es, reqs);
      |r| == |es| && CaptainCount(r) <= MAX_CAPTAINS && NoticesOk(r) &&
      forall i :: 0 <= i < |es| ==> r[i].id == es[i].id
    decreases |reqs|
  {
    if reqs != [] {
      var r := AssignSpec(es, reqs[0].0, CaptainNotice(reqs[0].1));
      AssignStep(es, reqs[0].0, reqs[0].1);
      AssignAllKeepsBounds(if r.Ok? then r.value else es, reqs[1..]);
    }
  }

  /** `captain_count` */
  method CountCaptains(players: seq<Player>) returns (n: nat)
    ensures n == CaptainCount(Entries(players))
  {
    ghost var es := Entries(players);
    n := 0;
    var k := 0;
    while k < |players|
      invariant 0 <= k <= |players|
      invariant n == CaptainCount(es[..k])
    {
      assert es[..k + 1][..k] == es[..k];
      if players[k].isCaptain {
        n := n + 1;
      }
      k := k + 1;
    }
    assert es[..k] == es;
  }

  /** The search of `assign_captain`: the position of the first player with
      the id, where the loop stops. */
  method FindPlayer(players: seq<Player>, playerId: string) returns (f: Option<nat>)
    ensures f == FirstWithId(Entries(players), playerId)
  {
    ghost var es := Entries(players);
    var k := 0;
    while k < |players|
      invariant 0 <= k <= |players|
      invariant forall j :: 0 <= j < k ==> es[j].id != playerId
    {
      if players[k].id == playerId {
        return Some(k);
      }
      k := k + 1;
    }
    return None;
  }

  /** The body of the loop at the matching player: the flag is flipped and,
      on promotion, the notice appended to both lists unless one is there. */
  method ToggleCaptain(p: Player, notice: Notification)
    modifies p`isCaptain, p`notifications, p`inbox
    ensures EntryOf(p) == Toggle(old(EntryOf(p)), notice)
  {
    p.isCaptain := !p.isCaptain;
    if p.isCaptain {
      if !HasCaptainNotice(p.notifications) {
        p.notifications := p.notifications + [notice];
        p.inbox := p.inbox + [notice];
      }
    }
  }

  /** `assign_captain(player_id)`: `ok` is false on the rejection, which
      changes nothing; otherwise the players are as `AssignSpec` says.
      The loaded players are distinct objects. */
  method AssignCaptain(players: seq<Player>, playerId: string, now: string) returns (ok: bool)
    requires forall i, j :: 0 <= i < j < |players| ==> players[i] != players[j]
    modifies players`isCaptain, players`notifications, players`inbox
    ensures var r := AssignSpec(old(Entries(players)), playerId, CaptainNotice(now));
      (ok <==> r.Ok?) &&
      forall i :: 0 <= i < |players| ==>
        EntryOf(players[i]) == if r.Ok? then r.value[i] else old(EntryOf(players[i]))
  {
    var count := CountCaptains(players);
    var f := FindPlayer(players, playerId);
    if f.None? {
      return true;
    }
    var k := f.value;
    var p := players[k];
    if !p.isCaptain && count >= MAX_CAPTAINS {
      return false;
    }
    assert AssignSpec(old(Entries(players)), playerId, CaptainNotice(now)) ==
      Ok(old(Entries(players))[k := Toggle(old(EntryOf(p)), CaptainNotice(now))]);
    ghost var r := old(Entries(players))[k := Toggle(old(EntryOf(p)), CaptainNotice(now))];
    ToggleCaptain(p, CaptainNotice(now));
    forall i | 0 <= i < |players| ensures EntryOf(players[i]) == r[i] {
      if i != k {
        assert players[i] != p;
      }
    }
    return true;
  }

  // ---------------------------------------------------------------------
  // Admin player list
  // ---------------------------------------------------------------------

  /** What the list's sort and filters read of a player. */
  datatype Row = Row(name: string, position: string, skill: real, available: bool)

  function RowOf(p: Player): Row
    reads p`name, p`position, p`skillRating, p`available
  {
    Row(p.name, p.position, p.skillRating, p.available)
  }

  function Rows(ps: seq<Player>): (rows: seq<Row>)
    reads ps
    ensures |rows| == |ps|
    ensures forall i :: 0 <= i < |ps| ==> rows[i] == RowOf(ps[i])
    decreases |ps|
  {
    if ps == [] then [] else Rows(ps[..|ps| - 1]) + [RowOf(ps[|ps| - 1])]
  }

  /** The sort key of `sorted(players, key=lambda x: x.skill_rating)`. The same
      key as `Draft.Skills`, over the list's own view of a player. */
  function RowSkills(rows: seq<Row>): (key: seq<real>)
    ensures |key| == |rows| && forall i :: 0 <= i < |rows| ==> key[i] == rows[i].skill
  {
    seq(|rows|, i requires 0 <= i < |rows| => rows[i].skill)
  }

  /** The list's four filters. */
  datatype Filter = ByName(search: string) | ByPosition(position: string) | OnlyAvailable | OnlyUnavailable

  /** `search in p.name.lower()` (the search already lower-cased),
      `p.position.lower() == position.lower()`, `p.available`,
      `not p.available`. */
  predicate Keeps(f: Filter, row: Row) {
    match f
    case ByName(search) => Contains(Lower(row.name), Lower(search))
    case ByPosition(position) => Lower(row.position) == Lower(position)
    case OnlyAvailable => row.available
    case OnlyUnavailable => !row.available
  }

  /** `[p for p in xs if keeps(p)]` on positions into `rows`. */
  function Where(rows: seq<Row>, xs: seq<nat>, f: Filter): (r: seq<nat>)
    requires Within(|rows|, xs)
    ensures Within(|rows|, r)
    ensures forall x :: x in r <==> x in xs && Keeps(f, rows[x])
  {
    if xs == [] then []
    else
      var rest := Where(rows, xs[1..], f);
      assert forall x :: x in xs <==> x == xs[0] || x in xs[1..];
      if Keeps(f, rows[xs[0]]) then [xs[0]] + rest else rest
  }

  /** The tail of a ranked list without repeats is one too, and comes
      wholly after the head. */
  lemma RankedTail(key: seq<real>, xs: seq<nat>)
    requires InRange(key, xs) && Ranked(key, xs) && NoDup(xs) && xs != []
    ensures InRange(key, xs[1..]) && Ranked(key, xs[1..]) && NoDup(xs[1..])
    ensures forall y :: y in xs[1..] ==> y != xs[0] && !Before(key, y, xs[0])
  {
    RankedRest(key, xs);
    var tail := xs[1..];
    assert forall a :: 0 <= a < |tail| ==> tail[a] == xs[a + 1];
    forall y | y in tail ensures y != xs[0] {
      var j :| 0 <= j < |tail| && tail[j] == y;
      assert xs[j + 1] == y;
    }
  }

  /** Putting an element in front of a ranked list it wholly precedes. */
  lemma RankedCons(key: seq<real>, x: nat, ys: seq<nat>)
    requires x < |key| && InRange(key, ys) && Ranked(key, ys) && NoDup(ys)
    requires forall y :: y in ys ==> y != x && !Before(key, y, x)
    ensures InRange(key, [x] + ys) && Ranked(key, [x] + ys) && NoDup([x] + ys)
  {
    RankedPrepend(key, x, ys);
    var r := [x] + ys;
    assert forall a :: 1 <= a < |r| ==> r[a] == ys[a - 1] && r[a] in ys;
  }

  /** A filter keeps the order and the absence of repeats. */
  lemma {:induction false} WhereKeepsOrder(rows: seq<Row>, xs: seq<nat>, f: Filter)
    requires Within(|rows|, xs)
    requires Ranked(RowSkills(rows), xs) && NoDup(xs)
    ensures Ranked(RowSkills(rows), Where(rows, xs, f)) && NoDup(Where(rows, xs, f))
    decreases |xs|
  {
    if xs != [] {
      var key := RowSkills(rows);
      RankedTail(key, xs);
      WhereKeepsOrder(rows, xs[1..], f);
      if Keeps(f, rows[xs[0]]) {
        RankedCons(key, xs[0], Where(rows, xs[1..], f));
      }
    }
  }

  /** A filter that is switched on. */
  function Apply(xs: seq<nat>, rows: seq<Row>, on: bool, f: Filter): (r: seq<nat>)
    requires Within(|rows|, xs)
    ensures Within(|rows|, r)
  {
    if on then Where(rows, xs, f) else xs
  }

  /** `view_players` up to its availability filter: sorted, then filtered
      by name and by position. An empty search or position filters
      nothing. */
  function ByNameAndPosition(rows: seq<Row>, search: string, position: string): (r: seq<nat>)
    ensures Within(|rows|, r)
  {
    var sorted := SortDesc(RowSkills(rows), AllIndices(|rows|));
    var byName := Apply(sorted, rows, Lower(search) != "", ByName(search));
    Apply(byName, rows, position != "", ByPosition(position))
  }

  /** The sorted, then filtered list of `view_players`, as positions into
      `rows`. An availability other than "available" and "unavailable"
      filters nothing. */
  function ViewOrder(rows: seq<Row>, search: string, position: string, availability: string): seq<nat> {
    var byPosition := ByNameAndPosition(rows, search, position);
    if availability == "available" then Where(rows, byPosition, OnlyAvailable)
    else Apply(byPosition, rows, availability == "unavailable", OnlyUnavailable)
  }

  /** A player is listed: it passes every filter that is switched on. */
  predicate Listed(row: Row, search: string, position: string, availability: string) {
    (Lower(search) != "" ==> Keeps(ByName(search), row)) &&
    (position != "" ==> Keeps(ByPosition(position), row)) &&
    (availability == "available" ==> row.available) &&
    (availability == "unavailable" ==> !row.available)
  }

  /** The sorted list names every player once. */
  lemma SortedAll(rows: seq<Row>)
    ensures var sorted := SortDesc(RowSkills(rows), AllIndices(|rows|));
      Within(|rows|, sorted) && NoDup(sorted) && Ranked(RowSkills(rows), sorted) &&
      forall i :: i in sorted <==> 0 <= i < |rows|
  {
    var all := AllIndices(|rows|);
    var sorted := SortDesc(RowSkills(rows), all);
    assert NoDup(all);
    PermutationNoDup(all, sorted);
    forall i ensures i in sorted <==> 0 <= i < |rows| {
      assert i in sorted <==> i in multiset(all);
      if 0 <= i < |rows| {
        assert all[i] == i;
      }
    }
  }

  /** One step of the chain keeps order and repeats out, and lets through
      exactly what passes the filter when it is on. */
  lemma ApplyStep(xs: seq<nat>, rows: seq<Row>, on: bool, f: Filter)
    requires Within(|rows|, xs) && Ranked(RowSkills(rows), xs) && NoDup(xs)
    ensures var r := Apply(xs, rows, on, f);
      Ranked(RowSkills(rows), r) && NoDup(r) &&
      forall i :: i in r <==> i in xs && (on ==> Keeps(f, rows[i]))
  {
    WhereKeepsOrder(rows, xs, f);
  }

  /** The name and position filters keep the sorted order and let
      through exactly the players that pass them. */
  lemma ByNameAndPositionCorrect(rows: seq<Row>, search: string, position: string)
    ensures var r := ByNameAndPosition(rows, search, position);
      NoDup(r) && Ranked(RowSkills(rows), r) &&
      forall i :: i in r <==>
        (0 <= i < |rows| &&
         (Lower(search) != "" ==> Keeps(ByName(search), rows[i])) &&
         (position != "" ==> Keeps(ByPosition(position), rows[i])))
  {
    var sorted := SortDesc(RowSkills(rows), AllIndices(|rows|));
    SortedAll(rows);
    var byName := Apply(sorted, rows, Lower(search) != "", ByName(search));
    ApplyStep(sorted, rows, Lower(search) != "", ByName(search));
    ApplyStep(byName, rows, position != "", ByPosition(position));
  }

  /** The list shows exactly the players that pass the filters, each once,
      by descending skill with ties in stored order. */
  lemma ViewOrderCorrect(rows: seq<Row>, search: string, position: string, availability: string)
    ensures var r := ViewOrder(rows, search, position, availability);
      Within(|rows|, r) && NoDup(r) && Ranked(RowSkills(rows), r) &&
      forall i :: i in r <==> 0 <= i < |rows| && Listed(rows[i], search, position, availability)
  {
    var byPosition := ByNameAndPosition(rows, search, position);
    ByNameAndPositionCorrect(rows, search, position);
    ApplyStep(byPosition, rows, true, OnlyAvailable);
    ApplyStep(byPosition, rows, availability == "unavailable", OnlyUnavailable);
  }

  /** Two repeat-free lists with the same elements are permutations. */
  lemma SameSetNoDup(xs: seq<nat>, ys: seq<nat>)
    requires NoDup(xs) && NoDup(ys) && forall x :: x in xs <==> x in ys
    ensures multiset(xs) == multiset(ys)
  {
    forall v: nat ensures multiset(xs)[v] == multiset(ys)[v] {
      NoDupCount(xs, v);
      NoDupCount(ys, v);
    }
  }

  /** The list is the only one with those properties. */
  lemma ViewOrderUnique(rows: seq<Row>, search: string, position: string, availability: string, xs: seq<nat>)
    requires Within(|rows|, xs) && NoDup(xs) && Ranked(RowSkills(rows), xs)
    requires forall i :: i in xs <==> 0 <= i < |rows| && Listed(rows[i], search, position, availability)
    ensures xs == ViewOrder(rows, search, position, availability)
  {
    var r := ViewOrder(rows, search, position, availability);
    ViewOrderCorrect(rows, search, position, availability);
    SameSetNoDup(xs, r);
    RankedUnique(RowSkills(rows), xs, r);
  }

  /** The rating-difference loop of `view_players`. */
  method RefreshRatingDiffs(players: seq<Player>)
    modifies players`ratingDiff
    ensures forall i :: 0 <= i < |players| ==> players[i].ratingDiff == RatingDiff(players[i].matchHistory)
  {
    var k := 0;
    while k < |players|
      invariant 0 <= k <= |players|
      invariant forall i :: 0 <= i < k ==> players[i].ratingDiff == RatingDiff(players[i].matchHistory)
    {
      players[k].CalculateRatingDiff();
      k := k + 1;
    }
  }

  /** `view_players()`: every player's rating difference is refreshed, and
      the players shown are those `ViewOrder` selects. */
  method ViewPlayers(players: seq<Player>, search: string, position: string, availability: string)
    returns (shown: seq<Player>)
    modifies players`ratingDiff
    ensures forall i :: 0 <= i < |players| ==> players[i].ratingDiff == RatingDiff(players[i].matchHistory)
    ensures var r := ViewOrder(Rows(players), search, position, availability);
      Within(|players|, r) && shown == Members(players, r)
  {
    RefreshRatingDiffs(players);
    var r := ViewOrder(Rows(players), search, position, availability);
    ViewOrderCorrect(Rows(players), search, position, availability);
    shown := Members(players, r);
  }
}
