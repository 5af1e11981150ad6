/** The balanced team generator: a one-shot greedy split of the available
    players into two teams of at most `TEAM_SIZE`.

    Phase 1 fills the position quotas, team 1 before team 2 in every slot,
    with the best-form player of that position, or, when none is left, the
    best player by a position-specific score of their last match. Phase 2
    hands out everyone else in descending form, each to the team with the
    lower running form total, until both teams are full.

    The specification below works on `Candidate` values, one per available
    player, named by their position in the list of available players. */
module TeamGenerator {
  import opened Wrappers
  import opened Text
  import opened Ranking
  import opened Performance
  import opened PlayerModel

  const TEAM_SIZE: nat := 7

  /** The quota table, in the order its keys are visited. */
  const POSITION_QUOTA: seq<(string, nat)> := [("GK", 1), ("DEF", 1), ("MID", 1), ("ATT", 1)]

  /** What the generator reads of an available player once its position
      is upper-cased: id, position, recent form and last match log. */
  datatype Candidate = Candidate(id: string, position: string, form: real, last: Option<PerformanceLog>)

  /** The running state: the two teams (as positions in the available
      list), their running form totals and the ids handed out so far. */
  datatype Alloc = Alloc(team1: seq<nat>, team2: seq<nat>, score1: real, score2: real, used: set<string>)

  const EMPTY: Alloc := Alloc([], [], 0.0, 0.0, {})

  predicate InList(c: seq<Candidate>, st: Alloc) {
    Within(|c|, st.team1) && Within(|c|, st.team2)
  }

  // ---- reading the players ----

  function LastLog(h: seq<PerformanceLog>): Option<PerformanceLog> {
    if h == [] then None else Some(h[|h| - 1])
  }

  function CandidateOf(p: Player): Candidate
    reads p`id, p`position, p`matchHistory, p`skillRating
  {
    Candidate(p.id, p.position, p.RecentForm(), LastLog(p.matchHistory))
  }

  function Snapshot(ps: seq<Player>): (c: seq<Candidate>)
    reads ps
    ensures |c| == |ps|
    ensures forall i :: 0 <= i < |ps| ==> c[i] == CandidateOf(ps[i])
    decreases |ps|
  {
    if ps == [] then [] else Snapshot(ps[..|ps| - 1]) + [CandidateOf(ps[|ps| - 1])]
  }

  /** The positions of the available players in the list, in list order. */
  function AvailableAt(ps: seq<Player>): (r: seq<nat>)
    reads ps`available
    ensures forall k :: 0 <= k < |r| ==> r[k] < |ps| && ps[r[k]].available
    ensures forall i :: 0 <= i < |ps| && ps[i].available ==> i in r
    ensures forall a, b :: 0 <= a < b < |r| ==> r[a] < r[b]
    decreases |ps|
  {
    if ps == [] then []
    else
      var rest := AvailableAt(ps[..|ps| - 1]);
      assert forall i :: 0 <= i < |ps| - 1 ==> ps[i] == ps[..|ps| - 1][i];
      if ps[|ps| - 1].available then rest + [|ps| - 1] else rest
  }

  /** `[p for p in players if p.available]`: the available players; that
      they come once per list entry and in list order is `AvailableInOrder`. */
  function AvailableOf(ps: seq<Player>): (r: seq<Player>)
    reads ps`available
    ensures forall k :: 0 <= k < |r| ==> r[k] in ps && r[k].available
    ensures forall i :: 0 <= i < |ps| && ps[i].available ==> ps[i] in r
    decreases |ps|
  {
    if ps == [] then []
    else
      var rest := AvailableOf(ps[..|ps| - 1]);
      var p := ps[|ps| - 1];
      assert forall i :: 0 <= i < |ps| - 1 ==> ps[i] == ps[..|ps| - 1][i];
      if p.available then rest + [p] else rest
  }

  /** `r` lists the players of `ps` at the positions `at`, in that order. */
  predicate InListOrder(ps: seq<Player>, at: seq<nat>, r: seq<Player>) {
    |r| == |at| && forall k :: 0 <= k < |r| ==> at[k] < |ps| && r[k] == ps[at[k]]
  }

  /** The comprehension keeps list order: the available players are those
      at the available positions, in increasing order, once each. */
  lemma {:induction false} AvailableInOrder(ps: seq<Player>)
    ensures InListOrder(ps, AvailableAt(ps), AvailableOf(ps))
    decreases |ps|
  {
    if ps != [] {
      var init := ps[..|ps| - 1];
      AvailableInOrder(init);
      var last := ps[|ps| - 1];
      var at, r := AvailableAt(init), AvailableOf(init);
      assert AvailableAt(ps) == if last.available then at + [|ps| - 1] else at;
      assert AvailableOf(ps) == if last.available then r + [last] else r;
      forall k | 0 <= k < |r|
        ensures r[k] == ps[at[k]]
      {
        assert init[at[k]] == ps[at[k]];
      }
    }
  }

  /** The players at the given positions of `av`. */
  function Members(av: seq<Player>, xs: seq<nat>): (r: seq<Player>)
    requires Within(|av|, xs)
    ensures |r| == |xs| && forall k :: 0 <= k < |xs| ==> r[k] == av[xs[k]]
  {
    seq(|xs|, k requires 0 <= k < |xs| => av[xs[k]])
  }

  // ---- index lists ----

  predicate Within(n: nat, xs: seq<nat>) {
    forall k :: 0 <= k < |xs| ==> xs[k] < n
  }

  predicate NoDup(xs: seq<nat>) {
    forall a, b :: 0 <= a < b < |xs| ==> xs[a] != xs[b]
  }

  predicate DistinctIds(c: seq<Candidate>) {
    forall i, j :: 0 <= i < j < |c| ==> c[i].id != c[j].id
  }

  function AllIndices(n: nat): (r: seq<nat>)
    ensures |r| == n && forall k :: 0 <= k < n ==> r[k] == k
  {
    seq(n, k => k)
  }

  function Forms(c: seq<Candidate>): (r: seq<real>)
    ensures |r| == |c| && forall i :: 0 <= i < |c| ==> r[i] == c[i].form
  {
    seq(|c|, i requires 0 <= i < |c| => c[i].form)
  }

  /** The ids of the candidates at the given positions. */
  function IdsOf(c: seq<Candidate>, xs: seq<nat>): set<string>
    requires Within(|c|, xs)
  {
    if xs == [] then {} else IdsOf(c, xs[..|xs| - 1]) + {c[xs[|xs| - 1]].id}
  }

  /** An id is in `IdsOf(c, xs)` exactly when some listed candidate has it. */
  lemma {:induction false} IdsOfMembers(c: seq<Candidate>, xs: seq<nat>)
    requires Within(|c|, xs)
    ensures forall x :: x in xs ==> c[x].id in IdsOf(c, xs)
    ensures forall id :: id in IdsOf(c, xs) ==> exists x :: x in xs && c[x].id == id
  {
    if xs != [] {
      var init := xs[..|xs| - 1];
      IdsOfMembers(c, init);
      assert forall x :: x in xs <==> x in init || x == xs[|xs| - 1];
    }
  }

  /** With distinct ids, a candidate's id has been handed out exactly when
      the candidate itself has. */
  lemma IdsOfDistinct(c: seq<Candidate>, xs: seq<nat>, j: nat)
    requires Within(|c|, xs) && DistinctIds(c) && j < |c|
    ensures c[j].id in IdsOf(c, xs) <==> j in xs
  {
    IdsOfMembers(c, xs);
    if c[j].id in IdsOf(c, xs) {
      var x :| x in xs && c[x].id == c[j].id;
      assert !(x < j) && !(j < x);
    }
  }

  function Min(a: int, b: int): int {
    if a <= b then a else b
  }

  /** A list without repeats holds each value once or not at all. */
  lemma {:induction false} NoDupCount(xs: seq<nat>, v: nat)
    requires NoDup(xs)
    ensures multiset(xs)[v] == if v in xs then 1 else 0
  {
    if xs != [] {
      var init := xs[..|xs| - 1];
      assert xs == init + [xs[|xs| - 1]];
      assert NoDup(init);
      NoDupCount(init, v);
      assert xs[|xs| - 1] !in init;
    }
  }

  /** A rearrangement of a list without repeats has none either. */
  lemma PermutationNoDup(xs: seq<nat>, ys: seq<nat>)
    requires multiset(xs) == multiset(ys) && NoDup(xs)
    ensures NoDup(ys)
  {
    forall a, b | 0 <= a < b < |ys| ensures ys[a] != ys[b] {
      NoDupCount(xs, ys[a]);
      assert ys == ys[..b] + [ys[b]] + ys[b + 1..];
      assert ys[a] in ys[..b];
    }
  }

  function SumForms(c: seq<Candidate>, xs: seq<nat>): real
    requires Within(|c|, xs)
  {
    if xs == [] then 0.0 else SumForms(c, xs[..|xs| - 1]) + c[xs[|xs| - 1]].form
  }

  /** `[p for p in xs if p.id not in used_ids]`: keeps order, drops the
      players whose id is used. */
  function Unused(c: seq<Candidate>, xs: seq<nat>, used: set<string>): (r: seq<nat>)
    requires Within(|c|, xs)
    ensures Within(|c|, r) && |r| <= |xs|
    ensures forall x :: x in r <==> x in xs && c[x].id !in used
    ensures NoDup(xs) ==> NoDup(r)
  {
    if xs == [] then []
    else
      var rest := Unused(c, xs[..|xs| - 1], used);
      var x := xs[|xs| - 1];
      assert forall y :: y in xs <==> y in xs[..|xs| - 1] || y == x;
      if c[x].id !in used then rest + [x] else rest
  }

  /** A filtered ranked list is still ranked. */
  lemma {:induction false} UnusedRanked(key: seq<real>, c: seq<Candidate>, xs: seq<nat>, used: set<string>)
    requires Within(|c|, xs) && |key| == |c| && InRange(key, xs) && Ranked(key, xs)
    ensures InRange(key, Unused(c, xs, used)) && Ranked(key, Unused(c, xs, used))
  {
    if xs != [] {
      var init := xs[..|xs| - 1];
      assert Ranked(key, init);
      UnusedRanked(key, c, init, used);
      var x := xs[|xs| - 1];
      forall y | y in Unused(c, init, used) ensures !Before(key, x, y) {
        var a :| 0 <= a < |init| && init[a] == y;
        assert !Before(key, xs[|xs| - 1], xs[a]);
      }
    }
  }

  // ---- phase 1: position quotas ----

  /** The indices of the candidates among the first `n` whose position is
      `pos`, in order: how `position_groups[pos]` is built. */
  function WithPosition(c: seq<Candidate>, pos: string, n: nat): (r: seq<nat>)
    requires n <= |c|
    ensures Within(n, r) && NoDup(r)
    ensures forall x: nat :: x in r <==> x < n && c[x].position == pos
    ensures forall a, b :: 0 <= a < b < |r| ==> r[a] < r[b]
  {
    if n == 0 then []
    else
      var rest := WithPosition(c, pos, n - 1);
      if c[n - 1].position == pos then rest + [n - 1] else rest
  }

  /** `position_groups[pos]` after sorting by form, descending and stable. */
  function Group(c: seq<Candidate>, pos: string): (r: seq<nat>)
    ensures Within(|c|, r) && InRange(Forms(c), r) && Ranked(Forms(c), r)
    ensures forall x: nat :: x in r <==> x < |c| && c[x].position == pos
  {
    var g := WithPosition(c, pos, |c|);
    var r := SortDesc(Forms(c), g);
    assert forall x :: x in r <==> x in multiset(g);
    r
  }

  /** The fit score of a candidate's last match for a quota position; 0
      without history or for a position outside the table. */
  function FallbackScore(pos: string, last: Option<PerformanceLog>): real {
    match last
    case None => 0.0
    case Some(l) =>
      if pos == "GK" then l.saves as real + 0.5 * l.rating
      else if pos == "DEF" then l.tackles as real + 0.5 * l.rating
      else if pos == "MID" then l.rating
      else if pos == "ATT" then (l.goals + l.assists) as real + 0.5 * l.rating
      else 0.0
  }

  function FallbackScores(pos: string, c: seq<Candidate>): (r: seq<real>)
    ensures |r| == |c| && forall i :: 0 <= i < |c| ==> r[i] == FallbackScore(pos, c[i].last)
  {
    seq(|c|, i requires 0 <= i < |c| => FallbackScore(pos, c[i].last))
  }

  /** `k` is the first element of `xs` whose score is maximal. */
  predicate FirstBest(score: seq<real>, xs: seq<nat>, k: nat)
    requires InRange(score, xs)
  {
    exists p ::
      && 0 <= p < |xs| && xs[p] == k
      && (forall i :: 0 <= i < |xs| ==> score[xs[i]] <= score[k])
      && (forall i :: 0 <= i < p ==> score[xs[i]] < score[k])
  }

  /** `get_best_fallback_player(pos, candidates)`: `None` for no candidates,
      otherwise the first candidate of maximal fit score. */
  function GetBestFallbackPlayer(pos: string, c: seq<Candidate>, candidates: seq<nat>): (r: Option<nat>)
    requires Within(|c|, candidates)
    ensures candidates == [] <==> r.None?
    ensures r.Some? ==> FirstBest(FallbackScores(pos, c), candidates, r.value)
  {
    if candidates == [] then None
    else
      var p := FirstMaxAt(FallbackScores(pos, c), candidates);
      Some(candidates[p])
  }

  /** The player chosen for one quota slot of position `pos`. */
  function SlotPick(c: seq<Candidate>, pos: string, used: set<string>): Option<nat> {
    var primary := Unused(c, Group(c, pos), used);
    if primary != [] then Some(primary[0])
    else GetBestFallbackPlayer(pos, c, Unused(c, AllIndices(|c|), used))
  }

  predicate IsFree(c: seq<Candidate>, used: set<string>, j: int) {
    0 <= j < |c| && c[j].id !in used
  }

  /** A quota slot takes the free same-position player of highest form, the
      earliest in the list on a tie. */
  lemma SlotPickPrimary(c: seq<Candidate>, pos: string, used: set<string>, j0: nat)
    requires IsFree(c, used, j0) && c[j0].position == pos
    ensures SlotPick(c, pos, used).Some?
    ensures var k := SlotPick(c, pos, used).value;
      && IsFree(c, used, k) && c[k].position == pos
      && forall j :: IsFree(c, used, j) && c[j].position == pos ==>
           c[j].form < c[k].form || (c[j].form == c[k].form && k <= j)
  {
    var g := Group(c, pos);
    var primary := Unused(c, g, used);
    UnusedRanked(Forms(c), c, g, used);
    assert j0 in primary;
    var k := primary[0];
    forall j | IsFree(c, used, j) && c[j].position == pos
      ensures c[j].form < c[k].form || (c[j].form == c[k].form && k <= j)
    {
      assert j in primary;
      var b :| 0 <= b < |primary| && primary[b] == j;
      if b > 0 {
        assert !Before(Forms(c), primary[b], primary[0]);
      }
    }
  }

  /** With no free player of the slot's position left, the slot takes the
      free player of highest fallback score, the earliest on a tie. */
  lemma SlotPickFallback(c: seq<Candidate>, pos: string, used: set<string>, j0: nat)
    requires IsFree(c, used, j0)
    requires forall j :: IsFree(c, used, j) ==> c[j].position != pos
    ensures SlotPick(c, pos, used).Some?
    ensures var k := SlotPick(c, pos, used).value;
      && IsFree(c, used, k)
      && (forall j :: IsFree(c, used, j) ==> FallbackScore(pos, c[j].last) <= FallbackScore(pos, c[k].last))
      && (forall j :: IsFree(c, used, j) && j < k ==> FallbackScore(pos, c[j].last) < FallbackScore(pos, c[k].last))
  {
    assert Unused(c, Group(c, pos), used) == [] by {
      NoneFreeWithPosition(c, pos, used);
    }
    var all := Unused(c, AllIndices(|c|), used);
    FreeInAll(c, used);
    var k := GetBestFallbackPlayer(pos, c, all).value;
    UnusedAscending(c, AllIndices(|c|), used);
    FirstBestAscending(FallbackScores(pos, c), all, k);
  }

  lemma NoneFreeWithPosition(c: seq<Candidate>, pos: string, used: set<string>)
    requires forall j :: IsFree(c, used, j) ==> c[j].position != pos
    ensures Unused(c, Group(c, pos), used) == []
  {
    EmptyWithoutMembers(Unused(c, Group(c, pos), used));
  }

  lemma EmptyWithoutMembers(xs: seq<nat>)
    requires forall x :: x !in xs
    ensures xs == []
  {
    HeadIn(xs);
  }

  lemma HeadIn(xs: seq<nat>)
    ensures xs != [] ==> xs[0] in xs
  {
  }

  /** The free candidates are exactly the unused positions of the whole list. */
  lemma FreeInAll(c: seq<Candidate>, used: set<string>)
    ensures forall j :: IsFree(c, used, j) <==> j in Unused(c, AllIndices(|c|), used)
  {
    forall j | IsFree(c, used, j) ensures j in Unused(c, AllIndices(|c|), used) {
      assert AllIndices(|c|)[j] == j;
    }
  }

  /** In an ascending list, the first best element beats every element before
      it strictly and every other element weakly. */
  lemma FirstBestAscending(score: seq<real>, xs: seq<nat>, k: nat)
    requires InRange(score, xs) && Ascending(xs) && FirstBest(score, xs, k)
    ensures k in xs
    ensures forall j :: j in xs ==> score[j] <= score[k]
    ensures forall j :: j in xs && j < k ==> score[j] < score[k]
  {
    var p :| && 0 <= p < |xs| && xs[p] == k
             && (forall i :: 0 <= i < |xs| ==> score[xs[i]] <= score[k])
             && (forall i :: 0 <= i < p ==> score[xs[i]] < score[k]);
    forall j | j in xs ensures score[j] <= score[k] && (j < k ==> score[j] < score[k]) {
      var i :| 0 <= i < |xs| && xs[i] == j;
      if j < k {
        assert i < p;
      }
    }
  }

  /** A slot stays empty only when every player is used. */
  lemma SlotPickNone(c: seq<Candidate>, pos: string, used: set<string>)
    ensures SlotPick(c, pos, used).None? <==> forall j :: !IsFree(c, used, j)
  {
    var primary := Unused(c, Group(c, pos), used);
    var all := Unused(c, AllIndices(|c|), used);
    FreeInAll(c, used);
    HeadIn(all);
    HeadIn(primary);
  }

  predicate Ascending(xs: seq<nat>) {
    forall a, b :: 0 <= a < b < |xs| ==> xs[a] < xs[b]
  }

  lemma {:induction false} UnusedAscending(c: seq<Candidate>, xs: seq<nat>, used: set<string>)
    requires Within(|c|, xs) && Ascending(xs)
    ensures Ascending(Unused(c, xs, used))
  {
    if xs != [] {
      var init := xs[..|xs| - 1];
      UnusedAscending(c, init, used);
      var rest := Unused(c, init, used);
      var x := xs[|xs| - 1];
      assert forall y :: y in rest ==> y in init && y < x;
      if c[x].id !in used {
        assert Unused(c, xs, used) == rest + [x];
        forall a, b | 0 <= a < b < |rest| + 1 ensures (rest + [x])[a] < (rest + [x])[b] {
          assert rest[a] in rest;
        }
      }
    }
  }

  /** Put candidate `k` on team 1 or 2, adding its form to that team's
      total and its id to the used set. */
  function AddTo(c: seq<Candidate>, st: Alloc, team: nat, k: nat): Alloc
    requires k < |c|
  {
    if team == 1 then st.(team1 := st.team1 + [k], score1 := st.score1 + c[k].form, used := st.used + {c[k].id})
    else st.(team2 := st.team2 + [k], score2 := st.score2 + c[k].form, used := st.used + {c[k].id})
  }

  function FillSlot(c: seq<Candidate>, st: Alloc, pos: string, team: nat): Alloc
  {
    match SlotPick(c, pos, st.used)
    case None => st
    case Some(k) =>
      SlotPickInRange(c, pos, st.used);
      AddTo(c, st, team, k)
  }

  lemma SlotPickInRange(c: seq<Candidate>, pos: string, used: set<string>)
    ensures SlotPick(c, pos, used).Some? ==> IsFree(c, used, SlotPick(c, pos, used).value)
  {
  }

  /** The slots of `n` rounds of position `pos`: in each round team 1
      first, then team 2. */
  function Rounds(pos: string, n: nat): seq<(string, nat)> {
    if n == 0 then [] else Rounds(pos, n - 1) + [(pos, 1), (pos, 2)]
  }

  /** Every slot of the quota table, in the order phase 1 fills them. */
  function Slots(quota: seq<(string, nat)>): seq<(string, nat)> {
    if quota == [] then []
    else Slots(quota[..|quota| - 1]) + Rounds(quota[|quota| - 1].0, quota[|quota| - 1].1)
  }

  /** Fill the slots one after the other. */
  function FillSlots(c: seq<Candidate>, st: Alloc, slots: seq<(string, nat)>): Alloc {
    if slots == [] then st
    else
      var s := slots[|slots| - 1];
      FillSlot(c, FillSlots(c, st, slots[..|slots| - 1]), s.0, s.1)
  }

  /** Phase 1. */
  function Phase1(c: seq<Candidate>): Alloc {
    FillSlots(c, EMPTY, Slots(POSITION_QUOTA))
  }

  // ---- phase 2: the rest by form ----

  /** One remaining player: team 1 if it has room and its total is not
      higher (or team 2 is full), else team 2 if it has room, else nobody. */
  function Assign(c: seq<Candidate>, st: Alloc, k: nat): (r: Alloc)
    requires k < |c| && InList(c, st)
    ensures InList(c, r)
  {
    if |st.team1| < TEAM_SIZE && (st.score1 <= st.score2 || |st.team2| >= TEAM_SIZE) then AddTo(c, st, 1, k)
    else if |st.team2| < TEAM_SIZE then AddTo(c, st, 2, k)
    else st
  }

  function Distribute(c: seq<Candidate>, xs: seq<nat>, st: Alloc): (r: Alloc)
    requires Within(|c|, xs) && InList(c, st)
    ensures InList(c, r)
  {
    if xs == [] then st else Assign(c, Distribute(c, xs[..|xs| - 1], st), xs[|xs| - 1])
  }

  predicate Full(st: Alloc) {
    |st.team1| >= TEAM_SIZE && |st.team2| >= TEAM_SIZE
  }

  /** Once both teams are full the rest of the list changes nothing, which
      is why the loop may stop there. */
  lemma {:induction false} DistributeAfterFull(c: seq<Candidate>, xs: seq<nat>, m: nat, st: Alloc)
    requires Within(|c|, xs) && InList(c, st) && m <= |xs| && Full(Distribute(c, xs[..m], st))
    ensures Distribute(c, xs, st) == Distribute(c, xs[..m], st)
    decreases |xs| - m
  {
    if m < |xs| {
      assert xs[..|xs| - 1][..m] == xs[..m];
      if m < |xs| - 1 {
        DistributeAfterFull(c, xs[..|xs| - 1], m, st);
      } else {
        assert xs[..|xs| - 1] == xs[..m];
      }
    } else {
      assert xs[..m] == xs;
    }
  }

  /** `remaining`: the unused candidates, by form, descending. */
  function Leftover(c: seq<Candidate>, st: Alloc): (r: seq<nat>)
    ensures Within(|c|, r) && multiset(r) == multiset(Unused(c, AllIndices(|c|), st.used))
  {
    var r := SortDesc(Forms(c), Unused(c, AllIndices(|c|), st.used));
    assert forall k :: 0 <= k < |r| ==> r[k] in multiset(r);
    r
  }

  /** `generate_balanced_teams` on the normalised available players. */
  function Generate(c: seq<Candidate>): (r: Alloc)
    ensures InList(c, r)
  {
    if |c| < 2 then EMPTY
    else
      var p1 := Phase1(c);
      Phase1Ok(c);
      Distribute(c, Leftover(c, p1), p1)
  }

  // ---- what the generator guarantees ----

  /** The invariant of the allocation: both teams are lists of distinct
      candidates, no candidate is on both, neither team is over
      `TEAM_SIZE`, and the used set holds exactly the ids of the players
      placed. */
  predicate TeamsOk(c: seq<Candidate>, st: Alloc) {
    && Within(|c|, st.team1) && Within(|c|, st.team2)
    && NoDup(st.team1) && NoDup(st.team2)
    && (forall x :: x in st.team1 ==> x !in st.team2)
    && |st.team1| <= TEAM_SIZE && |st.team2| <= TEAM_SIZE
    && st.used == IdsOf(c, st.team1) + IdsOf(c, st.team2)
  }

  function Size(st: Alloc): nat {
    |st.team1| + |st.team2|
  }

  /** Team `team` (1, or else 2) grew by `k` at its end, the other did not change. */
  predicate Grew(st: Alloc, r: Alloc, team: nat, k: nat) {
    if team == 1 then r.team1 == st.team1 + [k] && r.team2 == st.team2
    else r.team1 == st.team1 && r.team2 == st.team2 + [k]
  }

  /** Team `team` gained at most one player at its end, the other none. */
  predicate AtMostOne(st: Alloc, r: Alloc, team: nat) {
    if team == 1 then st.team1 <= r.team1 && |r.team1| <= |st.team1| + 1 && r.team2 == st.team2
    else r.team1 == st.team1 && st.team2 <= r.team2 && |r.team2| <= |st.team2| + 1
  }

  /** A free candidate sits on neither team. */
  lemma FreeNotPlaced(c: seq<Candidate>, st: Alloc, k: nat)
    requires TeamsOk(c, st) && IsFree(c, st.used, k)
    ensures k !in st.team1 && k !in st.team2
  {
    IdsOfMembers(c, st.team1);
    IdsOfMembers(c, st.team2);
  }

  /** Placing a candidate who is on neither team, on a team with room,
      keeps the invariant. */
  lemma AddToOk(c: seq<Candidate>, st: Alloc, team: nat, k: nat)
    requires TeamsOk(c, st) && k < |c| && k !in st.team1 && k !in st.team2
    requires if team == 1 then |st.team1| < TEAM_SIZE else |st.team2| < TEAM_SIZE
    ensures TeamsOk(c, AddTo(c, st, team, k)) && Grew(st, AddTo(c, st, team, k), team, k)
  {
    if team == 1 {
      Snoc(c, st.team1, k);
    } else {
      Snoc(c, st.team2, k);
    }
  }

  /** Appending a candidate not yet on a team. */
  lemma Snoc(c: seq<Candidate>, xs: seq<nat>, k: nat)
    requires Within(|c|, xs) && NoDup(xs) && k < |c| && k !in xs
    ensures Within(|c|, xs + [k]) && NoDup(xs + [k])
    ensures IdsOf(c, xs + [k]) == IdsOf(c, xs) + {c[k].id}
    ensures forall x :: x in xs + [k] <==> x in xs || x == k
  {
    assert (xs + [k])[..|xs|] == xs;
  }

  /** One quota slot: its team gains the picked candidate, or nobody when
      nobody is free. */
  lemma FillSlotOk(c: seq<Candidate>, st: Alloc, pos: string, team: nat)
    requires TeamsOk(c, st)
    requires if team == 1 then |st.team1| < TEAM_SIZE else |st.team2| < TEAM_SIZE
    ensures var r := FillSlot(c, st, pos, team);
      && TeamsOk(c, r)
      && (if SlotPick(c, pos, st.used).Some? then Grew(st, r, team, SlotPick(c, pos, st.used).value) else r == st)
      && AtMostOne(st, r, team)
  {
    SlotPickInRange(c, pos, st.used);
    match SlotPick(c, pos, st.used)
    case None =>
    case Some(k) =>
      FreeNotPlaced(c, st, k);
      AddToOk(c, st, team, k);
  }

  /** The number of slots for team `team`. */
  function SlotsFor(slots: seq<(string, nat)>, team: nat): nat {
    if slots == [] then 0
    else SlotsFor(slots[..|slots| - 1], team) + if slots[|slots| - 1].1 == team then 1 else 0
  }

  /** Filling slots appends at most one player per slot to its team. */
  lemma {:induction false} FillSlotsOk(c: seq<Candidate>, st: Alloc, slots: seq<(string, nat)>)
    requires TeamsOk(c, st)
    requires |st.team1| + SlotsFor(slots, 1) <= TEAM_SIZE && |st.team2| + |slots| - SlotsFor(slots, 1) <= TEAM_SIZE
    requires forall k :: 0 <= k < |slots| ==> slots[k].1 in {1, 2}
    ensures var r := FillSlots(c, st, slots);
      && TeamsOk(c, r)
      && st.team1 <= r.team1 && |r.team1| <= |st.team1| + SlotsFor(slots, 1)
      && st.team2 <= r.team2 && |r.team2| <= |st.team2| + |slots| - SlotsFor(slots, 1)
  {
    if slots != [] {
      var init := slots[..|slots| - 1];
      var s := slots[|slots| - 1];
      FillSlotsOk(c, st, init);
      var m := FillSlots(c, st, init);
      FillSlotOk(c, m, s.0, s.1);
      assert AtMostOne(m, FillSlot(c, m, s.0, s.1), s.1);
    }
  }

  lemma {:induction false} RoundsShape(pos: string, n: nat)
    ensures |Rounds(pos, n)| == 2 * n && SlotsFor(Rounds(pos, n), 1) == n
    ensures forall k :: 0 <= k < |Rounds(pos, n)| ==> Rounds(pos, n)[k].1 in {1, 2}
  {
    if n > 0 {
      RoundsShape(pos, n - 1);
      var r := Rounds(pos, n - 1);
      assert (r + [(pos, 1), (pos, 2)])[..|r| + 1] == r + [(pos, 1)];
      assert (r + [(pos, 1)])[..|r|] == r;
    }
  }

  lemma {:induction false} SlotsForAppend(xs: seq<(string, nat)>, ys: seq<(string, nat)>, team: nat)
    ensures SlotsFor(xs + ys, team) == SlotsFor(xs, team) + SlotsFor(ys, team)
    decreases |ys|
  {
    if ys == [] {
      assert xs + ys == xs;
    } else {
      var init := ys[..|ys| - 1];
      var zs := xs + ys;
      assert zs[..|zs| - 1] == xs + init && zs[|zs| - 1] == ys[|ys| - 1];
      SlotsForAppend(xs, init, team);
    }
  }

  function QuotaTotal(quota: seq<(string, nat)>): nat {
    if quota == [] then 0 else QuotaTotal(quota[..|quota| - 1]) + quota[|quota| - 1].1
  }

  /** A quota table has two slots per unit of quota, one for each team. */
  lemma {:induction false} SlotsShape(quota: seq<(string, nat)>)
    ensures |Slots(quota)| == 2 * QuotaTotal(quota) && SlotsFor(Slots(quota), 1) == QuotaTotal(quota)
    ensures forall k :: 0 <= k < |Slots(quota)| ==> Slots(quota)[k].1 in {1, 2}
  {
    if quota != [] {
      var init := quota[..|quota| - 1];
      var q := quota[|quota| - 1];
      SlotsShape(init);
      RoundsShape(q.0, q.1);
      SlotsForAppend(Slots(init), Rounds(q.0, q.1), 1);
      var xs, ys := Slots(init), Rounds(q.0, q.1);
      assert forall k :: |xs| <= k < |xs + ys| ==> (xs + ys)[k] == ys[k - |xs|];
    }
  }

  /** Phase 1 gives each team at most its four quota players. */
  lemma Phase1Ok(c: seq<Candidate>)
    ensures var r := Phase1(c);
      TeamsOk(c, r) && |r.team1| <= 4 && |r.team2| <= 4
  {
    var q: seq<(string, nat)> := POSITION_QUOTA;
    assert |q[..1][..0]| == 0 && q[..2][..1] == q[..1] && q[..3][..2] == q[..2] && q[..4][..3] == q[..3] && q[..4] == q;
    assert QuotaTotal(q[..1]) == 1;
    assert QuotaTotal(q[..2]) == 2;
    assert QuotaTotal(q[..3]) == 3;
    assert QuotaTotal(q) == 4;
    SlotsShape(q);
    FillSlotsOk(c, EMPTY, Slots(q));
  }

  /** Phase 2 places the next candidate exactly when a team still has room. */
  lemma AssignOk(c: seq<Candidate>, st: Alloc, k: nat)
    requires TeamsOk(c, st) && k < |c| && k !in st.team1 && k !in st.team2
    ensures var r := Assign(c, st, k);
      && TeamsOk(c, r)
      && (if Size(st) < 2 * TEAM_SIZE then Grew(st, r, 1, k) || Grew(st, r, 2, k) else r == st)
  {
    if |st.team1| < TEAM_SIZE && (st.score1 <= st.score2 || |st.team2| >= TEAM_SIZE) {
      AddToOk(c, st, 1, k);
    } else if |st.team2| < TEAM_SIZE {
      AddToOk(c, st, 2, k);
    }
  }

  /** Phase 2 over a list of candidates not yet placed: it keeps the
      invariant, only appends, places exactly as many as there is room
      for, and places the whole list when it fits. */
  lemma {:induction false} DistributeOk(c: seq<Candidate>, xs: seq<nat>, st: Alloc)
    requires TeamsOk(c, st) && Within(|c|, xs) && NoDup(xs)
    requires forall x :: x in xs ==> x !in st.team1 && x !in st.team2
    ensures var r := Distribute(c, xs, st);
      && TeamsOk(c, r)
      && st.team1 <= r.team1 && st.team2 <= r.team2
      && Size(r) == Min(Size(st) + |xs|, 2 * TEAM_SIZE)
      && (forall x :: x in r.team1 || x in r.team2 ==> x in st.team1 || x in st.team2 || x in xs)
      && (Size(st) + |xs| <= 2 * TEAM_SIZE ==> forall x :: x in xs ==> x in r.team1 || x in r.team2)
  {
    if xs != [] {
      var init := xs[..|xs| - 1];
      var k := xs[|xs| - 1];
      assert forall x :: x in xs <==> x in init || x == k;
      DistributeOk(c, init, st);
      var m := Distribute(c, init, st);
      assert k !in init;
      AssignOk(c, m, k);
    }
  }

  /** With distinct ids, every candidate is either placed or left over for
      phase 2. */
  lemma PartitionCount(c: seq<Candidate>, st: Alloc)
    requires TeamsOk(c, st) && DistinctIds(c)
    ensures |Unused(c, AllIndices(|c|), st.used)| + Size(st) == |c|
    ensures forall j :: 0 <= j < |c| ==> (j in Unused(c, AllIndices(|c|), st.used) <==> j !in st.team1 && j !in st.team2)
  {
    var all := AllIndices(|c|);
    var u := Unused(c, all, st.used);
    assert NoDup(all);
    forall j | 0 <= j < |c|
      ensures j in u <==> j !in st.team1 && j !in st.team2
    {
      assert all[j] == j;
      IdsOfDistinct(c, st.team1, j);
      IdsOfDistinct(c, st.team2, j);
    }
    var m := multiset(u) + multiset(st.team1) + multiset(st.team2);
    forall v: nat ensures m[v] == multiset(all)[v] {
      NoDupCount(u, v);
      NoDupCount(st.team1, v);
      NoDupCount(st.team2, v);
      NoDupCount(all, v);
      if v < |c| {
        assert all[v] == v;
      }
    }
    assert m == multiset(all);
  }

  /** The leftover list holds every unplaced candidate once, and, with
      distinct ids, nobody else. */
  lemma LeftoverOk(c: seq<Candidate>, st: Alloc)
    requires TeamsOk(c, st)
    ensures var rest := Leftover(c, st);
      && NoDup(rest)
      && (forall x :: x in rest ==> x !in st.team1 && x !in st.team2)
      && (DistinctIds(c) ==> |rest| + Size(st) == |c|)
      && (DistinctIds(c) ==> forall j :: 0 <= j < |c| && j !in st.team1 && j !in st.team2 ==> j in rest)
  {
    var all := AllIndices(|c|);
    assert NoDup(all);
    var u := Unused(c, all, st.used);
    var rest := Leftover(c, st);
    PermutationNoDup(u, rest);
    forall x | x in rest ensures x !in st.team1 && x !in st.team2 {
      assert x in multiset(u);
      FreeNotPlaced(c, st, x);
    }
    if DistinctIds(c) {
      PartitionCount(c, st);
      forall j | 0 <= j < |c| && j !in st.team1 && j !in st.team2 ensures j in rest {
        assert j in multiset(u);
      }
    }
  }

  /** Phase 2 from any valid allocation: the same promises as `GenerateOk`,
      relative to the players already placed. */
  lemma Phase2Ok(c: seq<Candidate>, st: Alloc)
    requires TeamsOk(c, st)
    ensures var r := Distribute(c, Leftover(c, st), st);
      && TeamsOk(c, r)
      && (DistinctIds(c) ==> Size(r) == Min(|c|, 2 * TEAM_SIZE))
      && (DistinctIds(c) && |c| <= 2 * TEAM_SIZE ==> forall j :: 0 <= j < |c| ==> j in r.team1 || j in r.team2)
  {
    var rest := Leftover(c, st);
    LeftoverOk(c, st);
    DistributeOk(c, rest, st);
    var r := Distribute(c, rest, st);
    if DistinctIds(c) && |c| <= 2 * TEAM_SIZE {
      forall j | 0 <= j < |c| ensures j in r.team1 || j in r.team2 {
        if j in st.team1 {
          PrefixMember(st.team1, r.team1, j);
        } else if j in st.team2 {
          PrefixMember(st.team2, r.team2, j);
        }
      }
    }
  }

  lemma PrefixMember(xs: seq<nat>, ys: seq<nat>, x: nat)
    requires xs <= ys && x in xs
    ensures x in ys
  {
    var a :| 0 <= a < |xs| && xs[a] == x;
    assert ys[a] == x;
  }

  /** What `generate_balanced_teams` promises: two teams of at most
      `TEAM_SIZE` distinct players, nobody on both; with fewer than two
      players both are empty; with distinct ids, as many players as fit
      (all of them when there are at most two full teams' worth). */
  lemma GenerateOk(c: seq<Candidate>)
    ensures var r := Generate(c);
      && TeamsOk(c, r)
      && (|c| < 2 ==> r.team1 == [] && r.team2 == [])
      && (|c| >= 2 && DistinctIds(c) ==> Size(r) == Min(|c|, 2 * TEAM_SIZE))
      && (|c| >= 2 && DistinctIds(c) && |c| <= 2 * TEAM_SIZE ==>
            forall j :: 0 <= j < |c| ==> j in r.team1 || j in r.team2)
  {
    if |c| >= 2 {
      Phase1Ok(c);
      Phase2Ok(c, Phase1(c));
    }
  }

  // ---- the generator itself ----

  // ---- the running totals ----

  /** A team's running total is the sum of its members' forms. */
  predicate ScoresOk(c: seq<Candidate>, st: Alloc) {
    InList(c, st) && st.score1 == SumForms(c, st.team1) && st.score2 == SumForms(c, st.team2)
  }

  lemma AddToScores(c: seq<Candidate>, st: Alloc, team: nat, k: nat)
    requires k < |c| && ScoresOk(c, st)
    ensures ScoresOk(c, AddTo(c, st, team, k))
  {
    if team == 1 {
      AddToFirstScores(c, st, k);
    } else {
      AddToSecondScores(c, st, team, k);
    }
  }

  lemma AddToFirstScores(c: seq<Candidate>, st: Alloc, k: nat)
    requires k < |c| && ScoresOk(c, st)
    ensures ScoresOk(c, AddTo(c, st, 1, k))
  {
    var r := AddTo(c, st, 1, k);
    SumFormsSnoc(c, st.team1, k);
    assert r.team1 == st.team1 + [k] && r.score1 == st.score1 + c[k].form;
    assert r.team2 == st.team2 && r.score2 == st.score2;
  }

  lemma AddToSecondScores(c: seq<Candidate>, st: Alloc, team: nat, k: nat)
    requires k < |c| && ScoresOk(c, st) && team != 1
    ensures ScoresOk(c, AddTo(c, st, team, k))
  {
    var r := AddTo(c, st, team, k);
    SumFormsSnoc(c, st.team2, k);
    assert r.team2 == st.team2 + [k] && r.score2 == st.score2 + c[k].form;
    assert r.team1 == st.team1 && r.score1 == st.score1;
  }

  lemma FillSlotScores(c: seq<Candidate>, st: Alloc, pos: string, team: nat)
    requires ScoresOk(c, st)
    ensures ScoresOk(c, FillSlot(c, st, pos, team))
  {
    SlotPickInRange(c, pos, st.used);
    if SlotPick(c, pos, st.used).Some? {
      AddToScores(c, st, team, SlotPick(c, pos, st.used).value);
    }
  }

  lemma {:induction false} FillSlotsScores(c: seq<Candidate>, st: Alloc, slots: seq<(string, nat)>)
    requires ScoresOk(c, st)
    ensures ScoresOk(c, FillSlots(c, st, slots))
    decreases |slots|
  {
    if slots != [] {
      var s := slots[|slots| - 1];
      FillSlotsScores(c, st, slots[..|slots| - 1]);
      FillSlotScores(c, FillSlots(c, st, slots[..|slots| - 1]), s.0, s.1);
    }
  }

  lemma {:induction false} DistributeScores(c: seq<Candidate>, xs: seq<nat>, st: Alloc)
    requires Within(|c|, xs) && ScoresOk(c, st)
    ensures ScoresOk(c, Distribute(c, xs, st))
    decreases |xs|
  {
    if xs != [] {
      var prev := xs[..|xs| - 1];
      DistributeScores(c, prev, st);
      var d := Distribute(c, prev, st);
      AddToScores(c, d, 1, xs[|xs| - 1]);
      AddToScores(c, d, 2, xs[|xs| - 1]);
    }
  }

  /** The totals phase 2 compares are the form sums of the two teams: the
      running `score1`/`score2` never drift from the teams they describe. */
  lemma GenerateScores(c: seq<Candidate>)
    ensures var r := Generate(c);
      r.score1 == SumForms(c, r.team1) && r.score2 == SumForms(c, r.team2)
  {
    if |c| >= 2 {
      var slots := Slots(POSITION_QUOTA);
      FillSlotsScores(c, EMPTY, slots);
      var p1 := FillSlots(c, EMPTY, slots);
      DistributeScores(c, Leftover(c, p1), p1);
    }
  }

  lemma SumFormsSnoc(c: seq<Candidate>, xs: seq<nat>, k: nat)
    requires Within(|c|, xs) && k < |c|
    ensures Within(|c|, xs + [k]) && SumForms(c, xs + [k]) == SumForms(c, xs) + c[k].form
  {
    assert (xs + [k])[..|xs|] == xs;
  }

  lemma FillSlotsSnoc(c: seq<Candidate>, st: Alloc, slots: seq<(string, nat)>, s: (string, nat))
    ensures FillSlots(c, st, slots + [s]) == FillSlot(c, FillSlots(c, st, slots), s.0, s.1)
  {
    assert (slots + [s])[..|slots|] == slots;
  }

  lemma DistributeSnoc(c: seq<Candidate>, xs: seq<nat>, n: nat, st: Alloc)
    requires Within(|c|, xs) && InList(c, st) && n < |xs|
    ensures Distribute(c, xs[..n + 1], st) == Assign(c, Distribute(c, xs[..n], st), xs[n])
  {
    assert xs[..n + 1][..n] == xs[..n];
  }

  lemma SlotsStep(quota: seq<(string, nat)>, i: nat)
    requires i < |quota|
    ensures Slots(quota[..i + 1]) == Slots(quota[..i]) + Rounds(quota[i].0, quota[i].1)
  {
    assert quota[..i + 1][..i] == quota[..i];
  }

  /** Filling `a + b` is filling `a`, then `b`. */
  lemma {:induction false} FillSlotsAppend(c: seq<Candidate>, st: Alloc, a: seq<(string, nat)>, b: seq<(string, nat)>)
    ensures FillSlots(c, st, a + b) == FillSlots(c, FillSlots(c, st, a), b)
    decreases |b|
  {
    if b == [] {
      assert a + b == a;
    } else {
      var b' := b[..|b| - 1];
      assert (a + b)[..|a + b| - 1] == a + b';
      assert (a + b)[|a + b| - 1] == b[|b| - 1];
      FillSlotsAppend(c, st, a, b');
    }
  }

  lemma RoundStep(c: seq<Candidate>, st: Alloc, pos: string, n: nat)
    ensures FillSlots(c, st, Rounds(pos, n + 1))
         == FillSlot(c, FillSlot(c, FillSlots(c, st, Rounds(pos, n)), pos, 1), pos, 2)
  {
    FillSlotsSnoc(c, st, Rounds(pos, n), (pos, 1));
    FillSlotsSnoc(c, st, Rounds(pos, n) + [(pos, 1)], (pos, 2));
    assert Rounds(pos, n + 1) == Rounds(pos, n) + [(pos, 1)] + [(pos, 2)];
  }

  /** `position_groups.get(pos, [])` for every position, once the groups are
      built and sorted. */
  ghost predicate GroupsReady(c: seq<Candidate>, groups: map<string, seq<nat>>) {
    forall pos :: (if pos in groups then groups[pos] else []) == Group(c, pos)
  }

  /** Build `position_groups` and sort each group by form. */
  method GroupByPosition(c: seq<Candidate>) returns (groups: map<string, seq<nat>>)
    ensures GroupsReady(c, groups)
  {
    groups := map[];
    var j := 0;
    while j < |c|
      invariant 0 <= j <= |c|
      invariant forall pos :: pos !in groups ==> WithPosition(c, pos, j) == []
      invariant forall pos :: pos in groups ==> groups[pos] == WithPosition(c, pos, j)
    {
      var pos := c[j].position;
      groups := groups[pos := (if pos in groups then groups[pos] else []) + [j]];
      j := j + 1;
    }
    var keys := groups.Keys;
    while keys != {}
      invariant keys <= groups.Keys
      invariant forall pos :: pos !in groups ==> WithPosition(c, pos, |c|) == []
      invariant forall pos :: pos in groups ==>
        groups[pos] == if pos in keys then WithPosition(c, pos, |c|) else Group(c, pos)
      decreases keys
    {
      var pos :| pos in keys;
      groups := groups[pos := SortDesc(Forms(c), groups[pos])];
      keys := keys - {pos};
    }
  }

  /** The player for one slot of phase 1: the first unused player of the
      position's group, else the best fallback among all unused players. */
  method PickForSlot(c: seq<Candidate>, groups: map<string, seq<nat>>, pos: string, used: set<string>)
    returns (player: Option<nat>)
    requires GroupsReady(c, groups)
    ensures player == SlotPick(c, pos, used)
  {
    var primary := Unused(c, if pos in groups then groups[pos] else [], used);
    if primary != [] {
      player := Some(primary[0]);
    } else {
      player := GetBestFallbackPlayer(pos, c, Unused(c, AllIndices(|c|), used));
    }
  }

  /** `team.append(player)`, the score increase and `used_ids.add`, for the
      slot's player if there is one. */
  method Place(c: seq<Candidate>, st: Alloc, side: nat, player: Option<nat>) returns (r: Alloc)
    requires player.Some? ==> player.value < |c|
    ensures r == match player case None => st case Some(k) => AddTo(c, st, side, k)
  {
    if player.None? {
      return st;
    }
    var k := player.value;
    if side == 1 {
      r := st.(team1 := st.team1 + [k], score1 := st.score1 + c[k].form, used := st.used + {c[k].id});
    } else {
      r := st.(team2 := st.team2 + [k], score2 := st.score2 + c[k].form, used := st.used + {c[k].id});
    }
  }

  /** One slot of phase 1: the slot's player, if any, goes onto team
      `side`. */
  method FillOneSlot(c: seq<Candidate>, groups: map<string, seq<nat>>, pos: string, side: nat, st: Alloc)
    returns (r: Alloc)
    requires GroupsReady(c, groups)
    ensures r == FillSlot(c, st, pos, side)
  {
    var player := PickForSlot(c, groups, pos, st.used);
    SlotPickInRange(c, pos, st.used);
    r := Place(c, st, side, player);
  }

  /** The `quota` rounds of one position, team 1 before team 2 in each. */
  method FillRounds(c: seq<Candidate>, groups: map<string, seq<nat>>, pos: string, quota: nat, st: Alloc)
    returns (r: Alloc)
    requires GroupsReady(c, groups)
    ensures r == FillSlots(c, st, Rounds(pos, quota))
  {
    r := st;
    var n := 0;
    while n < quota
      invariant 0 <= n <= quota
      invariant r == FillSlots(c, st, Rounds(pos, n))
    {
      ghost var start := r;
      var side := 1;
      while side <= 2
        invariant 1 <= side <= 3
        invariant side == 2 ==> r == FillSlot(c, start, pos, 1)
        invariant side == 3 ==> r == FillSlot(c, FillSlot(c, start, pos, 1), pos, 2)
        invariant side == 1 ==> r == start
      {
        r := FillOneSlot(c, groups, pos, side, r);
        side := side + 1;
      }
      RoundStep(c, st, pos, n);
      n := n + 1;
    }
  }

  /** Phase 1: the rounds of every position of the quota table in turn. */
  method FillPositions(c: seq<Candidate>, groups: map<string, seq<nat>>, quota: seq<(string, nat)>)
    returns (st: Alloc)
    requires GroupsReady(c, groups)
    ensures st == FillSlots(c, EMPTY, Slots(quota))
  {
    st := EMPTY;
    var qi := 0;
    while qi < |quota|
      invariant 0 <= qi <= |quota|
      invariant st == FillSlots(c, EMPTY, Slots(quota[..qi]))
    {
      var (pos, n) := quota[qi];
      SlotsStep(quota, qi);
      FillSlotsAppend(c, EMPTY, Slots(quota[..qi]), Rounds(pos, n));
      st := FillRounds(c, groups, pos, n, st);
      qi := qi + 1;
    }
    assert quota[..qi] == quota;
  }

  /** Phase 2: the leftover players in turn, onto the team with the lower
      running total while it has room, stopping once both teams are full. */
  method FillRemaining(c: seq<Candidate>, remaining: seq<nat>, p1: Alloc) returns (st: Alloc)
    requires Within(|c|, remaining) && InList(c, p1)
    ensures st == Distribute(c, remaining, p1)
  {
    st := p1;
    var n := 0;
    while n < |remaining|
      invariant 0 <= n <= |remaining|
      invariant st == Distribute(c, remaining[..n], p1)
    {
      var x := remaining[n];
      DistributeSnoc(c, remaining, n, p1);
      if |st.team1| < TEAM_SIZE && (st.score1 <= st.score2 || |st.team2| >= TEAM_SIZE) {
        st := st.(team1 := st.team1 + [x], score1 := st.score1 + c[x].form, used := st.used + {c[x].id});
      } else if |st.team2| < TEAM_SIZE {
        st := st.(team2 := st.team2 + [x], score2 := st.score2 + c[x].form, used := st.used + {c[x].id});
      }
      n := n + 1;
      if |st.team1| >= TEAM_SIZE && |st.team2| >= TEAM_SIZE {
        DistributeAfterFull(c, remaining, n, p1);
        break;
      }
    }
    assert remaining[..|remaining|] == remaining;
  }

  /** `[p for p in players if p.available]`, built by a loop. */
  method SelectAvailable(players: seq<Player>) returns (available: seq<Player>)
    ensures available == AvailableOf(players)
  {
    available := [];
    var i := 0;
    while i < |players|
      invariant 0 <= i <= |players|
      invariant available == AvailableOf(players[..i])
    {
      assert players[..i + 1][..i] == players[..i];
      if players[i].available {
        available := available + [players[i]];
      }
      i := i + 1;
    }
    assert players[..i] == players;
  }

  /** Adding the next element keeps every element before it covered. */
  lemma CoveredStep(available: seq<Player>, k: nat, done: set<Player>)
    requires k < |available|
    requires forall j :: 0 <= j < k ==> available[j] in done
    ensures forall j :: 0 <= j < k + 1 ==> available[j] in done + {available[k]}
  {
  }

  /** `for p in available: p.position = p.position.upper()`: a player
      listed once or more is upper-cased, the others are left alone. */
  method UpperPositions(players: seq<Player>, available: seq<Player>)
    requires forall k :: 0 <= k < |available| ==> available[k] in players
    modifies players`position
    ensures forall i :: 0 <= i < |players| ==>
      players[i].position == if players[i] in available then Upper(old(players[i].position)) else old(players[i].position)
  {
    var k := 0;
    ghost var done: set<Player> := {};
    while k < |available|
      invariant 0 <= k <= |available|
      invariant forall q :: q in done ==> q in available
      invariant forall j :: 0 <= j < k ==> available[j] in done
      invariant forall i :: 0 <= i < |players| ==>
        players[i].position == if players[i] in done then Upper(old(players[i].position)) else old(players[i].position)
    {
      var p := available[k];
      UpperIdempotent(old(p.position));
      p.position := Upper(p.position);
      CoveredStep(available, k, done);
      done := done + {p};
      k := k + 1;
    }
    forall i | 0 <= i < |players| ensures players[i] in done <==> players[i] in available {
      if players[i] in available {
        var j :| 0 <= j < |available| && available[j] == players[i];
      }
    }
  }

  /** Upper-case, in place, the position of every available player, when
      there are at least two of them. A player listed twice is upper-cased
      twice, which changes nothing more. */
  method NormalisePositions(players: seq<Player>, available: seq<Player>)
    requires available == AvailableOf(players)
    modifies players`position
    ensures forall i :: 0 <= i < |players| ==>
      players[i].position ==
        if |AvailableOf(players)| >= 2 && players[i].available then Upper(old(players[i].position))
        else old(players[i].position)
  {
    if |available| < 2 {
      return;
    }
    UpperPositions(players, available);
    assert available == AvailableOf(players);
  }

  /** Both phases on a snapshot of the available players. */
  method Balance(c: seq<Candidate>) returns (st: Alloc)
    ensures st == Generate(c)
  {
    if |c| < 2 {
      return EMPTY;
    }
    var groups := GroupByPosition(c);
    var p1 := FillPositions(c, groups, POSITION_QUOTA);
    Phase1Ok(c);
    st := FillRemaining(c, Leftover(c, p1), p1);
  }

  /** Both phases on the snapshot `c` of the available players. */
  method BalanceTeams(available: seq<Player>, c: seq<Candidate>) returns (team1: seq<Player>, team2: seq<Player>)
    requires |c| == |available|
    ensures var r := Generate(c);
      team1 == Members(available, r.team1) && team2 == Members(available, r.team2)
    ensures |team1| <= TEAM_SIZE && |team2| <= TEAM_SIZE
    ensures forall k :: 0 <= k < |team1| ==> team1[k] in available
    ensures forall k :: 0 <= k < |team2| ==> team2[k] in available
  {
    var st := Balance(c);
    GenerateOk(c);
    team1 := Members(available, st.team1);
    team2 := Members(available, st.team2);
  }

  /** `generate_balanced_teams(players)`: upper-cases, in place, the
      position of every available player (when there are at least two),
      then returns the two teams the specification `Generate` describes. */
  method GenerateBalancedTeams(players: seq<Player>) returns (team1: seq<Player>, team2: seq<Player>)
    modifies players`position
    ensures forall i :: 0 <= i < |players| ==>
      players[i].position ==
        if |AvailableOf(players)| >= 2 && players[i].available then Upper(old(players[i].position))
        else old(players[i].position)
    ensures var av := AvailableOf(players);
      var r := Generate(Snapshot(av));
      team1 == Members(av, r.team1) && team2 == Members(av, r.team2)
    ensures |team1| <= TEAM_SIZE && |team2| <= TEAM_SIZE
    ensures forall k :: 0 <= k < |team1| ==> team1[k] in players && team1[k].available
    ensures forall k :: 0 <= k < |team2| ==> team2[k] in players && team2[k].available
  {
    var available := SelectAvailable(players);
    NormalisePositions(players, available);
    assert available == AvailableOf(players);
    var c := Snapshot(available);
    team1, team2 := BalanceTeams(available, c);
    assert AvailableOf(players) == available;
    assert Snapshot(available) == c;
  }
}
