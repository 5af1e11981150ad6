/** The captains' draft: an admin starts it once exactly two captains are
    assigned, then the two captains take turns picking players from the pool
    until it is empty.

    The draft record is stored between requests; the store holds either a
    record or nothing (the empty dictionary the start request writes before
    validating). The roster is what the request loaded from the player
    store; the draft reads only ids, the captain and availability flags and
    skill ratings of it. */
module Draft {
  import opened Wrappers
  import opened Ranking

  /** What the draft reads of a roster player. */
  datatype Member = Member(id: string, isCaptain: bool, available: bool, skill: real)

  /** The stored draft record (its clock stamps are not modelled). */
  datatype DraftState = DraftState(
    captain1: string, captain2: string,
    team1: seq<string>, team2: seq<string>, remaining: seq<string>,
    turn: Option<string>, complete: bool)

  datatype StartError = NotTwoCaptains | NoPool

  /** Why a pick is refused, in the order the checks run. `NoMatch` is the
      refusal when no current draft match is found. */
  datatype PickError = NotActive | NotCaptain | NotYourTurn | InvalidPick | NoMatch

  // ---- roster queries ----

  /** `get_player(players, id)`: the first roster player with that id. Kept per record type
      (`Member`, `Entry`, `Invite`) rather than one search over a key function,
      so that contracts and lemmas quantify over the record field directly. */
  function FindMember(roster: seq<Member>, id: string): (r: Option<nat>)
    ensures r.Some? ==> r.value < |roster| && roster[r.value].id == id
    ensures r.Some? ==> forall k :: 0 <= k < r.value ==> roster[k].id != id
    ensures r.None? ==> forall k :: 0 <= k < |roster| ==> roster[k].id != id
  {
    if roster == [] then None
    else if roster[0].id == id then Some(0)
    else
      match FindMember(roster[1..], id)
      case None => None
      case Some(k) => Some(k + 1)
  }

  /** `[p for p in players if p.is_captain]`, as positions in the roster. */
  function CaptainsAt(roster: seq<Member>): (r: seq<nat>)
    ensures forall k :: 0 <= k < |r| ==> r[k] < |roster| && roster[r[k]].isCaptain
    ensures forall i :: 0 <= i < |roster| && roster[i].isCaptain ==> i in r
    ensures forall a, b :: 0 <= a < b < |r| ==> r[a] < r[b]
  {
    if roster == [] then []
    else
      var rest := CaptainsAt(roster[..|roster| - 1]);
      if roster[|roster| - 1].isCaptain then rest + [|roster| - 1] else rest
  }

  predicate InPool(m: Member) {
    m.available && !m.isCaptain
  }

  /** The positions of the pool players in the roster, in roster order. */
  function PoolAt(roster: seq<Member>): (r: seq<nat>)
    ensures forall k :: 0 <= k < |r| ==> r[k] < |roster| && InPool(roster[r[k]])
    ensures forall i :: 0 <= i < |roster| && InPool(roster[i]) ==> i in r
    ensures forall a, b :: 0 <= a < b < |r| ==> r[a] < r[b]
  {
    if roster == [] then []
    else
      var rest := PoolAt(roster[..|roster| - 1]);
      if InPool(roster[|roster| - 1]) then rest + [|roster| - 1] else rest
  }

  /** `[p.id for p in players if p.available and not p.is_captain]`: the
      ids of the pool players, one per roster entry, in roster order. */
  function PoolIds(roster: seq<Member>): (r: seq<string>)
    ensures |r| <= |roster|
    ensures |r| == |PoolAt(roster)|
    ensures forall k :: 0 <= k < |r| ==> r[k] == roster[PoolAt(roster)[k]].id
    ensures forall x :: x in r <==> exists i :: 0 <= i < |roster| && InPool(roster[i]) && roster[i].id == x
  {
    if roster == [] then []
    else
      var init := roster[..|roster| - 1];
      var rest := PoolIds(init);
      assert forall i :: 0 <= i < |init| ==> init[i] == roster[i];
      PoolIdsSnoc(roster, rest);
      if InPool(roster[|roster| - 1]) then rest + [roster[|roster| - 1].id] else rest
  }

  /** `PoolIds` and `PoolAt` grow together by one roster entry. */
  lemma PoolIdsSnoc(roster: seq<Member>, rest: seq<string>)
    requires roster != []
    requires var init := roster[..|roster| - 1];
      |rest| == |PoolAt(init)| && forall k :: 0 <= k < |rest| ==> rest[k] == init[PoolAt(init)[k]].id
    ensures var last := roster[|roster| - 1];
      var r := if InPool(last) then rest + [last.id] else rest;
      |r| == |PoolAt(roster)| && forall k :: 0 <= k < |r| ==> r[k] == roster[PoolAt(roster)[k]].id
  {
    var init := roster[..|roster| - 1];
    assert forall i :: 0 <= i < |init| ==> init[i] == roster[i];
  }

  /** The sort key of `captains.sort(key=lambda p: p.skill_rating)`. The same key
      as `Admin.RowSkills`, over the draft's own view of a player. */
  function Skills(roster: seq<Member>): (key: seq<real>)
    ensures |key| == |roster| && forall i :: 0 <= i < |roster| ==> key[i] == roster[i].skill
  {
    seq(|roster|, i requires 0 <= i < |roster| => roster[i].skill)
  }

  // ---- starting ----

  /** The two captains, higher skill first; on equal skill the one earlier
      in the roster first. */
  function CaptainOrder(roster: seq<Member>, caps: seq<nat>): (r: (nat, nat))
    requires |caps| == 2 && caps[0] < |roster| && caps[1] < |roster|
  {
    if roster[caps[1]].skill > roster[caps[0]].skill then (caps[1], caps[0]) else (caps[0], caps[1])
  }

  /** The record `start_draft` stores, or why it refuses. */
  function StartDraftSpec(roster: seq<Member>): Result<DraftState, StartError> {
    var caps := CaptainsAt(roster);
    if |caps| != 2 then Err(NotTwoCaptains)
    else
      var pool := PoolIds(roster);
      if pool == [] then Err(NoPool)
      else
        var (first, second) := CaptainOrder(roster, caps);
        Ok(DraftState(roster[first].id, roster[second].id, [], [], pool, Some(roster[first].id), false))
  }

  /** The start succeeds exactly when the roster has two captains and a
      non-empty pool; the new record has the higher-skill captain first and
      on turn, empty teams and the pool in roster order. */
  lemma StartDraftOk(roster: seq<Member>)
    ensures StartDraftSpec(roster) == Err(NotTwoCaptains) <==> |CaptainsAt(roster)| != 2
    ensures StartDraftSpec(roster) == Err(NoPool) <==> |CaptainsAt(roster)| == 2 && PoolIds(roster) == []
    ensures StartDraftSpec(roster).Ok? ==>
      var s := StartDraftSpec(roster).value;
      exists i, j :: 0 <= i < |roster| && 0 <= j < |roster| && i != j
        && roster[i].isCaptain && roster[j].isCaptain
        && s.captain1 == roster[i].id && s.captain2 == roster[j].id
        && roster[i].skill >= roster[j].skill
        && (roster[i].skill == roster[j].skill ==> i < j)
        && (forall k :: 0 <= k < |roster| && roster[k].isCaptain ==> k == i || k == j)
    ensures StartDraftSpec(roster).Ok? ==>
      var s := StartDraftSpec(roster).value;
      s.team1 == [] && s.team2 == [] && s.remaining == PoolIds(roster) && s.remaining != []
      && s.turn == Some(s.captain1) && !s.complete
  {
    var caps := CaptainsAt(roster);
    if |caps| == 2 && PoolIds(roster) != [] {
      var (i, j) := CaptainOrder(roster, caps);
      assert caps[0] < caps[1];
      assert forall k :: 0 <= k < |roster| && roster[k].isCaptain ==> k == caps[0] || k == caps[1] by {
        forall k | 0 <= k < |roster| && roster[k].isCaptain
          ensures k == caps[0] || k == caps[1]
        {
          assert k in caps;
        }
      }
      assert roster[i].isCaptain && roster[j].isCaptain && i != j;
    }
  }

  /** The captain order is the stable descending sort by skill of the two
      captains, which is what the start request computes. */
  lemma CaptainOrderIsSort(roster: seq<Member>)
    requires |CaptainsAt(roster)| == 2
    ensures var caps := CaptainsAt(roster);
      var (first, second) := CaptainOrder(roster, caps);
      InRange(Skills(roster), caps) && SortDesc(Skills(roster), caps) == [first, second]
  {
    var caps := CaptainsAt(roster);
    PairSorted(Skills(roster), caps);
  }

  /** Sorting two positions puts the second first only on a strictly
      higher key. */
  lemma PairSorted(key: seq<real>, xs: seq<nat>)
    requires |xs| == 2 && xs[0] < xs[1] < |key|
    ensures InRange(key, xs)
    ensures SortDesc(key, xs) == if key[xs[1]] > key[xs[0]] then [xs[1], xs[0]] else xs
  {
    var pair := if key[xs[1]] > key[xs[0]] then [xs[1], xs[0]] else xs;
    assert InRange(key, pair) && Ranked(key, pair) by {
      assert !Before(key, pair[1], pair[0]);
    }
    assert multiset(pair) == multiset(xs) by {
      assert xs == [xs[0], xs[1]];
    }
    RankedUnique(key, SortDesc(key, xs), pair);
  }

  // ---- picking ----

  /** `xs.index(x)`: the position of the first occurrence. */
  function IndexOf(xs: seq<string>, x: string): (i: nat)
    requires x in xs
    ensures i < |xs| && xs[i] == x
    ensures forall j :: 0 <= j < i ==> xs[j] != x
  {
    if xs[0] == x then 0
    else
      assert x in xs[1..] by {
        assert xs == [xs[0]] + xs[1..];
      }
      IndexOf(xs[1..], x) + 1
  }

  /** `xs.remove(x)`: drop the first occurrence; the others keep their
      order. */
  function RemoveFirst(xs: seq<string>, x: string): (r: seq<string>)
    requires x in xs
    ensures |r| == |xs| - 1
    ensures multiset(r) == multiset(xs) - multiset{x}
    ensures r == xs[..IndexOf(xs, x)] + xs[IndexOf(xs, x) + 1..]
  {
    if xs[0] == x then
      assert IndexOf(xs, x) == 0;
      assert multiset(xs[1..]) == multiset(xs) - multiset{x} by {
        assert xs == [xs[0]] + xs[1..];
      }
      xs[1..]
    else
      var rest := RemoveFirst(xs[1..], x);
      RemoveFirstStep(xs, x, rest);
      RemoveFirstCount(xs, x, rest);
      [xs[0]] + rest
  }

  lemma RemoveFirstCount(xs: seq<string>, x: string, rest: seq<string>)
    requires xs != [] && xs[0] != x
    requires multiset(rest) == multiset(xs[1..]) - multiset{x}
    ensures multiset([xs[0]] + rest) == multiset(xs) - multiset{x}
  {
    assert xs == [xs[0]] + xs[1..];
  }

  /** Putting back the head in front of the tail with `x` removed is `xs`
      with `x` removed, when the head is not `x`. */
  lemma RemoveFirstStep(xs: seq<string>, x: string, rest: seq<string>)
    requires x in xs && xs[0] != x && x in xs[1..]
    requires rest == xs[1..][..IndexOf(xs[1..], x)] + xs[1..][IndexOf(xs[1..], x) + 1..]
    ensures IndexOf(xs, x) == IndexOf(xs[1..], x) + 1
    ensures [xs[0]] + rest == xs[..IndexOf(xs, x)] + xs[IndexOf(xs, x) + 1..]
  {
    var tail := xs[1..];
    var j := IndexOf(tail, x);
    assert IndexOf(xs, x) == j + 1;
    calc {
      [xs[0]] + rest;
      [xs[0]] + (tail[..j] + tail[j + 1..]);
      ([xs[0]] + tail[..j]) + tail[j + 1..];
      { assert xs[..j + 1] == [xs[0]] + tail[..j]; }
      xs[..j + 1] + tail[j + 1..];
      { assert xs[j + 2..] == tail[j + 1..]; }
      xs[..j + 1] + xs[j + 2..];
    }
  }

  /** `draft_pick`: the record after `actor` picks `picked`, or why the pick
      is refused. `matchFound` is whether a current draft match exists. */
  function PickSpec(stored: Option<DraftState>, roster: seq<Member>, actor: string, picked: string, matchFound: bool)
    : Result<DraftState, PickError>
  {
    if stored.None? || stored.value.complete then Err(NotActive)
    else
      var s := stored.value;
      var cap := FindMember(roster, actor);
      if cap.None? || !roster[cap.value].isCaptain then Err(NotCaptain)
      else if s.turn != Some(actor) then Err(NotYourTurn)
      else if FindMember(roster, picked).None? || picked !in s.remaining then Err(InvalidPick)
      else if !matchFound then Err(NoMatch)
      else Ok(Apply(s, actor, picked))
  }

  /** The accepted pick: `picked` joins the team of `actor`, leaves the pool,
      and the turn passes to the other captain, or the draft completes when
      the pool is empty. */
  function Apply(s: DraftState, actor: string, picked: string): DraftState
    requires picked in s.remaining
  {
    var (t1, t2, next) :=
      if actor == s.captain1 then (s.team1 + [picked], s.team2, Some(s.captain2))
      else if actor == s.captain2 then (s.team1, s.team2 + [picked], Some(s.captain1))
      else (s.team1, s.team2, None);
    var rest := RemoveFirst(s.remaining, picked);
    if rest == [] then DraftState(s.captain1, s.captain2, t1, t2, [], None, true)
    else DraftState(s.captain1, s.captain2, t1, t2, rest, next, false)
  }

  /** The first roster entry with the id is a captain (`get_player` takes
      the first match). */
  predicate FirstIsCaptain(roster: seq<Member>, id: string) {
    exists i :: 0 <= i < |roster| && roster[i].id == id && roster[i].isCaptain
                && forall k :: 0 <= k < i ==> roster[k].id != id
  }

  predicate OnRoster(roster: seq<Member>, id: string) {
    exists i :: 0 <= i < |roster| && roster[i].id == id
  }

  predicate Active(stored: Option<DraftState>) {
    stored.Some? && !stored.value.complete
  }

  /** A pick is accepted only on an active draft, from a roster captain on
      turn, of a roster player still in the pool, with a draft match; each
      check that fails, taken in that order, gives its own refusal. */
  lemma PickAccepted(stored: Option<DraftState>, roster: seq<Member>, actor: string, picked: string, matchFound: bool)
    ensures PickSpec(stored, roster, actor, picked, matchFound).Ok? <==>
      && Active(stored)
      && FirstIsCaptain(roster, actor)
      && stored.value.turn == Some(actor)
      && OnRoster(roster, picked)
      && picked in stored.value.remaining
      && matchFound
    ensures PickSpec(stored, roster, actor, picked, matchFound).Ok? ==>
      PickSpec(stored, roster, actor, picked, matchFound).value == Apply(stored.value, actor, picked)
    ensures !Active(stored) ==> PickSpec(stored, roster, actor, picked, matchFound) == Err(NotActive)
    ensures Active(stored) && !FirstIsCaptain(roster, actor) ==>
      PickSpec(stored, roster, actor, picked, matchFound) == Err(NotCaptain)
    ensures Active(stored) && FirstIsCaptain(roster, actor) && stored.value.turn != Some(actor) ==>
      PickSpec(stored, roster, actor, picked, matchFound) == Err(NotYourTurn)
    ensures (Active(stored) && FirstIsCaptain(roster, actor) && stored.value.turn == Some(actor)
             && (!OnRoster(roster, picked) || picked !in stored.value.remaining)) ==>
      PickSpec(stored, roster, actor, picked, matchFound) == Err(InvalidPick)
    ensures (Active(stored) && FirstIsCaptain(roster, actor) && stored.value.turn == Some(actor)
             && OnRoster(roster, picked) && picked in stored.value.remaining && !matchFound) ==>
      PickSpec(stored, roster, actor, picked, matchFound) == Err(NoMatch)
  {
    var cap := FindMember(roster, actor);
    if cap.Some? {
      forall i | 0 <= i < |roster| && roster[i].id == actor && forall k :: 0 <= k < i ==> roster[k].id != actor
        ensures i == cap.value
      {
      }
    }
    if FindMember(roster, picked).None? {
      assert forall i :: 0 <= i < |roster| ==> roster[i].id != picked;
    }
  }

  // ---- the draft invariant ----

  function Everyone(s: DraftState): seq<string> {
    s.team1 + s.team2 + s.remaining
  }

  predicate NoDup(xs: seq<string>) {
    forall a, b :: 0 <= a < b < |xs| ==> xs[a] != xs[b]
  }

  /** What holds of every stored record: nobody is in two places, the
      captains are in none, the draft is complete exactly when the pool is
      empty, the turn is a captain's until then, and team 1 is never behind
      team 2 nor more than one ahead. */
  predicate Valid(s: DraftState) {
    && s.captain1 != s.captain2
    && NoDup(Everyone(s))
    && s.captain1 !in Everyone(s) && s.captain2 !in Everyone(s)
    && (s.complete <==> s.remaining == [])
    && (s.complete ==> s.turn == None)
    && (!s.complete ==> s.turn == Some(s.captain1) || s.turn == Some(s.captain2))
    && (s.turn == Some(s.captain1) ==> |s.team1| == |s.team2|)
    && (s.turn == Some(s.captain2) ==> |s.team1| == |s.team2| + 1)
    && (|s.team1| == |s.team2| || |s.team1| == |s.team2| + 1)
  }

  predicate DistinctIds(roster: seq<Member>) {
    forall i, j :: 0 <= i < j < |roster| ==> roster[i].id != roster[j].id
  }

  lemma PoolNoDup(roster: seq<Member>)
    requires DistinctIds(roster)
    ensures NoDup(PoolIds(roster))
  {
    if roster != [] {
      var init := roster[..|roster| - 1];
      assert forall i, j :: 0 <= i < j < |init| ==> init[i] == roster[i] && init[j] == roster[j];
      PoolNoDup(init);
      var last := roster[|roster| - 1];
      if InPool(last) {
        assert last.id !in PoolIds(init);
      }
    }
  }

  /** A start on a roster of distinct ids stores a valid record. */
  lemma StartValid(roster: seq<Member>)
    requires DistinctIds(roster)
    ensures StartDraftSpec(roster).Ok? ==> Valid(StartDraftSpec(roster).value)
  {
    StartDraftOk(roster);
    if StartDraftSpec(roster).Ok? {
      var s := StartDraftSpec(roster).value;
      PoolNoDup(roster);
      assert Everyone(s) == s.remaining;
      var i, j :| 0 <= i < |roster| && 0 <= j < |roster| && i != j
        && roster[i].isCaptain && roster[j].isCaptain
        && s.captain1 == roster[i].id && s.captain2 == roster[j].id;
    }
  }

  /** Cutting position `i` out of a list without repeats leaves a list without
      repeats holding exactly the other elements. */
  lemma SpliceMembers(xs: seq<string>, i: nat, r: seq<string>)
    requires i < |xs| && NoDup(xs)
    requires r == xs[..i] + xs[i + 1..]
    ensures NoDup(r)
    ensures forall y :: y in r <==> y in xs && y != xs[i]
  {
    assert forall a :: 0 <= a < |r| ==> r[a] == xs[if a < i then a else a + 1];
    forall y | y in xs && y != xs[i]
      ensures y in r
    {
      var j :| 0 <= j < |xs| && xs[j] == y;
      assert r[if j < i then j else j - 1] == y;
    }
  }

  lemma RemoveFirstMembers(xs: seq<string>, x: string)
    requires x in xs && NoDup(xs)
    ensures NoDup(RemoveFirst(xs, x))
    ensures forall y :: y in RemoveFirst(xs, x) <==> y in xs && y != x
  {
    SpliceMembers(xs, IndexOf(xs, x), RemoveFirst(xs, x));
  }

  lemma CountTwo(ys: seq<string>, a: nat, b: nat)
    requires a < b < |ys| && ys[a] == ys[b]
    ensures multiset(ys)[ys[a]] >= 2
  {
    assert ys == ys[..b] + ys[b..];
    assert ys[a] in ys[..b];
    assert ys[b] in ys[b..];
  }

  /** Having no duplicates depends only on the multiset of elements. */
  lemma NoDupMultiset(xs: seq<string>, ys: seq<string>)
    requires NoDup(xs) && multiset(xs) == multiset(ys)
    ensures NoDup(ys)
  {
    forall a, b | 0 <= a < b < |ys|
      ensures ys[a] != ys[b]
    {
      NoDupCount(xs, ys[a]);
      if ys[a] == ys[b] {
        CountTwo(ys, a, b);
      }
    }
  }

  lemma NoDupCount(xs: seq<string>, y: string)
    requires NoDup(xs)
    ensures multiset(xs)[y] == (if y in xs then 1 else 0)
  {
    if xs != [] {
      var tail := xs[1..];
      assert xs == [xs[0]] + tail;
      assert forall a, b :: 0 <= a < b < |tail| ==> tail[a] == xs[a + 1] && tail[b] == xs[b + 1];
      NoDupCount(tail, y);
      assert xs[0] !in tail;
    }
  }

  /** An accepted pick moves the picked player from the pool to the team
      of the captain on turn and hands the turn to the other captain, unless
      the pool is now empty; nobody else moves. */
  lemma ApplyMoves(s: DraftState, picked: string)
    requires Valid(s) && !s.complete && picked in s.remaining
    ensures var s' := Apply(s, s.turn.value, picked);
      && s'.captain1 == s.captain1 && s'.captain2 == s.captain2
      && multiset(Everyone(s')) == multiset(Everyone(s))
      && |s'.remaining| == |s.remaining| - 1
      && (s.turn == Some(s.captain1) ==> s'.team1 == s.team1 + [picked] && s'.team2 == s.team2)
      && (s.turn == Some(s.captain2) ==> s'.team2 == s.team2 + [picked] && s'.team1 == s.team1)
      && (s'.complete <==> s'.remaining == [])
      && (s'.complete ==> s'.turn == None)
      && (!s'.complete ==> s'.turn == if s.turn == Some(s.captain1) then Some(s.captain2) else Some(s.captain1))
  {
    var s' := Apply(s, s.turn.value, picked);
    var rest := RemoveFirst(s.remaining, picked);
    assert s'.remaining == rest;
    if s.turn == Some(s.captain1) {
      assert Everyone(s') == s.team1 + [picked] + s.team2 + rest;
    } else {
      assert Everyone(s') == s.team1 + (s.team2 + [picked]) + rest;
    }
  }

  /** An accepted pick keeps the record valid, and the picked player is no
      longer in the pool. */
  lemma ApplyValid(s: DraftState, picked: string)
    requires Valid(s) && !s.complete && picked in s.remaining
    ensures Valid(Apply(s, s.turn.value, picked))
    ensures picked !in Apply(s, s.turn.value, picked).remaining
  {
    var s' := Apply(s, s.turn.value, picked);
    ApplyMoves(s, picked);
    SameElements(Everyone(s), Everyone(s'), s.captain1, s.captain2);
    SuffixNoDup(s.team1 + s.team2, s.remaining);
    RemoveFirstMembers(s.remaining, picked);
  }

  lemma SameElements(xs: seq<string>, ys: seq<string>, a: string, b: string)
    requires NoDup(xs) && multiset(xs) == multiset(ys) && a !in xs && b !in xs
    ensures NoDup(ys) && a !in ys && b !in ys
  {
    NoDupMultiset(xs, ys);
    assert a !in multiset(ys) && b !in multiset(ys);
  }

  lemma SuffixNoDup(xs: seq<string>, ys: seq<string>)
    requires NoDup(xs + ys)
    ensures NoDup(ys)
  {
    assert forall a, b :: 0 <= a < b < |ys| ==> ys[a] == (xs + ys)[|xs| + a] && ys[b] == (xs + ys)[|xs| + b];
  }

  // ---- a sequence of pick requests ----

  /** One pick request, with the roster that request loads: the roster is
      read afresh by every request, so captains and availability may change
      between picks. */
  datatype PickRequest = PickRequest(roster: seq<Member>, actor: string, picked: string, matchFound: bool)

  /** The stored record after the requests in turn; a refused request
      leaves it as it was. */
  function Run(stored: Option<DraftState>, reqs: seq<PickRequest>): Option<DraftState>
    decreases |reqs|
  {
    if reqs == [] then stored
    else
      var q := reqs[0];
      var next := match PickSpec(stored, q.roster, q.actor, q.picked, q.matchFound)
        case Ok(s) => Some(s)
        case Err(_) => stored;
      Run(next, reqs[1..])
  }

  /** Every record a draft passes through is valid, with the same captains
      and the same players in it, whatever rosters the requests load. */
  lemma {:induction false} RunValid(s: DraftState, reqs: seq<PickRequest>)
    requires Valid(s)
    ensures Run(Some(s), reqs).Some?
    ensures var s' := Run(Some(s), reqs).value;
      Valid(s') && s'.captain1 == s.captain1 && s'.captain2 == s.captain2
      && multiset(Everyone(s')) == multiset(Everyone(s))
      && |s'.remaining| <= |s.remaining|
    decreases |reqs|
  {
    if reqs != [] {
      var q := reqs[0];
      PickAccepted(Some(s), q.roster, q.actor, q.picked, q.matchFound);
      match PickSpec(Some(s), q.roster, q.actor, q.picked, q.matchFound)
      case Ok(s1) =>
        ApplyMoves(s, q.picked);
        ApplyValid(s, q.picked);
        RunValid(s1, reqs[1..]);
      case Err(_) =>
        RunValid(s, reqs[1..]);
    }
  }

  /** A complete draft is final: every later pick is refused, so the record
      never changes again. */
  lemma {:induction false} CompleteIsFinal(s: DraftState, reqs: seq<PickRequest>)
    requires s.complete
    ensures Run(Some(s), reqs) == Some(s)
    decreases |reqs|
  {
    if reqs != [] {
      CompleteIsFinal(s, reqs[1..]);
    }
  }

  /** Before a start, or after a start was refused, nothing can be picked. */
  lemma {:induction false} NothingWithoutStart(reqs: seq<PickRequest>)
    ensures Run(None, reqs) == None
    decreases |reqs|
  {
    if reqs != [] {
      NothingWithoutStart(reqs[1..]);
    }
  }

  function ExampleRoster(): seq<Member> {
    [Member("a", true, true, 6.0), Member("x", false, true, 5.0),
     Member("b", true, false, 8.0), Member("y", false, true, 4.0),
     Member("z", false, false, 9.0)]
  }

  lemma ExamplePrefixes()
    ensures var roster := ExampleRoster();
      && roster[..5] == roster && roster[..5][..4] == roster[..4] && roster[..4][..3] == roster[..3]
      && roster[..3][..2] == roster[..2] && roster[..2][..1] == roster[..1] && roster[..1][..0] == []
  {
  }

  /** `CaptainsAt` grows by one roster entry at a time. */
  lemma CaptainsSnoc(roster: seq<Member>, n: nat)
    requires n < |roster|
    ensures CaptainsAt(roster[..n + 1]) == CaptainsAt(roster[..n]) + (if roster[n].isCaptain then [n] else [])
  {
    assert roster[..n + 1][..n] == roster[..n];
  }

  /** The captains among the first `n` players of the worked roster. */
  lemma {:induction false} ExampleCaptainsPrefix(n: nat)
    requires n <= |ExampleRoster()|
    ensures CaptainsAt(ExampleRoster()[..n]) == if n == 0 then [] else if n <= 2 then [0] else [0, 2]
  {
    var roster := ExampleRoster();
    if n == 0 {
      assert roster[..0] == [];
    } else {
      ExampleCaptainsPrefix(n - 1);
      CaptainsSnoc(roster, n - 1);
    }
  }

  lemma ExampleCaptains()
    ensures CaptainsAt(ExampleRoster()) == [0, 2]
  {
    ExampleCaptainsPrefix(5);
    assert ExampleRoster()[..5] == ExampleRoster();
  }

  /** ... and the pool is "x" and "y": "z" is unavailable. */
  lemma ExamplePool()
    ensures PoolIds(ExampleRoster()) == ["x", "y"]
  {
    var roster := ExampleRoster();
    ExamplePrefixes();
    assert PoolIds(roster[..1]) == [];
    assert PoolIds(roster[..2]) == ["x"];
    assert PoolIds(roster[..4]) == ["x", "y"];
  }

  /** A worked start: "b" has the higher skill and picks first although it
      is listed second. */
  lemma ExampleStart()
    ensures StartDraftSpec(ExampleRoster()) == Ok(EXAMPLE_S0)
  {
    ExampleCaptains();
    ExamplePool();
  }

  const EXAMPLE_S0 := DraftState("b", "a", [], [], ["x", "y"], Some("b"), false)
  const EXAMPLE_S1 := DraftState("b", "a", ["x"], [], ["y"], Some("a"), false)
  const EXAMPLE_S2 := DraftState("b", "a", ["x"], ["y"], [], None, true)

  /** The first captain on turn picks "x"; the other captain may not. */
  lemma ExampleFirstPick()
    ensures PickSpec(Some(EXAMPLE_S0), ExampleRoster(), "a", "x", true) == Err(NotYourTurn)
    ensures PickSpec(Some(EXAMPLE_S0), ExampleRoster(), "b", "x", true) == Ok(EXAMPLE_S1)
  {
    var roster := ExampleRoster();
    assert FindMember(roster, "a") == Some(0);
    assert FindMember(roster, "b") == Some(2);
    assert FindMember(roster, "x") == Some(1);
    assert RemoveFirst(["x", "y"], "x") == ["y"];
    assert Apply(EXAMPLE_S0, "b", "x") == EXAMPLE_S1;
  }

  /** The second captain takes the last player, which completes the draft. */
  lemma ExampleLastPick()
    ensures PickSpec(Some(EXAMPLE_S1), ExampleRoster(), "b", "y", true) == Err(NotYourTurn)
    ensures PickSpec(Some(EXAMPLE_S1), ExampleRoster(), "a", "y", true) == Ok(EXAMPLE_S2)
  {
    var roster := ExampleRoster();
    assert FindMember(roster, "a") == Some(0);
    assert FindMember(roster, "b") == Some(2);
    assert FindMember(roster, "y") == Some(3);
    assert RemoveFirst(["y"], "y") == [];
    assert Apply(EXAMPLE_S1, "a", "y") == EXAMPLE_S2;
  }

  /** The whole worked draft: refused requests change nothing, the teams
      alternate, and the draft ends complete with an empty pool. */
  lemma ExampleRun()
    ensures var roster := ExampleRoster();
      Run(Some(EXAMPLE_S0),
          [PickRequest(roster, "a", "x", true), PickRequest(roster, "b", "x", true),
           PickRequest(roster, "b", "y", true), PickRequest(roster, "a", "y", true)])
      == Some(EXAMPLE_S2)
  {
    var roster := ExampleRoster();
    var reqs := [PickRequest(roster, "a", "x", true), PickRequest(roster, "b", "x", true),
                 PickRequest(roster, "b", "y", true), PickRequest(roster, "a", "y", true)];
    ExampleFirstPick();
    ExampleLastPick();
    assert Run(Some(EXAMPLE_S2), reqs[4..]) == Some(EXAMPLE_S2);
    assert Run(Some(EXAMPLE_S1), reqs[3..]) == Some(EXAMPLE_S2);
    assert Run(Some(EXAMPLE_S1), reqs[2..]) == Some(EXAMPLE_S2);
    assert Run(Some(EXAMPLE_S0), reqs[1..]) == Some(EXAMPLE_S2);
  }

  // ---- the stored record ----

  /** The captains of the roster, by a loop over it. */
  method CollectCaptains(roster: seq<Member>) returns (captains: seq<nat>)
    ensures captains == CaptainsAt(roster)
  {
    captains := [];
    var i := 0;
    while i < |roster|
      invariant 0 <= i <= |roster|
      invariant captains == CaptainsAt(roster[..i])
    {
      assert roster[..i + 1][..i] == roster[..i];
      if roster[i].isCaptain {
        captains := captains + [i];
      }
      i := i + 1;
    }
    assert roster[..i] == roster;
  }

  /** The ids of the draft pool, by a loop over the roster. */
  method CollectPool(roster: seq<Member>) returns (pool: seq<string>)
    ensures pool == PoolIds(roster)
  {
    pool := [];
    var i := 0;
    while i < |roster|
      invariant 0 <= i <= |roster|
      invariant pool == PoolIds(roster[..i])
    {
      assert roster[..i + 1][..i] == roster[..i];
      if roster[i].available && !roster[i].isCaptain {
        pool := pool + [roster[i].id];
      }
      i := i + 1;
    }
    assert roster[..i] == roster;
  }


  /** The draft store: the record the start and pick requests read and
      write. `None` is the cleared store. */
  class DraftStore {
    var saved: Option<DraftState>

    constructor ()
      ensures saved == None
    {
      saved := None;
    }

    /** `start_draft`: clears the store first, so a refused start leaves it
        empty; on success stores the new record. */
    method StartDraft(roster: seq<Member>) returns (r: Result<DraftState, StartError>)
      modifies this
      ensures r == StartDraftSpec(roster)
      ensures saved == if r.Ok? then Some(r.value) else None
    {
      saved := None;
      var captains := CollectCaptains(roster);
      if |captains| != 2 {
        return Err(NotTwoCaptains);
      }
      var captain1, captain2 := captains[0], captains[1];
      if roster[captain2].skill > roster[captain1].skill {
        captain1, captain2 := captain2, captain1;
      }
      var pool := CollectPool(roster);
      if pool == [] {
        return Err(NoPool);
      }
      var state := DraftState(roster[captain1].id, roster[captain2].id, [], [], pool, Some(roster[captain1].id), false);
      saved := Some(state);
      r := Ok(state);
    }

    /** `draft_pick`: the checks in order, then the pick; only an accepted
        pick is stored. */
    method DraftPick(roster: seq<Member>, actor: string, picked: string, matchFound: bool)
      returns (r: Result<DraftState, PickError>)
      modifies this
      ensures r == PickSpec(old(saved), roster, actor, picked, matchFound)
      ensures saved == if r.Ok? then Some(r.value) else old(saved)
    {
      if saved.None? || saved.value.complete {
        return Err(NotActive);
      }
      var state := saved.value;
      var captain := FindMember(roster, actor);
      if captain.None? || !roster[captain.value].isCaptain {
        return Err(NotCaptain);
      }
      if state.turn != Some(actor) {
        return Err(NotYourTurn);
      }
      if FindMember(roster, picked).None? || picked !in state.remaining {
        return Err(InvalidPick);
      }
      var next: Option<string> := None;
      if actor == state.captain1 {
        state := state.(team1 := state.team1 + [picked]);
        next := Some(state.captain2);
      } else if actor == state.captain2 {
        state := state.(team2 := state.team2 + [picked]);
        next := Some(state.captain1);
      }
      if !matchFound {
        return Err(NoMatch);
      }
      state := state.(remaining := RemoveFirst(state.remaining, picked));
      if state.remaining == [] {
        state := state.(complete := true, turn := None);
      } else {
        state := state.(turn := next);
      }
      saved := Some(state);
      r := Ok(state);
    }
  }
}
