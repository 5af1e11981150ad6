/** The invite links: a stored list of invite records, each with a use
    limit and an expiry time. Times are clock readings in minutes. */
module Invites {
  import opened Wrappers
  import opened Clock

  /** An invite record. `expiresAt` is `None` when the stored expiry is not
      a time `datetime.fromisoformat` accepts. */
  datatype Invite = Invite(code: string, createdBy: string, createdAt: int,
                           expiresAt: Option<int>, maxUses: int, uses: int)

  const DEFAULT_CREATOR := "admin"
  const DEFAULT_MAX_USES: int := 5
  const DEFAULT_DAYS_VALID: int := 7

  /** The record `generate_invite_link` appends. */
  function NewInvite(code: string, createdBy: string, now: int, maxUses: int, daysValid: int): (inv: Invite)
    ensures inv.code == code && inv.uses == 0 && inv.maxUses == maxUses
    ensures inv.expiresAt == Some(inv.createdAt + daysValid * MINUTES_PER_DAY) && inv.createdAt == now
  {
    Invite(code, createdBy, now, Some(now + daysValid * MINUTES_PER_DAY), maxUses, 0)
  }

  /** An invite that still admits a player at `now`. */
  predicate Usable(inv: Invite, now: int) {
    inv.uses < inv.maxUses && inv.expiresAt.Some? && now < inv.expiresAt.value
  }

  /** `validate_invite(code)`: the invites are tried in order; a matching
      one that is used up is skipped, an unexpired one admits, and one
      whose expiry cannot be read ends the search with `False` (the
      `except` branch). */
  function Validate(invites: seq<Invite>, code: string, now: int): bool {
    if invites == [] then false
    else
      var inv := invites[0];
      if inv.code == code && inv.uses < inv.maxUses then
        if inv.expiresAt.None? then false
        else if now < inv.expiresAt.value then true
        else Validate(invites[1..], code, now)
      else Validate(invites[1..], code, now)
  }

  /** Every stored expiry is readable: true of every table built by
      `generate_invite_link`. */
  predicate Readable(invites: seq<Invite>) {
    forall i :: 0 <= i < |invites| ==> invites[i].expiresAt.Some?
  }

  /** The position of the first invite with the code, if any. Kept per record type
      (`Member`, `Entry`, `Invite`) rather than one search over a key function,
      so that contracts and lemmas quantify over the record field directly. */
  function FirstWithCode(invites: seq<Invite>, code: string): (r: Option<nat>)
    ensures r.Some? ==> r.value < |invites| && invites[r.value].code == code &&
                        forall j :: 0 <= j < r.value ==> invites[j].code != code
    ensures r.None? ==> forall j :: 0 <= j < |invites| ==> invites[j].code != code
  {
    if invites == [] then None
    else if invites[0].code == code then Some(0)
    else
      var r := FirstWithCode(invites[1..], code);
      if r.Some? then Some(r.value + 1) else None
  }

  /** The first invite with the code is the one no earlier invite
      precedes. */
  lemma FirstWithCodeAt(invites: seq<Invite>, code: string, k: nat)
    requires k < |invites| && invites[k].code == code
    requires forall j :: 0 <= j < k ==> invites[j].code != code
    ensures FirstWithCode(invites, code) == Some(k)
  {
    var f := FirstWithCode(invites, code);
    if f.Some? {
      assert !(f.value < k) && !(k < f.value);
    }
  }

  /** `get_invite_data(code)` */
  function InviteData(invites: seq<Invite>, code: string): Option<Invite> {
    match FirstWithCode(invites, code)
    case None => None
    case Some(k) => Some(invites[k])
  }

  /** `increment_invite_use(code)`: one more use on the first matching
      invite. */
  function Increment(invites: seq<Invite>, code: string): seq<Invite> {
    match FirstWithCode(invites, code)
    case None => invites
    case Some(k) => invites[k := invites[k].(uses := invites[k].uses + 1)]
  }

  /** `revoke_invite(code)`: the first matching invite is used up. */
  function Revoke(invites: seq<Invite>, code: string): seq<Invite> {
    match FirstWithCode(invites, code)
    case None => invites
    case Some(k) => invites[k := invites[k].(uses := invites[k].maxUses)]
  }

  /** With readable expiries, an invite code validates exactly when some
      invite with that code is usable. */
  lemma {:induction false} ValidateMeansUsable(invites: seq<Invite>, code: string, now: int)
    requires Readable(invites)
    ensures Validate(invites, code, now) <==>
            exists i :: 0 <= i < |invites| && invites[i].code == code && Usable(invites[i], now)
    decreases |invites|
  {
    if invites != [] {
      var tail := invites[1..];
      assert Readable(tail) by {
        forall i | 0 <= i < |tail| ensures tail[i].expiresAt.Some? {
          assert tail[i] == invites[i + 1];
        }
      }
      ValidateMeansUsable(tail, code, now);
      if exists i :: 0 <= i < |tail| && tail[i].code == code && Usable(tail[i], now) {
        var i :| 0 <= i < |tail| && tail[i].code == code && Usable(tail[i], now);
        assert invites[i + 1] == tail[i];
      }
      if exists i :: 0 <= i < |invites| && invites[i].code == code && Usable(invites[i], now) {
        var i :| 0 <= i < |invites| && invites[i].code == code && Usable(invites[i], now);
        if i > 0 {
          assert tail[i - 1] == invites[i];
        }
      }
    }
  }

  /** Validation never admits through an invite that is used up or
      expired, readable or not. */
  lemma {:induction false} ValidateSound(invites: seq<Invite>, code: string, now: int)
    ensures Validate(invites, code, now) ==>
            exists i :: 0 <= i < |invites| && invites[i].code == code && Usable(invites[i], now)
    decreases |invites|
  {
    if invites != [] && Validate(invites, code, now) {
      var tail := invites[1..];
      if !(invites[0].code == code && Usable(invites[0], now)) {
        ValidateSound(tail, code, now);
        var i :| 0 <= i < |tail| && tail[i].code == code && Usable(tail[i], now);
        assert invites[i + 1] == tail[i];
      }
    }
  }

  /** The invites with other codes do not matter to a validation. */
  lemma {:induction false} ValidateOthers(invites: seq<Invite>, extra: seq<Invite>, code: string, now: int)
    requires forall i :: 0 <= i < |invites| ==> invites[i].code != code
    ensures Validate(invites + extra, code, now) == Validate(extra, code, now)
    decreases |invites|
  {
    if invites != [] {
      var all := invites + extra;
      assert all[0] == invites[0] && all[0].code != code;
      assert all[1..] == invites[1..] + extra;
      assert forall i :: 0 <= i < |invites| - 1 ==> invites[1..][i] == invites[i + 1];
      ValidateOthers(invites[1..], extra, code, now);
      assert Validate(all, code, now) == Validate(all[1..], code, now);
    } else {
      assert invites + extra == extra;
    }
  }

  /** A freshly generated invite with a code no other invite has, a
      positive use limit and a positive lifetime validates at once, whatever
      the other invites hold. */
  lemma GeneratedValidates(invites: seq<Invite>, code: string, createdBy: string,
                           now: int, maxUses: int, daysValid: int)
    requires forall i :: 0 <= i < |invites| ==> invites[i].code != code
    requires maxUses > 0 && daysValid > 0
    ensures Validate(invites + [NewInvite(code, createdBy, now, maxUses, daysValid)], code, now)
  {
    var inv := NewInvite(code, createdBy, now, maxUses, daysValid);
    assert now < now + daysValid * MINUTES_PER_DAY;
    assert Validate([inv], code, now);
    ValidateOthers(invites, [inv], code, now);
  }

  /** The three updates keep every expiry readable. */
  lemma UpdatesKeepReadable(invites: seq<Invite>, code: string, createdBy: string,
                            now: int, maxUses: int, daysValid: int)
    requires Readable(invites)
    ensures Readable(Increment(invites, code)) && Readable(Revoke(invites, code))
    ensures Readable(invites + [NewInvite(code, createdBy, now, maxUses, daysValid)])
  {
  }

  /** Incrementing and revoking change only the uses of the first invite
      with the code, and nothing when no invite has it. */
  lemma UpdatesTouchFirstOnly(invites: seq<Invite>, code: string)
    ensures var inc := Increment(invites, code); var rev := Revoke(invites, code);
      |inc| == |invites| && |rev| == |invites| &&
      forall i :: 0 <= i < |invites| ==>
        if FirstWithCode(invites, code) == Some(i) then
          inc[i] == invites[i].(uses := invites[i].uses + 1) &&
          rev[i] == invites[i].(uses := invites[i].maxUses)
        else inc[i] == invites[i] && rev[i] == invites[i]
  {
  }

  /** Invite codes are unique. */
  predicate UniqueCodes(invites: seq<Invite>) {
    forall i, j :: 0 <= i < j < |invites| ==> invites[i].code != invites[j].code
  }

  /** A revoked invite is used up, so no later validation of its code
      succeeds while codes are unique. */
  lemma RevokedDoesNotValidate(invites: seq<Invite>, code: string, now: int)
    requires UniqueCodes(invites)
    ensures !Validate(Revoke(invites, code), code, now)
  {
    ValidateSound(Revoke(invites, code), code, now);
  }

  /** `n` calls of `increment_invite_use(code)`. */
  function IncrementTimes(invites: seq<Invite>, code: string, n: nat): seq<Invite> {
    if n == 0 then invites else Increment(IncrementTimes(invites, code, n - 1), code)
  }

  /** Each invite with another code is kept by an increment, and the
      first invite with the code has one more use. */
  lemma {:induction false} IncrementTimesUses(invites: seq<Invite>, code: string, n: nat, k: nat)
    requires FirstWithCode(invites, code) == Some(k)
    ensures var r := IncrementTimes(invites, code, n);
      |r| == |invites| && FirstWithCode(r, code) == Some(k) &&
      r[k] == invites[k].(uses := invites[k].uses + n) &&
      forall i :: 0 <= i < |invites| && i != k ==> r[i] == invites[i]
  {
    if n > 0 {
      IncrementTimesUses(invites, code, n - 1, k);
      var p := IncrementTimes(invites, code, n - 1);
      var r := Increment(p, code);
      FirstWithCodeAt(r, code, k);
    }
  }

  /** A generated invite with a unique code is used up after exactly its
      use limit of uses: it validates after fewer (until it expires), and
      not from then on. */
  lemma UseLimit(invites: seq<Invite>, code: string, createdBy: string,
                 now: int, maxUses: int, daysValid: int, n: nat, later: int)
    requires forall i :: 0 <= i < |invites| ==> invites[i].code != code
    ensures var t := IncrementTimes(invites + [NewInvite(code, createdBy, now, maxUses, daysValid)], code, n);
      Validate(t, code, later) <==> n < maxUses && later < now + daysValid * MINUTES_PER_DAY
  {
    var inv := NewInvite(code, createdBy, now, maxUses, daysValid);
    var s := invites + [inv];
    var k := |invites|;
    assert forall j :: 0 <= j < k ==> s[j].code != code;
    FirstWithCodeAt(s, code, k);
    IncrementTimesUses(s, code, n, k);
    var t := IncrementTimes(s, code, n);
    assert t == t[..k] + [t[k]];
    assert t[..k] == invites;
    ValidateOthers(invites, [t[k]], code, later);
  }

  /** The stored invite list, as `_load_json` and `_save_json` see it. */
  class InviteTable {
    var invites: seq<Invite>

    /** No invite file yet. */
    constructor ()
      ensures invites == []
    {
      invites := [];
    }

    /** `generate_invite_link(created_by, max_uses, days_valid)`: `code`
        is the random code drawn, and `now` the clock reading. */
    method GenerateInviteLink(code: string, now: int, createdBy: string := DEFAULT_CREATOR,
                              maxUses: int := DEFAULT_MAX_USES, daysValid: int := DEFAULT_DAYS_VALID)
      returns (r: string)
      modifies this
      ensures r == code
      ensures invites == old(invites) + [NewInvite(code, createdBy, now, maxUses, daysValid)]
    {
      var invite := NewInvite(code, createdBy, now, maxUses, daysValid);
      invites := invites + [invite];
      return code;
    }

    /** `validate_invite(code)` at clock reading `now`. */
    method ValidateInvite(code: string, now: int) returns (ok: bool)
      ensures ok == Validate(invites, code, now)
    {
      var k := 0;
      while k < |invites|
        invariant 0 <= k <= |invites|
        invariant Validate(invites, code, now) == Validate(invites[k..], code, now)
      {
        assert invites[k..][1..] == invites[k + 1..];
        var invite := invites[k];
        if invite.code == code {
          if invite.uses < invite.maxUses {
            if invite.expiresAt.None? {
              return false;
            }
            if now < invite.expiresAt.value {
              return true;
            }
          }
        }
        k := k + 1;
      }
      return false;
    }

    /** `increment_invite_use(code)` */
    method IncrementInviteUse(code: string)
      modifies this
      ensures invites == Increment(old(invites), code)
    {
      var k := 0;
      while k < |invites|
        invariant 0 <= k <= |invites| && invites == old(invites)
        invariant forall j :: 0 <= j < k ==> invites[j].code != code
      {
        if invites[k].code == code {
          invites := invites[k := invites[k].(uses := invites[k].uses + 1)];
          return;
        }
        k := k + 1;
      }
    }

    /** `get_invite_data(code)` */
    method GetInviteData(code: string) returns (r: Option<Invite>)
      ensures r == InviteData(invites, code)
    {
      var k := 0;
      while k < |invites|
        invariant 0 <= k <= |invites|
        invariant forall j :: 0 <= j < k ==> invites[j].code != code
      {
        if invites[k].code == code {
          return Some(invites[k]);
        }
        k := k + 1;
      }
      return None;
    }

    /** `revoke_invite(code)` */
    method RevokeInvite(code: string)
      modifies this
      ensures invites == Revoke(old(invites), code)
    {
      var k := 0;
      while k < |invites|
        invariant 0 <= k <= |invites| && invites == old(invites)
        invariant forall j :: 0 <= j < k ==> invites[j].code != code
      {
        if invites[k].code == code {
          invites := invites[k := invites[k].(uses := invites[k].maxUses)];
          return;
        }
        k := k + 1;
      }
    }
  }
}
