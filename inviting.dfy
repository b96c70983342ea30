/**
 * The Inviting concept: directed invitations from one user to another
 * (to the inviter's care board), at most one per ordered pair of users.
 */
module Inviting {
  import opened Common

  datatype Invite = Invite(
    id: DocId,
    sentFromID: UserId,
    sentFromUsername: string,
    sentToID: UserId,
    sentToUsername: string)

  function InviteId(i: Invite): DocId { i.id }

  /** No two stored invites have the same sender and the same recipient. */
  ghost predicate OnePerPair(invites: seq<Invite>)
  {
    forall i, j :: 0 <= i < j < |invites| ==>
      invites[i].sentFromID != invites[j].sentFromID || invites[i].sentToID != invites[j].sentToID
  }

  /** Some invite goes from `sentFrom` to `sentTo`. */
  ghost predicate HasInvite(invites: seq<Invite>, sentFrom: UserId, sentTo: UserId)
  {
    exists k :: 0 <= k < |invites| && invites[k].sentFromID == sentFrom && invites[k].sentToID == sentTo
  }

  lemma HasInviteAppend(invites: seq<Invite>, x: Invite, sentFrom: UserId, sentTo: UserId)
    ensures HasInvite(invites + [x], sentFrom, sentTo) <==>
              HasInvite(invites, sentFrom, sentTo) || (x.sentFromID == sentFrom && x.sentToID == sentTo)
  {
    var s := invites + [x];
    if HasInvite(s, sentFrom, sentTo) && !(x.sentFromID == sentFrom && x.sentToID == sentTo) {
      var k :| 0 <= k < |s| && s[k].sentFromID == sentFrom && s[k].sentToID == sentTo;
      assert k < |invites| && s[k] == invites[k];
    }
    if HasInvite(invites, sentFrom, sentTo) {
      var k :| 0 <= k < |invites| && invites[k].sentFromID == sentFrom && invites[k].sentToID == sentTo;
      assert s[k] == invites[k];
    }
    assert s[|invites|] == x;
  }

  /** Adding an invite for a pair that has none keeps one invite per pair. */
  lemma AppendKeepsOnePerPair(invites: seq<Invite>, x: Invite)
    requires OnePerPair(invites) && !HasInvite(invites, x.sentFromID, x.sentToID)
    ensures OnePerPair(invites + [x])
  {
    var s := invites + [x];
    forall i, j | 0 <= i < j < |s|
      ensures s[i].sentFromID != s[j].sentFromID || s[i].sentToID != s[j].sentToID
    {
      assert s[i] == invites[i];
      if j < |invites| {
        assert s[j] == invites[j];
      }
    }
  }

  /** The first stored invite from `sentFrom` to `sentTo` (what `deleteOne` removes). */
  function FirstInvite(invites: seq<Invite>, sentFrom: UserId, sentTo: UserId): (r: Option<nat>)
    ensures r.Some? ==> r.value < |invites|
                        && invites[r.value].sentFromID == sentFrom && invites[r.value].sentToID == sentTo
                        && forall k :: 0 <= k < r.value ==>
                             invites[k].sentFromID != sentFrom || invites[k].sentToID != sentTo
    ensures r.None? ==> forall k :: 0 <= k < |invites| ==>
                          invites[k].sentFromID != sentFrom || invites[k].sentToID != sentTo
  {
    if invites == [] then None
    else if invites[0].sentFromID == sentFrom && invites[0].sentToID == sentTo then Some(0)
    else match FirstInvite(invites[1..], sentFrom, sentTo)
      case None => None
      case Some(k) => Some(k + 1)
  }

  class InvitingConcept {
    var invites: seq<Invite>
    var nextId: DocId

    /** Ids are below the counter and distinct, and each ordered pair of users has at most one invite. */
    ghost predicate Valid()
      reads this
    {
      && (forall i :: 0 <= i < |invites| ==> invites[i].id < nextId)
      && Distinct(invites, InviteId)
      && OnePerPair(invites)
    }

    constructor ()
      ensures Valid() && invites == []
    {
      invites, nextId := [], 0;
    }

    /** `checkIfInviteExists`: whether `sentFrom` has invited `sentTo`. */
    function CheckIfInviteExists(sentFrom: UserId, sentTo: UserId): (b: bool)
      reads this
      ensures b <==> HasInvite(invites, sentFrom, sentTo)
    {
      var pair := (i: Invite) => i.sentFromID == sentFrom && i.sentToID == sentTo;
      var result := Filter(invites, pair);
      FilterMembers(invites, pair);
      assert |result| != 0 ==> result[0] in invites && pair(result[0]);
      assert forall k :: 0 <= k < |invites| && pair(invites[k]) ==> invites[k] in result;
      |result| != 0
    }

    /**
     * `inviteUser`: refuses a second invite for the same ordered pair,
     * otherwise stores exactly one invite with the four given fields. The
     * pair in the other direction is not affected.
     */
    method InviteUser(sentFromID: UserId, sentFromUsername: string, sentToID: UserId, sentToUsername: string)
      returns (r: Result<Invite>)
      requires Valid()
      modifies this
      ensures Valid()
      ensures old(CheckIfInviteExists(sentFromID, sentToID)) ==>
                r == Err(Failure("You have already invited this user!")) && invites == old(invites)
      ensures !old(CheckIfInviteExists(sentFromID, sentToID)) ==>
                && r.Ok?
                && r.value == Invite(r.value.id, sentFromID, sentFromUsername, sentToID, sentToUsername)
                && (forall k :: 0 <= k < |old(invites)| ==> old(invites)[k].id != r.value.id)
                && invites == old(invites) + [r.value]
      ensures CheckIfInviteExists(sentFromID, sentToID)
      ensures sentFromID != sentToID ==>
                CheckIfInviteExists(sentToID, sentFromID) == old(CheckIfInviteExists(sentToID, sentFromID))
    {
      var alreadyInvited := CheckIfInviteExists(sentFromID, sentToID);
      if alreadyInvited {
        return Err(Failure("You have already invited this user!"));
      }
      var invite := Invite(nextId, sentFromID, sentFromUsername, sentToID, sentToUsername);
      invites := invites + [invite];
      nextId := nextId + 1;
      assert invites[|invites| - 1] == invite;
      HasInviteAppend(old(invites), invite, sentFromID, sentToID);
      HasInviteAppend(old(invites), invite, sentToID, sentFromID);
      AppendKeepsOnePerPair(old(invites), invite);
      r := Ok(invite);
    }

    /** `getAllInvites`: the invites the user has received. */
    function GetAllInvites(user: UserId): (r: seq<Invite>)
      reads this
      ensures forall i :: i in r <==> i in invites && i.sentToID == user
    {
      FilterMembers(invites, (i: Invite) => i.sentToID == user);
      Filter(invites, (i: Invite) => i.sentToID == user)
    }

    /** `getAllInvitesSent`: the invites the user has sent. */
    function GetAllInvitesSent(user: UserId): (r: seq<Invite>)
      reads this
      ensures forall i :: i in r <==> i in invites && i.sentFromID == user
    {
      FilterMembers(invites, (i: Invite) => i.sentFromID == user);
      Filter(invites, (i: Invite) => i.sentFromID == user)
    }

    /**
     * `removeInvite`: deletes the first invite from `sentFrom` to `sentTo`,
     * if there is one, and nothing else; with one invite per pair, none is
     * left for the pair afterwards.
     */
    method RemoveInvite(sentFrom: UserId, sentTo: UserId)
      requires Valid()
      modifies this
      ensures Valid()
      ensures FirstInvite(old(invites), sentFrom, sentTo).None? ==> invites == old(invites)
      ensures FirstInvite(old(invites), sentFrom, sentTo).Some? ==>
                invites == RemoveAt(old(invites), FirstInvite(old(invites), sentFrom, sentTo).value)
      ensures !CheckIfInviteExists(sentFrom, sentTo)
    {
      var found := FirstInvite(invites, sentFrom, sentTo);
      if found.Some? {
        ghost var before := invites;
        invites := RemoveAt(invites, found.value);
        assert forall i :: 0 <= i < |invites| ==> invites[i] == if i < found.value then before[i] else before[i + 1];
        forall k | 0 <= k < |invites| ensures invites[k].sentFromID != sentFrom || invites[k].sentToID != sentTo {
          if k < found.value {
            assert invites[k] == before[k];
          } else {
            assert invites[k] == before[k + 1];
          }
        }
      }
    }
  }

}
