/**
 * The Opting concept: per user, whether the Sister Circle and the My Care
 * Board features are switched on. Records are only ever created by
 * `initializeUserOpting`, which never creates a second one for a user, so
 * the collection is a map from user to record.
 */
module Opting {
  import opened Common

  datatype Feature = SisterCircle | MyCareBoard

  datatype OptingRecord = OptingRecord(sisterCircle: bool, myCareBoard: bool)

  /** The default record: both features on. */
  const DefaultOpting: OptingRecord := OptingRecord(true, true)

  function Flag(record: OptingRecord, feature: Feature): bool
  {
    match feature
    case SisterCircle => record.sisterCircle
    case MyCareBoard => record.myCareBoard
  }

  /** The record with `feature` set to `status` (the partial update `{[feature]: status}`). */
  function WithFlag(record: OptingRecord, feature: Feature, status: bool): (r: OptingRecord)
    ensures Flag(r, feature) == status
    ensures forall other :: other != feature ==> Flag(r, other) == Flag(record, other)
  {
    match feature
    case SisterCircle => record.(sisterCircle := status)
    case MyCareBoard => record.(myCareBoard := status)
  }

  /** Setting a flag to the value it already has changes nothing. */
  lemma SetToSameValue(record: OptingRecord, feature: Feature)
    ensures WithFlag(record, feature, Flag(record, feature)) == record
  {
    match feature
    case SisterCircle =>
    case MyCareBoard =>
  }

  /** The later of two updates to one flag wins; updates to different flags commute. */
  lemma UpdatesCompose(record: OptingRecord, f: Feature, g: Feature, s: bool, t: bool)
    ensures f == g ==> WithFlag(WithFlag(record, f, s), g, t) == WithFlag(record, g, t)
    ensures f != g ==> WithFlag(WithFlag(record, f, s), g, t) == WithFlag(WithFlag(record, g, t), f, s)
  {
    match f
    case SisterCircle =>
    case MyCareBoard =>
  }

  class OptingConcept {
    var userOpting: map<UserId, OptingRecord>

    constructor ()
      ensures userOpting == map[]
    {
      userOpting := map[];
    }

    /** `initializeUserOpting`: gives a user without a record the default one; otherwise does nothing. */
    method InitializeUserOpting(userId: UserId)
      modifies this
      ensures userId in old(userOpting) ==> userOpting == old(userOpting)
      ensures userId !in old(userOpting) ==> userOpting == old(userOpting)[userId := DefaultOpting]
      ensures userId in userOpting
    {
      if userId !in userOpting {
        userOpting := userOpting[userId := DefaultOpting];
      }
    }

    /** `getUserOptingStatus`: the user's record, NotFoundError when there is none. */
    function GetUserOptingStatus(userId: UserId): (r: Result<OptingRecord>)
      reads this
      ensures r.Err? <==> userId !in userOpting
      ensures r.Err? ==> r.error == NotFound
      ensures r.Ok? ==> r.value == userOpting[userId]
    {
      if userId in userOpting then Ok(userOpting[userId]) else Err(NotFound)
    }

    /**
     * `setUserOptingStatus`: sets one flag of the user's record, leaving
     * the other flag and every other user alone; NotFoundError when the user
     * has no record, success even when the flag already had that value.
     */
    method SetUserOptingStatus(userId: UserId, feature: Feature, status: bool) returns (r: Outcome)
      modifies this
      ensures userId !in old(userOpting) ==> r == Fail(NotFound) && userOpting == old(userOpting)
      ensures userId in old(userOpting) ==>
                && r == Pass
                && userOpting == old(userOpting)[userId := WithFlag(old(userOpting)[userId], feature, status)]
    {
      if userId !in userOpting {
        return Fail(NotFound);
      }
      userOpting := userOpting[userId := WithFlag(userOpting[userId], feature, status)];
      r := Pass;
    }
  }
}
