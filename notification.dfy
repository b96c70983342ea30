/**
 * The Notification concept: reminders a user schedules at a time of day,
 * once, daily or weekly, and the delivery pass that fires the due ones.
 *
 * Times are whole minutes on the server's local clock; `now` is passed in
 * wherever the source reads the clock. Every time the concept computes is
 * a whole minute, so comparing it with `now` truncated to the minute gives
 * the same answer as comparing it with the exact clock.
 */
module Notification {
  import opened Common

  const MinutesPerDay: int := 24 * 60

  datatype Frequency = Once | Daily | Weekly

  datatype Status = Pending | Delivered

  datatype TimeFrame = TimeFrame(hours: int, minutes: int)

  datatype NotificationDoc = NotificationDoc(
    id: DocId,
    user: UserId,
    notifyAbout: string,
    notificationTime: int,
    status: Status,
    notificationContent: string,
    frequency: Frequency,
    timeFrame: TimeFrame)

  /** What a reminder template marks for the subject of the reminder. */
  const Placeholder: string := "{activity}"

  /** Local midnight of the day that contains minute `t`. */
  function StartOfDay(t: int): (r: int)
    ensures r <= t < r + MinutesPerDay
    ensures r % MinutesPerDay == 0
  {
    t - t % MinutesPerDay
  }

  /** The minute of its day at which `t` falls. */
  function TimeOfDay(t: int): (r: int)
    ensures 0 <= r < MinutesPerDay
  {
    t % MinutesPerDay
  }

  /** hh:mm as minutes after midnight (out-of-range values spill over, as `setHours` does). */
  function Clock(timeFrame: TimeFrame): (c: int)
    ensures ValidTimeFrame(timeFrame) ==> 0 <= c < MinutesPerDay
    ensures ValidTimeFrame(timeFrame) ==> c / 60 == timeFrame.hours && c % 60 == timeFrame.minutes
  {
    timeFrame.hours * 60 + timeFrame.minutes
  }

  predicate ValidTimeFrame(timeFrame: TimeFrame)
  {
    0 <= timeFrame.hours < 24 && 0 <= timeFrame.minutes < 60
  }

  /**
   * `getNotificationTime`: today at hh:mm:00, pushed a week ahead for a
   * weekly reminder, and a day ahead for a daily one whose time today has
   * already come.
   */
  function NotificationTime(timeFrame: TimeFrame, frequency: Frequency, now: int): (t: int)
    ensures TimeOfDay(t) == TimeOfDay(StartOfDay(now) + Clock(timeFrame))
  {
    var today := StartOfDay(now) + Clock(timeFrame);
    match frequency
    case Weekly => today + 7 * MinutesPerDay
    case Daily => if today <= now then today + MinutesPerDay else today
    case Once => today
  }

  /**
   * For a valid hh:mm, a one-shot reminder is set for today at hh:mm, a
   * daily one for the first hh:mm strictly after now, and a weekly one for
   * hh:mm seven days from today; so only a one-shot reminder can land in
   * the past and be refused.
   */
  lemma ScheduledTimes(timeFrame: TimeFrame, frequency: Frequency, now: int)
    requires ValidTimeFrame(timeFrame)
    ensures var t := NotificationTime(timeFrame, frequency, now);
            && TimeOfDay(t) == Clock(timeFrame)
            && (frequency == Once ==> StartOfDay(t) == StartOfDay(now))
            && (frequency == Daily ==> now < t <= now + MinutesPerDay)
            && (frequency == Weekly ==> StartOfDay(t) == StartOfDay(now) + 7 * MinutesPerDay)
            && (frequency != Once ==> t > now)
  {
    var day, c := StartOfDay(now), Clock(timeFrame);
    var t := NotificationTime(timeFrame, frequency, now);
    match frequency
    case Once =>
      DayAndTime(day, 0, c);
    case Weekly =>
      DayAndTime(day, 7, c);
    case Daily =>
      if day + c <= now {
        DayAndTime(day, 1, c);
      } else {
        DayAndTime(day, 0, c);
      }
  }

  /** The minute `c` of the day `k` days after midnight `day`. */
  lemma DayAndTime(day: int, k: int, c: int)
    requires day % MinutesPerDay == 0 && 0 <= c < MinutesPerDay
    ensures TimeOfDay(day + k * MinutesPerDay + c) == c
    ensures StartOfDay(day + k * MinutesPerDay + c) == day + k * MinutesPerDay
  {
    var q := day / MinutesPerDay;
    assert day == q * MinutesPerDay;
    var x := day + k * MinutesPerDay + c;
    assert x == (q + k) * MinutesPerDay + c;
    assert x / MinutesPerDay == q + k;
  }

  /** A day after a daily reminder, a week after a weekly one; a one-shot one is left where it is. */
  function NextNotificationTime(previousTime: int, frequency: Frequency): (t: int)
    ensures TimeOfDay(t) == TimeOfDay(previousTime)
    ensures t - previousTime == match frequency
                                case Once => 0
                                case Daily => MinutesPerDay
                                case Weekly => 7 * MinutesPerDay
  {
    match frequency
    case Daily => previousTime + MinutesPerDay
    case Weekly => previousTime + 7 * MinutesPerDay
    case Once => previousTime
  }

  /**
   * `generateNotificationContent`, given the template it drew at random
   * from its list: the template with its first `{activity}` replaced by
   * `notifyAbout` in lower case, in which `replace` expands the `$`
   * patterns; a subject without `$` is inserted as it is.
   */
  function GenerateNotificationContent(notifyAbout: string, template: string): (r: string)
    ensures (forall i :: !OccursAt(template, Placeholder, i)) ==> r == template
    ensures forall p :: OccursAt(template, Placeholder, p) &&
                        (forall j :: 0 <= j < p ==> !OccursAt(template, Placeholder, j)) ==>
              r == template[..p]
                   + Substitution(Lower(notifyAbout), Placeholder, template[..p], template[p + |Placeholder|..])
                   + template[p + |Placeholder|..]
    ensures (forall i :: 0 <= i < |notifyAbout| ==> notifyAbout[i] != '$') ==>
              forall p :: OccursAt(template, Placeholder, p) &&
                          (forall j :: 0 <= j < p ==> !OccursAt(template, Placeholder, j)) ==>
                r == template[..p] + Lower(notifyAbout) + template[p + |Placeholder|..]
  {
    ReplaceFirst(template, Placeholder, Lower(notifyAbout))
  }

  /**
   * A subject of `$&` puts the matched `{activity}` back, so the content
   * is the template itself, placeholder included.
   */
  lemma MatchPatternKeepsTemplate(template: string)
    ensures GenerateNotificationContent("$&", template) == template
  {
    assert Lower("$&") == "$&";
    MatchPatternKeepsString(template, Placeholder);
  }

  /**
   * What one pass of `deliverPendingNotifications` does to one
   * notification: a due one-shot reminder is delivered; a due recurring one
   * is marked delivered and at once set pending again one period later with
   * fresh content; anything not due, or already delivered, is left alone.
   */
  function Deliver(n: NotificationDoc, now: int, template: string): (r: NotificationDoc)
    ensures r.id == n.id && r.user == n.user && r.notifyAbout == n.notifyAbout
    ensures r.frequency == n.frequency && r.timeFrame == n.timeFrame
    ensures n.status == Delivered || n.notificationTime > now ==> r == n
    ensures n.status == Pending && n.notificationTime <= now && n.frequency == Once ==>
              r == n.(status := Delivered)
    ensures n.status == Pending && n.notificationTime <= now && n.frequency != Once ==>
              && r.status == Pending
              && r.notificationTime - n.notificationTime == (if n.frequency == Daily then MinutesPerDay else 7 * MinutesPerDay)
              && r.notificationContent == GenerateNotificationContent(n.notifyAbout, template)
  {
    if n.status == Pending && n.notificationTime <= now then
      var delivered := n.(status := Delivered);
      if n.frequency != Once then
        delivered.(status := Pending,
                   notificationTime := NextNotificationTime(n.notificationTime, n.frequency),
                   notificationContent := GenerateNotificationContent(n.notifyAbout, template))
      else delivered
    else n
  }

  /** A pending reminder that one pass leaves pending is due again only if it was a full period overdue. */
  lemma RecurringStaysDueOnlyIfOverdue(n: NotificationDoc, now: int, template: string)
    requires n.status == Pending && n.notificationTime <= now && n.frequency != Once
    ensures Deliver(n, now, template).notificationTime <= now <==>
              n.notificationTime + (if n.frequency == Daily then MinutesPerDay else 7 * MinutesPerDay) <= now
  {
  }

  function NotificationId(n: NotificationDoc): DocId
  {
    n.id
  }

  class NotificationConcept {
    var notifications: seq<NotificationDoc>
    var nextId: DocId

    /** Every stored notification has its own id, below the next fresh one. */
    ghost predicate Valid()
      reads this
    {
      && (forall i :: 0 <= i < |notifications| ==> notifications[i].id < nextId)
      && Distinct(notifications, NotificationId)
    }

    constructor ()
      ensures Valid() && notifications == []
    {
      notifications := [];
      nextId := 0;
    }

    /**
     * `createNotification`: refuses a time that is not in the future,
     * otherwise stores one pending notification with the given fields.
     */
    method CreateNotification(user: UserId, notifyAbout: string, frequency: Frequency, timeFrame: TimeFrame,
                              now: int, template: string) returns (r: Result<NotificationDoc>)
      requires Valid()
      modifies this
      ensures Valid()
      ensures NotificationTime(timeFrame, frequency, now) <= now ==>
                r == Err(NotAllowed) && notifications == old(notifications)
      ensures NotificationTime(timeFrame, frequency, now) > now ==>
                && r.Ok?
                && r.value == NotificationDoc(r.value.id, user, notifyAbout, NotificationTime(timeFrame, frequency, now),
                                              Pending, GenerateNotificationContent(notifyAbout, template), frequency, timeFrame)
                && (forall k :: 0 <= k < |old(notifications)| ==> old(notifications)[k].id != r.value.id)
                && notifications == old(notifications) + [r.value]
    {
      var notificationContent := GenerateNotificationContent(notifyAbout, template);
      var notificationTime := NotificationTime(timeFrame, frequency, now);
      if notificationTime <= now {
        return Err(NotAllowed);
      }
      var doc := NotificationDoc(nextId, user, notifyAbout, notificationTime, Pending, notificationContent, frequency, timeFrame);
      notifications := notifications + [doc];
      nextId := nextId + 1;
      r := Ok(doc);
    }

    /**
     * `deliverPendingNotifications`: one pass over the pending
     * notifications; `templates[k]` is the template drawn for the
     * k-th notification if it is rescheduled.
     */
    method DeliverPendingNotifications(now: int, templates: seq<string>)
      requires Valid()
      requires |templates| == |notifications|
      modifies this
      ensures Valid()
      ensures |notifications| == |old(notifications)|
      ensures forall k :: 0 <= k < |notifications| ==> notifications[k] == Deliver(old(notifications)[k], now, templates[k])
    {
      var k := 0;
      while k < |notifications|
        invariant 0 <= k <= |notifications| == |old(notifications)|
        invariant forall i :: 0 <= i < k ==> notifications[i] == Deliver(old(notifications)[i], now, templates[i])
        invariant forall i :: k <= i < |notifications| ==> notifications[i] == old(notifications)[i]
        invariant nextId == old(nextId)
        invariant forall i :: 0 <= i < |notifications| ==> notifications[i].id == old(notifications)[i].id
      {
        var notification := notifications[k];
        if notification.status == Pending && notification.notificationTime <= now {
          notifications := notifications[k := notification.(status := Delivered)];
          if notification.frequency != Once {
            var nextNotificationTime := NextNotificationTime(notification.notificationTime, notification.frequency);
            notifications := notifications[k := notifications[k].(
              status := Pending,
              notificationTime := nextNotificationTime,
              notificationContent := GenerateNotificationContent(notification.notifyAbout, templates[k]))];
          }
        }
        k := k + 1;
      }
    }

    /** The position of the notification with this id, if one is stored. */
    function IndexOf(id: DocId): (r: Option<nat>)
      reads this
      ensures r.Some? ==> r.value < |notifications| && notifications[r.value].id == id
      ensures r.None? ==> forall k :: 0 <= k < |notifications| ==> notifications[k].id != id
    {
      FindIndex(notifications, NotificationId, id)
    }

    /** `deleteNotification`: removes the notification with that id, if any. */
    method DeleteNotification(id: DocId)
      requires Valid()
      modifies this
      ensures Valid()
      ensures forall k :: 0 <= k < |notifications| ==> notifications[k].id != id
      ensures old(IndexOf(id)).None? ==> notifications == old(notifications)
      ensures old(IndexOf(id)).Some? ==> notifications == RemoveAt(old(notifications), old(IndexOf(id)).value)
    {
      var found := IndexOf(id);
      if found.Some? {
        notifications := RemoveAt(notifications, found.value);
      }
    }

    /** `deleteAllNotifications`: removes exactly the user's notifications. */
    method DeleteAllNotifications(user: UserId)
      requires Valid()
      modifies this
      ensures Valid()
      ensures forall n :: n in notifications <==> n in old(notifications) && n.user != user
    {
      FilterMembers(notifications, (n: NotificationDoc) => n.user != user);
      FilterDistinct(notifications, (n: NotificationDoc) => n.user != user, NotificationId);
      notifications := Filter(notifications, (n: NotificationDoc) => n.user != user);
    }

    /** `getDeliveredNotifications`: the user's delivered notifications and how many there are. */
    function GetDeliveredNotifications(user: UserId): (r: (seq<NotificationDoc>, nat))
      reads this
      ensures r.1 == |r.0|
      ensures forall n :: n in r.0 <==> n in notifications && n.user == user && n.status == Delivered
    {
      var p := (n: NotificationDoc) => n.user == user && n.status == Delivered;
      FilterMembers(notifications, p);
      var found := Filter(notifications, p);
      (found, |found|)
    }

    /** `getPendingNotifications`: the user's pending notifications. */
    function GetPendingNotifications(user: UserId): (r: seq<NotificationDoc>)
      reads this
      ensures forall n :: n in r <==> n in notifications && n.user == user && n.status == Pending
    {
      var p := (n: NotificationDoc) => n.user == user && n.status == Pending;
      FilterMembers(notifications, p);
      Filter(notifications, p)
    }
  }
}
