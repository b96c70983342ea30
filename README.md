# VitalCycle server concepts in Dafny

This project models the server-side "concepts" of VitalCycle, a web application for menstrual and general health tracking. It covers the following:

- **Logging**: daily symptom, mood and flow logs and activity logs. It also covers the statistics derived from them: period segmentation, cycle lengths, rounded averages, the regularity score, the next-period prediction, symptom and mood rankings, and the activity streak.
- **Checklisting**: one task list per user and day.
- **Notification**: reminder scheduling from hh:mm and a frequency, refusal of non-future times, and the delivery pass that delivers due one-shot reminders and reschedules recurring ones.
- **Posting**: Sister Circle posts and circles, and My Care Board posts. This includes default-circle seeding, `ensureCircles`, anonymous posting, case-insensitive title search, the circle query, sorting, deletion and the author check.
- **Inviting**: directed invites with at most one per ordered pair of users.
- **Opting**: a per-user record of two feature flags.
- **Responses**: how posts, friend requests and circles are shaped for the front end.

Each concept whose source updates a collection in place is a `class`. The collection is a `seq` or `map` field that the methods reassign. Document ids are natural numbers handed out by one counter per concept, in the role of a fresh ObjectId. The Posting concept shares its counter among circles and both kinds of post. User ids are an opaque type with equality.

Log dates are whole day numbers. Notification times are whole minutes. The current time is a parameter. The loops of the source (`calculateCycleStats`, `calculateActivityStats`, `deliverPendingNotifications`, `initializeDefaultCircles`, `ensureCircles` and `Responses.posts`) are methods with loop invariants. Each is proved against a specification function or a stated property. The lemmas beside them prove what the source promises about those functions.

Two parts of the source's environment are passed in as parameters:

- the account service that turns user ids into usernames (`Authing.idsToUsernames`);
- the random choice of a reminder template.

## Model

| member | source | states |
|---|---|---|
| Common.Lower | server/concepts/posting.ts:128-130 | `toLowerCase` keeps the length, maps each ASCII capital letter to its small letter and leaves every other character unchanged |
| Common.Includes | server/concepts/posting.ts:129 | `includes` is true exactly when the pattern occurs at some position |
| Common.Substitution | server/concepts/notification.ts:205 | the replacement string as `replace` expands it; a replacement without `$` is taken literally |
| Common.SubstitutionCases | server/concepts/notification.ts:205 | each step of the expansion: `$$` gives `$`, `$&` the match, `` $` `` the text before it, `$'` the text after it, each consuming two characters; any other character, a lone `$` included, stands for itself |
| Common.ReplaceFirst | server/concepts/notification.ts:205 | `replace` with a string pattern: no occurrence leaves the string unchanged; otherwise only the first occurrence is replaced, by the expanded replacement |
| Common.MatchPatternKeepsString | server/concepts/notification.ts:205 | a replacement of `$&` leaves any string unchanged |
| Common.Bump | server/concepts/logging.ts:200-206 | one `map.set(x, (map.get(x) \|\| 0) + 1)` adds one to x's count and to the total, and adds at most one entry |
| Common.Tally | server/concepts/logging.ts:198-207 | the counts of a frequency map sum to the number of items counted, and it has no more entries than items |
| Common.RemoveAt | server/concepts/checklisting.ts:70 | `splice(k, 1)`: one element shorter, elements before k kept, later ones moved down one place |
| Common.BumpProperties | server/concepts/logging.ts:200-207 | one `map.set(x, (map.get(x) \|\| 0) + 1)` adds one to x's count only, adds one to the total, and appends x as a key only when it is new |
| Common.TallyCorrect | server/concepts/logging.ts:198-207 | the frequency map of a list counts each item as often as it occurs, its counts sum to the list's length, and its keys are in first-encounter order |
| Common.SortDescByCorrect | server/concepts/logging.ts:315-319 | the stable descending sort yields a sorted permutation that keeps equal keys in their input order |
| Common.NewInOrderProperties | server/concepts/posting.ts:58-74 | the names created are exactly the input names not already present, none of them twice |
| Common.NewInOrderStep | server/concepts/posting.ts:66-71 | one more name extends the created list by that name exactly when it is neither present nor already seen |
| Common.FilterMembers | server/concepts/inviting.ts:34-41 | a query filter returns exactly the stored documents that satisfy its condition |
| Common.FilterAppend | server/concepts/posting.ts:133-151 | filtering keeps the stored order: filtering a concatenation concatenates the filtered parts |
| Common.FilterDistinct | server/concepts/notification.ts:177-180 | removing documents keeps the remaining ids distinct |
| Common.FindIndex | server/concepts/posting.ts:164-173 | the first document with the given id, or none when no document has it |
| Logging.Track | server/concepts/logging.ts:209-220 | one log step: a period is open afterwards exactly when the log carries flow, and then it ends on the log's date; a start is recorded only when a flow log opens a period; a length (end minus start) only when a flow-less log closes one |
| Logging.Segment | server/concepts/logging.ts:198-221 | after all the logs a period is open exactly when the last log carries flow; there are no more starts or lengths than logs |
| Logging.SegmentByRuns | server/concepts/logging.ts:209-221 | the two-state tracker records a start at the first day of every run of flow-bearing logs and a length (last flow day minus first) only for a run a flow-less log closes; a period is open exactly when the last log carries flow |
| Logging.PeriodCounts | server/concepts/logging.ts:209-221 | there are as many starts as lengths, plus one when a period is still open, so never fewer starts than lengths |
| Logging.NoFlowNoPeriods | server/concepts/logging.ts:209-221 | logs without flow record no start, no length and leave no period open |
| Logging.SegmentOrdered | server/concepts/logging.ts:209-221 | for date-sorted logs, the starts are non-decreasing and no later than the last log, and every length is non-negative |
| Logging.CycleLengthsAt | server/concepts/logging.ts:225-228 | there are max(0, starts - 1) cycle lengths, the i-th being start i+1 minus start i |
| Logging.ConsecutiveDifferences | server/concepts/logging.ts:225-228 | the loop yields exactly the consecutive differences of the period starts |
| Logging.RoundedMean | server/concepts/logging.ts:231-233 | null exactly for an empty list; otherwise the integer nearest to the mean, with halves rounded up, as `Math.round` does |
| Logging.Penalty | server/concepts/logging.ts:306-313 | the least k from the given start up to 100 with k + 1/2 at least 5 times the standard deviation, and 100 when there is none |
| Logging.RegularityScore | server/concepts/logging.ts:306-313 | `Math.round(Math.max(0, 100 - 5 * stddev))` on exact values: always in 0..100, and 100 - k for the least k with k + 1/2 at least 5 times the standard deviation |
| Logging.ConstantSums | server/concepts/logging.ts:306-313 | equal values sum to n times the value, and their squares to n times its square |
| Logging.EqualCyclesScoreFull | server/concepts/logging.ts:306-313 | cycles all of the same length score 100 |
| Logging.SortByFrequency | server/concepts/logging.ts:315-319 | the ranked entries are a permutation of the map's entries, non-increasing in frequency, with entries of equal frequency in their map order |
| Logging.RankingCorrect | server/concepts/logging.ts:198-207 | the ranked symptom or mood list holds the same entries as the frequency map, each item counted as often as it occurs, total equal to the number of occurrences, non-increasing in frequency, ties in first-encounter order |
| Logging.TallyAppend | server/concepts/logging.ts:198-207 | counting a list in two parts equals counting the first part and then bumping once per item of the second |
| Logging.BumpEach | server/concepts/logging.ts:200-202 | the `forEach` over a log's symptoms bumps the frequency map once per symptom |
| Logging.ScanStep | server/concepts/logging.ts:198-221 | one more log advances the tracker by one step, appends its symptoms, and counts its mood only when it is not null |
| Logging.CountLog | server/concepts/logging.ts:199-207 | the frequency statements on one log with daily fields extend both frequency maps by that log |
| Logging.TrackPeriod | server/concepts/logging.ts:209-221 | the loop body's period bookkeeping performs one tracker step on its variables |
| Logging.ScanLogs | server/concepts/logging.ts:198-221 | the loop runs to the end exactly when every log has daily fields, and then its variables hold the starts and lengths of the segmentation and the symptom and mood frequency maps of all the logs |
| Logging.CalculateCycleStats | server/concepts/logging.ts:183-251 | fails with the TypeError of `forEach` on undefined exactly when some log lacks the daily fields, as every activity log does; otherwise computes exactly the cycle statistics of the logs |
| Logging.DailyLogs | server/concepts/logging.ts:185 | the logs that have daily fields: all of them when every log does, and never more than there are |
| Logging.DailyLogsSorted | server/concepts/logging.ts:185 | dropping the logs without daily fields keeps the date order the query returns |
| Logging.CalculateCycleStatsAsIntended | server/concepts/logging.ts:183-251 | the statistics of the daily logs alone, so every property proved of the cycle statistics applies; equal to the written result when every log is a daily log |
| Logging.ActivityLogFailsCycleStats | server/concepts/logging.ts:198-200 | one activity log makes the written statistics fail, while the intended ones are those of the other logs |
| Logging.CycleStatsOf | server/concepts/logging.ts:183-251 | the score is in 0..100; there is a last period start exactly when some log carries flow; a prediction is present only with a last start and an average cycle length, and is their sum |
| Logging.FlowStartsPeriod | server/concepts/logging.ts:209-214 | some period start is recorded exactly when some log carries flow |
| Logging.NoFlowStats | server/concepts/logging.ts:183-251 | logs without flow give null averages, score 0, no last start and no prediction |
| Logging.EmptyStats | server/concepts/logging.ts:183-251 | no logs give the all-null, all-empty statistics |
| Logging.CycleLengthsOfLogs | server/concepts/logging.ts:225-228 | max(0, starts - 1) cycle lengths, each the day difference of consecutive starts and non-negative for date-sorted logs |
| Logging.AveragesAndScore | server/concepts/logging.ts:230-236 | the average cycle length is null exactly when there are fewer than two starts; the average period length is null exactly when no period closed; the score is 0 below two cycle lengths and always in 0..100 |
| Logging.PredictionRule | server/concepts/logging.ts:238-240 | the last period start is the last recorded start, or null; the prediction is that start plus the average cycle length, present exactly when both exist and the average is non-zero |
| Logging.PredictionFrom | server/concepts/logging.ts:238-240 | the same rule stated over the assembled statistics |
| Logging.StreakUnique | server/concepts/logging.ts:271-298 | at most one streak length fits a list of logs |
| Logging.CalculateActivityStats | server/concepts/logging.ts:253-304 | no logs give streak 0 and no last activity; otherwise the last activity is the date and activities of the newest log, the activities being undefined (`None`) when that log is a daily log, and the streak lies between 1 and the number of logs and counts the consecutive days, ending at the newest, that all have a log, the day before them having none |
| Logging.LoggingConcept.constructor | server/concepts/logging.ts:86-88 | the collection starts empty |
| Logging.LoggingConcept.IndexOf | server/concepts/logging.ts:140 | the position of the log with that id, or none when no log has it |
| Logging.ReadOne | server/concepts/logging.ts:140-145 | `readOne({ _id })` finds a log exactly when one has that id, and then a stored log with that id; with an update result as the `_id` it finds nothing |
| Logging.ReadOneById | server/concepts/logging.ts:145 | with distinct ids, reading a log by its own id finds that log |
| Logging.UpdateResponseFindsNothing | server/concepts/logging.ts:144-145 | an updated log can be read back by its id, but the read with the update result finds nothing |
| Logging.LoggingConcept.Create | server/concepts/logging.ts:100-103 | appends exactly one log with a fresh id, the given daily fields and no activities |
| Logging.LoggingConcept.CreateActivityLog | server/concepts/logging.ts:106-109 | appends exactly one log with a fresh id, the given activities and no daily fields |
| Logging.LoggingConcept.Delete | server/concepts/logging.ts:114-117 | removes the log with that id, if there is one, and nothing else |
| Logging.LoggingConcept.DeleteAllLogs | server/concepts/logging.ts:179-181 | removes every log |
| Logging.LoggingConcept.Update | server/concepts/logging.ts:139-146 | "Log not found" for an unknown id with nothing changed; otherwise sets that log's symptoms, mood, flow and notes, adding them to an activity log, and nothing else, and answers with no log |
| Logging.LoggingConcept.UpdateAsIntended | server/concepts/logging.ts:139-146 | the same change, answered with the updated log |
| Logging.LoggingConcept.UpdateActivityLog | server/concepts/logging.ts:148-155 | "Log not found" for an unknown id with nothing changed; otherwise sets that log's activities, adding them to a daily log, and nothing else, and answers with no log |
| Logging.LoggingConcept.UpdateActivityLogAsIntended | server/concepts/logging.ts:148-155 | the same change, answered with the updated log |
| Logging.LoggingConcept.AssertAuthorIsUser | server/concepts/logging.ts:157-164 | passes exactly when the log exists and the user wrote it; "Log not found" exactly when no log has the id; otherwise "User is not the author of this log" |
| Logging.LoggingConcept.GetLogByDate | server/concepts/logging.ts:166-173 | a log of that author on that date, or none when there is no such log |
| Logging.FindByDate | server/concepts/logging.ts:166-173 | a log of that author and date from `from` on, or none |
| Checklisting.ToggleAt | server/concepts/checklisting.ts:85 | flips the completion of the indexed task only, keeping its description and every other task |
| Checklisting.ToggleTwice | server/concepts/checklisting.ts:78-90 | toggling the same task twice restores the list |
| Checklisting.ChecklistConcept.constructor | server/concepts/checklisting.ts:24-26 | no checklist exists at first |
| Checklisting.ChecklistConcept.InitializeChecklist | server/concepts/checklisting.ts:29-38 | creates an empty list only when none exists for (user, date); otherwise nothing changes; other keys are untouched |
| Checklisting.ChecklistConcept.GetChecklist | server/concepts/checklisting.ts:41-47 | NotFoundError exactly when there is no list for (user, date); otherwise that list |
| Checklisting.ChecklistConcept.AddTask | server/concepts/checklisting.ts:50-60 | NotFoundError with nothing changed for a missing list; otherwise appends one uncompleted task to that list only |
| Checklisting.PassesRangeCheck | server/concepts/checklisting.ts:66 | `taskIndex < 0 \|\| taskIndex >= length` rejects a number exactly when it is outside the list, and never rejects NaN |
| Checklisting.InRange | server/concepts/checklisting.ts:66 | the intended check: a number within the list |
| Checklisting.SpliceOne | server/concepts/checklisting.ts:70 | `splice(taskIndex, 1)` after the check: one task fewer unless the list is empty; for a number, the task at that index goes |
| Checklisting.NaNRemovesFirstTask | server/concepts/checklisting.ts:66-70 | NaN passes the check on any list, even an empty one, and the removal then drops the first task |
| Checklisting.InRangeRefinesRangeCheck | server/concepts/checklisting.ts:66 | the intended check rejects NaN and agrees with the written one on numbers |
| Checklisting.ChecklistConcept.RemoveTask | server/concepts/checklisting.ts:63-75 | NotFoundError with nothing changed for a missing list or an index the check rejects; otherwise the spliced list replaces that list only |
| Checklisting.ChecklistConcept.RemoveTaskAsIntended | server/concepts/checklisting.ts:63-75 | NotFoundError with nothing changed for a missing list, NaN or an index out of range; otherwise removes that task, later ones moving down, in that list only |
| Checklisting.ChecklistConcept.ToggleTask | server/concepts/checklisting.ts:78-90 | NotFoundError with nothing changed for a missing list or a number out of range; a TypeError with nothing changed for NaN; otherwise flips that task's completion, in that list only |
| Checklisting.ChecklistConcept.ToggleTaskAsIntended | server/concepts/checklisting.ts:78-90 | NotFoundError with nothing changed for a missing list, NaN or an index out of range; otherwise flips that task's completion, in that list only |
| Notification.Clock | server/concepts/notification.ts:113 | a valid hh:mm is a minute of the day, in 0..1439, whose hour and minute are hh and mm |
| Notification.StartOfDay | server/concepts/notification.ts:112-113 | midnight of the day containing the given minute |
| Notification.TimeOfDay | server/concepts/notification.ts:112-113 | the minute within its day, in 0..1439 |
| Notification.NotificationTime | server/concepts/notification.ts:105-123 | today at hh:mm, plus seven days when weekly, plus one day when daily and that time has come; the time of day is always today's hh:mm |
| Notification.ScheduledTimes | server/concepts/notification.ts:105-123 | for a valid hh:mm: a one-shot reminder lands today at hh:mm; a daily one at the first hh:mm strictly after now; a weekly one at hh:mm seven days from today; so only a one-shot reminder can fail the future check |
| Notification.DayAndTime | server/concepts/notification.ts:112-113 | a minute of a day, k days after a midnight, has that day and that time of day |
| Notification.NextNotificationTime | server/concepts/notification.ts:191-199 | exactly one day later for daily, seven days for weekly, unchanged for once; the time of day is kept |
| Notification.GenerateNotificationContent | server/concepts/notification.ts:201-206 | the drawn template with its first `{activity}` replaced by the lower-cased subject, expanded as `replace` expands `$` patterns, and unchanged when it has none; a subject without `$` is inserted literally |
| Notification.MatchPatternKeepsTemplate | server/concepts/notification.ts:205 | a subject of `$&` yields the template itself |
| Notification.Deliver | server/concepts/notification.ts:126-170 | a due pending one-shot reminder becomes delivered; a due recurring one stays pending, one period later, with fresh content; anything not due or already delivered is unchanged; id, user, subject, frequency and hh:mm never change |
| Notification.RecurringStaysDueOnlyIfOverdue | server/concepts/notification.ts:135-150 | a recurring reminder rescheduled by one pass is still due only if it was at least a full period overdue |
| Notification.NotificationConcept.constructor | server/concepts/notification.ts:80-82 | the collection starts empty |
| Notification.NotificationConcept.CreateNotification | server/concepts/notification.ts:84-103 | NotAllowedError with nothing stored when the computed time is not after now; otherwise stores one pending reminder with a fresh id, the computed time, the generated content and the given fields |
| Notification.NotificationConcept.DeliverPendingNotifications | server/concepts/notification.ts:126-170 | every stored reminder is replaced by the result of one delivery step, and nothing is added or removed |
| Notification.NotificationConcept.IndexOf | server/concepts/notification.ts:172-175 | the position of the reminder with that id, or none |
| Notification.NotificationConcept.DeleteNotification | server/concepts/notification.ts:172-175 | removes the reminder with that id, if any, and nothing else |
| Notification.NotificationConcept.DeleteAllNotifications | server/concepts/notification.ts:177-180 | removes exactly the user's reminders |
| Notification.NotificationConcept.GetDeliveredNotifications | server/concepts/notification.ts:182-185 | exactly the user's delivered reminders, with a count equal to the list's length |
| Notification.NotificationConcept.GetPendingNotifications | server/concepts/notification.ts:187-189 | exactly the user's pending reminders |
| Posting.CircleNames | server/concepts/posting.ts:63 | one name per circle |
| Posting.CircleNamesAt | server/concepts/posting.ts:63 | the i-th name is the i-th circle's name |
| Posting.CircleNamesAppend | server/concepts/posting.ts:63 | the names of two lists of circles are the names of each, concatenated |
| Posting.AddedNames | server/concepts/posting.ts:67-69 | creating one circle adds its name at the end |
| Posting.PredefinedDistinct | server/concepts/posting.ts:29 | the two predefined circle names are distinct |
| Posting.Extended | server/concepts/posting.ts:58-74 | appending the created circles extends the old list, and afterwards every requested name exists |
| Posting.SeenStep | server/concepts/posting.ts:62-71 | the set of known names grows by one name at a time, and a name is known exactly when it was present or is repeated in the input |
| Posting.AllNamesKnown | server/concepts/posting.ts:58-74 | every requested name is either present already or among the names created |
| Posting.TitleContains | server/concepts/posting.ts:128-130 | true exactly when the lower-cased search string occurs in the lower-cased title |
| Posting.NameLeTotal | server/concepts/posting.ts:106 | the order on circle names is total |
| Posting.NameLeTransitive | server/concepts/posting.ts:106 | the order on circle names is transitive |
| Posting.InsertByName | server/concepts/posting.ts:106 | inserting a circle adds exactly that circle to the multiset of circles |
| Posting.SortByName | server/concepts/posting.ts:105-107 | the circles sorted by name are a permutation of the stored circles |
| Posting.InsertByNameElements | server/concepts/posting.ts:106 | inserting a circle adds exactly that circle |
| Posting.InsertByNameSorted | server/concepts/posting.ts:106 | inserting a circle into a name-sorted list keeps it sorted |
| Posting.SortByNameCorrect | server/concepts/posting.ts:105-107 | the circles sorted by name are sorted and a permutation of the stored circles |
| Posting.NewestFirst | server/concepts/posting.ts:110-112 | the posts sorted by date updated are non-increasing in it and a permutation of the stored posts |
| Posting.PostsBelowLater | server/concepts/posting.ts:87 | raising the id counter keeps every stored post id below it |
| Posting.PostingConcept.constructor | server/concepts/posting.ts:39-46 | no posts at first, and exactly the predefined circles "Fertility" and "Menopause" |
| Posting.PostingConcept.CreateCircle | server/concepts/posting.ts:68 | appends one circle with a fresh id and the given name; posts unchanged |
| Posting.PostingConcept.InitializeDefaultCircles | server/concepts/posting.ts:48-56 | creates, in order, exactly the predefined names not yet present; afterwards both exist; old circles and posts unchanged |
| Posting.PostingConcept.CreateMissingCircles | server/concepts/posting.ts:48-56 | for distinct names, creates exactly those not yet present, in order, after which every name exists |
| Posting.PostingConcept.EnsureCircles | server/concepts/posting.ts:58-74 | returns its input unchanged; creates each missing name once, in first-occurrence order, even when it is repeated; afterwards every name exists; posts unchanged |
| Posting.PostingConcept.CreateSisterCirclePost | server/concepts/posting.ts:77-90 | stores one post with a fresh id, the given author, title, content and circles, and a null username when anonymous; the missing circles are created first |
| Posting.PostingConcept.CreateMyCareBoardPost | server/concepts/posting.ts:92-102 | stores one care-board post with a fresh id and the given fields; circles and Sister Circle posts unchanged |
| Posting.PostingConcept.GetAllCircles | server/concepts/posting.ts:105-107 | all circles, sorted by name |
| Posting.PostingConcept.GetAllSisterCirclePosts | server/concepts/posting.ts:110-112 | all Sister Circle posts, newest update first |
| Posting.PostingConcept.GetSisterCirclePostsByCircle | server/concepts/posting.ts:114-121 | "Circle with name … not found" exactly when no circle has that name; otherwise exactly the posts listing that circle |
| Posting.PostingConcept.GetSisterCirclePostsByAuthor | server/concepts/posting.ts:124-126 | exactly the posts with that author |
| Posting.PostingConcept.GetSisterCirclePostsByTitle | server/concepts/posting.ts:133-151 | "Title search string cannot be empty" exactly for an empty search; otherwise exactly the posts whose title contains it, ignoring case |
| Posting.PostingConcept.GetMyCareBoardPostsByDestinationUsername | server/concepts/posting.ts:154-156 | exactly the care-board posts on that user's board |
| Posting.PostingConcept.GetMyCareBoardPostsByAuthor | server/concepts/posting.ts:159-161 | exactly the care-board posts by that author |
| Posting.PostingConcept.DeleteSisterCirclePost | server/concepts/posting.ts:164-167 | removes the post with that id, if any, and nothing else |
| Posting.PostingConcept.DeleteMyCareBoardPost | server/concepts/posting.ts:170-173 | removes the care-board post with that id, if any, and nothing else |
| Posting.PostingConcept.AssertAuthorIsUser | server/concepts/posting.ts:176-187 | NotFoundError when the board has no post with that id; PostAuthorNotMatchError when its author is null or another user; success otherwise |
| Inviting.HasInviteAppend | server/concepts/inviting.ts:29 | after adding an invite, a pair has an invite exactly when it had one or the new invite is for it |
| Inviting.AppendKeepsOnePerPair | server/concepts/inviting.ts:21-29 | adding an invite for a pair that has none keeps one invite per ordered pair |
| Inviting.FirstInvite | server/concepts/inviting.ts:51 | the first invite from the sender to the recipient, or none when there is no such invite |
| Inviting.InvitingConcept.constructor | server/concepts/inviting.ts:15-17 | no invites at first |
| Inviting.InvitingConcept.CheckIfInviteExists | server/concepts/inviting.ts:44-47 | true exactly when some invite goes from the first user to the second |
| Inviting.InvitingConcept.InviteUser | server/concepts/inviting.ts:20-31 | refuses a second invite for the same ordered pair with nothing changed; otherwise adds exactly one invite with a fresh id and the four given fields; the reverse pair is unaffected; the invariant of at most one invite per ordered pair is kept |
| Inviting.InvitingConcept.GetAllInvites | server/concepts/inviting.ts:34-36 | exactly the invites the user received |
| Inviting.InvitingConcept.GetAllInvitesSent | server/concepts/inviting.ts:39-41 | exactly the invites the user sent |
| Inviting.InvitingConcept.RemoveInvite | server/concepts/inviting.ts:50-53 | removes the first matching invite, if any, and nothing else; since each pair has at most one invite, none is left for the pair |
| Opting.WithFlag | server/concepts/opting.ts:46 | the partial update sets the named flag and keeps the other |
| Opting.SetToSameValue | server/concepts/opting.ts:45-52 | setting a flag to its current value changes nothing |
| Opting.UpdatesCompose | server/concepts/opting.ts:45-52 | of two updates to one flag the later wins; updates to different flags commute |
| Opting.OptingConcept.constructor | server/concepts/opting.ts:19-21 | no records at first |
| Opting.OptingConcept.InitializeUserOpting | server/concepts/opting.ts:24-33 | gives a user without a record the default record (both flags on); otherwise nothing changes; the user has a record afterwards |
| Opting.OptingConcept.GetUserOptingStatus | server/concepts/opting.ts:36-42 | NotFoundError exactly when the user has no record; otherwise that record |
| Opting.OptingConcept.SetUserOptingStatus | server/concepts/opting.ts:45-52 | NotFoundError with nothing changed when the user has no record; otherwise success, even when the flag already had that value, with only that flag of that user's record set |
| Responses.Post | server/responses.ts:15-23 | null comes back as null; an author-less post comes back as a copy with a null author; an authored post gives nothing |
| Responses.PostAsIntended | server/responses.ts:12-23 | the corrected `post`: every input gets a view, an authored post with its author's username |
| Responses.AuthorIds | server/responses.ts:29-30 | the non-null author ids, one per authored post, no more than there are posts |
| Responses.Reverse | server/responses.ts:32 | `reverse` puts element i at position n - 1 - i |
| Responses.Posts | server/responses.ts:28-46 | the reverse-and-pop loop pairs the posts with usernames exactly as the specification function does |
| Responses.Shaped | server/responses.ts:28-46 | `posts` returns at most one entry per post |
| Responses.ShapedStep | server/responses.ts:35-43 | one more post adds one author id when it has an author, and consumes the next username |
| Responses.ShapedEntries | server/responses.ts:35-43 | every entry is one of the posts, paired with null exactly when the post has no author and otherwise with a non-empty username; the output is no longer than the input |
| Responses.AuthorIdsAt | server/responses.ts:29-30 | an authored post's id sits at the position given by the number of authored posts before it |
| Responses.NothingDropped | server/responses.ts:28-46 | with enough non-empty usernames, the output has one entry per post, in order, and the k-th authored post is paired with the k-th username |
| Responses.PostAgreesWithPosts | server/responses.ts:15-46 | `post` gives an author-less copy exactly when `posts` pairs that post with null |
| Responses.AuthoredPostLost | server/responses.ts:19-23 | an authored post gets no view from `post`, although `posts` pairs it with its author's username |
| Responses.PostAsIntendedAgreesWithPosts | server/responses.ts:15-46 | the corrected `post` maps null to null and agrees with `posts` on every post: null for an author-less one, the username for an authored one |
| Responses.Froms | server/responses.ts:53 | the sender of each request, in order |
| Responses.Tos | server/responses.ts:54 | the recipient of each request, in order |
| Responses.FriendRequests | server/responses.ts:52-57 | one view per request, in order, each keeping the request's other fields |
| Responses.FriendRequestsNamed | server/responses.ts:52-57 | when the account service answers one username per id, element i gets usernames[i] as sender and usernames[i + n] as recipient, which are the usernames of its own sender and recipient |
| Responses.Circles | server/responses.ts:59-61 | one view per circle, in order, with the id as a string and the name |
| Responses.CircleViews | server/responses.ts:59-61 | distinct circle ids give distinct view ids, and the view names are the circle names |

## Left out

- The MongoDB collection layer, `async`/`await` and ObjectId generation are not modelled. Collections are in-memory sequences or maps, and ids come from a counter.
- Query filters that run in the database are not modelled either. Both statistics take the author's logs as a parameter, in the order their queries return them: ascending by date (server/concepts/logging.ts:185 and :258). `calculateActivityStats` requires that order. The cycle statistics are defined for any order, and the lemmas that depend on the date order take it as a precondition. Selecting by author is part of the query and is not modelled.
- The order of a sort among equal keys is not stated for `getAllCircles` or `getAllSisterCirclePosts`, since Mongo's tie order is unspecified. Circle names are compared lexicographically by character code rather than by MongoDB's collation.
- `getLogs`, `getActivityLogs`, `getActivityLogByDate`, `deleteActivityLog` and `getLogsForExport` are not modelled. `getLogs` and `getActivityLogs` return the whole collection. `getActivityLogByDate` and `deleteActivityLog` run the same query and delete, with the same filter, as `getLogByDate` and `delete`. `getLogsForExport` selects the author's logs as the statistics do, but sorts them newest first.
- Notification.GenerateNotificationContent: the template is a parameter standing for the one `Math.random` draws. The fifty templates are not listed, so the model does not state that the template is one of them.
- Real dates are not modelled: milliseconds, time zones and daylight-saving changes. Out-of-range hours or minutes spill into neighbouring days, as `setHours` does.
- Reminders with a non-numeric hh:mm are not modelled. `setHours` then yields an invalid Date. That Date is still truthy, so `!notificationTime` does not reject it, and `NaN <= now` is false. The reminder is stored with an invalid time and never comes due. The model's integer times cannot represent it.
- `createNotification` reads the clock twice. The model uses a single `now`.
- Logging.RegularityScore: computed on exact values. The floating-point square root and rounding error of `Math.sqrt` are not modelled.
- `toLowerCase` is modelled for ASCII letters only. Unicode case mapping is not modelled.
- A log document holds only the fields its writer set: a daily log has no `activities`, an activity log has no daily fields, and a partial update adds its fields. A missing field, which reads as `undefined`, is `None` in the model. `calculateCycleStats` therefore throws on an author's activity log (see Findings). When the newest log has no activities, `calculateActivityStats` reports `activities: undefined`, which is `None` in the model.
- Error message formatting is not modelled, nor are `Router.registerError` and the HTTP routes. The one trace of the routes is the task index: `parseInt` in server/routes.ts:530 and :537 yields an integer or NaN, which is the `TaskIndex` that RemoveTask and ToggleTask take.
- `Authing.getUserById` and `Authing.idsToUsernames` are parameters. A lookup that throws is not modelled.
- The Friending concept is not part of this model. A friend request's fields other than the sender and the recipient are a type parameter.
- Posting.PostingConcept.CreateCircle: circle ids are fresh, but the invariant does not state that they are distinct from each other.
- The posting constructor's seeding is asynchronous and not awaited. The model runs it to completion inside the constructor.

## Findings

| source | as written | input that shows it | evidently intended | confidence | as-written member | corrected member |
|---|---|---|---|---|---|---|
| server/responses.ts:19-23 | `post` awaits the author's account and then falls off the end of the function, so an authored post yields `undefined`. The routes that create posts therefore return no post for a signed post. | any post whose `author` is not null | return the post with its author's username, as the method's comment and `posts` do | not executed; high | Responses.AuthoredPostLost | Responses.PostAsIntendedAgreesWithPosts |
| server/concepts/logging.ts:144-145 | `update` reads the log back with the value `partialUpdateOne` returned. That value is the update's result, whose `matchedCount` server/concepts/opting.ts:46-48 reads, and not an id. So the response always carries `log: null`. | any update of an existing log | answer with the updated log, read back by its own id | not executed; high | Logging.LoggingConcept.Update | Logging.LoggingConcept.UpdateAsIntended |
| server/concepts/logging.ts:153-154 | `updateActivityLog` reads the log back the same way, so its response carries `log: null` too. | any activity update of an existing log | answer with the updated log | not executed; high | Logging.LoggingConcept.UpdateActivityLog | Logging.LoggingConcept.UpdateActivityLogAsIntended |
| server/concepts/checklisting.ts:66-70 | Every comparison with NaN is false, so the range check lets NaN through. NaN is what the route's `parseInt` gives for a non-numeric index. `splice(NaN, 1)` then removes the first task, and the call succeeds even on an empty list. | a task index of `abc` | NotFoundError for NaN | not executed; high | Checklisting.NaNRemovesFirstTask | Checklisting.ChecklistConcept.RemoveTaskAsIntended |
| server/concepts/checklisting.ts:81-85 | NaN passes the same check. `tasks[NaN]` is undefined, so reading `.completed` throws a TypeError instead of a NotFoundError. | a task index of `abc` | NotFoundError for NaN | not executed; high | Checklisting.ChecklistConcept.ToggleTask | Checklisting.ChecklistConcept.ToggleTaskAsIntended |
| server/concepts/logging.ts:185-200 | The cycle-statistics query reads all of the author's logs, activity logs included. An activity log has no `symptoms`, so `log.symptoms.forEach` throws a TypeError, and the cycle-statistics route (server/routes.ts:288-291) fails for any user who has logged an activity. | an author with one activity log | compute the statistics over the daily logs only | not executed; high | Logging.ActivityLogFailsCycleStats | Logging.CalculateCycleStatsAsIntended |
