# mentor-clip in Dafny

A model of the decision logic of mentor-clip, a mentorship platform on which
students upload videos and submit them to challenges, supervisors score and
annotate the videos, and admins manage users and challenges. The model covers:

- the challenge route handlers (create, read, update, delete, behind the
  manager/reviewer gate) and the student challenge route (the open-challenge
  listing and the chain of checks that admits a video to a challenge);
- the video routes (metadata POST and the owner-scoped listings, the
  supervisor's list of every video) and the upload route that builds the
  object key;
- the five places that decide whether a challenge is open, and lemmas
  stating exactly where they agree and where they differ;
- the chat channel identity: the 32-bit FNV-1a hash over UTF-16 code units,
  written as the loop the source runs and proved equal to the textbook
  definition, and the avatar, initials and channel-title helpers;
- the page guards, the post-login redirect and the sidebar's role-to-menu
  choice;
- the client components' state updates (role change, optimistic delete,
  note insertion and sort, feedback validation, the challenge form, the
  sign-up and login schemas, time formatting).

Each ORM table is a sequence field of the class `Database.Store`, whose
invariant is what the schema's keys guarantee (unique ids, one submission
per video and challenge). Route handlers that write are methods on the
store; handlers that only read are functions over its tables. A React
component whose handlers update state step by step is a class whose fields
are its state plus a log of what it sent (requests, toasts, callbacks,
navigations); the reply of each `fetch` is a parameter of the handler. The
session is `Option<User>`, dates are integer milliseconds, and the current
instant, fresh ids and the UUID are parameters.

A few behaviours of the code are worth stating plainly: a submission is
admitted before the challenge's start date and at its end instant; an
anonymous caller of the challenge write handlers gets 403, not 401; the
upload route has no authentication check; `professional` is a role the
checks test for although the role enum has no such value.

The FNV-1a state is an unbounded integer with the 32-bit wrap-around written
out (`ToInt32`, `ToUint32`, a shift that discards high bits, an integer
exclusive or), not a `bv32`: the solver handles the bit-vector products of
the shift sum far more slowly than modular arithmetic on integers.

## Model

| member | source | states |
|---|---|---|
| Database.SubmissionsUniqueAppend | app/api/student/challenge/route.ts:110-119 | a link with a fresh id and a fresh (video, challenge) pair keeps the store's uniqueness invariant |
| Database.FindChallenge | app/api/student/challenge/route.ts:87-89 | a found challenge is stored with that id; none is found only when no stored challenge has it |
| Database.FindVideo | app/api/student/challenge/route.ts:101-103 | a found video is stored with that id; none is found only when no stored video has it |
| StudentChallengeRoute.Get | app/api/student/challenge/route.ts:28-53 | the listing always answers 200 and never holds more entries than there are challenges |
| StudentChallengeRoute.OpenRowsExact | app/api/student/challenge/route.ts:33-51 | the rows behind the listing are exactly the active challenges ending strictly after the request instant, each once per stored row, by start date ascending |
| StudentChallengeRoute.GetListsExactlyOpen | app/api/student/challenge/route.ts:33-53 | every entry is the selected columns of an active challenge ending after now; every such challenge has an entry; entries ascend by start date; one entry per matching row |
| StudentChallengeRoute.EntriesAreListed | app/api/student/challenge/route.ts:34-49 | every entry projects an active challenge ending after now |
| StudentChallengeRoute.ListedHaveEntries | app/api/student/challenge/route.ts:34-49 | every active challenge ending after now has an entry |
| StudentChallengeRoute.SubmitStatus | app/api/student/challenge/route.ts:63-130 | every status holds exactly under the handler's order of checks: 401 exactly without a session; 403 exactly for a role that may not submit, or, with both ids given and the challenge found, for a challenge not taking submissions or a video that is missing or not the caller's; 400 exactly for a permitted caller missing an id; 404 exactly for an unknown challenge; 409 exactly when every check passes and the pair is already submitted; 201 exactly when every check passes and the pair is new |
| StudentChallengeRoute.Submit | app/api/student/challenge/route.ts:63-130 | the reply status is `SubmitStatus` of the tables before the call; on 201 exactly one link (newId, challenge, video, now) is appended and its id returned; otherwise no table changes; the store's unique-pair invariant is kept |
| StudentChallengeRoute.SubmitAdmittedIff | app/api/student/challenge/route.ts:74-119 | a submission is admitted exactly when there is a student or professional session, both ids, an active challenge not yet ended, a video of the caller, and a new pair |
| StudentChallengeRoute.FindChallengeUnique | app/api/student/challenge/route.ts:87-89 | with unique ids, `findUnique` finds the stored challenge itself |
| StudentChallengeRoute.FindVideoUnique | app/api/student/challenge/route.ts:101-103 | with unique ids, `findUnique` finds the stored video itself |
| StudentChallengeRoute.SubmitIgnoresStartDate | app/api/student/challenge/route.ts:95-98 | changing any challenge's start date never changes the reply: a challenge that has not started is admitted alike |
| StudentChallengeRoute.EndInstantAdmittedButUnlisted | app/api/student/challenge/route.ts:37 | an active challenge ending at the request instant takes submissions (`endDate < now` is false) but is not listed (`gt` fails) |
| StudentChallengeRoute.SecondSubmissionConflicts | app/api/student/challenge/route.ts:127-130 | once a pair has been admitted, submitting it again, with any id and instant, is refused with 409 |
| StudentChallengeRoute.FindIgnoresStartDate | app/api/student/challenge/route.ts:87-89 | the challenge lookup by id finds the same challenge whatever the start dates are |
| AdminChallengeRoute.Authorize | app/api/admin/challenge/route.ts:15-35 | granted exactly to a session whose role is admin, professional or supervisor; no session gives 401 "Authentication required.", any other role 403 |
| AdminChallengeRoute.ManagersAreAdminsAndProfessionals | app/api/admin/challenge/route.ts:44 | exactly admins and professionals pass the write gate of POST, PUT and DELETE |
| AdminChallengeRoute.CreateStatus | app/api/admin/challenge/route.ts:40-74 | 403 exactly when the write gate fails; 400 exactly when title, startDate or endDate is falsy; 201 exactly when all pass and both dates parse |
| AdminChallengeRoute.NewChallenge | app/api/admin/challenge/route.ts:58-67 | the new row is active unless `isActive` is given as false, carries the parsed dates and has the caller as creator |
| AdminChallengeRoute.Create | app/api/admin/challenge/route.ts:40-74 | the status is `CreateStatus`; on 201 exactly the new row is appended and returned; otherwise nothing changes; ids stay unique |
| AdminChallengeRoute.CreateAcceptsAnyDateOrder | app/api/admin/challenge/route.ts:54-67 | a challenge ending before it starts is created all the same |
| AdminChallengeRoute.FirstNote | app/api/admin/challenge/route.ts:112-121 | a video carries at most one note (`take: 1`), and one exactly when it has any |
| AdminChallengeRoute.SubmissionsOf | app/api/admin/challenge/route.ts:103-125 | one summary per submission of the challenge |
| AdminChallengeRoute.GetDetail | app/api/admin/challenge/route.ts:88-142 | 200 exactly for a stored id that is active or asked by a reviewer, else 404 with no payload; on 200 the reply carries the stored challenge's id, title, description, dates, active flag and creator, and, exactly for reviewers, its submissions as `SubmissionsOf` gives them |
| AdminChallengeRoute.Get | app/api/admin/challenge/route.ts:80-166 | with an id: the detail view, whatever the session; without: the reviewer list, or the authorization's own 401/403 |
| AdminChallengeRoute.GetListOrderedAndCounted | app/api/admin/challenge/route.ts:146-160 | the list holds every stored challenge once, newest `createdAt` first, each with the number of its submissions |
| AdminChallengeRoute.GetListOrdered | app/api/admin/challenge/route.ts:152 | the list is newest first |
| AdminChallengeRoute.GetListSameChallenges | app/api/admin/challenge/route.ts:151-159 | the list has one entry per stored challenge and no other |
| AdminChallengeRoute.DetailSubmissionsOfChallenge | app/api/admin/challenge/route.ts:103-125 | the detail lists each submission of the challenge, in table order, each video with at most its first note |
| AdminChallengeRoute.Patched | app/api/admin/challenge/route.ts:186-195 | absent fields and falsy dates keep the stored value; id, creator and creation instant never change |
| AdminChallengeRoute.UpdateRows | app/api/admin/challenge/route.ts:186-195 | only the row with that id is patched; every other row is as it was |
| AdminChallengeRoute.Update | app/api/admin/challenge/route.ts:171-205 | 403 for the gate, 400 without an id, 500 for an unparsable date, 404 for an unknown id (P2025), else 200 with exactly that row patched; nothing changes on failure; ids stay unique |
| AdminChallengeRoute.Delete | app/api/admin/challenge/route.ts:210-237 | 403 for the gate, 400 without an id, 404 for an unknown id (P2025), else 200 with the challenge and its submissions removed and every other row kept; nothing changes on failure |
| AdminChallengeRoute.DeleteRemovesExactlyThatChallenge | app/api/admin/challenge/route.ts:225-227 | after a delete no row has the id, every row with another id remains, and nothing new appears |
| ChallengeDetailClient.ChallengeStatus | components/student/ChallengeDetailClient.tsx:33-47 | the label is one of the four; the form is open exactly for an active challenge with start <= now <= end, and exactly when the label is "OPEN FOR SUBMISSIONS" |
| ChallengeDetailClient.StatusLabelCases | components/student/ChallengeDetailClient.tsx:37-46 | "Inactive" exactly when inactive, "Closed" exactly for an active challenge whose end has passed, "Starting Soon" exactly for an active one not yet ended whose start is ahead; each label with its badge variant |
| ChallengeDetailClient.Lower | components/student/ChallengeDetailClient.tsx:126 | `toLowerCase` keeps the length and lowers each character |
| ChallengeDetailClient.SubmissionSection | components/student/ChallengeDetailClient.tsx:105-129 | the submission form, for this challenge and student, shows exactly while the challenge is open; otherwise the "Submissions Closed" alert with the lower-cased label |
| ChallengeDetailClient.ClosedAlertNamesReason | components/student/ChallengeDetailClient.tsx:122-128 | the alert says "inactive", "closed" or "starting soon" according to the reason |
| ChallengeDetailClient.LowerLabels | components/student/ChallengeDetailClient.tsx:126 | the closed-form alert reads the labels in lower case: "inactive", "closed", "starting soon" |
| SupervisorChallengeDetail.StatusBadge | components/supervisor/SupervisorChallengeDetail.tsx:49-82 | "OPEN" in green exactly for an active challenge whose end lies strictly after now, else "CLOSED" in red |
| SupervisorChallengeDetail.TotalSubmissions | components/supervisor/SupervisorChallengeDetail.tsx:86 | the total is the number of submissions, and 0 when the reply has none (non-reviewer reply) |
| SupervisorChallengeDetail.ExistingFeedback | components/supervisor/SupervisorChallengeDetail.tsx:94 | the form is seeded with the video's first note exactly when the video has one |
| SupervisorChallengeDetail.FeedbackIsFirstNoteOfVideo | components/supervisor/SupervisorChallengeDetail.tsx:94-117 | for a submission of the route's detail reply, the seed is a note on that very video, and there is one exactly when the video has any note |
| SupervisorChallengeDetail.ReviewPage.RefetchChallenge | components/supervisor/SupervisorChallengeDetail.tsx:52-61 | an ok reply replaces the challenge with its body; a failed one keeps it |
| SupervisorChallengeDetail.ReviewPage.constructor | components/supervisor/SupervisorChallengeDetail.tsx:47 | the page starts from the challenge it was given |
| SupervisorChallengeListClient.CardOf | components/supervisor/SupervisorChallengeListClient.tsx:75-113 | the pill says "Closed", in red, exactly when the end lies before now, else "Open" in green; the card links to the challenge's review page and shows its submission count |
| SupervisorChallengeListClient.Render | components/supervisor/SupervisorChallengeListClient.tsx:54-117 | loading first, then the error text, then the empty state exactly for no challenges, else one card per challenge in order |
| SupervisorChallengeListClient.CardIgnoresIsActive | components/supervisor/SupervisorChallengeListClient.tsx:76-78 | flipping a challenge's `isActive` flag leaves its card unchanged |
| SupervisorChallengeListClient.FetchError | components/supervisor/SupervisorChallengeListClient.tsx:35-44 | the stored error is never empty and is the server's message when the reply carries one |
| SupervisorChallengeListClient.ListPage.FetchChallenges | components/supervisor/SupervisorChallengeListClient.tsx:28-48 | a successful fetch replaces the list and clears the error; a failure keeps the list and stores `FetchError`; loading ends either way |
| SupervisorChallengeListClient.AfterFetchShowsErrorIffFailed | components/supervisor/SupervisorChallengeListClient.tsx:28-61 | after any fetch the page shows an error exactly when the fetch failed |
| SupervisorChallengeListClient.ListPage.constructor | components/supervisor/SupervisorChallengeListClient.tsx:23-25 | the list starts empty and loading, without an error |
| ChallengeOpenness.OpennessRelations | app/api/student/challenge/route.ts:34-38 | for every challenge and instant: the student listing and the supervisor detail page agree; the POST admits what is listed plus active challenges ending at that very instant; the student page is open exactly when the POST admits and the start has come; the supervisor list says Open for whatever POST admits and for inactive challenges whose end has not passed |
| ChallengeOpenness.AtEndInstant | app/api/student/challenge/route.ts:96 | at the end instant of an active, started challenge the POST admits and the student page shows the form, while the listing leaves it out and the supervisor page shows CLOSED |
| ChallengeOpenness.BeforeStart | components/student/ChallengeDetailClient.tsx:43-45 | before its start an active challenge is listed and admitted by the route while the student page shows "Starting Soon" and no form |
| ChallengeOpenness.InactiveShowsOpenInListOnly | components/supervisor/SupervisorChallengeListClient.tsx:76-77 | an inactive challenge whose end has not passed shows Open in the supervisor list and nowhere else |
| ChallengeOpenness.ListedChallengesAreAdmitted | app/api/student/challenge/route.ts:33-51 | every challenge the listing returns is one the POST admits and the supervisor list shows as Open |
| VideosRoute.PostStatus | app/api/videos/route.ts:19-55 | 403 exactly for a caller who is not a signed-in student, whatever the body; 400 exactly for a student with an invalid body; 201 exactly for a student with a valid one |
| VideosRoute.NewVideo | app/api/videos/route.ts:38-50 | the stored row carries the validated fields, a positive size, and the caller as owner |
| VideosRoute.Post | app/api/videos/route.ts:19-63 | the status is `PostStatus`; on 201 exactly the new row is appended and its id returned; otherwise nothing changes; ids stay unique |
| VideosRoute.RoleCheckedBeforeBody | app/api/videos/route.ts:23-36 | an invalid body yields 400 for a student and 403 for anyone else |
| VideosRoute.NotesOf | app/api/videos/route.ts:82-91 | a video carries one entry per stored note on it; each entry is the selected columns of a stored note on that video, and every such note has its entry |
| VideosRoute.Get | app/api/videos/route.ts:65-97 | 401 exactly without a session; otherwise 200 with, for each own video newest first, the video and its notes |
| VideosRoute.GetListsExactlyOwnVideos | app/api/videos/route.ts:77-95 | the list holds exactly the caller's videos, each once per stored row, newest first |
| VideosRoute.PostedVideoIsListed | app/api/videos/route.ts:41-95 | a video stored by POST shows up in its owner's GET list |
| StudentVideosRoute.Get | app/api/student/videos/route.ts:11-38 | 401 exactly when there is no user or the user has an empty id; otherwise 200 with a list |
| StudentVideosRoute.GetListsOwnVideosProjected | app/api/student/videos/route.ts:17-38 | any signed-in caller, whatever the role, receives one row per own video and no other, newest first, each row exactly the video's id, title and creation instant |
| StudentVideosRoute.RowsAreOwnVideos | app/api/student/videos/route.ts:25-34 | every row is the id, title and instant of one of the caller's videos |
| StudentVideosRoute.OwnVideosAreRows | app/api/student/videos/route.ts:25-34 | every video of the caller shows up as a row |
| StudentVideosRoute.RowsNewestFirst | app/api/student/videos/route.ts:35 | the rows are newest first |
| SupervisorVideosRoute.Get | app/api/supervisor/videos/route.ts:9-49 | 401 exactly without a session, 403 exactly for any role but supervisor (admins included), 200 with data exactly for a supervisor |
| SupervisorVideosRoute.SupervisorSeesEveryVideo | app/api/supervisor/videos/route.ts:23-47 | a supervisor receives every stored video, whoever uploaded it, newest first, each with exactly the notes on it, newest first |
| SupervisorVideosRoute.NotesOfExact | app/api/supervisor/videos/route.ts:31-42 | a video's notes are the stored notes on it, each as often as in the table: every such note is there, every entry is a stored note on that video, newest first |
| UploadVideoRoute.Sanitize | app/api/upload-video/route.ts:33 | `replace(/\s/g, '_')`: the same length, every whitespace character replaced by `_` and every other character kept |
| UploadVideoRoute.Post | app/api/upload-video/route.ts:16-59 | 400 exactly for an invalid body; 500 with the configuration message exactly for a valid body without a bucket name; 200 exactly otherwise, with the key and the URL signed for that bucket, content type, size, key and 1800 seconds |
| UploadVideoRoute.SanitizeRemovesOnlyWhitespace | app/api/upload-video/route.ts:33 | the sanitised name has no whitespace, a name without whitespace is kept, and sanitising twice changes nothing more |
| UploadVideoRoute.KeyKeepsPathCharacters | app/api/upload-video/route.ts:30-33 | slashes and dots of the file name are kept in the key: `a/../b c` ends the key as `a/../b_c` |
| UploadVideoRoute.KeyShape | app/api/upload-video/route.ts:30-33 | every key is `videos/`, the UUID and `-`, followed by the sanitised name of the same length |
| ChatUtils.CreateShortId | lib/chat-utils.ts:5-13 | the loop over the UTF-16 code units (ToInt32 xor, then the shift sum on a JavaScript number) returns exactly `ShortId(s)`: the hex text of the textbook 32-bit FNV-1a hash (xor, then multiply by 16777619 modulo 2^32) |
| ChatUtils.RoundMatchesStep | lib/chat-utils.ts:8-9 | one pass of the loop body, on any state, gives one FNV-1a round on the unsigned 32-bit state |
| ChatUtils.ShiftSumIsPrime | lib/chat-utils.ts:9 | `h + (h<<1) + (h<<4) + (h<<7) + (h<<8) + (h<<24)`, read as unsigned, is `h * 16777619 mod 2^32` |
| ChatUtils.ShlCong | lib/chat-utils.ts:9 | `x << k` agrees with `x * 2^k` modulo 2^32 |
| ChatUtils.EmptyShortId | lib/chat-utils.ts:6-12 | the empty string hashes to the offset basis 2166136261, written "811c9dc5" |
| ChatUtils.OffsetBasisHex | lib/chat-utils.ts:6 | the hex text of 2166136261 is "811c9dc5" |
| ChatUtils.ShortIdShape | lib/chat-utils.ts:11-12 | an identifier is 1 to 8 lowercase hex digits with no leading zero |
| ChatUtils.ShortIdRoundTrip | lib/chat-utils.ts:11-12 | reading an identifier back as hex gives the final unsigned state, which is below 2^32 |
| ChatUtils.ToInt32 | lib/chat-utils.ts:8-9 | the signed 32-bit value a bitwise operator works on lies in -2^31..2^31-1 |
| ChatClient.AvatarColor | components/stream/ChatClient.tsx:37-50 | the colour is always one of the eight palette entries |
| ChatClient.AvatarColorSwapParts | components/stream/ChatClient.tsx:48-49 | the colour depends only on the sum of the code units, so swapping two parts of an id keeps it |
| ChatClient.Initials | components/stream/ChatClient.tsx:59 | `slice(0, 2)`: at most two initials |
| ChatClient.InitialsOfAnyName | components/stream/ChatClient.tsx:53-60 | for every name, the initials are the upper-cased first code units of the first two non-empty pieces of the split on a space, as many as there are such pieces up to two; empty pieces from doubled, leading or trailing spaces give nothing |
| ChatClient.InitialsOfTwoWords | components/stream/ChatClient.tsx:53-60 | a two-word name gives the upper-cased first code unit of each word, in order |
| ChatClient.SortedPair | components/stream/ChatClient.tsx:107-108 | `[a, b].sort()` holds exactly the two ids |
| ChatClient.ChannelIdSymmetric | components/stream/ChatClient.tsx:107-109 | the sorted pair, and so the direct channel's id, is the same whichever of the two users starts the chat |
| ChatClient.ChatPage.CreateDirectChannel | components/stream/ChatClient.tsx:97-127 | no client: nothing changes; oneself: the alert only; otherwise a channel named "A & B" whose id hashes the sorted ids joined with "-" and whose members are the sorted pair, opened and the panel closed, or on a failed watch the failure alert only |
| ChatClient.ChatPage.FetchUsers | components/stream/ChatClient.tsx:178-191 | a successful fetch replaces the contact list with every user but the caller; a failure keeps it; loading ends either way |
| ChatClient.ContactsExcludeSelf | components/stream/ChatClient.tsx:184 | the contact list never offers the caller and keeps every other user |
| ChatClient.FirstName | components/stream/ChatClient.tsx:138-140 | the name shown for a member is never empty |
| ChatClient.ChannelDisplayName | components/stream/ChatClient.tsx:130 | a channel with a name of its own shows that name |
| ChatClient.DisplayNameNamesOthers | components/stream/ChatClient.tsx:129-147 | a title is never empty; with no other member it is "Chat"; with exactly one it is that member's name, or "Direct Message" without one; with several it starts with the first one's first name and ", " |
| ChatClient.DisplayNameOfSeveral | components/stream/ChatClient.tsx:137-143 | without a name of its own, a channel with two other members is titled by their first names joined with ", "; with more, " +" follows and then decimal digits that read back as the number of other members beyond the first two |
| ChatClient.SeveralTitleReadsBack | components/stream/ChatClient.tsx:140-142 | for two names and a count of at least two, the title is the names joined with ", " when the count is two; otherwise that head, then " +", then decimal digits that read back as the count less two |
| ChatClient.PreviewPeer | components/stream/ChatClient.tsx:222-225 | only a two-member channel shows a peer, and the peer is a member other than the caller; in a two-member channel the peer is the first member who is not the caller, and there is none when both are the caller |
| ChatClient.ChatPage.constructor | components/stream/ChatClient.tsx:91-94 | the page starts with no channel open, the new-message panel closed, no contacts, and the contact list loading |
| FeedbackForm.ValidationError | components/supervisor/FeedbackForm.tsx:41-50 | the required refusal exactly when the score is empty or the note is all whitespace; the range refusal exactly when both are filled and the score is outside 0..100; no refusal exactly when the score is within 0..100 inclusive and the note has a non-whitespace character |
| FeedbackForm.AcceptedIff | components/supervisor/FeedbackForm.tsx:41-50 | in the code's own terms: the form sends exactly when the score is within 0..100 and the trimmed note is not empty |
| FeedbackForm.RangeBoundsInclusive | components/supervisor/FeedbackForm.tsx:46 | for a note that does not trim to nothing, scores 0 and 100 are accepted, -1 and 101 get the range refusal |
| FeedbackForm.RequiredCheckedFirst | components/supervisor/FeedbackForm.tsx:41-45 | a note that trims to nothing gets the required refusal whatever the score, an out-of-range one included |
| FeedbackForm.FailureMessage | components/supervisor/FeedbackForm.tsx:63-74 | a non-ok reply shows its message, or "Failed to submit feedback." without one; a thrown network error shows its own message |
| FeedbackForm.InitialScore | components/supervisor/FeedbackForm.tsx:23 | the score input holds the existing feedback's score exactly when there is feedback with a score, and is empty otherwise |
| FeedbackForm.InitialNote | components/supervisor/FeedbackForm.tsx:24 | the note input holds the existing feedback's text, or is empty without feedback |
| FeedbackForm.Form.constructor | components/supervisor/FeedbackForm.tsx:23-27 | the form starts from the existing feedback, idle, with no error and nothing sent |
| FeedbackForm.Form.Reset | components/supervisor/FeedbackForm.tsx:29-34 | new feedback from the parent reloads both fields and clears the status line and the error |
| FeedbackForm.Form.HandleSubmit | components/supervisor/FeedbackForm.tsx:36-78 | an invalid form sends nothing and shows the validation error; a valid one sends exactly one request with the submission id, the score and the note as typed, and then shows success and tells the parent once, or shows the failure message; the fields are never changed |
| ChallengeForm.FormatDateForInput | components/admin/ChallengeForm.tsx:31-33 | the input value is a whole minute, the latest one not after the instant |
| ChallengeForm.FormatDateForInputShifts | components/admin/ChallengeForm.tsx:41-42 | truncating is idempotent, and truncating an instant a week later gives the truncated instant plus a week |
| ChallengeForm.DefaultForm | components/admin/ChallengeForm.tsx:38-44 | a new challenge's form has empty texts, is active, starts at the current minute and ends exactly a week later |
| ChallengeForm.DefaultFormPassesDateCheck | components/admin/ChallengeForm.tsx:38-44 | the untouched form of a new challenge passes the start-before-end check |
| ChallengeForm.EditForm | components/admin/ChallengeForm.tsx:51-58 | the edit form takes the title and the flag as stored, a missing description as empty, and both dates truncated to the minute |
| ChallengeForm.SameMinuteChallengeRefused | components/admin/ChallengeForm.tsx:55-56 | a stored challenge whose start and end lie in the same minute loads as a form whose start is not before its end, so the form refuses to save it unchanged |
| ChallengeForm.Apply | components/admin/ChallengeForm.tsx:72-75 | an edit replaces exactly the named field and keeps the others |
| ChallengeForm.RequestFor | components/admin/ChallengeForm.tsx:95-96 | editing sends PUT with the edited challenge's id, creating sends POST; both carry the form as it stands |
| ChallengeForm.FailureToast | components/admin/ChallengeForm.tsx:106-116 | the title names the update or the creation; the text is the reply's message, or "Failed to update/create challenge." without one, or the thrown message |
| ChallengeForm.Form.constructor | components/admin/ChallengeForm.tsx:35-46 | the form starts as a new challenge's default form, with nothing sent or shown |
| ChallengeForm.Form.Load | components/admin/ChallengeForm.tsx:50-69 | a challenge to edit loads its edit form; none resets to the default form at the current instant |
| ChallengeForm.Form.HandleChange | components/admin/ChallengeForm.tsx:72-75 | the form becomes `Apply` of the edit; nothing else changes |
| ChallengeForm.Form.HandleSwitchChange | components/admin/ChallengeForm.tsx:77-79 | only the active flag changes, to the switch's value |
| ChallengeForm.Form.HandleSubmit | components/admin/ChallengeForm.tsx:81-120 | a start not before the end sends nothing and shows the validation toast; otherwise exactly one request is sent, and success calls the parent once while failure shows the failure toast; the form is enabled again and its fields are unchanged |
| ChallengesPage.WithoutChallenge | app/admin/challenges/page.tsx:98 | the list after a deletion holds only rows with another id, all from the old list, and keeps every row with another id |
| ChallengesPage.WithoutChallengeRemovesExactlyOne | app/admin/challenges/page.tsx:98 | deleting a challenge whose id occurs once leaves exactly the rows before and after it, in their order |
| ChallengesPage.WithoutAbsentIdIsIdentity | app/admin/challenges/page.tsx:98 | deleting an id that is not listed leaves the list as it is |
| ChallengesPage.FetchError | app/admin/challenges/page.tsx:46-55 | a refusal shows its message, or "Failed to fetch challenges:" and the status text without one; a thrown error shows its own message |
| ChallengesPage.DeleteToast | app/admin/challenges/page.tsx:92-107 | a success toast naming the id exactly when the DELETE succeeded; otherwise a "Deletion failed" toast with the reply's message, "Failed to delete challenge." or the thrown message |
| ChallengesPage.Page.constructor | app/admin/challenges/page.tsx:30-37 | the page starts loading, with no challenges, no selection, no error and the dialog closed |
| ChallengesPage.Page.FetchChallenges | app/admin/challenges/page.tsx:40-59 | a fetched list replaces the challenges and clears the error; a failure keeps the list and sets the error text; loading ends either way |
| ChallengesPage.Page.HandleFormSuccess | app/admin/challenges/page.tsx:68-72 | the selection is cleared, a success toast shown, and the list fetched again |
| ChallengesPage.Page.InitiateDelete | app/admin/challenges/page.tsx:75-78 | the id is remembered and the confirmation dialog opens; nothing is sent |
| ChallengesPage.Page.ExecuteDelete | app/admin/challenges/page.tsx:81-111 | without a remembered id nothing happens; otherwise the dialog closes, exactly one DELETE for that id is sent, the list loses that challenge only on success, one toast reports the outcome, and the id is forgotten |
| ChallengesPage.Page.HandleEdit | app/admin/challenges/page.tsx:114-127 | the selected challenge is the row's stored challenge without the count and the creator; nothing else changes |
| UsersTable.RoleVariant | components/admin/UsersTable.tsx:133-144 | "destructive" exactly for admins, "default" exactly for supervisors, "secondary" for every other role, professionals included |
| UsersTable.RoleVariantsDifferOnProfessional | components/admin/UsersTable.tsx:133-144 | the table's badge and the role dialog's badge differ for exactly one role, `professional`: secondary in the table, default in the dialog |
| UsersTable.RoleUpdatedChangesOnlyRole | components/admin/UsersTable.tsx:86-92 | users with another id are kept as they were, in place; a user with the updated id takes its role and update instant and keeps every other field |
| UsersTable.RoleUpdatedIdempotent | components/admin/UsersTable.tsx:86-92 | applying the same update twice gives the list applying it once gives |
| UsersTable.DialogResultMerges | components/admin/UsersTable.tsx:85-92 | the user the role dialog hands over, merged into the table, changes the matching row to exactly the reply's role and update instant |
| UsersTable.FetchError | components/admin/UsersTable.tsx:58-67 | a refusal shows its message, or "Failed to fetch users: Status" and the code without one; a thrown error shows its message, or "An unknown error occurred." without one |
| UsersTable.Table.constructor | components/admin/UsersTable.tsx:40-49 | the table starts loading, with no users, no error, no dialog open and no user selected |
| UsersTable.Table.FetchUsers | components/admin/UsersTable.tsx:52-76 | a fetched list replaces the users and clears the error; a failure keeps the users, sets the error text and shows it in an error toast; loading ends either way and the dialogs are untouched |
| UsersTable.Table.HandleRoleUpdated | components/admin/UsersTable.tsx:85-97 | the users become `RoleUpdated` of the old users and one success toast names the user and the new role; nothing else changes |
| UsersTable.Table.HandleViewDetails | components/admin/UsersTable.tsx:100-124 | the user is selected; loaded details are shown in the open dialog; a failed or thrown fetch closes the dialog, leaves no details and adds exactly one error toast, "Failed to fetch detailed user data." for a failed reply and the thrown message (or "An unknown error occurred.") otherwise |
| UsersTable.Table.HandleChangeRole | components/admin/UsersTable.tsx:127-130 | the user is selected and the role dialog opens; the users, the details dialog and the toasts stay |
| UserRoleChanger.AllRolesExactly | components/admin/UserRoleChanger.tsx:53 | the select offers exactly three distinct roles, student, supervisor and admin; `professional` is not among them |
| UserRoleChanger.RoleVariant | components/admin/UserRoleChanger.tsx:68-79 | "destructive" exactly for admins, "default" exactly for professionals and supervisors, "secondary" exactly for every other role; the user-details dialog (components/admin/UserDetails.tsx:154-165) uses the same mapping |
| UserRoleChanger.Merged | components/admin/UserRoleChanger.tsx:110-114 | the handed-over user carries the reply's role and update instant, and agrees with the dialog's user in every other field |
| UserRoleChanger.FailureText | components/admin/UserRoleChanger.tsx:102-105 | a refused PATCH is described by the reply's message when it has one, else by "API Status" and the status code; a thrown error by its message, or "An unknown error occurred." |
| UserRoleChanger.RoleChangeModal.constructor | components/admin/UserRoleChanger.tsx:56-57 | the dialog starts with no role selected, not updating, and nothing sent or shown |
| UserRoleChanger.RoleChangeModal.UserChanged | components/admin/UserRoleChanger.tsx:60-65 | a new user resets the selection to that user's current role; no user leaves it; nothing else changes |
| UserRoleChanger.RoleChangeModal.SelectRole | components/admin/UserRoleChanger.tsx:53 | picking one of the offered roles selects it and changes nothing else |
| UserRoleChanger.RoleChangeModal.HandleUpdate | components/admin/UserRoleChanger.tsx:82-135 | without a user nothing happens; an unchanged role only warns "No Change" and sends nothing; otherwise exactly one PATCH with the user's id and the selected role is sent, and on success the merged user is handed to the table, the dialog closes once and a success toast names the new role, while on failure only an error toast with the failure text is shown; the dialog is enabled again at the end |
| VideoDetailClient.FormatTimeReadsBack | components/supervisor/VideoDetailClient.tsx:53-59 | for a non-negative timestamp the label is `MM:SS`: digit strings of at least two characters, the seconds exactly two digits below 60, reading back as the whole seconds of the timestamp |
| VideoDetailClient.PaddedDigits | components/supervisor/VideoDetailClient.tsx:58 | `String(n).padStart(2, '0')` is a digit string of at least two characters that reads back as n, exactly two below 100 |
| VideoDetailClient.NotesAfterAddExact | components/supervisor/VideoDetailClient.tsx:109 | after an add the list holds every earlier note and the new one, each as often as before, in ascending creation order |
| VideoDetailClient.VideoDetailPage.constructor | components/supervisor/VideoDetailClient.tsx:42-50 | the page starts from the notes it was given, an empty draft, nothing in flight, and the player paused at 0 |
| VideoDetailClient.VideoDetailPage.HandleAddNote | components/supervisor/VideoDetailClient.tsx:70-119 | a draft that is all whitespace (trims to nothing) sends nothing and changes nothing; otherwise exactly one request with the trimmed text, the player position, the video and the supervisor is sent; on success the new note (client clock as creation time) joins the sorted list, the draft is cleared and "Note added successfully!" is toasted; on failure notes and draft stay and "Could not add note. Please try again." is toasted; the form is enabled again at the end |
| VideoDetailClient.VideoDetailPage.HandleSeekToNote | components/supervisor/VideoDetailClient.tsx:62-67 | with a mounted player and a timestamped note the player moves to the timestamp in seconds and plays; otherwise nothing changes; the notes and the draft never change |
| UserDetails.FormatTimestampReadsBack | components/admin/UserDetails.tsx:68-74 | for a non-negative timestamp the text is the unpadded minutes, a colon and exactly two digits of seconds below 60, reading back as the whole seconds |
| UserDetails.TwoDigitSeconds | components/admin/UserDetails.tsx:73 | seconds below 60 padded to two places are exactly two digits that read back as the seconds |
| UserDetails.UserDetailsModal.constructor | components/admin/UserDetails.tsx:145 | the dialog starts with no video playing |
| UserDetails.UserDetailsModal.ClickVideo | components/admin/UserDetails.tsx:271-288 | a click on a video with a non-empty object key makes it the active video; a click on any other video changes nothing; only a playable video is ever active |
| UserDetails.UserDetailsModal.OpenChanged | components/admin/UserDetails.tsx:147-152 | closing the dialog clears the active video; reopening leaves it as it was |
| UserDetails.UserDetailsModal.AccordionChanged | components/admin/UserDetails.tsx:193-195 | collapsing the player's accordion item (any value but the item's own) clears the active video; the item's own value leaves it; only a playable video is ever active |
| SuccessHandler.RedirectPath | app/login/success-handler/page.tsx:9-34 | each of the five targets is chosen exactly for its case: no session or an empty role, student, supervisor, admin, and any other role |
| SuccessHandler.ProfessionalGoesToFallback | app/login/success-handler/page.tsx:28-31 | a professional lands on the generic "/dashboard" |
| Sidebar.NavigationItems | components/dashboard/Sidebar.tsx:134-152 | students and supervisors get their three items, admins their six, each role exactly its own list; anyone else (or no session) none |
| Sidebar.SupportItems | components/dashboard/Sidebar.tsx:116-137 | every session gets the two support links, "/help" then "/settings" |
| Sidebar.OnlyAnalyticsHasSubItems | components/dashboard/Sidebar.tsx:85-103 | the only item with sub-items is the admin's "Analytics", with three of them |
| AdminLayout.Guard | app/admin/layout.tsx:7-16 | the layout renders exactly for a session whose role is "admin"; both denials redirect to "/" |
| StudentChallengesPage.Guard | app/dashboard/student/challenges/page.tsx:8-27 | no session goes to "/login"; a role other than supervisor or admin goes to "/dashboard?error=access_denied"; exactly supervisors and admins get the list |
| StudentChallengesPage.StudentsTurnedAway | app/dashboard/student/challenges/page.tsx:16-20 | a signed-in student is sent to the access-denied dashboard |
| Navigation.AdminRedirectPassesAdminLayout | app/admin/layout.tsx:12-14 | the login redirect sends a session to the admin dashboard exactly when the admin layout renders for it |
| Navigation.SidebarHomeMatchesRedirect | components/dashboard/Sidebar.tsx:31-72 | the first sidebar entry of a student or an admin is their login redirect target; a supervisor's is "/dashboard" while the redirect picks "/dashboard/supervisor/dashboard" |
| Navigation.ChallengeListAudience | app/dashboard/student/challenges/page.tsx:18-20 | the challenge list under the student dashboard is open exactly to those the login redirect sends to the supervisor or admin dashboard |
| SignUpForm.SchemaErrors | components/authentication/SignUpForm.tsx:29-34 | a name error exactly for a name under two code units, an email error exactly for an invalid email, a password error exactly for a password under six code units, a role error exactly for a role other than student or supervisor, each with the schema's message, and no other field |
| SignUpForm.ValidIffNoErrors | components/authentication/SignUpForm.tsx:29-34 | the schema accepts exactly the values for which it reports no error |
| SignUpForm.NoAdminSignUp | components/authentication/SignUpForm.tsx:33 | a sign-up with the admin role is refused whatever the other fields hold |
| SignUpForm.DefaultsNeedFilling | components/authentication/SignUpForm.tsx:44-49 | the default role is an accepted one, and the untouched form is refused |
| SignUpForm.Form.constructor | components/authentication/SignUpForm.tsx:40-50 | the form starts with no errors, not loading, nothing sent and nowhere navigated |
| SignUpForm.Form.Submit | components/authentication/SignUpForm.tsx:52-73 | invalid values only show the schema's errors; valid values call the action once, then go to /dashboard on success or set the action's message, or "Something went wrong." after an exception, on the email field; loading ends either way |
| LoginForm.SchemaErrors | components/authentication/LoginForm.tsx:24-27 | an email error exactly for an invalid email and a password error exactly for a password under six code units, with the schema's messages, and no other field |
| LoginForm.Target | components/authentication/LoginForm.tsx:52-58 | a result without an error leads to its redirect URL when that is non-empty, and to /login/success-handler otherwise |
| LoginForm.Form.constructor | components/authentication/LoginForm.tsx:33-41 | the form starts with no errors, not loading, nothing sent and nowhere navigated |
| LoginForm.Form.Submit | components/authentication/LoginForm.tsx:44-66 | invalid values only show the schema's (non-empty) errors; valid values call the action once and leave loading set; an error result or an exception puts its message on the email field, any other result navigates once to `Target` |
| Common.TrimEmptyIffBlank | components/supervisor/FeedbackForm.tsx:41 | `trim()` gives the empty string exactly when every character is whitespace |
| Common.TrimIsSlice | components/supervisor/VideoDetailClient.tsx:81 | the trimmed text is a contiguous slice of the input |
| Common.Split | components/stream/ChatClient.tsx:55 | `split` with a one-character separator gives at least one piece, and no piece contains the separator |
| Common.SplitJoin | components/stream/ChatClient.tsx:55 | joining the pieces of a split with the same separator gives back the string |
| Common.SplitFirst | components/stream/ChatClient.tsx:139 | the first piece of a split is the text before the first separator, or all of it without one |
| Common.ToRadix | lib/chat-utils.ts:12 | `toString(radix)` of a non-negative number is a non-empty string of digits of that radix, with a leading zero exactly for 0 |
| Common.ToRadixRoundTrip | lib/chat-utils.ts:12 | reading the text of a number back in the same radix gives the number |
| Common.ToRadixLength | components/supervisor/VideoDetailClient.tsx:58 | a number below radix^k takes at most k digits |
| Common.IntToString | components/admin/UserDetails.tsx:73 | `String(i)` starts with a minus sign exactly for a negative value |
| Common.PadStart | components/supervisor/VideoDetailClient.tsx:58 | `padStart` pads on the left to the width with the pad character, keeps the string as the tail, and never truncates |
| Common.PadStartZeros | components/supervisor/VideoDetailClient.tsx:58 | padding a digit string with zeros keeps the value it reads as |
| Common.JsRem | components/supervisor/VideoDetailClient.tsx:57 | JavaScript `%` by a positive divisor: the mathematical remainder for a non-negative dividend, and always strictly between minus and plus the divisor |
| Seqs.Filter | app/api/student/challenge/route.ts:33-38 | the kept elements pass the test, come from the input and are at most as many; every passing element is kept |
| Seqs.FilterCount | app/api/student/challenge/route.ts:33-38 | a passing element is kept exactly as often as it occurs |
| Seqs.FilterAppend | app/admin/challenges/page.tsx:98 | filtering a concatenation is the concatenation of the filtered parts |
| Seqs.SortByCorrect | components/supervisor/VideoDetailClient.tsx:109 | sorting by a key gives an ordered permutation of the input |
| Seqs.SortBySorted | components/supervisor/VideoDetailClient.tsx:109 | an already ordered list is left exactly as it is |
| Seqs.FilterSortExact | app/api/student/challenge/route.ts:33-51 | a query with a filter and an order returns exactly the passing rows, each as often as stored, in key order |
| Utf16.EncodeChar | components/stream/ChatClient.tsx:48 | a character below U+10000 is one code unit equal to it; any other is a high surrogate followed by a low surrogate |
| Utf16.EncodeAppend | components/stream/ChatClient.tsx:48 | the code units of a concatenation are the concatenated code units |
| Utf16.EncodeInjective | components/stream/ChatClient.tsx:108 | different strings have different code units |
| Utf16.LexTotal | components/stream/ChatClient.tsx:108 | of two different code-unit sequences exactly one sorts first |
| Utf16.Encode | components/stream/ChatClient.tsx:48 | a string has at least as many code units as characters |

## Left out

- Names joined from other tables (challenge creators, including the creator's name in the student listing, video uploaders, note authors) are not part of the rows; only the selected columns of the rows themselves are.
- Orders the ORM does not fix (a relation without `orderBy`, ties between equal keys) are modelled as table order; the database may return another.
- Concurrent requests: every handler is one atomic step, so the check-then-insert race of a submission is not modelled; the unique constraint's P2002 and the missing row's P2025 are branches of the handler.
- Database failures other than P2002/P2025 (the generic 500 replies) are not modelled, except the unparseable date of a challenge update.
- Deleting a challenge removes its submissions as the schema's cascade does; the schema file is not part of this model.
- The presigned URL is the result of a `sign` parameter; S3 signing, the upload itself and the bucket's behaviour are not modelled.
- The ISO text of an instant and its parsing back in local time (`formatDateForInput`, `new Date(text)` in the challenge form) are modelled as truncation to the UTC minute and comparison of instants; time zones and daylight-saving shifts are not modelled.
- Display formatting with date-fns and `toLocaleDateString`, and everything rendered as markup apart from the labels, badges and lists the lemmas state, is left out.
- `toUpperCase`/`toLowerCase` map ASCII letters only; the full Unicode case mapping is not modelled.
- The email check of the sign-up and login schemas is a parameter `isEmail`; the validation library's email pattern and its default message for a bad role are not modelled.
- JSON body fields are absent, of the expected type or mistyped; a `fileSize` that is a non-integral number counts as mistyped. Floating-point numbers appear only as `real` for the upload size and the player position.
- The score input holds an integer or nothing; `NaN`, fractional scores and the browser's own form validation are not modelled.
- The video player element is reduced to whether it is mounted and its position in whole milliseconds.
- A toast that replaces the loading toast in place is recorded once, as the final toast; loading toasts are not recorded.
- An error body whose `message` is not a string is not modelled.
- The supervisor review page's refetch takes the reply's body as given; the reply's own shape is not checked.
- Console logging, the chat SDK connection and its event handlers, and the markup of every page are left out.
- The note route, the feedback route and the user PATCH route that the components call are not part of this model; their replies are parameters.
