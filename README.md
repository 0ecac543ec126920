# AthleteConnect core, modelled in Dafny

AthleteConnect is a web platform that connects athletes with sponsors,
coaches and a community feed. This project models its core in Dafny
and proves properties of the model.

**The two Express back ends:**

- `limitless-backend`:
  - The post feed: create, list, like toggle and comments.
  - Community events: create, list and register.
  - Athlete accounts: register, login, the account schema with its password hook, the JWT middleware, and the profile routes.
- The older `backend` service:
  - Its post routes.
  - Its register/login controller.

**The browser-side logic of the Next.js front end:**

- The optimistic like counter and comment box of a post card.
- The three search filters: coaches, the athlete directory and the landing-page finder.
- The booking form's weekday/time-slot logic.
- The mock training-plan generator and the parser of generated text.
- The expanded-weeks toggle of the plan display.
- The profile page's default merge and edit/save state.

**How the model is layered:**

- `Common`, `Text` and `Lists` are shared modules:
  - `Common` holds Option, the route failures with their status codes, and ids.
  - `Text` holds the JavaScript string operations the core uses: `trim`, ASCII `toLowerCase`, `includes`, `startsWith`, `replace`, `split` and `join`.
  - `Lists` holds the array operations: `indexOf`, `splice`, `filter`, `push`-toggles, `slice` and a stable sort.
- The schemas are datatypes: `PostModel`, `EventModel` and `AccountModel`.
- Route files that change stored documents are classes over a `seq` of documents plus an id counter:
  - `Feed.PostFeed`
  - `LegacyFeed.LegacyPostFeed`
  - `Events.EventCollection`
  - `AccountModel.AthleteCollection`
  - `UserAuth.UserStore`
- Each class keeps a collection invariant that every method preserves. The invariants are:
  - Ids are distinct.
  - Stored documents passed schema validation.
  - Like lists and attendee lists hold no duplicates.
  - Registration counts agree with attendee lists.
  - Emails are unique.
- Apart from the invariant, `AccountModel.PasswordsHashed` says that every stored password is a hash. Insert, register and image upload keep it, and so does a profile update without a password. A profile update with a password breaks it (see Findings).
- The pure parts are functions with lemmas.
- The two React components whose handlers step through state are classes: `PostCardState.PostCard` and `UserPage.ProfilePage`.

**What the model treats as abstract:**

- JWT verification is a function parameter (`verify`) from a token string to its decoded claims.
- bcrypt is an ideal hash: the `Credential` datatype is either `Plain(text)` or `Hashed(text)`.
- The language model behind the plan generator is a parameter (`ask`).
- Clocks are plain numbers passed in (`now`).

**Details of the code that the model follows:**

- Register and the pre-save hook (models/Athlete.js:63-67) only ever store hashes. The profile update route can store a plain password; see Findings.
- The limitless like toggle removes only the first occurrence of the caller's id (`indexOf` + `splice`). The older back end removes every occurrence (`filter`). Both are modelled, and `Lists.TogglesAgreeWithoutDuplicates` shows that they agree on the duplicate-free lists the routes maintain.
- The booking form maps weekday names to numbers in two identical switches (lines 55-74 and 142-161). Both are modelled by the one function `BookingForm.DayNumber`.

## Model

| member | source | states |
|---|---|---|
| PostModel.NewPost | limitless-backend/models/Post.js:3-40 | the new post stores the content trimmed, the author, the image, and empty likes and comments; it passes validation exactly when the content is not blank |
| PostModel.PreTrimmedPostIsSame | limitless-backend/routes/posts.js:19-23 | the route's `content.trim()` followed by the schema's trim setter gives the same post as one trim |
| PostModel.PostIndex | limitless-backend/routes/posts.js:76-80 | `findById`: -1 exactly when no post has the id, otherwise the index of a post with that id |
| Feed.CreateResponse | limitless-backend/routes/posts.js:9-23 | missing or whitespace-only content is a 400 "Post content cannot be empty"; otherwise the new post has the next id, the caller as author and the trimmed content, and passes validation |
| Feed.FreshIdAbsent | limitless-backend/routes/posts.js:19-25 | in a valid collection no post holds the next id |
| Feed.AppendKeepsValid | limitless-backend/routes/posts.js:19-25 | appending a valid post that has the next id keeps ids distinct and every post valid |
| Feed.ReplaceKeepsValid | limitless-backend/routes/posts.js:82-92 | replacing a post by a valid one with the same id keeps the collection invariant |
| Feed.PostFeed.constructor | limitless-backend/models/Post.js:3-43 | an empty collection satisfies the invariant |
| Feed.PostFeed.Create | limitless-backend/routes/posts.js:7-57 | the response is `CreateResponse`; a created post is appended under a fresh id; a refused request changes nothing; the invariant holds |
| Feed.PostFeed.List | limitless-backend/routes/posts.js:60-72 | the answer is the collection sorted newest first, as a permutation of it |
| Feed.PostFeed.ToggleLike | limitless-backend/routes/posts.js:75-97 | an unknown post gets 404 and nothing changes; otherwise the like list is `ToggleFirst` of the old one (append when absent, remove the first occurrence keeping the order of the rest); this equals the `filter` toggle; the caller likes the post exactly when they did not before; the list is the answer |
| Feed.PostFeed.AddComment | limitless-backend/routes/posts.js:100-129 | missing or blank content gets 400 before the lookup; an unknown post gets 404; otherwise the comment, with the content trimmed, is prepended and the other comments keep their order; the new list is the answer |
| LegacyFeed.LegacyPostFeed.constructor | backend/routes/posts.js:1-4 | an empty collection satisfies the invariant |
| LegacyFeed.LegacyPostFeed.Create | backend/routes/posts.js:7-22 | the post is stored with the content exactly as given and no validation, under a fresh id |
| LegacyFeed.LegacyPostFeed.List | backend/routes/posts.js:25-36 | the answer is the collection sorted newest first, as a permutation of it |
| LegacyFeed.LegacyPostFeed.ToggleLike | backend/routes/posts.js:39-59 | an unknown post gets 404 and nothing changes; otherwise every occurrence of the caller is filtered out when present, and the caller is pushed when absent |
| LegacyFeed.LegacyPostFeed.AddComment | backend/routes/posts.js:62-82 | an unknown post gets 404; otherwise the comment, content verbatim, is prepended |
| Lists.ToggleFirst | limitless-backend/routes/posts.js:82-89 | an absent id is appended; a present one loses exactly its first occurrence, with the entries before and after it unchanged |
| Lists.ToggleEvery | backend/routes/posts.js:47-51 | an absent id is appended; a present one is removed everywhere, the rest keep their order and their counts (the multiset with the id's count set to 0); membership of the id flips, and every other id keeps its membership |
| Lists.ToggleFirstTwiceRestores | limitless-backend/routes/posts.js:82-89 | like then unlike, from a list without the caller, restores the exact list |
| Lists.ToggleEveryTwiceRestores | backend/routes/posts.js:47-51 | like then unlike, from a list without the caller, restores the exact list |
| Lists.TogglesAgreeWithoutDuplicates | limitless-backend/routes/posts.js:82-89 | on a list without duplicates the `splice` toggle and the `filter` toggle give the same list |
| Lists.ToggleFirstFlipsMembership | limitless-backend/routes/posts.js:82-89 | on a list without duplicates, the caller likes the post afterwards exactly when they did not before |
| Lists.ToggleFirstWithDuplicate | limitless-backend/routes/posts.js:87-89 | with a duplicated like, the `splice` toggle leaves one occurrence behind, so the two toggles differ off the invariant |
| Lists.TogglesKeepNoDup | limitless-backend/routes/posts.js:82-89 | both toggles keep a list free of duplicates |
| Lists.SortBy | limitless-backend/routes/posts.js:63 | the result is sorted by the key and is a permutation of the input |
| Lists.IndexOf | limitless-backend/routes/posts.js:83 | `indexOf`: -1 exactly when the value is absent; otherwise an index holding it with no earlier one |
| Lists.RemoveAt | limitless-backend/routes/posts.js:87-89 | `splice(i, 1)`: one shorter, the entries before `i` kept and the ones after it moved down by one |
| Lists.FindIndex | limitless-backend/routes/posts.js:77 | the search behind `findById` and `findOne`: -1 exactly when nothing matches; otherwise the first index that matches |
| Lists.Filter | frontend/components/sections/coach-grid.tsx:22 | `filter`: keeps exactly the values that pass and are in the input |
| Lists.RemoveAll | backend/routes/posts.js:47-51 | `filter` of one value: its count becomes 0 and every other count is kept, so membership changes only for it |
| Lists.Take | frontend/app/athletes/page.tsx:140 | `slice(0, n)`: the first min(n, length) entries, unchanged |
| EventModel.ParseStatus | limitless-backend/models/Event.js:49-53 | the status enum accepts exactly "upcoming", "ongoing", "completed" and "cancelled", each naming its status |
| EventModel.StatusRoundTrip | limitless-backend/models/Event.js:49-53 | every status is read back as itself |
| EventModel.NewEvent | limitless-backend/models/Event.js:3-56 | name, description and location are trimmed; `isOnline` is true only when given true; no attendees, count 0, status upcoming; the event passes validation exactly when name, description and location are not blank, time is given and capacity is at least 1, and then it is consistent |
| EventModel.Register | limitless-backend/routes/events.js:87-99 | registration succeeds exactly when seats remain and the caller is not registered; it appends the caller, adds one to the count and changes nothing else; refusals are 400 |
| EventModel.RegisterKeepsConsistent | limitless-backend/routes/events.js:87-99 | a successful registration keeps count == number of attendees <= capacity, with no duplicates |
| EventModel.FullBeforeDuplicate | limitless-backend/routes/events.js:88-90 | a full event answers "Event is full", even to a caller already registered |
| EventModel.DuplicateRefused | limitless-backend/routes/events.js:93-95 | an event with seats left refuses a registered caller with "Already registered for this event" |
| EventModel.SeatsFillUp | limitless-backend/routes/events.js:87-99 | a consistent event accepts distinct new callers one request at a time up to its free seats, ending with exactly those callers appended and still consistent |
| Events.MissingFields | limitless-backend/routes/events.js:20-31 | each of name, description, date, time, location and maxAttendees is reported exactly when it is falsy (maxAttendees 0 included) |
| Events.MissingFieldsInOrder | limitless-backend/routes/events.js:23-30 | the reported fields come in the route's order |
| Events.NothingMissingIffComplete | limitless-backend/routes/events.js:20 | nothing is missing exactly when all six fields are truthy |
| Events.FreshIdAbsent | limitless-backend/routes/events.js:34-45 | in a valid collection no event holds the next id |
| Events.CreateResponse | limitless-backend/routes/events.js:20-57 | a falsy field gets 400 "All fields are required" with the fields; a complete request that fails validation gets 500; otherwise the event, organized by the caller, valid, consistent and with no attendees |
| Events.AppendKeepsValid | limitless-backend/routes/events.js:34-45 | appending a valid, consistent event that has the next id keeps the invariant |
| Events.ReplaceKeepsValid | limitless-backend/routes/events.js:98-101 | replacing an event by a valid, consistent one with the same id keeps the invariant |
| Events.EventIndex | limitless-backend/routes/events.js:81 | `findById`: -1 exactly when no event has the id |
| Events.EventCollection.constructor | limitless-backend/models/Event.js:3-56 | an empty collection satisfies the invariant |
| Events.EventCollection.Create | limitless-backend/routes/events.js:7-58 | the response is `CreateResponse`; a created event is appended under a fresh id; a refused request changes nothing |
| Events.EventCollection.List | limitless-backend/routes/events.js:61-76 | the answer is the collection sorted by date ascending, as a permutation of it |
| Events.EventCollection.RegisterFor | limitless-backend/routes/events.js:79-101 | an unknown event gets 404 and nothing changes; otherwise the answer is `Register` on the stored event, which is replaced only on success; the invariant holds |
| AccountModel.ParseRole | limitless-backend/models/Athlete.js:14-18 | the role enum accepts exactly "athlete" and "coach" |
| AccountModel.RoleRoundTrip | limitless-backend/models/Athlete.js:14-18 | every role is read back as itself |
| AccountModel.NewAccount | limitless-backend/models/Athlete.js:4-60 | a new account holds the given email, name, country and role, the password as assigned, and every profile default: image "/ath.jpg", about "", basicInfo with every text "" and age 0, and empty lists |
| AccountModel.Matches | limitless-backend/models/Athlete.js:70-72 | `comparePassword`: a candidate matches exactly the hash of itself; `ComparePasswordAfterSave` states its use |
| AccountModel.PreSave | limitless-backend/models/Athlete.js:63-67 | saving hashes a newly assigned password and leaves an already hashed one, and every other field, untouched |
| AccountModel.PreSaveIdempotent | limitless-backend/models/Athlete.js:63-67 | saving twice hashes once |
| AccountModel.ComparePasswordAfterSave | limitless-backend/models/Athlete.js:63-72 | after the hook, `comparePassword(c)` holds exactly for the assigned text; a plain stored text matches nothing |
| AccountModel.ProfileOf | limitless-backend/routes/athlete.js:31 | the account without its password; `ProfileHidesPassword` states what it keeps |
| AccountModel.ProfileHidesPassword | limitless-backend/routes/athlete.js:31 | `.select('-password')` keeps every field but the password, and ignores the password |
| AccountModel.EmailIndex | limitless-backend/routes/auth.js:33 | `findOne({ email })`: -1 exactly when no account has the email |
| AccountModel.AccountIndex | limitless-backend/routes/athlete.js:15 | `findById`: -1 exactly when no account has the id |
| AccountModel.ReplaceKeepsValid | limitless-backend/routes/athlete.js:97-101 | replacing an account by one with the same id and email keeps the invariant |
| AccountModel.SavedKeepsHashed | limitless-backend/models/Athlete.js:63-67 | appending an account through the pre-save hook keeps every stored password hashed |
| AccountModel.AthleteCollection.constructor | limitless-backend/models/Athlete.js:4-60 | an empty collection satisfies the invariant |
| AccountModel.AthleteCollection.Insert | limitless-backend/models/Athlete.js:5-9 | the unique email index refuses an email already stored; otherwise the account is stored hashed under the next id; the invariant holds, and every password stays hashed if it was before |
| AuthMiddleware.ExtractToken | limitless-backend/middleware/auth.js:5 | no header gives no token; a header without "Bearer " is kept as is; otherwise the token is the header with its first occurrence of "Bearer " cut out (no earlier index holds one), the part before and the part after kept |
| AuthMiddleware.ExtractBearer | limitless-backend/middleware/auth.js:5 | "Bearer " followed by t yields exactly t |
| AuthMiddleware.Authenticate | limitless-backend/middleware/auth.js:3-28 | an absent or empty token gets 401 "No token, authorization denied"; a token that does not verify gets 401 "Token is not valid"; otherwise `req.user` takes `id`, falling back to `_id`, and copies email and role |
| AuthMiddleware.BearerTokenAuthenticates | limitless-backend/middleware/auth.js:5-21 | a genuine bearer token with an id authenticates as that id |
| AuthMiddleware.EmptyBearerRefused | limitless-backend/middleware/auth.js:8-10 | no header, or the bare "Bearer ", is refused before verification |
| AuthRoutes.MissingRegisterFields | limitless-backend/routes/auth.js:12-22 | each of email, password, name, country and role is reported exactly when it is falsy |
| AuthRoutes.MissingRegisterFieldsInOrder | limitless-backend/routes/auth.js:15-21 | the reported fields come in the route's order |
| AuthRoutes.RegisterCompleteIff | limitless-backend/routes/auth.js:12 | nothing is missing exactly when all five are truthy |
| AuthRoutes.MissingLoginFields | limitless-backend/routes/auth.js:84-92 | each of email and password is reported exactly when it is falsy |
| AuthRoutes.Sign | limitless-backend/routes/auth.js:50-58 | the token payload holds the account's id, email and role and expires after one day |
| AuthRoutes.Respond | limitless-backend/routes/auth.js:60-68 | the token is `Sign` of the account and the athlete object holds its id, name, email and role name |
| AuthRoutes.RespondIgnoresPassword | limitless-backend/routes/auth.js:117-125 | the response never depends on the password |
| AuthRoutes.Register | limitless-backend/routes/auth.js:7-76 | a falsy field, an unknown role, and an email already taken each get their 400, checked in that order, and leave the store unchanged; otherwise exactly one account is added, password hashed, and the response names it; every password stays hashed if it was before |
| AuthRoutes.Login | limitless-backend/routes/auth.js:79-133 | missing fields get 400 with the list; an unknown email and a wrong password both get the same 400 "Invalid credentials"; login succeeds exactly when the email is stored and the password matches, answering for that account |
| AuthRoutes.RegisteredCanLogIn | limitless-backend/routes/auth.js:39-47 | a registered account logs in with the same email and password and gets the register response |
| AuthRoutes.OnlyRegisteredPasswordLogsIn | limitless-backend/routes/auth.js:100-104 | any other password is refused |
| UserAuth.UserIndex | backend/src/controllers/authController.ts:10 | `findOne({ email })`: -1 exactly when no user has the email |
| UserAuth.UserStore.constructor | backend/src/controllers/authController.ts:6-25 | an empty store satisfies the invariant |
| UserAuth.UserStore.RegisterUser | backend/src/controllers/authController.ts:6-25 | a taken email gets 400 "User already exists" and creates nothing; otherwise one user is created with the hash of the password, never the text |
| UserAuth.LoginUser | backend/src/controllers/authController.ts:28-55 | an unknown email and a wrong password get the same 400; login succeeds exactly when the email is stored and the password matches |
| UserAuth.RegisteredUserLogsIn | backend/src/controllers/authController.ts:13-14 | a newly registered user logs in with that password and with no other |
| AthleteRoutes.AthleteAuth | limitless-backend/routes/athlete.js:7-26 | no token gets 401 "No token provided"; a token that fails verification gets 401 "Not authorized"; an id naming no account gets 401 "Athlete not found"; otherwise the account the token names |
| AthleteRoutes.IssuedTokenOpensProfile | limitless-backend/routes/athlete.js:9-21 | a token issued by register or login opens the profile routes as that account |
| AthleteRoutes.GetProfile | limitless-backend/routes/athlete.js:29-36 | an authenticated caller gets their own profile without password; other callers get the auth failure |
| AthleteRoutes.AllAthletes | limitless-backend/routes/athlete.js:55-62 | exactly the profiles of athlete accounts, in collection order |
| AthleteRoutes.GetById | limitless-backend/routes/athlete.js:65-75 | an unknown id gets 404; otherwise that account's profile |
| AthleteRoutes.ApplySetAsWritten | limitless-backend/routes/athlete.js:41-46 | `$set` through `findByIdAndUpdate` stores a new password as plain text |
| AthleteRoutes.ApplySet | limitless-backend/routes/athlete.js:41-46 | the update as the hook intends: a new password is stored hashed; the profile is the same as written |
| AthleteRoutes.SetProfileFields | limitless-backend/routes/athlete.js:41-45 | every given field replaces the stored one, every absent one is kept, the id is kept |
| AthleteRoutes.PasswordUpdateAsWrittenLocksOut | limitless-backend/routes/athlete.js:41-46 | as written, after a password update neither the new nor the old password logs in |
| AthleteRoutes.PasswordUpdateLogsIn | limitless-backend/routes/athlete.js:41-46 | with the password hashed, the new password logs in |
| AthleteRoutes.UpdateProfile | limitless-backend/routes/athlete.js:39-52 | an auth failure is returned unchanged; a refused update or a clashing email gets 500 and changes nothing; otherwise the caller's account is replaced by the `$set` result as the route stores it, so a new password is stored as plain text, and its profile is the answer; an update without a password keeps every password hashed |
| AthleteRoutes.UpdateWithoutPasswordKeepsHashed | limitless-backend/routes/athlete.js:41-46 | an update without a password keeps every stored password hashed |
| AthleteRoutes.PasswordUpdateAsWrittenStoresPlain | limitless-backend/routes/athlete.js:41-46 | an update with a password leaves a stored password that is not a hash |
| AthleteRoutes.CorrectedUpdateRunsHook | limitless-backend/models/Athlete.js:63-67 | the corrected update is the update as written followed by the pre-save hook |
| AthleteRoutes.EmailKept | limitless-backend/models/Athlete.js:5-9 | an update that keeps emails unique keeps the invariant |
| AthleteRoutes.UploadImage | limitless-backend/routes/athlete.js:78-123 | no image gets 400; an image not starting with "data:image/" gets 400; both change nothing; otherwise only the caller's image changes and it is the answer; every password stays hashed if it was before |
| PostCardState.LikeStep | frontend/components/post-card.tsx:46-49 | the flag flips, and the count rises by one when it becomes liked and falls by one otherwise |
| PostCardState.LikeTwiceRestores | frontend/components/post-card.tsx:46-50 | two clicks restore the flag and the count |
| PostCardState.CountTracksFlag | frontend/components/post-card.tsx:46-50 | from an unliked card, the count is the server's plus one exactly while liked, and liked exactly after an odd number of clicks |
| PostCardState.PostCard.constructor | frontend/components/post-card.tsx:40-44 | not liked unless the post says so, the given count, no comments unless given, an empty box |
| PostCardState.PostCard.HandleLike | frontend/components/post-card.tsx:46-51 | the state takes one `LikeStep`, comments unchanged, and `onLike` gets the post id |
| PostCardState.PostCard.SetNewComment | frontend/components/post-card.tsx:43 | typing sets only the comment box |
| PostCardState.PostCard.HandleComment | frontend/components/post-card.tsx:53-68 | a blank input changes nothing; otherwise the untrimmed input is appended as the current user's comment, passed to `onComment`, and the box is cleared |
| CoachGrid.KeepCoach | frontend/components/sections/coach-grid.tsx:22-49 | the filter callback with its early returns, as written; `KeepCoachIff` states what it keeps |
| CoachGrid.KeepCoachIff | frontend/components/sections/coach-grid.tsx:22-49 | the early returns keep a coach exactly when the search is in name, description or title ignoring case, the badge equals the specialty, the location contains the given one ignoring case, and the rate is within the price range inclusive |
| CoachGrid.OnlyPriceWhenTextEmpty | frontend/components/sections/coach-grid.tsx:23-46 | with empty search, specialty and location only the price decides |
| CoachGrid.SearchIgnoresCase | frontend/components/sections/coach-grid.tsx:26-28 | a search and its lower-case form keep the same coaches |
| CoachGrid.FilterCoaches | frontend/components/sections/coach-grid.tsx:22-49 | an order-preserving subsequence holding exactly the kept coaches |
| MatchHero.FromProfile | limitless-backend/routes/athlete.js:55-62 | the JSON of a stored athlete as `/api/athlete/all` sends it; `CardOfProfile` states what the card then shows |
| MatchHero.Transform | frontend/components/sections/match-hero.tsx:55-65 | gender, sport, location and status from basicInfo gender, sport, state and currentRanking or ""; team "Independent"; image falls back to "/ath.jpg" |
| MatchHero.CardOfProfile | frontend/components/sections/match-hero.tsx:55-65 | a card built from a stored profile shows its values, with "/ath.jpg" only for an empty image |
| MatchHero.MatchesSelection | frontend/components/sections/match-hero.tsx:75-80 | the filter callback: sport and gender equal ignoring case and location contained ignoring case, each only when selected; the lemmas below state its meaning |
| MatchHero.EmptySelectionMatchesAll | frontend/components/sections/match-hero.tsx:76-78 | empty selectors match every card |
| MatchHero.SportIgnoresCase | frontend/components/sections/match-hero.tsx:76 | sports that differ only in case select the same cards |
| MatchHero.FilterCards | frontend/components/sections/match-hero.tsx:75-80 | an order-preserving subsequence holding exactly the matching cards |
| AthletesPage.MatchesSearch | frontend/app/athletes/page.tsx:23-25 | the search matches the name or the story ignoring case |
| AthletesPage.MatchesQuery | frontend/app/athletes/page.tsx:22-30 | search, sport and country must all match; "All Sports" and "All Countries" match everyone |
| AthletesPage.InitialQueryMatchesAll | frontend/app/athletes/page.tsx:18-29 | the initial query (empty search, "All Sports", "All Countries") lists everyone |
| AthletesPage.SpecificSelectionsAreExact | frontend/app/athletes/page.tsx:26-27 | a specific sport or country must be equal exactly |
| AthletesPage.FilterListings | frontend/app/athletes/page.tsx:22-30 | an order-preserving subsequence holding exactly the matching athletes |
| AthletesPage.Featured | frontend/app/athletes/page.tsx:129-130 | exactly the featured athletes, in order |
| AthletesPage.Newest | frontend/app/athletes/page.tsx:140 | the first min(3, n) athletes |
| BookingForm.DayNumber | frontend/components/booking/booking-form.tsx:55-74 | Sun..Sat map to 0..6 and every other string to -1 |
| BookingForm.DayNumberRoundTrip | frontend/components/booking/booking-form.tsx:142-161 | the mapping is a bijection between the seven names and 0..6 |
| BookingForm.AvailableDays | frontend/components/booking/booking-form.tsx:142-161 | one weekday number per availability entry, in order, each its `DayNumber` |
| BookingForm.OfferedIff | frontend/components/booking/booking-form.tsx:77 | a weekday is available exactly when its name is in the coach's availability |
| BookingForm.TimeSlots | frontend/components/booking/booking-form.tsx:77-81 | no date gives no slots; an available weekday gives exactly the seven fixed slots; any other date none |
| BookingForm.Disabled | frontend/components/booking/booking-form.tsx:140-163 | a date is disabled when its weekday is not available or it is before now; `EnabledDateHasSlots` states its consequence |
| BookingForm.EnabledDateHasSlots | frontend/components/booking/booking-form.tsx:140-163 | a date the calendar enables has the seven slots; a date with no slots is disabled |
| BookingForm.Submission | frontend/components/booking/booking-form.tsx:92-102 | the submitted record is the form fields plus the package title and the coach name |
| TrainingPlans.NatToString | frontend/app/api/generate-plan/route.ts:14 | the decimal numeral of `n`: one or more digits, no leading zero, whose value read left to right (`DecimalValue`) is `n` |
| TrainingPlans.MockDays | frontend/app/api/generate-plan/route.ts:12-19 | `trainingDaysPerWeek` days (none for a negative count), numbered 1..n |
| TrainingPlans.MockPlan | frontend/app/api/generate-plan/route.ts:7-22 | four weeks numbered 1..4, each with the mock days |
| TrainingPlans.MockDayMentionsSport | frontend/app/api/generate-plan/route.ts:14 | every mock day mentions the sport |
| TrainingPlans.MockDayMentionsLevel | frontend/app/api/generate-plan/route.ts:16 | every mock day mentions the skill level |
| TrainingPlans.MockDayMentionsGoals | frontend/app/api/generate-plan/route.ts:18 | every mock day mentions the goals |
| TrainingPlans.KeptLines | frontend/app/api/generate-plan/route.ts:63 | exactly the lines whose trim is non-empty |
| TrainingPlans.KeptLinesAreLines | frontend/app/api/generate-plan/route.ts:63 | the kept lines are the split lines in order, blank ones left out |
| TrainingPlans.ParseWeek | frontend/app/api/generate-plan/route.ts:62-71 | the week numbered index + 1 with one day per non-blank line |
| TrainingPlans.ParsedWeekDays | frontend/app/api/generate-plan/route.ts:63-66 | parsed days are numbered 1..k and hold the trimmed, never empty, line |
| TrainingPlans.ParsePlan | frontend/app/api/generate-plan/route.ts:62-72 | one week per "\n\n"-separated chunk, in order, numbered from 1 |
| TrainingPlans.CleanLineIsTrimmed | frontend/app/api/generate-plan/route.ts:63-65 | a clean line survives the filter and its trim |
| TrainingPlans.NoBlankLineSurvives | frontend/app/api/generate-plan/route.ts:62 | a text without a blank line stays one chunk |
| TrainingPlans.JoinedCleanLines | frontend/app/api/generate-plan/route.ts:62-63 | clean lines joined by line feeds contain no blank line |
| TrainingPlans.KeptLinesOfWeekText | frontend/app/api/generate-plan/route.ts:63 | the lines kept from a rendered week are its day texts |
| TrainingPlans.SplitCleanLines | frontend/app/api/generate-plan/route.ts:63 | splitting joined clean lines gives them back |
| TrainingPlans.ParseWeekText | frontend/app/api/generate-plan/route.ts:62-71 | parsing a rendered week gives it back |
| TrainingPlans.DaysOfCleanLines | frontend/app/api/generate-plan/route.ts:63-66 | the days read back from clean day texts are the week's days |
| TrainingPlans.DayOfCleanLine | frontend/app/api/generate-plan/route.ts:63-66 | one day read back from a clean day text is that day |
| TrainingPlans.ParseRenderRoundTrip | frontend/app/api/generate-plan/route.ts:62-72 | the parser reads back exactly any well-numbered plan of clean lines written out with "\n" and "\n\n" |
| TrainingPlans.GeneratePlan | frontend/app/api/generate-plan/route.ts:24-81 | no API key gives the mock plan; a failed call gives 500 "Failed to generate training plan"; otherwise the parsed reply |
| TrainingPlans.GeneratedPlanNumbering | frontend/app/api/generate-plan/route.ts:28-72 | with no key the model is never consulted; every plan served is numbered consecutively from 1 |
| PlanDisplay.ToggleWeek | frontend/components/saathi/TrainingPlanDisplay.tsx:13-19 | a present week is removed everywhere, the rest kept in order and with their counts; an absent week is appended; other weeks keep their membership; no duplicates stay none |
| PlanDisplay.Shown | frontend/components/saathi/TrainingPlanDisplay.tsx:47 | a week's days are shown exactly when its number is in the expanded list |
| PlanDisplay.ToggleFlipsShown | frontend/components/saathi/TrainingPlanDisplay.tsx:47 | a toggle flips whether the week's days are shown and no other week's |
| PlanDisplay.ToggleTwice | frontend/components/saathi/TrainingPlanDisplay.tsx:13-19 | toggling an absent week twice restores the exact list; toggling any week twice restores what is shown |
| PlanDisplay.ClicksParity | frontend/components/saathi/TrainingPlanDisplay.tsx:11-19 | from the empty list, the expanded list never has duplicates, and a week is shown exactly when it was clicked an odd number of times |
| UserPage.MergeBasicInfo | frontend/app/user/page.tsx:80-83 | a missing group gives the defaults; otherwise each key takes the data's value when present, else the default |
| UserPage.MergeAchievements | frontend/app/user/page.tsx:84-87 | a missing group gives the defaults; otherwise each key takes the data's value when present, else the default |
| UserPage.MergeSponsorship | frontend/app/user/page.tsx:88-91 | a missing group gives the defaults; otherwise each key takes the data's value when present, else the default |
| UserPage.MergeSocial | frontend/app/user/page.tsx:92-95 | a missing group gives the defaults; otherwise each key takes the data's value when present, else the default |
| UserPage.MergeContact | frontend/app/user/page.tsx:96-99 | a missing group gives the defaults; otherwise each key takes the data's value when present, else the default |
| UserPage.Complete | frontend/app/user/page.tsx:77-100 | top-level fields present in the data override the defaults and each group is merged key by key |
| UserPage.EmptyDataIsDefault | frontend/app/user/page.tsx:10-43 | completing empty data gives the default profile |
| UserPage.MissingGroupIsDefault | frontend/app/user/page.tsx:80-99 | a group that is missing, or present with no keys, becomes exactly the default group |
| UserPage.CompleteDataIsFixedPoint | frontend/app/user/page.tsx:77-100 | completing a full profile gives it back, so completing twice is completing once |
| UserPage.EditedList | frontend/app/user/page.tsx:293 | `split(", ")` yields at least one item |
| UserPage.ListEditRoundTrip | frontend/app/user/page.tsx:287-293 | a non-empty list whose items hold no ", " is split back from its joined text exactly; an empty list comes back as [""] |
| UserPage.ProfilePage.constructor | frontend/app/user/page.tsx:46-49 | the page starts with the defaults, not editing, loading |
| UserPage.ProfilePage.FetchProfile | frontend/app/user/page.tsx:57-109 | no token redirects to /auth without fetching; a failed fetch only stops loading; a received profile is completed and shown and copied to the form |
| UserPage.ProfilePage.HandleEdit | frontend/app/user/page.tsx:113-116 | editing starts and the form copies the shown profile |
| UserPage.ProfilePage.HandleSave | frontend/app/user/page.tsx:118-140 | a saved profile becomes the shown one and editing stops; on failure nothing changes |
| UserPage.ProfilePage.EditAchievements | frontend/app/user/page.tsx:287-293 | one achievement list of the form becomes the split text |
| UserPage.ProfilePage.EditNeeds | frontend/app/user/page.tsx:317-323 | the form's sponsorship needs become the split text |
| Text.Trim | limitless-backend/routes/posts.js:104 | `trim()`: no white space at either end, never longer |
| Text.TrimIsSlice | limitless-backend/routes/posts.js:104 | the trim is a slice `s[i..j]` of the input, and everything before `i` and after `j` is white space |
| Text.TrimIdempotent | limitless-backend/models/Post.js:9-13 | trimming twice is trimming once |
| Text.BlankIffTrimEmpty | limitless-backend/routes/posts.js:104 | a string is blank exactly when its trim is empty |
| Text.Lower | frontend/components/sections/coach-grid.tsx:26 | ASCII `toLowerCase`, character by character |
| Text.LowerIdempotent | frontend/components/sections/coach-grid.tsx:26-28 | lower-casing twice is lower-casing once |
| Text.FirstOccurrence | limitless-backend/middleware/auth.js:5 | `indexOf`: -1 exactly when the pattern does not occur; otherwise an index where it occurs, with no occurrence before it |
| Text.ReplaceFirst | limitless-backend/middleware/auth.js:5 | `replace` with a string pattern: no occurrence keeps the string; otherwise the first occurrence is replaced, the parts before and after it kept, and the length changes by the difference |
| Text.Contains | frontend/components/sections/coach-grid.tsx:26 | `includes`; `ContainsIff` states that it holds exactly when the pattern occurs at some index |
| Text.StartsWith | limitless-backend/routes/athlete.js:90 | `startsWith`: the string begins with the prefix |
| Text.Split | frontend/app/api/generate-plan/route.ts:62-63 | `split` with a non-empty separator gives at least one piece; `JoinSplit` and `SplitJoinFreeOf` state the round trips |
| Text.Join | frontend/app/user/page.tsx:287 | `join`: the items with the separator between them; `JoinSplit` states that splitting is undone by it |
| Text.SplitJoinFreeOf | frontend/app/api/generate-plan/route.ts:62-63 | splitting items joined by a separator gives them back when no item contains the separator |

## Left out

- Mongoose `populate` of authors and organizers (posts.js:31, 64-65 and 122; events.js:48, 65-66 and 104): a lookup into another collection that changes no stored state; the model returns ids.
- `createdAt` defaults and `updatedAt` timestamps: the clock is the `now` parameter, and the model has no `updatedAt`.
- Success status codes (200, 201): every `Ok` is a success; only failures carry their status (`Failure.Status`).
- Numeric and date casting (`new Date(date)`, `Number(maxAttendees)`, an invalid date string): a date is a number in the model and `maxAttendees` an integer, so `!date` is "date absent".
- The generic 500 catch paths of the routes for database or network failures: none can happen in a collection held in memory. A document that fails schema validation on `save` (events.js:51-57, athlete.js:49-51) is modelled.
- A malformed `:id` makes `findById` throw a CastError, which the routes answer with 500 (posts.js:77 and 108, events.js:81, athlete.js:65-74): ids are natural numbers in the model, so every id is well formed and that 500 is not modelled.
- UserAuth.UserStore.RegisterUser, UserAuth.LoginUser: a missing password makes bcrypt throw, which the controller answers with 500 "Error registering user" or "Error logging in" (authController.ts:13 and 38); the model takes the password as a string, so that path is not modelled.
- The older backend's `Post` model is not part of this model: LegacyFeed.LegacyPostFeed.Create and AddComment assume that it neither validates nor trims, and they take the content as a string, so an absent content is not modelled.
- The no-duplicates invariant of like lists, and with it the use of `Lists.TogglesAgreeWithoutDuplicates` for the routes, assumes one request at a time: two concurrent toggles by one caller that both read the list before either saves are not modelled.
- The check-then-act race on registration (events.js:88-101): requests run one at a time in the model, so concurrent over-booking is not captured.
- The 404 branch of the image upload (athlete.js:103-108): with one request at a time, the account the token check just found is still stored, so the branch cannot be reached.
- The prompt text and the HTTP call to the language model (route.ts:33-58): the whole exchange is the `ask` parameter, which answers with a reply text or a failure.
- The JSON shape of the generated-plan response: the route's result is the plan itself.
- JWT signing and bcrypt hashing are ideal: `verify` is a parameter, `Credential` is an injective hash, and secrets, salts and expiry checks live inside `verify`.
- JSON `null` and values of the wrong type in request bodies: a field the model gives an `Option` is either absent or a value of the expected type. The three bodies below do not even have an absent case.
- UserAuth.UserStore.RegisterUser, UserAuth.LoginUser: `name` and `email` are plain strings, so a body without an email, which reaches `findOne({ email })` with `undefined` (authController.ts:7-14 and 29-32), is not modelled.
- TrainingPlans.GeneratePlan: the form is a complete `TrainingFormData` with no absent fields, and the body is taken as already parsed. A body that `request.json()` cannot parse throws inside the `try` and gets 500 "Failed to generate training plan" even without an API key (route.ts:25-26 and 75-80). The model's `!Present(apiKey) ==> r == Ok(MockPlan(form))` holds only for a body that parsed.
- AthleteRoutes.ProfileUpdate, AthleteRoutes.UpdateProfile: each group (`basicInfo`, `achievements`, `sponsorship`, `social`, `contact`) is given whole or not at all. A partial group such as `{ "basicInfo": { "sport": "x" } }`, which `$set` writes over the whole stored group (athlete.js:42-46), is not modelled.
- Keys of `...data` beyond the profile fields (user/page.tsx:77): the completed profile holds only the known fields.
- The simulated submit delay (booking-form.tsx:91) and the unused `today` variable (booking-form.tsx:54).
- `Date.now()` and calendar arithmetic: the current instant is a parameter, and a calendar date is given with its weekday.
- The token expiry check of the middleware: it is part of `verify`.
- Lists.Filter: states membership and order (via `FilterIsSubsequence`), not element multiplicities.
- The older backend's `User` model is not part of this model; `UserAuth.User` holds only the fields its controller uses.
- TrainingPlans.MockDays: a fractional `trainingDaysPerWeek` is not modelled; the count is an integer, and a negative count gives no days, as `Array.from` does.
- Text.Lower: lower-cases ASCII letters only; other Unicode case mappings of `toLowerCase` are not modelled.
- Rendering, styling and navigation of the React components beyond the state they keep.

## Findings

| source | as written | input that shows it | evidently intended | confidence | as-written member | corrected member |
|---|---|---|---|---|---|---|
| limitless-backend/routes/athlete.js:42-46 | PUT /api/athlete/profile applies the body with `$set` through `findByIdAndUpdate`, which does not run the pre-save hook (models/Athlete.js:63-67), so a `password` key is stored as plain text | a body `{ "password": "x" }`; afterwards login with "x" fails (bcrypt compares against a non-hash), and so does login with the old password | a password changed through the profile is stored hashed, as on register, and logs in | not executed | AthleteRoutes.ApplySetAsWritten, AthleteRoutes.PasswordUpdateAsWrittenLocksOut, AthleteRoutes.PasswordUpdateAsWrittenStoresPlain | AthleteRoutes.ApplySet, AthleteRoutes.PasswordUpdateLogsIn, AthleteRoutes.CorrectedUpdateRunsHook |
