# memeow screens in Dafny

memeow is a small social client. Users reserve a nickname, post a short note
that lives for six hours, and befriend each other through requests. Its
business rules live inside the React screens, between calls to the document
store. This project models that logic with the store calls replaced by reads
and writes of maps and sequences, and proves what the screens promise.

- `Store` is the document store. A user document is a map from field names to
  values. Merge writes are map unions, and a misspelled field name is just
  another key. `arrayUnion` and `arrayRemove` become `ArrayUnion` and
  `ArrayRemove`, and the `Db` class holds the collections (`users`,
  `nicknames`, `statuses`, `friendRequestsSent`).
- `Relationship` holds the friend-request state machine:
  - the status derived from the viewer's three lists (friends, then sent,
    then received);
  - the four two-document writes (send, accept, decline, direct add);
  - the mirror invariant (A.sent∋B ⇔ B.received∋A, A.friends∋B ⇔ B.friends∋A),
    which every transition keeps, also one that stops half-way because the
    other user's document does not exist.
- `Friends`, `UserProfile`, `Search`, `Home`, `Nickname` and `Auth` model one
  screen each. The screen is a class whose fields are the component's state;
  its methods are the screen's handlers and change the class and the shared
  `Db`.

Time is integer milliseconds, and the current time is a parameter `now`. The
signed-in user, the user returned by sign-in and the id the store gives a new
note are parameters too. A store call that throws becomes an explicit error
branch:
- `updateDoc` on a missing document;
- an empty string used as a document id;
- a property read on `null` or `undefined`;
- an `undefined` field value in `addDoc`.

Two behaviours of the code are kept as written:
- The home feed excludes the user's own notes, is not re-sorted, and has no
  upper bound on `createdAt` (src/screens/HomeScreen.jsx:59-73).
- A dual write whose second document is missing leaves its first write in
  place (`Written.ok` is false).

## Model

| member | source | states |
|---|---|---|
| Store.Has | src/screens/AuthHandler.jsx:26-28 | `if (data.key)`: the field exists and is truthy (every list and date, a non-empty string) |
| Store.Ids | src/screens/FriendsScreen.jsx:30 | `data.key \|\| []`: the stored list, or the empty list when the field is missing. A non-list value is also read as the empty list; see Left out |
| Store.Lists | src/screens/FriendsScreen.jsx:75-81 | `data.key?.includes(x)`: the stored list under key holds x, false when the field is missing. A non-list value also gives false; see Left out |
| Store.DataOf | src/screens/FriendsScreen.jsx:65-66 | Spreading `getDoc(..).data()`: the document's fields, or no fields when it does not exist |
| Store.WellKeyedNames | src/screens/AuthHandler.jsx:26-28 | In a document where no other key spells one of the five field names, two keys with the same stored name are the same key |
| Store.WriteKeepsWellKeyed | src/screens/AuthHandler.jsx:29-30 | A merge write of well-keyed updates keeps a document well-keyed |
| Store.NicknameOf | src/screens/HomeScreen.jsx:104 | `data().nickname`: the stored nickname when it is a string, otherwise none |
| Store.LastPostOf | src/screens/HomeScreen.jsx:34 | `userData?.lastPostTime`: the stored time in milliseconds when it is a date, otherwise none |
| Store.NamedWriteKeepsWellKeyed | src/screens/HomeScreen.jsx:107 | Writing a field that has a key of its own (a list, the nickname, the post time) keeps every document well-keyed |
| Store.ArrayUnion | src/screens/FriendsScreen.jsx:98-103 | `arrayUnion(x)` is set-add. The result holds exactly the old ids plus x, is unchanged if x was there, grows by one otherwise, and keeps a duplicate-free list duplicate-free |
| Store.ArrayRemove | src/screens/FriendsScreen.jsx:140-145 | `arrayRemove(x)` is set-remove. The result holds exactly the old ids other than x, is unchanged if x was absent, never grows, and keeps lists duplicate-free |
| Store.AddId | src/screens/FriendsScreen.jsx:98-100 | `updateDoc(ref, {key: arrayUnion(x)})` on one document writes that one field, which is then a list, and adds no other field |
| Store.RemoveId | src/screens/FriendsScreen.jsx:140-142 | `updateDoc(ref, {key: arrayRemove(x)})` on one document writes that one field, which is then a list (created empty when missing), and adds no other field |
| Store.AddIdEffect | src/screens/FriendsScreen.jsx:117-120 | A one-field union write adds exactly (key, x) to the document's list memberships and changes no other field |
| Store.RemoveIdEffect | src/screens/FriendsScreen.jsx:140-142 | A one-field removal write removes exactly (key, x) from the list memberships and changes no other field |
| Store.AddIdAgain | src/screens/FriendsScreen.jsx:98-100 | Repeating a union of an id already listed leaves the document unchanged |
| Store.RemoveIdAgain | src/screens/FriendsScreen.jsx:140-142 | Repeating a removal of an id no longer listed leaves the document unchanged |
| Store.Filter | src/screens/FriendsScreen.jsx:125 | `filter` keeps exactly the elements satisfying the predicate, and the result is a sub-multiset of the input |
| Store.FilterCount | src/screens/FriendsScreen.jsx:125 | `filter` keeps every copy of an element that satisfies the predicate and no copy of one that does not |
| Store.FilterAppend | src/screens/FriendsScreen.jsx:125 | `filter` keeps input order: filtering a concatenation is concatenating the filtered parts |
| Relationship.StatusOf | src/screens/FriendsScreen.jsx:75-81 | The status is 'friends' iff friends lists the other; 'sent' iff sent lists them and friends does not; 'received' iff only received lists them; otherwise 'none' |
| Relationship.Send | src/screens/FriendsScreen.jsx:98-103 | Send succeeds iff both documents exist, never adds or drops a document, and leaves every third user's document unchanged |
| Relationship.Accept | src/screens/FriendsScreen.jsx:117-124 | Same frame and success condition for the accept writes |
| Relationship.Befriend | src/screens/FriendsScreen.jsx:117-120 | One side of an accept is a single write of two fields. Afterwards both the friends field and the pending field are lists |
| Relationship.BefriendEffect | src/screens/FriendsScreen.jsx:121-124 | One side of an accept adds exactly the friends entry, removes exactly the pending entry, and leaves every other field as it was |
| Relationship.BefriendAgain | src/screens/FriendsScreen.jsx:117-120 | A side that already lists the other as a friend and has no pending entry for them is unchanged by another accept |
| Relationship.BefriendTwice | src/screens/FriendsScreen.jsx:121-124 | One side of an accept applied twice acts once |
| Relationship.Decline | src/screens/FriendsScreen.jsx:140-145 | Same frame and success condition for the decline writes |
| Relationship.AddFriend | src/screens/SearchScreen.jsx:66-71 | Same frame and success condition for the direct mutual add |
| Relationship.SendMembership | src/screens/FriendsScreen.jsx:98-103 | After a send, a's list k names b iff it did before, or the entry is viewer.sent∋target, or (both writes made) target.received∋viewer |
| Relationship.AcceptMembership | src/screens/FriendsScreen.jsx:117-124 | After an accept, each list membership is characterised exactly: friends entries added on both sides, the pending pair removed, nothing else changed |
| Relationship.SendKeepsOtherFields | src/screens/FriendsScreen.jsx:98-103 | A send writes only the viewer's sent list and the target's received list; every other field of every document (nickname, lastPostTime, any other) keeps its presence and value |
| Relationship.DeclineKeepsOtherFields | src/screens/FriendsScreen.jsx:140-145 | A decline writes only the viewer's received list and the requester's sent list; every other field keeps its presence and value |
| Relationship.AddFriendKeepsOtherFields | src/screens/SearchScreen.jsx:66-71 | A direct add writes only the two friends lists; every other field keeps its presence and value |
| Relationship.AcceptKeepsOtherFields | src/screens/FriendsScreen.jsx:117-124 | An accept writes only the viewer's friends and received lists and the requester's friends and sent lists; every other field of every document keeps its presence and value |
| Relationship.DeclineMembership | src/screens/FriendsScreen.jsx:140-145 | After a decline, a list names b iff it did before and the entry is not one of the two removed pending entries |
| Relationship.AddFriendMembership | src/screens/SearchScreen.jsx:66-71 | After a direct add, a list names b iff it did before or it is one of the two added friends entries |
| Relationship.SendKeepsWellKeyed | src/screens/FriendsScreen.jsx:98-103 | A send keeps every user document well-keyed |
| Relationship.AcceptKeepsWellKeyed | src/screens/FriendsScreen.jsx:117-124 | An accept keeps every user document well-keyed |
| Relationship.DeclineKeepsWellKeyed | src/screens/FriendsScreen.jsx:140-145 | A decline keeps every user document well-keyed |
| Relationship.AddFriendKeepsWellKeyed | src/screens/SearchScreen.jsx:66-71 | A direct add keeps every user document well-keyed |
| Relationship.SendKeepsMirrored | src/screens/FriendsScreen.jsx:98-103 | A send, completed or stopped because the other document is missing, keeps the mirror invariant |
| Relationship.AcceptKeepsMirrored | src/screens/FriendsScreen.jsx:117-124 | An accept, completed or stopped because the other document is missing, keeps the mirror invariant |
| Relationship.DeclineKeepsMirrored | src/screens/FriendsScreen.jsx:140-145 | A decline, completed or stopped because the other document is missing, keeps the mirror invariant |
| Relationship.AddFriendKeepsMirrored | src/screens/SearchScreen.jsx:66-71 | A direct add keeps the mirror invariant |
| Relationship.SendIdempotent | src/screens/FriendsScreen.jsx:99-102 | Sending twice leaves the documents as after one send |
| Relationship.AcceptIdempotent | src/screens/FriendsScreen.jsx:118-123 | Accepting twice leaves the documents as after one accept |
| Relationship.AcceptSelfIdempotent | src/screens/FriendsScreen.jsx:117-124 | Accepting one's own id twice, where both writes hit the same document, acts once |
| Relationship.BefriendSelfTwice | src/screens/FriendsScreen.jsx:117-124 | Both sides of a self-accept, applied twice to one document, act once |
| Relationship.DeclineIdempotent | src/screens/FriendsScreen.jsx:141-144 | Declining twice leaves the documents as after one decline |
| Relationship.SendFromUnrelated | src/screens/FriendsScreen.jsx:98-104 | From 'none' on a consistent graph (mirrored, at most one list per pair, nobody listing themselves), a send keeps it consistent and the two sides then show 'sent' and 'received' |
| Relationship.AcceptMakesFriends | src/screens/FriendsScreen.jsx:117-124 | After an accept both sides show 'friends' (friends is checked first), and the pending pair is gone |
| Relationship.AcceptReceived | src/screens/FriendsScreen.jsx:117-124 | Accepting a 'received' request keeps a consistent graph consistent and leaves no request list on either side naming the other |
| Relationship.DeclineKeepsFriends | src/screens/FriendsScreen.jsx:140-145 | A decline leaves every friends list as it was, and once both writes are made the pending pair is removed |
| Relationship.DeclineReceived | src/screens/FriendsScreen.jsx:140-145 | Declining a 'received' request keeps the graph consistent and returns both sides to 'none' |
| Friends.Search | src/screens/FriendsScreen.jsx:62-85 | Search outcome: no reservation gives no result and no error; own nickname gives the self error; the empty term, a missing viewer or a missing viewer document is a failure; otherwise the reserved user and the viewer's derived status |
| Friends.Resolve | src/screens/FriendsScreen.jsx:30-46 | The fetched users are the listed ids that have a document, in list order with repeats kept (`Promise.all` then `filter`), each with its own fields |
| Friends.FindId | src/screens/FriendsScreen.jsx:127 | `find` returns the first entry with that id, or nothing when none has it |
| Friends.AcceptedEntry | src/screens/FriendsScreen.jsx:127 | `[find(..)].filter(Boolean)` is empty iff no entry has the id, and otherwise exactly the first entry with that id |
| Friends.WithoutId | src/screens/FriendsScreen.jsx:125 | The incoming list keeps exactly the entries with another id, each as many times as before |
| Friends.FriendsScreen.Load | src/screens/FriendsScreen.jsx:18-55 | Loading sets the incoming and friends lists from the viewer's received and friends ids, or sets the load error |
| Friends.FriendsScreen.HandleSearch | src/screens/FriendsScreen.jsx:57-92 | The status is reset to 'none', then set from the outcome of `Search`. A failure keeps the previous result |
| Friends.FriendsScreen.SendFriendRequest | src/screens/FriendsScreen.jsx:94-111 | The store becomes `Send`'s result. The status is 'sent' only if both writes were made; otherwise there is the error |
| Friends.FriendsScreen.AcceptFriendRequest | src/screens/FriendsScreen.jsx:113-134 | The store becomes `Accept`'s result. On success the requester leaves the incoming list, is appended to the friends list, and a shown result for them reads 'friends' |
| Friends.FriendsScreen.ShowAccepted | src/screens/FriendsScreen.jsx:125-127 | After an accept, the incoming list loses the requester, the friends list gains their entry, and a shown result for them reads 'friends' |
| Friends.FriendsScreen.DeclineFriendRequest | src/screens/FriendsScreen.jsx:136-154 | The store becomes `Decline`'s result. On success the requester leaves the incoming list and a shown result for them reads 'none' |
| Friends.FriendsScreen.ShowDeclined | src/screens/FriendsScreen.jsx:146-147 | After a decline, the incoming list loses the requester and a shown result for them reads 'none' |
| Friends.SearchShowsMirroredStatus | src/screens/FriendsScreen.jsx:75-81 | On a consistent graph, a status shown by search is recorded on the found user's side too |
| UserProfile.Insert | src/screens/UserProfileScreen.jsx:41 | Inserting into a newest-first list keeps it newest-first and adds exactly that note |
| UserProfile.SortNewest | src/screens/UserProfileScreen.jsx:41 | The sort yields a newest-first permutation of its input |
| UserProfile.ProfileNotes | src/screens/UserProfileScreen.jsx:35-41 | Profile notes are exactly the viewed user's notes, with no age filter, newest first |
| UserProfile.NatToString | src/screens/UserProfileScreen.jsx:129 | A count in a template literal prints as at least one decimal digit, starting with 0 only for zero; read back by `NatToStringRoundTrip` |
| UserProfile.NatToStringRoundTrip | src/screens/UserProfileScreen.jsx:129 | The printed count reads back as the count |
| UserProfile.FriendsLabel | src/screens/UserProfileScreen.jsx:129 | The label is "1 friend" iff the count is 1; otherwise the decimal count followed by " friends" |
| UserProfile.UserProfileScreen.Load | src/screens/UserProfileScreen.jsx:19-62 | Loading sets the document, friend count (length of friends, or 0) and notes. A missing user or current-user document ends with its error before any status is set. The status follows the friends, sent, received order and stays unchanged when no list names the user |
| UserProfile.UserProfileScreen.ShowProfile | src/screens/UserProfileScreen.jsx:29-42 | The profile shows the fetched document, the length of its friends list (0 when absent) and the viewed user's notes newest first |
| UserProfile.UserProfileScreen.ShowStatus | src/screens/UserProfileScreen.jsx:47-53 | The status is taken from the friends, sent, received chain, and is kept when no list names the viewed user |
| UserProfile.UserProfileScreen.SendFriendRequest | src/screens/UserProfileScreen.jsx:64-80 | The store becomes `Send`'s result. The status is 'sent' only if both writes were made |
| UserProfile.UserProfileScreen.AcceptFriendRequest | src/screens/UserProfileScreen.jsx:82-101 | The store becomes `Accept`'s result. On success the status is 'friends' and the count goes up by exactly one |
| UserProfile.UserProfileScreen.ShowAccepted | src/screens/UserProfileScreen.jsx:93-94 | After an accept the status is 'friends' and the count is one more |
| UserProfile.AcceptCountMatches | src/screens/UserProfileScreen.jsx:89-94 | On a mirrored graph where they were not yet friends, an accept lengthens the viewed user's friends list by exactly one, matching the displayed increment |
| Search.Lookup | src/screens/SearchScreen.jsx:19-25 | A reservation yields the reserved id with that user's fields (none when the document is missing); no reservation yields no result; the empty term throws |
| Search.SearchScreen.HandleSearch | src/screens/SearchScreen.jsx:15-34 | The result is shown and `requestSent` reset to false after every search that does not throw |
| Search.SearchScreen.SendFriendRequest | src/screens/SearchScreen.jsx:36-56 | Exactly one {from, to, createdAt} record is appended to the request collection, no user document changes, and `requestSent` becomes true. Without a user or a result it is an error and nothing is written |
| Search.SearchScreen.AddFriend | src/screens/SearchScreen.jsx:58-79 | The store becomes `AddFriend`'s result. `requestSent` is false on success. Without a user or a result it is an error and nothing is written |
| Search.LookupAgreesWithFriends | src/screens/SearchScreen.jsx:19-25 | Away from the viewer's own nickname, this lookup finds the same user as the friends screen's search |
| Search.AddFriendKeepsPending | src/screens/SearchScreen.jsx:66-71 | A direct add leaves every user's sent and received lists unchanged |
| Search.SelfAddFriend | src/screens/SearchScreen.jsx:66-71 | With no self check, one's own nickname resolves to oneself and the add lists oneself as a friend |
| Home.CanPost | src/screens/HomeScreen.jsx:36-39 | Posting is allowed iff at least six hours have passed since the last post; exactly six hours already allows it |
| Home.ExpiresAt | src/components/Note.jsx:5 | A note's countdown ends six hours after it was created |
| Home.Visible | src/screens/HomeScreen.jsx:42-46 | A note is visible while `createdAt > now − 6 h`, strictly, as both queries ask |
| Home.VisibleUntilExpiry | src/screens/HomeScreen.jsx:42-46 | A note is visible iff its countdown has not ended, and iff its author's cooldown is still running |
| Home.ActiveIndex | src/screens/HomeScreen.jsx:43-50 | The index of the first own visible note: every earlier note is not one, and it is one unless it is past the end |
| Home.ActiveNote | src/screens/HomeScreen.jsx:42-57 | The active note is the first own note created strictly after now − 6 h in the store's order, or none when there is no such note |
| Home.Feed | src/screens/HomeScreen.jsx:59-74 | The feed is exactly the notes owned by a friend and created strictly after now − 6 h, each as many times as the store holds it |
| Home.TrimStart | src/screens/HomeScreen.jsx:97 | The leading white space is removed: the result is a suffix of the text, every dropped character is white space, and it does not start with white space |
| Home.TrimEnd | src/screens/HomeScreen.jsx:97 | The trailing white space is removed: the result is a prefix of the text, every dropped character is white space, and it does not end with white space |
| Home.Trim | src/screens/HomeScreen.jsx:97 | `trim()` is empty iff the text is all JavaScript white space; otherwise it neither starts nor ends with white space |
| Home.TrimBlank | src/screens/HomeScreen.jsx:97 | Stripping both ends leaves nothing iff every character is white space |
| Home.HomeScreen.EditNote | src/screens/HomeScreen.jsx:142 | Typing changes only the input text |
| Home.HomeScreen.Load | src/screens/HomeScreen.jsx:18-94 | `canPost` is recomputed only when a last post time exists, so it stays true without one. The active note and the feed are set only when non-empty and when friends exist. A missing user or document is an error |
| Home.HomeScreen.HandlePostNote | src/screens/HomeScreen.jsx:96-122 | Nothing happens during the cooldown or for blank text. Otherwise a note with the untrimmed text, owner, nickname and `now` is appended, `lastPostTime` is merged in, the input is cleared, `canPost` becomes false and the note becomes active. A rejected write changes nothing and sets the error |
| Home.HomeScreen.Post | src/screens/HomeScreen.jsx:100-115 | An accepted post appends the note (untrimmed text, owner, nickname, now), merges `lastPostTime`, clears the input, sets `canPost` false and makes the note active |
| Home.PostStartsCooldown | src/screens/HomeScreen.jsx:107 | After a post at T, the next load reads T as the last post time and forbids posting iff now < T + 6 h. When the poster's earlier notes are at least six hours older than T, as the cooldown ensures, the new note is the active note over that span |
| Nickname.MergeNickname | src/screens/NicknameSelection.jsx:33 | The merge sets the nickname, creates the document if missing, and leaves every other field and every other user unchanged |
| Nickname.MergeNicknameKeepsWellKeyed | src/screens/NicknameSelection.jsx:33 | The nickname merge keeps every user document well-keyed |
| Nickname.NicknameSelection.Edit | src/screens/NicknameSelection.jsx:53 | Typing changes the text but not the last availability answer |
| Nickname.NicknameSelection.CheckNickname | src/screens/NicknameSelection.jsx:13-25 | `isAvailable` becomes true exactly when no reservation exists for the text. The disabled button (empty text, or a check running) does nothing |
| Nickname.NicknameSelection.SaveNickname | src/screens/NicknameSelection.jsx:27-41 | Nothing happens unless `isAvailable` is true. Otherwise the reservation is overwritten with the user's id, the nickname merged and the screen goes home. The empty name fails with the error and returns to input mode |
| Nickname.SavedNicknameResolves | src/screens/NicknameSelection.jsx:32 | After a save, any other user's search (either search screen) for that name finds the saver and their new nickname |
| Nickname.StaleCheckOverwrites | src/screens/NicknameSelection.jsx:53 | A check of a free name followed by an edit to a taken name lets the save take over the other user's reservation |
| Auth.Updates | src/screens/AuthHandler.jsx:25-28 | The update map has an empty list for exactly those of the three list fields that are missing or falsy, and nothing else |
| Auth.NewUserDoc | src/screens/AuthHandler.jsx:38-42 | A new user's document has the three lists, all empty, and no nickname |
| Auth.AuthHandler.Render | src/screens/AuthHandler.jsx:92-121 | Loading while checking; sign-in without a user; home iff a user with a nickname; nickname selection otherwise |
| Auth.AuthHandler.InitRecord | src/screens/AuthHandler.jsx:20-43 | A missing document is created. An existing one is merge-written with the updates only if there are any. A truthy nickname sends the user home |
| Auth.AuthHandler.CheckUser | src/screens/AuthHandler.jsx:15-50 | The start-up check completes the record with the correct field names and clears the loading flag. Errors are swallowed. Home is reached, and `movedHome` set, exactly when the record exists with a nickname |
| Auth.AuthHandler.HandleSignIn | src/screens/AuthHandler.jsx:54-90 | Sign-in completes the record as written, with the misspelled sent field. A failed sign-in shows its error. Home is reached, and `movedHome` set, exactly when the record exists with a nickname |
| Auth.CheckUserCompletesLists | src/screens/AuthHandler.jsx:25-31 | After the start-up merge all three lists are present, fields that were set are unchanged, and no other field appears |
| Auth.SignInLeavesSentMissing | src/screens/AuthHandler.jsx:67 | After the sign-in merge a missing `friendRequestsSent` is still missing, a stray field appears, and the next sign-in writes it again |
| Auth.AuthWritesKeepWellKeyed | src/screens/AuthHandler.jsx:25-42 | A new document and both merges, the misspelled one included, keep a document well-keyed |
| Auth.TypoExample | src/screens/AuthHandler.jsx:65-70 | A document without the sent field is repaired by the start-up check but not by sign-in |

## Left out

- The real Firebase and Capacitor calls (`getDoc`, `updateDoc`, `setDoc`, `addDoc`, `getDocs`, sign-in and `getCurrentUser`) are foreign library calls. They appear only as reads and writes of the `Db` maps; the signed-in user is a parameter.
- The `isLoading` flags are not modelled. Every handler sets them back to false when it ends, and they only choose what is rendered.
- Concurrency is not modelled: the two writes of a dual write, cross-device races and the `Promise.all` fan-out run in order.
- A dual write stops after its first write only when the second document does not exist. The mirror invariant relates existing documents only, so that pair is never checked. A second write rejected for any other reason (network, permissions) with both documents present is not modelled; it would leave the two sides out of step.
- A nickname or search term containing `/` is not modelled as a path. `doc(db, 'nicknames', term)` (src/screens/FriendsScreen.jsx:62, src/screens/SearchScreen.jsx:19, src/screens/NicknameSelection.jsx:17 and :32) splits the term at `/`. So "a/b" throws, "a/" reads the reservation "a", and the model instead treats every non-empty term as a plain key. Only the empty term is modelled as the failure it is.
- Floating-point hours (src/screens/HomeScreen.jsx:38) are replaced by the exact integer comparison `now − L ≥ 21 600 000`. Date conversions are left out, and a `lastPostTime` that is not a date is treated as absent.
- One `now` stands for the separate clock reads within one handler.
- The missing-index error branch of the home load (src/screens/HomeScreen.jsx:77-85) is not modelled.
- The store's 30-value limit on `in` queries is not modelled.
- The order of query results: both home queries filter on a range of `createdAt`, so the store returns them in ascending `createdAt` order. The model does not sort. The `statuses` sequence stands for that order, so Home.ActiveNote is the first, that is the oldest, visible own note, and Home.Feed keeps the same order.
- Store.Ids, Store.Lists: a truthy non-list value under `friends`, `friendRequestsSent` or `friendRequestsReceived` (a string or a date) is read as the empty list. In JavaScript `data.key || []` returns the value itself: `.map` then throws (src/screens/FriendsScreen.jsx:30, :39), `.length` counts characters (src/screens/UserProfileScreen.jsx:32-33), and `?.includes` becomes a substring test or throws (src/screens/FriendsScreen.jsx:75-81). None of the six screens writes a non-list under those fields.
- UserProfile.SortNewest: proved sorted and a permutation, but not stable.
- An empty user id as a document key is not modelled; authentication ids are never empty. Empty nicknames and search terms are modelled as failures.
- Rendering, animation, the countdown widget, navigation, the profile screen, the friends-list screen and the auth service wrappers are not part of this model.
- Home.HomeScreen.HandlePostNote: a `nickname` field holding a non-string value is stored as "no nickname" (`None`).

## Findings

| source | as written | input that shows it | evidently intended | confidence | as-written member | corrected member |
|---|---|---|---|---|---|---|
| src/screens/AuthHandler.jsx:67 | sign-in fills a missing sent-requests list under the key `friendsRequestsSent` | an existing user document with `friends` and `friendRequestsReceived` but no `friendRequestsSent` | the same key as the start-up check, `friendRequestsSent`, so every record gets all three lists | high (not executed) | Auth.SignInLeavesSentMissing | Auth.CheckUserCompletesLists |
