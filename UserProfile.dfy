/** The profile of another user: their notes newest first, their friend count,
    the viewer's relationship status with them, and send/accept actions. */
module UserProfile {
  import opened Store
  import opened Relationship

  const NotAuthenticated: string := "Failed to load user profile: User not authenticated"
  const UserNotFound: string := "Failed to load user profile: User not found"
  const CurrentUserNotFound: string := "Failed to load user profile: Current user data not found"
  const SendFailed: string := "Failed to send friend request. Please try again."
  const AcceptFailed: string := "Failed to accept friend request. Please try again."

  /** Notes ordered by creation time, newest first. */
  predicate NewestFirst(s: seq<Note>) {
    forall i, j :: 0 <= i < j < |s| ==> s[i].createdAt >= s[j].createdAt
  }

  /** Puts n into a newest-first sequence, ahead of the notes no newer than it. */
  function Insert(n: Note, s: seq<Note>): (r: seq<Note>)
    requires NewestFirst(s)
    ensures NewestFirst(r)
    ensures multiset(r) == multiset(s) + multiset{n}
  {
    if s == [] then [n]
    else if s[0].createdAt <= n.createdAt then [n] + s
    else
      assert s == [s[0]] + s[1..];
      var rest := Insert(n, s[1..]);
      InsertBounded(n, s, rest);
      [s[0]] + rest
  }

  /** `sort((a, b) => b.createdAt - a.createdAt)`. */
  function SortNewest(s: seq<Note>): (r: seq<Note>)
    ensures NewestFirst(r)
    ensures multiset(r) == multiset(s)
  {
    if s == [] then []
    else
      assert s == [s[0]] + s[1..];
      Insert(s[0], SortNewest(s[1..]))
  }

  /** The notes shown on the profile of `owner`: every note of theirs, whatever
      its age, newest first. */
  function ProfileNotes(notes: seq<Note>, owner: Uid): (r: seq<Note>)
    ensures NewestFirst(r)
    ensures forall n :: n in r <==> n in notes && n.ownerId == owner
    ensures multiset(r) == multiset(Filter(notes, (n: Note) => n.ownerId == owner))
  {
    var own := Filter(notes, (n: Note) => n.ownerId == owner);
    var r := SortNewest(own);
    SameElements(r, own);
    r
  }

  /** Sequences with equal multisets hold the same elements. */
  lemma SameElements<T>(a: seq<T>, b: seq<T>)
    requires multiset(a) == multiset(b)
    ensures forall x :: x in a <==> x in b
  {
    forall x ensures x in a <==> x in b {
      assert x in a <==> x in multiset(a);
      assert x in b <==> x in multiset(b);
    }
  }

  /** What Insert puts after the newest note of s is no newer than that note. */
  lemma InsertBounded(n: Note, s: seq<Note>, rest: seq<Note>)
    requires NewestFirst(s) && s != [] && n.createdAt < s[0].createdAt
    requires multiset(rest) == multiset(s[1..]) + multiset{n}
    ensures forall x :: x in rest ==> x.createdAt <= s[0].createdAt
  {
    forall x | x in rest ensures x.createdAt <= s[0].createdAt {
      assert x in multiset(rest);
      if x != n {
        assert x in multiset(s[1..]);
        var k :| 0 <= k < |s[1..]| && s[1..][k] == x;
        assert s[k + 1] == x;
      }
    }
  }

  /** The decimal digit for d. */
  function Digit(d: nat): (c: char)
    requires d < 10
    ensures '0' <= c <= '9' && c as int - '0' as int == d
  {
    (d + '0' as int) as char
  }

  /** A natural number in decimal, as template literals print it. */
  function NatToString(n: nat): (r: string)
    ensures |r| >= 1
    ensures forall i :: 0 <= i < |r| ==> '0' <= r[i] <= '9'
    ensures r[0] == '0' <==> n == 0
  {
    if n < 10 then [Digit(n)] else NatToString(n / 10) + [Digit(n % 10)]
  }

  /** The number a string of decimal digits denotes. */
  function DecimalValue(s: string): nat
    requires forall i :: 0 <= i < |s| ==> '0' <= s[i] <= '9'
  {
    if s == [] then 0
    else DecimalValue(s[..|s| - 1]) * 10 + (s[|s| - 1] as int - '0' as int)
  }

  /** Printing a count and reading it back gives the count. */
  lemma {:induction false} NatToStringRoundTrip(n: nat)
    ensures DecimalValue(NatToString(n)) == n
  {
    if n >= 10 {
      NatToStringRoundTrip(n / 10);
      var s := NatToString(n);
      assert s[..|s| - 1] == NatToString(n / 10);
    }
  }

  /** The friend-count label: "1 friend" for one, "N friends" otherwise. */
  function FriendsLabel(count: nat): (r: string)
    ensures r == "1 friend" <==> count == 1
    ensures count != 1 ==>
      && |r| > 8 && r[|r| - 8..] == " friends"
      && (forall i :: 0 <= i < |r| - 8 ==> '0' <= r[i] <= '9')
      && DecimalValue(r[..|r| - 8]) == count
  {
    if count == 1 then "1 friend"
    else
      var digits := NatToString(count);
      NatToStringRoundTrip(count);
      assert (digits + " friends")[..|digits|] == digits;
      digits + " friends"
  }

  /** The component state of a profile screen for `userId`, over the shared store. */
  class UserProfileScreen {
    const db: Db
    const userId: Uid
    var currentUser: Option<Uid>
    var userData: Option<Doc>
    var relationshipStatus: Status
    var notes: seq<Note>
    var friendsCount: nat
    var error: Option<string>

    constructor (db: Db, userId: Uid)
      ensures this.db == db && this.userId == userId
      ensures currentUser == None && userData == None && relationshipStatus == Unrelated
      ensures notes == [] && friendsCount == 0 && error == None
    {
      this.db := db;
      this.userId := userId;
      currentUser := None;
      userData := None;
      relationshipStatus := Unrelated;
      notes := [];
      friendsCount := 0;
      error := None;
    }

    /** Loading on entry, for the signed-in user `session`. The viewed user's
        document, count and notes come first; the status is derived last, and
        only when both documents exist. */
    method Load(session: Option<Uid>)
      modifies this
      ensures session.None? ==> error == Some(NotAuthenticated) && currentUser == old(currentUser)
      ensures session.Some? ==> currentUser == session
      ensures session.Some? && userId !in db.users ==> error == Some(UserNotFound)
      ensures session.None? || userId !in db.users ==>
        userData == old(userData) && friendsCount == old(friendsCount) && notes == old(notes)
      ensures session.Some? && userId in db.users ==>
        && userData == Some(db.users[userId])
        && friendsCount == |Ids(db.users[userId], FriendsKey)|
        && notes == ProfileNotes(db.statuses, userId)
      ensures session.Some? && userId in db.users && session.value !in db.users ==>
        error == Some(CurrentUserNotFound)
      ensures session.Some? && userId in db.users && session.value in db.users ==>
        var s := StatusOf(db.users[session.value], userId);
        relationshipStatus == (if s == Unrelated then old(relationshipStatus) else s) &&
        error == old(error)
      ensures session.None? || userId !in db.users || session.value !in db.users ==>
        relationshipStatus == old(relationshipStatus)
    {
      if session.None? {
        error := Some(NotAuthenticated);
        return;
      }
      currentUser := session;
      if userId !in db.users {
        error := Some(UserNotFound);
        return;
      }
      ShowProfile(db.users[userId], db.statuses);
      var me := session.value;
      if me !in db.users {
        error := Some(CurrentUserNotFound);
        return;
      }
      ShowStatus(db.users[me]);
    }

    /** The viewed user's document `fetched`, its friend count and, from
        `statuses`, the viewed user's notes. */
    method ShowProfile(fetched: Doc, statuses: seq<Note>)
      modifies this
      ensures userData == Some(fetched) && friendsCount == |Ids(fetched, FriendsKey)|
      ensures notes == ProfileNotes(statuses, userId)
      ensures currentUser == old(currentUser) && relationshipStatus == old(relationshipStatus)
      ensures error == old(error)
    {
      userData := Some(fetched);
      friendsCount := |Ids(fetched, FriendsKey)|;
      notes := ProfileNotes(statuses, userId);
    }

    /** The status chain over the viewer's document `mine`: friends, then sent,
        then received; when no list names the viewed user the status is kept. */
    method ShowStatus(mine: Doc)
      modifies this
      ensures var s := StatusOf(mine, userId);
        relationshipStatus == (if s == Unrelated then old(relationshipStatus) else s)
      ensures currentUser == old(currentUser) && userData == old(userData) && notes == old(notes)
      ensures friendsCount == old(friendsCount) && error == old(error)
    {
      if Lists(mine, FriendsKey, userId) {
        relationshipStatus := Friends;
      } else if Lists(mine, SentKey, userId) {
        relationshipStatus := Sent;
      } else if Lists(mine, ReceivedKey, userId) {
        relationshipStatus := Received;
      }
    }

    /** Sending a request to the viewed user. */
    method SendFriendRequest()
      modifies this, db
      ensures db.nicknames == old(db.nicknames) && db.statuses == old(db.statuses)
      ensures db.friendRequests == old(db.friendRequests)
      ensures currentUser == old(currentUser) && friendsCount == old(friendsCount)
      ensures userData == old(userData) && notes == old(notes)
      ensures currentUser.None? ==>
        db.users == old(db.users) && relationshipStatus == old(relationshipStatus) && error == Some(SendFailed)
      ensures currentUser.Some? ==>
        var w := Send(old(db.users), currentUser.value, userId);
        && db.users == w.users
        && (w.ok ==> relationshipStatus == Sent && error == old(error))
        && (!w.ok ==> relationshipStatus == old(relationshipStatus) && error == Some(SendFailed))
    {
      if currentUser.None? {
        error := Some(SendFailed);
        return;
      }
      var w := Send(db.users, currentUser.value, userId);
      db.users := w.users;
      if !w.ok {
        error := Some(SendFailed);
        return;
      }
      relationshipStatus := Sent;
    }

    /** Accepting the viewed user's request; the displayed count goes up by one. */
    method AcceptFriendRequest()
      modifies this, db
      ensures db.nicknames == old(db.nicknames) && db.statuses == old(db.statuses)
      ensures db.friendRequests == old(db.friendRequests)
      ensures currentUser == old(currentUser) && userData == old(userData) && notes == old(notes)
      ensures currentUser.None? ==>
        && db.users == old(db.users) && relationshipStatus == old(relationshipStatus)
        && friendsCount == old(friendsCount) && error == Some(AcceptFailed)
      ensures currentUser.Some? ==>
        var w := Accept(old(db.users), currentUser.value, userId);
        && db.users == w.users
        && (w.ok ==> relationshipStatus == Friends && friendsCount == old(friendsCount) + 1
                     && error == old(error))
        && (!w.ok ==> relationshipStatus == old(relationshipStatus) && friendsCount == old(friendsCount)
                      && error == Some(AcceptFailed))
    {
      if currentUser.None? {
        error := Some(AcceptFailed);
        return;
      }
      var w := Accept(db.users, currentUser.value, userId);
      db.users := w.users;
      if !w.ok {
        error := Some(AcceptFailed);
        return;
      }
      ShowAccepted();
    }

    /** The screen-side effect of a completed accept. */
    method ShowAccepted()
      modifies this
      ensures relationshipStatus == Friends && friendsCount == old(friendsCount) + 1
      ensures currentUser == old(currentUser) && userData == old(userData) && notes == old(notes)
      ensures error == old(error)
    {
      relationshipStatus := Friends;
      friendsCount := friendsCount + 1;
    }
  }

  /** The count shown after an accept matches the viewed user's new friends list:
      when the viewer was not yet their friend on a mirrored graph, the accept
      lengthens that list by exactly one. */
  lemma AcceptCountMatches(users: map<Uid, Doc>, me: Uid, owner: Uid)
    requires Mirrored(users)
    requires me in users && owner in users && me != owner
    requires !Lists(users[me], FriendsKey, owner)
    ensures |Ids(Accept(users, me, owner).users[owner], FriendsKey)| == |Ids(users[owner], FriendsKey)| + 1
  {
    var d1 := AddId(users[me], FriendsKey, owner);
    var u1 := users[me := RemoveId(d1, ReceivedKey, owner)];
    assert u1[owner] == users[owner];
    var d2 := AddId(users[owner], FriendsKey, me);
    assert Accept(users, me, owner).users[owner] == Befriend(users[owner], me, SentKey) == RemoveId(d2, SentKey, me);
    assert Ids(RemoveId(d2, SentKey, me), FriendsKey) == Ids(d2, FriendsKey);
  }
}
