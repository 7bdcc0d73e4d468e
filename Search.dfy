/** The older search screen: a nickname lookup with no self check, a request
    recorded in a separate collection, and a direct mutual add. */
module Search {
  import opened Store
  import opened Relationship
  import Friends

  const SearchFailed: string := "Failed to search. Please try again."
  const SendFailed: string := "Failed to send friend request. Please try again."
  const AddFailed: string := "Failed to add friend. Please try again."

  /** What a search ends with: the store call threw, or a result (possibly
      none) is shown. */
  datatype Outcome = Threw | Shown(result: Option<UserView>)

  /** Looking up `term` in the nickname reservations. An empty term is not a
      valid document id, so the store call throws. */
  function Lookup(users: map<Uid, Doc>, nicknames: map<string, Uid>, term: string): (r: Outcome)
    ensures r.Threw? <==> term == ""
    ensures r.Shown? ==> (r.result.Some? <==> term in nicknames)
    ensures r.Shown? && r.result.Some? ==>
      && r.result.value.id == nicknames[term]
      && (forall k :: k in r.result.value.data <==> nicknames[term] in users && k in users[nicknames[term]])
      && (nicknames[term] in users ==> r.result.value.data == users[nicknames[term]])
  {
    if term == "" then Threw
    else if term in nicknames then
      var id := nicknames[term];
      Shown(Some(UserView(id, DataOf(users, id))))
    else Shown(None)
  }

  /** The component state of the search screen, over the shared store. */
  class SearchScreen {
    const db: Db
    var searchResult: Option<UserView>
    var requestSent: bool
    var error: Option<string>

    constructor (db: Db)
      ensures this.db == db && searchResult == None && !requestSent && error == None
    {
      this.db := db;
      searchResult := None;
      requestSent := false;
      error := None;
    }

    /** Searching for `term`; a search that does not throw resets `requestSent`. */
    method HandleSearch(term: string)
      modifies this
      ensures var r := Lookup(db.users, db.nicknames, term);
        && (r.Threw? ==> && searchResult == old(searchResult) && requestSent == old(requestSent)
                         && error == Some(SearchFailed))
        && (r.Shown? ==> searchResult == r.result && !requestSent && error == None)
    {
      error := None;
      var r := Lookup(db.users, db.nicknames, term);
      match r
      case Threw =>
        error := Some(SearchFailed);
      case Shown(result) =>
        searchResult := result;
        requestSent := false;
    }

    /** Recording a request from the signed-in user `session` to the shown user
        at time `now`, in the separate request collection; no user document is
        touched. Without a user or a result nothing is written. */
    method SendFriendRequest(session: Option<Uid>, now: int)
      modifies this, db
      ensures db.users == old(db.users) && db.nicknames == old(db.nicknames)
      ensures db.statuses == old(db.statuses)
      ensures searchResult == old(searchResult)
      ensures session.None? || searchResult.None? ==>
        && db.friendRequests == old(db.friendRequests)
        && requestSent == old(requestSent) && error == Some(SendFailed)
      ensures session.Some? && searchResult.Some? ==>
        && db.friendRequests == old(db.friendRequests) + [FriendRequest(session.value, searchResult.value.id, now)]
        && requestSent && error == None
    {
      error := None;
      if session.None? || searchResult.None? {
        error := Some(SendFailed);
        return;
      }
      db.friendRequests := db.friendRequests + [FriendRequest(session.value, searchResult.value.id, now)];
      requestSent := true;
    }

    /** Making the signed-in user and the shown user friends at once. */
    method AddFriend(session: Option<Uid>)
      modifies this, db
      ensures db.nicknames == old(db.nicknames) && db.statuses == old(db.statuses)
      ensures db.friendRequests == old(db.friendRequests)
      ensures searchResult == old(searchResult)
      ensures session.None? || searchResult.None? ==>
        db.users == old(db.users) && requestSent == old(requestSent) && error == Some(AddFailed)
      ensures session.Some? && searchResult.Some? ==>
        var w := Relationship.AddFriend(old(db.users), session.value, searchResult.value.id);
        && db.users == w.users
        && (w.ok ==> !requestSent && error == None)
        && (!w.ok ==> requestSent == old(requestSent) && error == Some(AddFailed))
    {
      error := None;
      if session.None? || searchResult.None? {
        error := Some(AddFailed);
        return;
      }
      var w := Relationship.AddFriend(db.users, session.value, searchResult.value.id);
      db.users := w.users;
      if !w.ok {
        error := Some(AddFailed);
        return;
      }
      requestSent := false;
    }
  }

  /** Away from the viewer's own nickname, this screen finds the same user as the
      friends screen does. */
  lemma LookupAgreesWithFriends(users: map<Uid, Doc>, nicknames: map<string, Uid>, term: string, me: Uid)
    requires me in users
    requires term in nicknames ==> nicknames[term] != me
    ensures var f := Friends.Search(users, nicknames, term, Some(me));
      && (Lookup(users, nicknames, term) == Shown(None) <==> f.NotFound?)
      && (f.Found? ==> Lookup(users, nicknames, term) == Shown(Some(f.hit)))
      && (Lookup(users, nicknames, term).Threw? <==> f.Failed?)
  {
  }

  /** A direct add touches only friends lists: the pending-request fields of
      every user stay as they were. */
  lemma AddFriendKeepsPending(users: map<Uid, Doc>, viewer: Uid, target: Uid, a: Uid)
    requires a in users
    ensures var w := Relationship.AddFriend(users, viewer, target);
      && Ids(w.users[a], SentKey) == Ids(users[a], SentKey)
      && Ids(w.users[a], ReceivedKey) == Ids(users[a], ReceivedKey)
  {
    if viewer in users {
      AddIdEffect(users[viewer], FriendsKey, target);
      var u1 := users[viewer := AddId(users[viewer], FriendsKey, target)];
      if target in u1 {
        AddIdEffect(u1[target], FriendsKey, viewer);
      }
    }
  }

  /** With no self check, searching for one's own nickname and adding the result
      makes the viewer their own friend. */
  lemma SelfAddFriend(users: map<Uid, Doc>, nicknames: map<string, Uid>, nick: string, me: Uid)
    requires nick != "" && nick in nicknames && nicknames[nick] == me && me in users
    ensures Lookup(users, nicknames, nick) == Shown(Some(UserView(me, users[me])))
    ensures var w := Relationship.AddFriend(users, me, me);
      w.ok && Lists(w.users[me], FriendsKey, me)
  {
    AddFriendMembership(users, me, me, me, FriendsKey, me);
  }
}
