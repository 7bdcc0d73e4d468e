/** The friends screen: nickname search with status derivation, sending a request,
    and accepting or declining the incoming requests listed on the screen. */
module Friends {
  import opened Store
  import opened Relationship

  const LoadFailed: string := "Failed to load data. Please try again."
  const SelfError: string := "You cannot add yourself as a friend."
  const SearchFailed: string := "Failed to search. Please try again."
  const SendFailed: string := "Failed to send friend request. Please try again."
  const AcceptFailed: string := "Failed to accept friend request. Please try again."
  const DeclineFailed: string := "Failed to decline friend request. Please try again."

  /** What a search for a nickname ends with. */
  datatype Lookup =
    | Found(hit: UserView, status: Status)  // another user: shown with the derived status
    | NotFound                              // no reservation: no result, no error
    | SelfHit                               // the viewer's own nickname: no result, an error
    | Failed                                // an exception: the previous result stays, an error

  /** The outcome of a search for `term` by the signed-in user `me` (None when the
      screen could not find one). An empty term is not a valid document id, so
      the store call throws. */
  function Search(users: map<Uid, Doc>, nicknames: map<string, Uid>, term: string, me: Option<Uid>): (r: Lookup)
    ensures r == NotFound <==> term != "" && term !in nicknames
    ensures r == SelfHit <==> term != "" && term in nicknames && me == Some(nicknames[term])
    ensures r.Found? ==>
      && term in nicknames && me.Some? && me.value in users
      && r.hit.id == nicknames[term] && r.hit.id != me.value
      && r.hit.data == DataOf(users, r.hit.id)
      && r.status == StatusOf(users[me.value], r.hit.id)
    ensures r.Failed? <==>
      term == "" || (term in nicknames && (me.None? || (me.value != nicknames[term] && me.value !in users)))
  {
    if term == "" then Failed
    else if term !in nicknames then NotFound
    else if me.None? then Failed
    else
      var id := nicknames[term];
      if id == me.value then SelfHit
      else if me.value !in users then Failed
      else Found(UserView(id, DataOf(users, id)), StatusOf(users[me.value], id))
  }

  /** The users named by `ids` that have a document, in list order: each id is
      fetched and the missing ones are filtered out. */
  function Resolve(users: map<Uid, Doc>, ids: seq<Uid>): (r: seq<UserView>)
    ensures forall v :: v in r <==> v.id in ids && v.id in users && v.data == users[v.id]
    ensures |r| == |Filter(ids, (i: Uid) => i in users)|
    ensures forall j :: 0 <= j < |r| ==>
      r[j].id == Filter(ids, (i: Uid) => i in users)[j] && r[j].data == users[r[j].id]
  {
    if ids == [] then []
    else
      assert ids == [ids[0]] + ids[1..];
      (if ids[0] in users then [UserView(ids[0], users[ids[0]])] else []) + Resolve(users, ids[1..])
  }

  /** `list.find(v => v.id === id)`: the first entry with that id. */
  function FindId(s: seq<UserView>, id: Uid): (r: Option<UserView>)
    ensures r.None? <==> forall v :: v in s ==> v.id != id
    ensures r.Some? ==> exists i :: 0 <= i < |s| && s[i] == r.value && r.value.id == id &&
                                   forall j :: 0 <= j < i ==> s[j].id != id
  {
    if s == [] then None
    else if s[0].id == id then Some(s[0])
    else
      var r := FindId(s[1..], id);
      assert forall v :: v in s[1..] ==> v in s;
      assert r.Some? ==> forall v :: v in s ==> v in s[1..] || v == s[0];
      if r.Some? then
        var i :| 0 <= i < |s[1..]| && s[1..][i] == r.value && r.value.id == id &&
                 forall j :: 0 <= j < i ==> s[1..][j].id != id;
        assert s[i + 1] == r.value;
        r
      else
        r
  }

  /** `[list.find(v => v.id === id)].filter(Boolean)`: the first entry with that
      id, if there is one. */
  function AcceptedEntry(s: seq<UserView>, id: Uid): (r: seq<UserView>)
    ensures |r| <= 1
    ensures r == [] <==> forall v :: v in s ==> v.id != id
    ensures r != [] ==> exists i :: 0 <= i < |s| && r == [s[i]] && s[i].id == id &&
                                   forall j :: 0 <= j < i ==> s[j].id != id
  {
    match FindId(s, id)
    case Some(v) => [v]
    case None => []
  }

  /** `list.filter(v => v.id !== id)`. */
  function WithoutId(s: seq<UserView>, id: Uid): (r: seq<UserView>)
    ensures forall v :: v in r <==> v in s && v.id != id
    ensures forall v :: multiset(r)[v] == if v.id != id then multiset(s)[v] else 0
  {
    FilterCount(s, (v: UserView) => v.id != id);
    Filter(s, (v: UserView) => v.id != id)
  }

  /** The component state of the friends screen, over the shared store. */
  class FriendsScreen {
    const db: Db
    var currentUser: Option<Uid>
    var searchResult: Option<UserView>
    var requestStatus: Status
    var incomingRequests: seq<UserView>
    var friendsList: seq<UserView>
    var error: Option<string>

    constructor (db: Db)
      ensures this.db == db
      ensures currentUser == None && searchResult == None && requestStatus == Unrelated
      ensures incomingRequests == [] && friendsList == [] && error == None
    {
      this.db := db;
      currentUser := None;
      searchResult := None;
      requestStatus := Unrelated;
      incomingRequests := [];
      friendsList := [];
      error := None;
    }

    /** Loading on entry: the signed-in user (`session`), then the users behind
        their received requests and their friends. */
    method Load(session: Option<Uid>)
      modifies this
      ensures session.None? ==> currentUser == old(currentUser) && error == Some(LoadFailed)
      ensures session.Some? ==> currentUser == session
      ensures session.Some? && session.value !in db.users ==> error == Some(LoadFailed)
      ensures session.Some? && session.value in db.users ==>
        && incomingRequests == Resolve(db.users, Ids(db.users[session.value], ReceivedKey))
        && friendsList == Resolve(db.users, Ids(db.users[session.value], FriendsKey))
        && error == old(error)
      ensures session.None? || session.value !in db.users ==>
        incomingRequests == old(incomingRequests) && friendsList == old(friendsList)
      ensures searchResult == old(searchResult) && requestStatus == old(requestStatus)
    {
      if session.None? {
        error := Some(LoadFailed);
        return;
      }
      currentUser := session;
      var me := session.value;
      if me !in db.users {
        error := Some(LoadFailed);
        return;
      }
      var doc := db.users[me];
      incomingRequests := Resolve(db.users, Ids(doc, ReceivedKey));
      friendsList := Resolve(db.users, Ids(doc, FriendsKey));
    }

    /** Searching for `term`: the status is reset to 'none' first and set only
        when a result is found. */
    method HandleSearch(term: string)
      modifies this
      ensures var r := Search(db.users, db.nicknames, term, currentUser);
        && (r.Found? ==> searchResult == Some(r.hit) && requestStatus == r.status && error == None)
        && (r.NotFound? ==> searchResult == None && requestStatus == Unrelated && error == None)
        && (r.SelfHit? ==> searchResult == None && requestStatus == Unrelated && error == Some(SelfError))
        && (r.Failed? ==> searchResult == old(searchResult) && requestStatus == Unrelated
                          && error == Some(SearchFailed))
      ensures currentUser == old(currentUser)
      ensures incomingRequests == old(incomingRequests) && friendsList == old(friendsList)
    {
      error := None;
      requestStatus := Unrelated;
      var r := Search(db.users, db.nicknames, term, currentUser);
      match r
      case Found(hit, status) =>
        requestStatus := status;
        searchResult := Some(hit);
      case NotFound =>
        searchResult := None;
      case SelfHit =>
        searchResult := None;
        error := Some(SelfError);
      case Failed =>
        error := Some(SearchFailed);
    }

    /** Sending a request to the user found by the last search. */
    method SendFriendRequest()
      modifies this, db
      ensures db.nicknames == old(db.nicknames) && db.statuses == old(db.statuses)
      ensures db.friendRequests == old(db.friendRequests)
      ensures currentUser == old(currentUser) && searchResult == old(searchResult)
      ensures incomingRequests == old(incomingRequests) && friendsList == old(friendsList)
      ensures currentUser.None? || searchResult.None? ==>
        && db.users == old(db.users) && requestStatus == old(requestStatus)
        && error == Some(SendFailed)
      ensures currentUser.Some? && searchResult.Some? ==>
        var w := Send(old(db.users), currentUser.value, searchResult.value.id);
        && db.users == w.users
        && (w.ok ==> requestStatus == Sent && error == None)
        && (!w.ok ==> requestStatus == old(requestStatus) && error == Some(SendFailed))
    {
      error := None;
      if currentUser.None? || searchResult.None? {
        error := Some(SendFailed);
        return;
      }
      var w := Send(db.users, currentUser.value, searchResult.value.id);
      db.users := w.users;
      if !w.ok {
        error := Some(SendFailed);
        return;
      }
      requestStatus := Sent;
    }

    /** Accepting the request of `requesterId`; on success the requester leaves
        the incoming list and joins the friends list, and a search result for
        them shows 'friends'. */
    method AcceptFriendRequest(requesterId: Uid)
      modifies this, db
      ensures db.nicknames == old(db.nicknames) && db.statuses == old(db.statuses)
      ensures db.friendRequests == old(db.friendRequests)
      ensures currentUser == old(currentUser) && searchResult == old(searchResult)
      ensures currentUser.None? ==>
        && db.users == old(db.users) && error == Some(AcceptFailed)
        && requestStatus == old(requestStatus)
        && incomingRequests == old(incomingRequests) && friendsList == old(friendsList)
      ensures currentUser.Some? ==>
        var w := Accept(old(db.users), currentUser.value, requesterId);
        && db.users == w.users
        && (!w.ok ==> && error == Some(AcceptFailed) && requestStatus == old(requestStatus)
                      && incomingRequests == old(incomingRequests) && friendsList == old(friendsList))
        && (w.ok ==> && error == None
                     && incomingRequests == WithoutId(old(incomingRequests), requesterId)
                     && friendsList == old(friendsList) + AcceptedEntry(old(incomingRequests), requesterId)
                     && requestStatus == (if searchResult.Some? && searchResult.value.id == requesterId
                                          then Friends else old(requestStatus)))
    {
      error := None;
      if currentUser.None? {
        error := Some(AcceptFailed);
        return;
      }
      var w := Accept(db.users, currentUser.value, requesterId);
      db.users := w.users;
      if !w.ok {
        error := Some(AcceptFailed);
        return;
      }
      ShowAccepted(requesterId);
    }

    /** The screen-side effect of a completed accept. */
    method ShowAccepted(requesterId: Uid)
      modifies this
      ensures currentUser == old(currentUser) && searchResult == old(searchResult) && error == old(error)
      ensures incomingRequests == WithoutId(old(incomingRequests), requesterId)
      ensures friendsList == old(friendsList) + AcceptedEntry(old(incomingRequests), requesterId)
      ensures requestStatus == (if searchResult.Some? && searchResult.value.id == requesterId
                                then Friends else old(requestStatus))
    {
      var accepted := AcceptedEntry(incomingRequests, requesterId);
      incomingRequests := WithoutId(incomingRequests, requesterId);
      if searchResult.Some? && searchResult.value.id == requesterId {
        requestStatus := Friends;
      }
      friendsList := friendsList + accepted;
    }

    /** Declining the request of `requesterId`; on success the requester leaves
        the incoming list and a search result for them shows 'none'. */
    method DeclineFriendRequest(requesterId: Uid)
      modifies this, db
      ensures db.nicknames == old(db.nicknames) && db.statuses == old(db.statuses)
      ensures db.friendRequests == old(db.friendRequests)
      ensures currentUser == old(currentUser) && searchResult == old(searchResult)
      ensures friendsList == old(friendsList)
      ensures currentUser.None? ==>
        && db.users == old(db.users) && error == Some(DeclineFailed)
        && requestStatus == old(requestStatus) && incomingRequests == old(incomingRequests)
      ensures currentUser.Some? ==>
        var w := Decline(old(db.users), currentUser.value, requesterId);
        && db.users == w.users
        && (!w.ok ==> && error == Some(DeclineFailed) && requestStatus == old(requestStatus)
                      && incomingRequests == old(incomingRequests))
        && (w.ok ==> && error == None
                     && incomingRequests == WithoutId(old(incomingRequests), requesterId)
                     && requestStatus == (if searchResult.Some? && searchResult.value.id == requesterId
                                          then Unrelated else old(requestStatus)))
    {
      error := None;
      if currentUser.None? {
        error := Some(DeclineFailed);
        return;
      }
      var w := Decline(db.users, currentUser.value, requesterId);
      db.users := w.users;
      if !w.ok {
        error := Some(DeclineFailed);
        return;
      }
      ShowDeclined(requesterId);
    }

    /** The screen-side effect of a completed decline. */
    method ShowDeclined(requesterId: Uid)
      modifies this
      ensures currentUser == old(currentUser) && searchResult == old(searchResult) && error == old(error)
      ensures friendsList == old(friendsList)
      ensures incomingRequests == WithoutId(old(incomingRequests), requesterId)
      ensures requestStatus == (if searchResult.Some? && searchResult.value.id == requesterId
                                then Unrelated else old(requestStatus))
    {
      incomingRequests := WithoutId(incomingRequests, requesterId);
      if searchResult.Some? && searchResult.value.id == requesterId {
        requestStatus := Unrelated;
      }
    }
  }

  /** A search never shows the viewer as a result, and the status it shows is
      'sent' or 'received' only when that request is recorded on both sides of a
      consistent graph. */
  lemma SearchShowsMirroredStatus(users: map<Uid, Doc>, nicknames: map<string, Uid>, term: string, me: Uid)
    requires Consistent(users)
    requires term in nicknames && nicknames[term] in users
    ensures var r := Search(users, nicknames, term, Some(me));
      r.Found? ==>
        && (r.status == Sent ==> Lists(users[r.hit.id], ReceivedKey, me))
        && (r.status == Received ==> Lists(users[r.hit.id], SentKey, me))
        && (r.status == Friends ==> Lists(users[r.hit.id], FriendsKey, me))
  {
  }
}
