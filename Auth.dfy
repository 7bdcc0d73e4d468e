/** The sign-in gate: on start-up and on sign-in the user's document is created,
    or its missing list fields are filled in, and the app goes home when the user
    already has a nickname. */
module Auth {
  import opened Store

  const SignInFailed: string := "Failed to sign in with Apple. Please try again."

  /** The misspelled field name the sign-in path writes instead of
      `friendRequestsSent`. */
  const TypoKey: Key := OtherKey("friendsRequestsSent")

  /** The update map for an existing document: an empty list for each of the
      three list fields that is absent (or falsy), stored under `sentKey` for
      the sent-requests field. */
  function Updates(doc: Doc, sentKey: Key): (u: Doc)
    requires sentKey != FriendsKey && sentKey != ReceivedKey
    ensures u.Keys <= {FriendsKey, sentKey, ReceivedKey}
    ensures forall k :: k in u ==> u[k] == IdList([])
    ensures FriendsKey in u <==> !Has(doc, FriendsKey)
    ensures sentKey in u <==> !Has(doc, SentKey)
    ensures ReceivedKey in u <==> !Has(doc, ReceivedKey)
  {
    var u0: Doc := map[];
    var u1 := if !Has(doc, FriendsKey) then u0[FriendsKey := IdList([])] else u0;
    var u2 := if !Has(doc, SentKey) then u1[sentKey := IdList([])] else u1;
    if !Has(doc, ReceivedKey) then u2[ReceivedKey := IdList([])] else u2
  }

  /** The document a new user gets: three empty lists and no nickname. */
  function NewUserDoc(): (d: Doc)
    ensures d.Keys == {FriendsKey, SentKey, ReceivedKey}
    ensures forall k :: k in d ==> Ids(d, k) == []
    ensures NicknameOf(d).None?
  {
    map[FriendsKey := IdList([]), SentKey := IdList([]), ReceivedKey := IdList([])]
  }

  /** What the handler renders. */
  datatype View = Loading | SignIn | GoHome | ChooseNickname

  /** The component state of the sign-in gate, over the shared store. */
  class AuthHandler {
    const db: Db
    var user: Option<Uid>
    var error: Option<string>
    var isCheckingNickname: bool
    var hasNickname: bool
    var movedHome: bool

    constructor (db: Db)
      ensures this.db == db && user == None && error == None
      ensures isCheckingNickname && !hasNickname && !movedHome
    {
      this.db := db;
      user := None;
      error := None;
      isCheckingNickname := true;
      hasNickname := false;
      movedHome := false;
    }

    /** The rendering decision: loading while checking, the sign-in button
        without a user, home with a nickname, nickname selection otherwise. */
    function Render(): (v: View)
      reads this
      ensures v == GoHome <==> !isCheckingNickname && user.Some? && hasNickname
      ensures v == ChooseNickname <==> !isCheckingNickname && user.Some? && !hasNickname
      ensures v == SignIn <==> !isCheckingNickname && user.None?
    {
      if isCheckingNickname then Loading
      else if user.None? then SignIn
      else if hasNickname then GoHome
      else ChooseNickname
    }

    /** Creating or completing the document of `uid`, writing the sent-requests
        default under `sentKey`; a user whose document has a nickname goes home. */
    method InitRecord(uid: Uid, sentKey: Key)
      requires sentKey != FriendsKey && sentKey != ReceivedKey
      modifies this, db
      ensures db.nicknames == old(db.nicknames) && db.statuses == old(db.statuses)
      ensures db.friendRequests == old(db.friendRequests)
      ensures user == old(user) && error == old(error) && isCheckingNickname == old(isCheckingNickname)
      ensures uid !in old(db.users) ==>
        && db.users == old(db.users)[uid := NewUserDoc()]
        && hasNickname == old(hasNickname) && movedHome == old(movedHome)
      ensures uid in old(db.users) ==>
        var data := old(db.users)[uid];
        var u := Updates(data, sentKey);
        && db.users == (if u == map[] then old(db.users) else old(db.users)[uid := data + u])
        && hasNickname == (Has(data, NicknameKey) || old(hasNickname))
        && movedHome == (Has(data, NicknameKey) || old(movedHome))
    {
      if uid !in db.users {
        db.users := db.users[uid := NewUserDoc()];
        return;
      }
      var data := db.users[uid];
      var updates: Doc := map[];
      if !Has(data, FriendsKey) {
        updates := updates[FriendsKey := IdList([])];
      }
      if !Has(data, SentKey) {
        updates := updates[sentKey := IdList([])];
      }
      if !Has(data, ReceivedKey) {
        updates := updates[ReceivedKey := IdList([])];
      }
      assert updates == Updates(data, sentKey);
      if updates != map[] {
        db.users := db.users[uid := data + updates];
      }
      if Has(data, NicknameKey) {
        hasNickname := true;
        movedHome := true;
      }
    }

    /** The start-up check for the already signed-in user `session`; failures
        are swallowed and only the loading flag is cleared. */
    method CheckUser(session: Option<Uid>)
      modifies this, db
      ensures db.nicknames == old(db.nicknames) && db.statuses == old(db.statuses)
      ensures db.friendRequests == old(db.friendRequests)
      ensures !isCheckingNickname && error == old(error)
      ensures session.None? ==>
        && db.users == old(db.users) && user == old(user)
        && hasNickname == old(hasNickname) && movedHome == old(movedHome)
      ensures session.Some? ==>
        var uid := session.value;
        && user == session
        && (uid !in old(db.users) ==>
              db.users == old(db.users)[uid := NewUserDoc()] && hasNickname == old(hasNickname))
        && (uid in old(db.users) ==>
              var data := old(db.users)[uid];
              var u := Updates(data, SentKey);
              && db.users == (if u == map[] then old(db.users) else old(db.users)[uid := data + u])
              && hasNickname == (Has(data, NicknameKey) || old(hasNickname)))
        && movedHome == ((uid in old(db.users) && Has(old(db.users)[uid], NicknameKey)) || old(movedHome))
      ensures session.Some? && !old(hasNickname) ==>
        (Render() == GoHome <==> session.value in old(db.users) && Has(old(db.users)[session.value], NicknameKey)) &&
        (Render() == ChooseNickname <==> !(session.value in old(db.users) && Has(old(db.users)[session.value], NicknameKey)))
    {
      if session.Some? {
        user := session;
        InitRecord(session.value, SentKey);
      }
      isCheckingNickname := false;
    }

    /** Signing in; `signedIn` is the user the sign-in service returns, None when
        it fails. As written, the sent-requests default goes under the
        misspelled field name. */
    method HandleSignIn(signedIn: Option<Uid>)
      modifies this, db
      ensures db.nicknames == old(db.nicknames) && db.statuses == old(db.statuses)
      ensures db.friendRequests == old(db.friendRequests)
      ensures !isCheckingNickname
      ensures signedIn.None? ==>
        && db.users == old(db.users) && user == old(user) && error == Some(SignInFailed)
        && hasNickname == old(hasNickname) && movedHome == old(movedHome)
      ensures signedIn.Some? ==>
        var uid := signedIn.value;
        && user == signedIn && error == None
        && (uid !in old(db.users) ==>
              db.users == old(db.users)[uid := NewUserDoc()] && hasNickname == old(hasNickname))
        && (uid in old(db.users) ==>
              var data := old(db.users)[uid];
              var u := Updates(data, TypoKey);
              && db.users == (if u == map[] then old(db.users) else old(db.users)[uid := data + u])
              && hasNickname == (Has(data, NicknameKey) || old(hasNickname)))
        && movedHome == ((uid in old(db.users) && Has(old(db.users)[uid], NicknameKey)) || old(movedHome))
      ensures signedIn.Some? && !old(hasNickname) ==>
        (Render() == GoHome <==> signedIn.value in old(db.users) && Has(old(db.users)[signedIn.value], NicknameKey)) &&
        (Render() == ChooseNickname <==> !(signedIn.value in old(db.users) && Has(old(db.users)[signedIn.value], NicknameKey)))
      ensures signedIn.None? ==> Render() == (if user.None? then SignIn else if hasNickname then GoHome else ChooseNickname)
    {
      error := None;
      isCheckingNickname := true;
      if signedIn.None? {
        error := Some(SignInFailed);
        isCheckingNickname := false;
        return;
      }
      user := signedIn;
      InitRecord(signedIn.value, TypoKey);
      isCheckingNickname := false;
    }
  }

  /** The start-up check leaves a document with all three list fields, and the
      merge keeps every field that was already set. */
  lemma CheckUserCompletesLists(doc: Doc)
    ensures var m := doc + Updates(doc, SentKey);
      && Has(m, FriendsKey) && Has(m, SentKey) && Has(m, ReceivedKey)
      && (forall k :: Has(doc, k) ==> k in m && m[k] == doc[k])
      && m.Keys <= doc.Keys + {FriendsKey, SentKey, ReceivedKey}
  {
    var u := Updates(doc, SentKey);
    var m := doc + u;
    forall k | Has(doc, k) ensures k in m && m[k] == doc[k] {
      assert k !in u;
    }
  }

  /** Sign-in does not repair a missing sent-requests field: the field stays
      missing, a stray misspelled field appears instead, and every later sign-in
      writes it again. */
  lemma SignInLeavesSentMissing(doc: Doc)
    requires !Has(doc, SentKey)
    ensures var m := doc + Updates(doc, TypoKey);
      && !Has(m, SentKey)
      && Has(m, TypoKey)
      && Updates(m, TypoKey) != map[]
      && Updates(doc, TypoKey) != Updates(doc, SentKey)
  {
    var u := Updates(doc, TypoKey);
    assert TypoKey in u && SentKey !in u;
    assert SentKey in Updates(doc, SentKey);
  }

  /** A new document, and the merges of both paths, keep documents well-keyed:
      the misspelled field name is not one of the five reserved names. */
  lemma AuthWritesKeepWellKeyed(doc: Doc)
    requires WellKeyed(doc)
    ensures WellKeyed(NewUserDoc())
    ensures WellKeyed(doc + Updates(doc, SentKey))
    ensures WellKeyed(doc + Updates(doc, TypoKey))
  {
    assert !Reserved(TypoKey.name);
    WriteKeepsWellKeyed(doc, Updates(doc, SentKey));
    WriteKeepsWellKeyed(doc, Updates(doc, TypoKey));
  }

  /** A document created before the sent-requests field existed: the start-up
      check repairs it, sign-in does not. */
  lemma TypoExample()
    ensures var doc: Doc := map[FriendsKey := IdList([]), ReceivedKey := IdList([]), NicknameKey := Text("cat")];
      && Ids(doc + Updates(doc, SentKey), SentKey) == []
      && Has(doc + Updates(doc, SentKey), SentKey)
      && !Has(doc + Updates(doc, TypoKey), SentKey)
  {
    var doc: Doc := map[FriendsKey := IdList([]), ReceivedKey := IdList([]), NicknameKey := Text("cat")];
    SignInLeavesSentMissing(doc);
    CheckUserCompletesLists(doc);
  }
}
