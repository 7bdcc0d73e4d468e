/** Choosing a nickname: an availability check against the reservations, then a
    save that writes the reservation and merges the nickname into the user's
    document. */
module Nickname {
  import opened Store
  import Friends
  import Search

  const CheckFailed: string := "Failed to check nickname. Please try again."
  const SaveFailed: string := "Failed to save nickname. Please try again."

  /** `setDoc(users/uid, {nickname}, {merge: true})`: the nickname field is set,
      the document created when missing, and nothing else changes. */
  function MergeNickname(users: map<Uid, Doc>, uid: Uid, nick: string): (r: map<Uid, Doc>)
    ensures r.Keys == users.Keys + {uid}
    ensures NicknameOf(r[uid]) == Some(nick)
    ensures r[uid].Keys == DataOf(users, uid).Keys + {NicknameKey}
    ensures forall k :: k in DataOf(users, uid) && k != NicknameKey ==> r[uid][k] == DataOf(users, uid)[k]
    ensures forall a :: a in users && a != uid ==> r[a] == users[a]
  {
    users[uid := DataOf(users, uid)[NicknameKey := Text(nick)]]
  }

  /** The nickname merge keeps every user document well-keyed. */
  lemma MergeNicknameKeepsWellKeyed(users: map<Uid, Doc>, uid: Uid, nick: string)
    requires AllWellKeyed(users)
    ensures AllWellKeyed(MergeNickname(users, uid, nick))
  {
    assert WellKeyed(DataOf(users, uid));
    NamedWriteKeepsWellKeyed(users, uid, DataOf(users, uid), NicknameKey, Text(nick));
  }

  /** The component state of the nickname screen for the signed-in user `user`. */
  class NicknameSelection {
    const db: Db
    const user: Uid
    var nickname: string
    var isChecking: bool
    var isAvailable: Option<bool>
    var error: Option<string>
    var movedHome: bool

    constructor (db: Db, user: Uid)
      ensures this.db == db && this.user == user
      ensures nickname == "" && !isChecking && isAvailable == None && error == None && !movedHome
    {
      this.db := db;
      this.user := user;
      nickname := "";
      isChecking := false;
      isAvailable := None;
      error := None;
      movedHome := false;
    }

    /** Typing in the input; the last availability answer is kept. */
    method Edit(text: string)
      modifies this
      ensures nickname == text
      ensures isChecking == old(isChecking) && isAvailable == old(isAvailable)
      ensures error == old(error) && movedHome == old(movedHome)
    {
      nickname := text;
    }

    /** Checking the typed nickname: available exactly when nobody has reserved
        it. The button is disabled while a check runs and while the input is
        empty, so then nothing happens. */
    method CheckNickname()
      modifies this
      ensures nickname == old(nickname) && movedHome == old(movedHome)
      ensures old(isChecking) || nickname == "" ==>
        isChecking == old(isChecking) && isAvailable == old(isAvailable) && error == old(error)
      ensures !old(isChecking) && nickname != "" ==>
        && isAvailable == Some(nickname !in db.nicknames)
        && !isChecking && error == None
    {
      if isChecking || nickname == "" {
        return;
      }
      isChecking := true;
      error := None;
      isAvailable := Some(nickname !in db.nicknames);
      isChecking := false;
    }

    /** Saving the typed nickname, if the last check said available: the
        reservation is overwritten unconditionally, then the nickname is merged
        into the user's document and the app moves to the home screen. An empty
        nickname is not a valid document id, so the store call throws. */
    method SaveNickname()
      modifies this, db
      ensures db.statuses == old(db.statuses) && db.friendRequests == old(db.friendRequests)
      ensures nickname == old(nickname) && isAvailable == old(isAvailable)
      ensures old(isAvailable) != Some(true) ==>
        && db.users == old(db.users) && db.nicknames == old(db.nicknames)
        && isChecking == old(isChecking) && error == old(error) && movedHome == old(movedHome)
      ensures old(isAvailable) == Some(true) && nickname == "" ==>
        && db.users == old(db.users) && db.nicknames == old(db.nicknames)
        && !isChecking && error == Some(SaveFailed) && movedHome == old(movedHome)
      ensures old(isAvailable) == Some(true) && nickname != "" ==>
        && db.nicknames == old(db.nicknames)[nickname := user]
        && db.users == MergeNickname(old(db.users), user, nickname)
        && isChecking && error == None && movedHome
    {
      if isAvailable != Some(true) {
        return;
      }
      isChecking := true;
      error := None;
      if nickname == "" {
        error := Some(SaveFailed);
        isChecking := false;
        return;
      }
      db.nicknames := db.nicknames[nickname := user];
      db.users := MergeNickname(db.users, user, nickname);
      movedHome := true;
    }
  }

  /** After a save, every other signed-in user who searches for the saved
      nickname, on either search screen, finds the saver. */
  lemma SavedNicknameResolves(users: map<Uid, Doc>, nicknames: map<string, Uid>, nick: string, saver: Uid, viewer: Uid)
    requires nick != "" && viewer != saver && viewer in users
    ensures var users' := MergeNickname(users, saver, nick);
      var nicknames' := nicknames[nick := saver];
      var f := Friends.Search(users', nicknames', nick, Some(viewer));
      && f.Found? && f.hit.id == saver && NicknameOf(f.hit.data) == Some(nick)
      && Search.Lookup(users', nicknames', nick) == Search.Shown(Some(f.hit))
  {
  }

  /** Editing after a check does not reset the answer, so a user who checks a
      free name and then types a taken one overwrites its reservation: here "dog"
      belongs to "u2" before the save and to "u1" after it. */
  method StaleCheckOverwrites() returns (before: Uid, after: Uid)
    ensures before == "u2" && after == "u1"
  {
    var db := new Db();
    db.nicknames := map["dog" := "u2"];
    var screen := new NicknameSelection(db, "u1");
    screen.Edit("cat");
    screen.CheckNickname();
    screen.Edit("dog");
    before := db.nicknames["dog"];
    screen.SaveNickname();
    after := db.nicknames["dog"];
  }
}
