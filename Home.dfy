/** The home screen: the posting cooldown, the six-hour visibility window shared
    by the active note, the friends' feed and a note's displayed expiry, and
    posting a note. Times are integer milliseconds. */
module Home {
  import opened Store

  const LoadFailed: string := "Failed to load data. Please check your internet connection or try again later."
  const PostFailed: string := "Failed to post note. Please try again."

  /** Six hours: the cooldown between posts and the lifetime of a note. */
  const WindowMs: int := 6 * 60 * 60 * 1000

  /** Whether a user whose last post was at `last` may post at `now`: at least
      six hours have passed, the boundary included. */
  function CanPost(last: int, now: int): (r: bool)
    ensures r <==> last + WindowMs <= now
  {
    now - last >= WindowMs
  }

  /** A note counts as active or in the feed while it is less than six hours
      old; at exactly six hours it is gone. */
  predicate Visible(n: Note, now: int) {
    n.createdAt > now - WindowMs
  }

  /** The moment a note's countdown reaches zero. */
  function ExpiresAt(n: Note): (t: int)
    ensures t - n.createdAt == WindowMs
  {
    n.createdAt + WindowMs
  }

  /** A note is shown exactly until its countdown ends, and while it is shown
      its author's cooldown runs. */
  lemma VisibleUntilExpiry(n: Note, now: int)
    ensures Visible(n, now) <==> now < ExpiresAt(n)
    ensures Visible(n, now) <==> !CanPost(n.createdAt, now)
  {
  }

  /** Whether n is a note of `owner` still visible at `now`. */
  predicate ActiveFor(n: Note, owner: Uid, now: int) {
    n.ownerId == owner && Visible(n, now)
  }

  /** The position of the first note of `owner` still visible, or |statuses|. */
  function ActiveIndex(statuses: seq<Note>, owner: Uid, now: int): (r: nat)
    ensures r <= |statuses|
    ensures r < |statuses| ==> ActiveFor(statuses[r], owner, now)
    ensures forall j :: 0 <= j < r ==> !ActiveFor(statuses[j], owner, now)
  {
    if statuses == [] then 0
    else if ActiveFor(statuses[0], owner, now) then 0
    else 1 + ActiveIndex(statuses[1..], owner, now)
  }

  /** The first note in `statuses` owned by `owner` and still visible. */
  function ActiveNote(statuses: seq<Note>, owner: Uid, now: int): (r: Option<Note>)
    ensures r.None? <==> forall n :: n in statuses ==> !ActiveFor(n, owner, now)
    ensures r.Some? ==>
      exists i :: 0 <= i < |statuses| && statuses[i] == r.value && ActiveFor(r.value, owner, now) &&
        forall j :: 0 <= j < i ==> !ActiveFor(statuses[j], owner, now)
  {
    var i := ActiveIndex(statuses, owner, now);
    if i < |statuses| then Some(statuses[i]) else None
  }

  /** The friends' feed: the visible notes whose owner is in `friends`, in
      store order. */
  function Feed(statuses: seq<Note>, friends: seq<Uid>, now: int): (r: seq<Note>)
    ensures forall n :: n in r <==> n in statuses && n.ownerId in friends && Visible(n, now)
    ensures multiset(r) <= multiset(statuses)
    ensures forall n :: multiset(r)[n] == (if n.ownerId in friends && Visible(n, now) then multiset(statuses)[n] else 0)
  {
    FilterCount(statuses, (n: Note) => n.ownerId in friends && Visible(n, now));
    Filter(statuses, (n: Note) => n.ownerId in friends && Visible(n, now))
  }

  /** The characters `String.prototype.trim` removes: white space and line
      terminators. */
  predicate IsJsSpace(c: char) {
    || c == ' ' || c == '\t' || c == '\n' || c == '\r' || c == '\U{0B}' || c == '\U{0C}'
    || c == '\U{A0}' || c == '\U{1680}' || ('\U{2000}' <= c <= '\U{200A}')
    || c == '\U{2028}' || c == '\U{2029}' || c == '\U{202F}' || c == '\U{205F}'
    || c == '\U{3000}' || c == '\U{FEFF}'
  }

  /** `s` without its leading white space. */
  function TrimStart(s: string): (r: string)
    ensures |r| <= |s| && r == s[|s| - |r|..]
    ensures r != [] ==> !IsJsSpace(r[0])
    ensures forall i :: 0 <= i < |s| - |r| ==> IsJsSpace(s[i])
  {
    if s != [] && IsJsSpace(s[0]) then TrimStart(s[1..]) else s
  }

  /** `s` without its trailing white space. */
  function TrimEnd(s: string): (r: string)
    ensures |r| <= |s| && r == s[..|r|]
    ensures r != [] ==> !IsJsSpace(r[|r| - 1])
    ensures forall i :: |r| <= i < |s| ==> IsJsSpace(s[i])
  {
    if s != [] && IsJsSpace(s[|s| - 1]) then TrimEnd(s[..|s| - 1]) else s
  }

  /** `s.trim()`: empty exactly when s is all white space. */
  function Trim(s: string): (r: string)
    ensures r == "" <==> forall i :: 0 <= i < |s| ==> IsJsSpace(s[i])
    ensures r != "" ==> !IsJsSpace(r[0]) && !IsJsSpace(r[|r| - 1])
  {
    TrimBlank(s);
    TrimEnd(TrimStart(s))
  }

  lemma TrimBlank(s: string)
    ensures TrimEnd(TrimStart(s)) == "" <==> forall i :: 0 <= i < |s| ==> IsJsSpace(s[i])
  {
    var t := TrimStart(s);
    var r := TrimEnd(t);
    var d := |s| - |t|;
    if r == "" {
      forall i | 0 <= i < |s| ensures IsJsSpace(s[i]) {
        if i >= d {
          assert s[i] == t[i - d];
        }
      }
    } else {
      assert t[0] == r[0];
      assert s[d] == t[0];
    }
  }

  /** The component state of the home screen, over the shared store. */
  class HomeScreen {
    const db: Db
    var user: Option<Uid>
    var notes: seq<Note>
    var newNote: string
    var canPost: bool
    var activeNote: Option<Note>
    var error: Option<string>

    constructor (db: Db)
      ensures this.db == db && user == None && notes == [] && newNote == ""
      ensures canPost && activeNote == None && error == None
    {
      this.db := db;
      user := None;
      notes := [];
      newNote := "";
      canPost := true;
      activeNote := None;
      error := None;
    }

    /** Typing in the note input. */
    method EditNote(text: string)
      modifies this
      ensures newNote == text
      ensures user == old(user) && notes == old(notes) && canPost == old(canPost)
      ensures activeNote == old(activeNote) && error == old(error)
    {
      newNote := text;
    }

    /** Loading on entry, for the signed-in user `session` at time `now`. */
    method Load(session: Option<Uid>, now: int)
      modifies this
      ensures newNote == old(newNote)
      ensures session.None? ==>
        && user == old(user) && error == Some(LoadFailed)
        && canPost == old(canPost) && activeNote == old(activeNote) && notes == old(notes)
      ensures session.Some? ==> user == session
      ensures session.Some? && session.value !in db.users ==>
        && error == Some(LoadFailed)
        && canPost == old(canPost) && activeNote == old(activeNote) && notes == old(notes)
      ensures session.Some? && session.value in db.users ==>
        var data := db.users[session.value];
        var active := ActiveNote(db.statuses, session.value, now);
        var friends := Ids(data, FriendsKey);
        && error == old(error)
        && canPost == (if LastPostOf(data).Some? then CanPost(LastPostOf(data).value, now) else old(canPost))
        && activeNote == (if active.Some? then active else old(activeNote))
        && notes == (if friends != [] then Feed(db.statuses, friends, now) else old(notes))
    {
      if session.None? {
        error := Some(LoadFailed);
        return;
      }
      user := session;
      var uid := session.value;
      if uid !in db.users {
        error := Some(LoadFailed);
        return;
      }
      var data := db.users[uid];
      var friends := Ids(data, FriendsKey);
      var last := LastPostOf(data);
      if last.Some? {
        canPost := CanPost(last.value, now);
      }
      var active := ActiveNote(db.statuses, uid, now);
      if active.Some? {
        activeNote := active;
      }
      if |friends| > 0 {
        notes := Feed(db.statuses, friends, now);
      }
    }

    /** Posting the typed note at time `now`; `noteId` is the id the store gives
        the new note. Nothing happens during the cooldown or for a blank note.
        A store that rejects the note (no signed-in user, no user document, or
        an undefined nickname field) leaves an error and writes nothing. */
    method HandlePostNote(now: int, noteId: string)
      modifies this, db
      ensures db.nicknames == old(db.nicknames) && db.friendRequests == old(db.friendRequests)
      ensures user == old(user) && notes == old(notes)
      ensures !old(canPost) || Trim(old(newNote)) == "" ==>
        && db.users == old(db.users) && db.statuses == old(db.statuses)
        && newNote == old(newNote) && canPost == old(canPost)
        && activeNote == old(activeNote) && error == old(error)
      ensures old(canPost) && Trim(old(newNote)) != "" ==>
        if user.None? || user.value !in old(db.users) || NicknameKey !in old(db.users)[user.value] then
          && db.users == old(db.users) && db.statuses == old(db.statuses)
          && newNote == old(newNote) && canPost == old(canPost)
          && activeNote == old(activeNote) && error == Some(PostFailed)
        else
          var uid := user.value;
          var note := Note(noteId, old(newNote), now, uid, NicknameOf(old(db.users)[uid]));
          && db.statuses == old(db.statuses) + [note]
          && db.users == old(db.users)[uid := old(db.users)[uid][LastPostTimeKey := Time(now)]]
          && newNote == "" && !canPost && activeNote == Some(note) && error == old(error)
    {
      if !canPost || Trim(newNote) == "" {
        return;
      }
      if user.None? || user.value !in db.users || NicknameKey !in db.users[user.value] {
        error := Some(PostFailed);
        return;
      }
      Post(user.value, now, noteId);
    }

    /** The writes of an accepted post by `uid`: the note, then the last post
        time, then the screen state. */
    method Post(uid: Uid, now: int, noteId: string)
      requires uid in db.users
      modifies this, db
      ensures db.nicknames == old(db.nicknames) && db.friendRequests == old(db.friendRequests)
      ensures user == old(user) && notes == old(notes) && error == old(error)
      ensures var note := Note(noteId, old(newNote), now, uid, NicknameOf(old(db.users)[uid]));
        && db.statuses == old(db.statuses) + [note]
        && db.users == old(db.users)[uid := old(db.users)[uid][LastPostTimeKey := Time(now)]]
        && newNote == "" && !canPost && activeNote == Some(note)
    {
      var note := Note(noteId, newNote, now, uid, NicknameOf(db.users[uid]));
      db.statuses := db.statuses + [note];
      db.users := db.users[uid := db.users[uid][LastPostTimeKey := Time(now)]];
      newNote := "";
      canPost := false;
      activeNote := Some(note);
    }
  }

  /** A post at time t blocks the next one for exactly six hours: a later load
      computes `canPost` as false for every now < t + 6 h and true from then on.
      The poster's earlier notes are at least six hours older than t (the
      cooldown saw to that), so over the same span the new note is the poster's
      active note. */
  lemma PostStartsCooldown(users: map<Uid, Doc>, statuses: seq<Note>, uid: Uid, note: Note, now: int)
    requires uid in users && note.ownerId == uid && note.createdAt <= now
    requires forall n :: n in statuses && n.ownerId == uid ==> n.createdAt + WindowMs <= note.createdAt
    ensures var posted := users[uid := users[uid][LastPostTimeKey := Time(note.createdAt)]];
      && LastPostOf(posted[uid]) == Some(note.createdAt)
      && (CanPost(LastPostOf(posted[uid]).value, now) <==> now >= note.createdAt + WindowMs)
      && (now < note.createdAt + WindowMs ==> ActiveNote(statuses + [note], uid, now) == Some(note))
  {
    var s := statuses + [note];
    if now < note.createdAt + WindowMs {
      forall j | 0 <= j < |statuses| ensures !ActiveFor(s[j], uid, now) {
        assert s[j] == statuses[j] && statuses[j] in statuses;
      }
      var i := ActiveIndex(s, uid, now);
      assert ActiveFor(s[|statuses|], uid, now);
      assert i == |statuses|;
    }
  }
}
