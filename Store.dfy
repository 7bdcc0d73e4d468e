/** The document store the screens talk to, reduced to maps and sequences.

    A user document is a map from field names to values, so that merge writes
    (`setDoc(..., {merge: true})`) are map unions and a misspelled field name is
    simply another key. `arrayUnion` and `arrayRemove` are the only list updates
    the screens issue; they behave as set-add and set-remove. */
module Store {

  type Uid = string

  datatype Option<T> = None | Some(value: T)

  /** A field value of a user document. */
  datatype Value = IdList(ids: seq<Uid>) | Text(s: string) | Time(ms: int)

  /** A field name of a user document: the five fields the core reads and writes
      (`friends`, `friendRequestsSent`, `friendRequestsReceived`, `nickname`,
      `lastPostTime`), and any other name. */
  datatype Key =
    | FriendsKey
    | SentKey
    | ReceivedKey
    | NicknameKey
    | LastPostTimeKey
    | OtherKey(name: string)

  /** The field name as stored. */
  function KeyName(k: Key): string {
    match k
    case FriendsKey => "friends"
    case SentKey => "friendRequestsSent"
    case ReceivedKey => "friendRequestsReceived"
    case NicknameKey => "nickname"
    case LastPostTimeKey => "lastPostTime"
    case OtherKey(name) => name
  }

  type Doc = map<Key, Value>

  /** The stored names of the five fields that have keys of their own. */
  predicate Reserved(name: string) {
    name in {"friends", "friendRequestsSent", "friendRequestsReceived", "nickname", "lastPostTime"}
  }

  /** A document in which no `OtherKey` spells one of the five field names, so
      that each stored field has exactly one key. */
  predicate WellKeyed(doc: Doc) {
    forall k :: k in doc && k.OtherKey? ==> !Reserved(k.name)
  }

  /** In a well-keyed document two keys with the same stored name are one key. */
  lemma WellKeyedNames(doc: Doc)
    requires WellKeyed(doc)
    ensures forall k1, k2 :: k1 in doc && k2 in doc && KeyName(k1) == KeyName(k2) ==> k1 == k2
  {
    forall k1, k2 | k1 in doc && k2 in doc && KeyName(k1) == KeyName(k2) ensures k1 == k2 {
      if k1.OtherKey? {
        assert !Reserved(k1.name);
      }
      if k2.OtherKey? {
        assert !Reserved(k2.name);
      }
    }
  }

  /** Every user document is well-keyed. */
  predicate AllWellKeyed(users: map<Uid, Doc>) {
    forall a :: a in users ==> WellKeyed(users[a])
  }

  /** Writing a field that has a key of its own keeps a document well-keyed;
      the list writes, the nickname merge and the post time stamp are such
      writes. */
  lemma NamedWriteKeepsWellKeyed(users: map<Uid, Doc>, uid: Uid, doc: Doc, k: Key, v: Value)
    requires AllWellKeyed(users) && WellKeyed(doc) && !k.OtherKey?
    ensures WellKeyed(doc[k := v])
    ensures AllWellKeyed(users[uid := doc[k := v]])
  {
  }

  /** A merge write of well-keyed updates keeps a document well-keyed. */
  lemma WriteKeepsWellKeyed(doc: Doc, updates: Doc)
    requires WellKeyed(doc) && WellKeyed(updates)
    ensures WellKeyed(doc + updates)
  {
  }

  /** JavaScript truthiness of a stored value: every array and every date is
      truthy, a string only when it is not empty. */
  predicate Truthy(v: Value) {
    match v
    case IdList(_) => true
    case Text(s) => s != ""
    case Time(_) => true
  }

  /** `doc.key` is truthy (the test `if (userData.key)`). */
  predicate Has(doc: Doc, key: Key) {
    key in doc && Truthy(doc[key])
  }

  /** `doc.key || []` for a list field. */
  function Ids(doc: Doc, key: Key): seq<Uid> {
    if key in doc && doc[key].IdList? then doc[key].ids else []
  }

  /** `doc.key?.includes(x)`. */
  predicate Lists(doc: Doc, key: Key, x: Uid) {
    x in Ids(doc, key)
  }

  /** `doc.nickname` when it holds a string. */
  function NicknameOf(doc: Doc): Option<string> {
    if NicknameKey in doc && doc[NicknameKey].Text? then Some(doc[NicknameKey].s) else None
  }

  /** `doc.lastPostTime` when it holds a date, in milliseconds. */
  function LastPostOf(doc: Doc): Option<int> {
    if LastPostTimeKey in doc && doc[LastPostTimeKey].Time? then Some(doc[LastPostTimeKey].ms) else None
  }

  predicate NoDup(s: seq<Uid>) {
    forall i, j :: 0 <= i < j < |s| ==> s[i] != s[j]
  }

  /** Firestore `arrayUnion(x)`: appends x unless it is already present. */
  function ArrayUnion(s: seq<Uid>, x: Uid): (r: seq<Uid>)
    ensures forall y :: y in r <==> y in s || y == x
    ensures x in s ==> r == s
    ensures x !in s ==> |r| == |s| + 1
    ensures NoDup(s) ==> NoDup(r)
  {
    if x in s then s else s + [x]
  }

  /** Firestore `arrayRemove(x)`: removes every occurrence of x. */
  function ArrayRemove(s: seq<Uid>, x: Uid): (r: seq<Uid>)
    ensures forall y :: y in r <==> y in s && y != x
    ensures x !in s ==> r == s
    ensures |r| <= |s|
    ensures NoDup(s) ==> NoDup(r)
  {
    if s == [] then []
    else
      NoDupCons(s[0], s[1..]);
      assert s == [s[0]] + s[1..];
      var rest := ArrayRemove(s[1..], x);
      if s[0] == x then rest
      else NoDupCons(s[0], rest); [s[0]] + rest
  }

  lemma NoDupCons(a: Uid, t: seq<Uid>)
    ensures NoDup([a] + t) <==> a !in t && NoDup(t)
  {
    var s := [a] + t;
    if a in t {
      var k :| 0 <= k < |t| && t[k] == a;
      assert s[0] == s[k + 1];
    }
    if NoDup(s) {
      forall i, j | 0 <= i < j < |t| ensures t[i] != t[j] {
        assert s[i + 1] != s[j + 1];
      }
    }
  }

  /** `updateDoc(ref, {key: arrayUnion(x)})` applied to one document. */
  function AddId(doc: Doc, key: Key, x: Uid): (r: Doc)
    ensures r.Keys == doc.Keys + {key} && r[key].IdList?
  {
    doc[key := IdList(ArrayUnion(Ids(doc, key), x))]
  }

  /** `updateDoc(ref, {key: arrayRemove(x)})` applied to one document. */
  function RemoveId(doc: Doc, key: Key, x: Uid): (r: Doc)
    ensures r.Keys == doc.Keys + {key} && r[key].IdList?
  {
    doc[key := IdList(ArrayRemove(Ids(doc, key), x))]
  }

  /** A union adds x to the list under key and changes no other field. */
  lemma AddIdEffect(doc: Doc, key: Key, x: Uid)
    ensures var r := AddId(doc, key, x);
      && (forall k, y :: Lists(r, k, y) <==> Lists(doc, k, y) || (k == key && y == x))
      && (forall k :: k in doc && k != key ==> r[k] == doc[k])
  {
  }

  /** A removal takes x out of the list under key and changes no other field. */
  lemma RemoveIdEffect(doc: Doc, key: Key, x: Uid)
    ensures var r := RemoveId(doc, key, x);
      && (forall k, y :: Lists(r, k, y) <==> Lists(doc, k, y) && !(k == key && y == x))
      && (forall k :: k in doc && k != key ==> r[k] == doc[k])
  {
  }

  /** A union of an id the list already holds leaves the document as it is. */
  lemma AddIdAgain(doc: Doc, key: Key, x: Uid)
    requires Lists(doc, key, x)
    ensures AddId(doc, key, x) == doc
  {
    assert doc[key] == IdList(Ids(doc, key));
  }

  /** A removal of an id a list field does not hold leaves the document as it is. */
  lemma RemoveIdAgain(doc: Doc, key: Key, x: Uid)
    requires key in doc && doc[key].IdList? && !Lists(doc, key, x)
    ensures RemoveId(doc, key, x) == doc
  {
    assert doc[key] == IdList(Ids(doc, key));
  }

  /** A stored note (a document of the `statuses` collection). */
  datatype Note = Note(id: string, text: string, createdAt: int, ownerId: Uid, nickname: Option<string>)

  /** A document of the separate `friendRequestsSent` collection. */
  datatype FriendRequest = FriendRequest(from: Uid, to: Uid, createdAt: int)

  /** `{ id: uid, ...data }`: a user id together with the fields of its document
      (no fields when the document does not exist). */
  datatype UserView = UserView(id: Uid, data: Doc)

  /** `getDoc(users/id).data()` spread into an object: the empty object when absent. */
  function DataOf(users: map<Uid, Doc>, id: Uid): Doc {
    if id in users then users[id] else map[]
  }

  /** `Array.prototype.filter`: keeps, in order, the elements satisfying p. */
  function Filter<T(!new)>(s: seq<T>, p: T -> bool): (r: seq<T>)
    ensures forall x :: x in r <==> x in s && p(x)
    ensures |r| <= |s|
    ensures multiset(r) <= multiset(s)
  {
    if s == [] then []
    else
      assert s == [s[0]] + s[1..];
      (if p(s[0]) then [s[0]] else []) + Filter(s[1..], p)
  }

  /** `filter` keeps every copy of an element that satisfies p and no copy of
      one that does not. */
  lemma {:induction false} FilterCount<T(!new)>(s: seq<T>, p: T -> bool)
    ensures forall x :: multiset(Filter(s, p))[x] == if p(x) then multiset(s)[x] else 0
  {
    if s != [] {
      FilterCount(s[1..], p);
      assert s == [s[0]] + s[1..];
    }
  }

  /** `filter` keeps the order of its input: filtering a concatenation is
      filtering each part and concatenating the results. */
  lemma {:induction false} FilterAppend<T(!new)>(a: seq<T>, b: seq<T>, p: T -> bool)
    ensures Filter(a + b, p) == Filter(a, p) + Filter(b, p)
  {
    if a != [] {
      assert (a + b)[0] == a[0];
      assert (a + b)[1..] == a[1..] + b;
      FilterAppend(a[1..], b, p);
    } else {
      assert a + b == b;
    }
  }

  /** The collections of the store the core reads and writes. */
  class Db {
    var users: map<Uid, Doc>
    var nicknames: map<string, Uid>
    var statuses: seq<Note>
    var friendRequests: seq<FriendRequest>

    constructor ()
      ensures users == map[] && nicknames == map[]
      ensures statuses == [] && friendRequests == []
    {
      users := map[];
      nicknames := map[];
      statuses := [];
      friendRequests := [];
    }
  }
}
