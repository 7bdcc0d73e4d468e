/** The friend relationship between two users, as the screens derive and change it.

    Each user document holds three id lists: `friends`, `friendRequestsSent` and
    `friendRequestsReceived`. A status is derived from the viewer's lists alone;
    every transition is two `updateDoc` calls, one on each side, made one after
    the other. `updateDoc` fails on a document that does not exist, and then the
    writes after it are not made. */
module Relationship {
  import opened Store

  /** The status a screen shows: 'none', 'sent', 'received' or 'friends'. */
  datatype Status = Unrelated | Sent | Received | Friends

  /** The status the viewer's document gives for `other`: friends is checked
      first, then sent, then received. */
  function StatusOf(doc: Doc, other: Uid): (s: Status)
    ensures s == Friends <==> Lists(doc, FriendsKey, other)
    ensures s == Sent <==> !Lists(doc, FriendsKey, other) && Lists(doc, SentKey, other)
    ensures s == Received <==>
      !Lists(doc, FriendsKey, other) && !Lists(doc, SentKey, other) && Lists(doc, ReceivedKey, other)
    ensures s == Unrelated <==>
      !Lists(doc, FriendsKey, other) && !Lists(doc, SentKey, other) && !Lists(doc, ReceivedKey, other)
  {
    if Lists(doc, FriendsKey, other) then Friends
    else if Lists(doc, SentKey, other) then Sent
    else if Lists(doc, ReceivedKey, other) then Received
    else Unrelated
  }

  /** The user documents after a dual write, and whether both writes were made. */
  datatype Written = Written(users: map<Uid, Doc>, ok: bool)

  /** Sending a request: viewer.friendRequestsSent gets target, then
      target.friendRequestsReceived gets viewer. */
  function Send(users: map<Uid, Doc>, viewer: Uid, target: Uid): (w: Written)
    ensures w.users.Keys == users.Keys
    ensures w.ok <==> viewer in users && target in users
    ensures forall a :: a in users && a != viewer && a != target ==> w.users[a] == users[a]
  {
    if viewer !in users then Written(users, false)
    else
      var u1 := users[viewer := AddId(users[viewer], SentKey, target)];
      if target !in u1 then Written(u1, false)
      else Written(u1[target := AddId(u1[target], ReceivedKey, viewer)], true)
  }

  /** Accepting the request of `requester`: the viewer gains requester as a friend
      and loses the received request, then the requester gains the viewer as a
      friend and loses the sent request. */
  function Accept(users: map<Uid, Doc>, viewer: Uid, requester: Uid): (w: Written)
    ensures w.users.Keys == users.Keys
    ensures w.ok <==> viewer in users && requester in users
    ensures forall a :: a in users && a != viewer && a != requester ==> w.users[a] == users[a]
  {
    if viewer !in users then Written(users, false)
    else
      var u1 := users[viewer := Befriend(users[viewer], requester, ReceivedKey)];
      if requester !in u1 then Written(u1, false)
      else Written(u1[requester := Befriend(u1[requester], viewer, SentKey)], true)
  }

  /** One side of an accept, a single `updateDoc` with two fields: `other` joins
      the friends list and leaves the pending list `pending`. */
  function Befriend(doc: Doc, other: Uid, pending: Key): (r: Doc)
    ensures r.Keys == doc.Keys + {FriendsKey, pending}
    ensures r[FriendsKey].IdList? && r[pending].IdList?
  {
    RemoveId(AddId(doc, FriendsKey, other), pending, other)
  }

  /** One side of an accept adds exactly the friends entry and removes exactly
      the pending entry. */
  lemma BefriendEffect(doc: Doc, other: Uid, pending: Key)
    requires pending != FriendsKey
    ensures forall k, y :: Lists(Befriend(doc, other, pending), k, y) <==>
      (Lists(doc, k, y) && !(k == pending && y == other)) || (k == FriendsKey && y == other)
    ensures forall k :: k in doc && k != FriendsKey && k != pending ==> Befriend(doc, other, pending)[k] == doc[k]
  {
    AddIdEffect(doc, FriendsKey, other);
    RemoveIdEffect(AddId(doc, FriendsKey, other), pending, other);
  }

  /** A side that already lists `other` as a friend and has no pending entry for
      them is left as it is. */
  lemma BefriendAgain(doc: Doc, other: Uid, pending: Key)
    requires pending != FriendsKey
    requires Lists(doc, FriendsKey, other) && pending in doc && doc[pending].IdList? && !Lists(doc, pending, other)
    ensures Befriend(doc, other, pending) == doc
  {
    AddIdAgain(doc, FriendsKey, other);
    RemoveIdAgain(doc, pending, other);
  }

  /** Declining the request of `requester`: the viewer loses the received request,
      then the requester loses the sent request. */
  function Decline(users: map<Uid, Doc>, viewer: Uid, requester: Uid): (w: Written)
    ensures w.users.Keys == users.Keys
    ensures w.ok <==> viewer in users && requester in users
    ensures forall a :: a in users && a != viewer && a != requester ==> w.users[a] == users[a]
  {
    if viewer !in users then Written(users, false)
    else
      var u1 := users[viewer := RemoveId(users[viewer], ReceivedKey, requester)];
      if requester !in u1 then Written(u1, false)
      else Written(u1[requester := RemoveId(u1[requester], SentKey, viewer)], true)
  }

  /** Adding a friend directly, with no request: each side's friends list gets
      the other. */
  function AddFriend(users: map<Uid, Doc>, viewer: Uid, target: Uid): (w: Written)
    ensures w.users.Keys == users.Keys
    ensures w.ok <==> viewer in users && target in users
    ensures forall a :: a in users && a != viewer && a != target ==> w.users[a] == users[a]
  {
    if viewer !in users then Written(users, false)
    else
      var u1 := users[viewer := AddId(users[viewer], FriendsKey, target)];
      if target !in u1 then Written(u1, false)
      else Written(u1[target := AddId(u1[target], FriendsKey, viewer)], true)
  }

  /** Every field a send does not write keeps its value: the viewer's sent list and the target's received list are
      the only fields it touches. */
  lemma SendKeepsOtherFields(users: map<Uid, Doc>, viewer: Uid, target: Uid, a: Uid, k: Key)
    requires a in users
    requires !(a == viewer && k == SentKey) && !(a == target && k == ReceivedKey)
    ensures var w := Send(users, viewer, target);
      && (k in w.users[a] <==> k in users[a])
      && (k in users[a] ==> w.users[a][k] == users[a][k])
  {
    var w := Send(users, viewer, target);
    if viewer !in users {
      return;
    }
    var v1 := AddId(users[viewer], SentKey, target);
    AddIdEffect(users[viewer], SentKey, target);
    var u1 := users[viewer := v1];
    if target !in users {
      assert w.users == u1;
      return;
    }
    var v2 := AddId(u1[target], ReceivedKey, viewer);
    AddIdEffect(u1[target], ReceivedKey, viewer);
    assert w.users == u1[target := v2];
  }

  /** After a send, a's list k names b exactly when it did before or the send
      added that entry; nothing is removed. */
  lemma SendMembership(users: map<Uid, Doc>, viewer: Uid, target: Uid, a: Uid, k: Key, b: Uid)
    requires a in users
    ensures var w := Send(users, viewer, target);
      Lists(w.users[a], k, b) <==>
        || Lists(users[a], k, b)
        || (viewer in users && a == viewer && k == SentKey && b == target)
        || (w.ok && a == target && k == ReceivedKey && b == viewer)
  {
    var w := Send(users, viewer, target);
    if viewer !in users {
      return;
    }
    var v1 := AddId(users[viewer], SentKey, target);
    AddIdEffect(users[viewer], SentKey, target);
    assert Lists(v1, k, b) <==> Lists(users[viewer], k, b) || (k == SentKey && b == target);
    var u1 := users[viewer := v1];
    if target !in users {
      assert w.users == u1;
      return;
    }
    var v2 := AddId(u1[target], ReceivedKey, viewer);
    AddIdEffect(u1[target], ReceivedKey, viewer);
    assert Lists(v2, k, b) <==> Lists(u1[target], k, b) || (k == ReceivedKey && b == viewer);
    assert w.users == u1[target := v2];
  }

  /** After an accept, a's list k names b exactly when it did before and the
      accept did not remove that entry, or the accept added it. */
  lemma AcceptMembership(users: map<Uid, Doc>, viewer: Uid, requester: Uid, a: Uid, k: Key, b: Uid)
    requires a in users
    ensures var w := Accept(users, viewer, requester);
      Lists(w.users[a], k, b) <==>
        || (&& Lists(users[a], k, b)
            && !(viewer in users && a == viewer && k == ReceivedKey && b == requester)
            && !(w.ok && a == requester && k == SentKey && b == viewer))
        || (viewer in users && a == viewer && k == FriendsKey && b == requester)
        || (w.ok && a == requester && k == FriendsKey && b == viewer)
  {
    var w := Accept(users, viewer, requester);
    if viewer !in users {
      return;
    }
    var v1 := Befriend(users[viewer], requester, ReceivedKey);
    BefriendEffect(users[viewer], requester, ReceivedKey);
    var u1 := users[viewer := v1];
    if requester !in users {
      assert w.users == u1;
      return;
    }
    var v2 := Befriend(u1[requester], viewer, SentKey);
    BefriendEffect(u1[requester], viewer, SentKey);
    assert w.users == u1[requester := v2];
  }

  /** Every field an accept does not write keeps its value: the viewer's
      friends and received lists and the requester's friends and sent lists are
      the only fields it touches. */
  lemma AcceptKeepsOtherFields(users: map<Uid, Doc>, viewer: Uid, requester: Uid, a: Uid, k: Key)
    requires a in users
    requires !(a == viewer && (k == FriendsKey || k == ReceivedKey))
    requires !(a == requester && (k == FriendsKey || k == SentKey))
    ensures var w := Accept(users, viewer, requester);
      && (k in w.users[a] <==> k in users[a])
      && (k in users[a] ==> w.users[a][k] == users[a][k])
  {
    var w := Accept(users, viewer, requester);
    if viewer !in users {
      return;
    }
    var v1 := Befriend(users[viewer], requester, ReceivedKey);
    BefriendEffect(users[viewer], requester, ReceivedKey);
    var u1 := users[viewer := v1];
    if requester !in users {
      assert w.users == u1;
      return;
    }
    var v2 := Befriend(u1[requester], viewer, SentKey);
    BefriendEffect(u1[requester], viewer, SentKey);
    assert w.users == u1[requester := v2];
  }

  /** Every field a decline does not write keeps its value: the viewer's received list and the requester's sent list are
      the only fields it touches. */
  lemma DeclineKeepsOtherFields(users: map<Uid, Doc>, viewer: Uid, requester: Uid, a: Uid, k: Key)
    requires a in users
    requires !(a == viewer && k == ReceivedKey) && !(a == requester && k == SentKey)
    ensures var w := Decline(users, viewer, requester);
      && (k in w.users[a] <==> k in users[a])
      && (k in users[a] ==> w.users[a][k] == users[a][k])
  {
    var w := Decline(users, viewer, requester);
    if viewer !in users {
      return;
    }
    var v1 := RemoveId(users[viewer], ReceivedKey, requester);
    RemoveIdEffect(users[viewer], ReceivedKey, requester);
    var u1 := users[viewer := v1];
    if requester !in users {
      assert w.users == u1;
      return;
    }
    var v2 := RemoveId(u1[requester], SentKey, viewer);
    RemoveIdEffect(u1[requester], SentKey, viewer);
    assert w.users == u1[requester := v2];
  }

  /** After a decline, a's list k names b exactly when it did before and the
      decline did not remove that entry; nothing is added. */
  lemma DeclineMembership(users: map<Uid, Doc>, viewer: Uid, requester: Uid, a: Uid, k: Key, b: Uid)
    requires a in users
    ensures var w := Decline(users, viewer, requester);
      Lists(w.users[a], k, b) <==>
        && Lists(users[a], k, b)
        && !(viewer in users && a == viewer && k == ReceivedKey && b == requester)
        && !(w.ok && a == requester && k == SentKey && b == viewer)
  {
    var w := Decline(users, viewer, requester);
    if viewer !in users {
      return;
    }
    var v1 := RemoveId(users[viewer], ReceivedKey, requester);
    RemoveIdEffect(users[viewer], ReceivedKey, requester);
    assert Lists(v1, k, b) <==> Lists(users[viewer], k, b) && !(k == ReceivedKey && b == requester);
    var u1 := users[viewer := v1];
    if requester !in users {
      assert w.users == u1;
      return;
    }
    var v2 := RemoveId(u1[requester], SentKey, viewer);
    RemoveIdEffect(u1[requester], SentKey, viewer);
    assert Lists(v2, k, b) <==> Lists(u1[requester], k, b) && !(k == SentKey && b == viewer);
    assert w.users == u1[requester := v2];
  }

  /** Every field a direct add does not write keeps its value: the two friends lists are
      the only fields it touches. */
  lemma AddFriendKeepsOtherFields(users: map<Uid, Doc>, viewer: Uid, target: Uid, a: Uid, k: Key)
    requires a in users
    requires !((a == viewer || a == target) && k == FriendsKey)
    ensures var w := AddFriend(users, viewer, target);
      && (k in w.users[a] <==> k in users[a])
      && (k in users[a] ==> w.users[a][k] == users[a][k])
  {
    var w := AddFriend(users, viewer, target);
    if viewer !in users {
      return;
    }
    var v1 := AddId(users[viewer], FriendsKey, target);
    AddIdEffect(users[viewer], FriendsKey, target);
    var u1 := users[viewer := v1];
    if target !in users {
      assert w.users == u1;
      return;
    }
    var v2 := AddId(u1[target], FriendsKey, viewer);
    AddIdEffect(u1[target], FriendsKey, viewer);
    assert w.users == u1[target := v2];
  }

  /** After a direct add, a's list k names b exactly when it did before or the
      add put that entry in a friends list. */
  lemma AddFriendMembership(users: map<Uid, Doc>, viewer: Uid, target: Uid, a: Uid, k: Key, b: Uid)
    requires a in users
    ensures var w := AddFriend(users, viewer, target);
      Lists(w.users[a], k, b) <==>
        || Lists(users[a], k, b)
        || (viewer in users && a == viewer && k == FriendsKey && b == target)
        || (w.ok && a == target && k == FriendsKey && b == viewer)
  {
    var w := AddFriend(users, viewer, target);
    if viewer !in users {
      return;
    }
    var v1 := AddId(users[viewer], FriendsKey, target);
    AddIdEffect(users[viewer], FriendsKey, target);
    assert Lists(v1, k, b) <==> Lists(users[viewer], k, b) || (k == FriendsKey && b == target);
    var u1 := users[viewer := v1];
    if target !in users {
      assert w.users == u1;
      return;
    }
    var v2 := AddId(u1[target], FriendsKey, viewer);
    AddIdEffect(u1[target], FriendsKey, viewer);
    assert Lists(v2, k, b) <==> Lists(u1[target], k, b) || (k == FriendsKey && b == viewer);
    assert w.users == u1[target := v2];
  }

  /** The transitions write only the three list fields, so each keeps every
      document well-keyed. */
  lemma SendKeepsWellKeyed(users: map<Uid, Doc>, viewer: Uid, target: Uid)
    requires AllWellKeyed(users)
    ensures AllWellKeyed(Send(users, viewer, target).users)
  {
  }

  lemma AcceptKeepsWellKeyed(users: map<Uid, Doc>, viewer: Uid, requester: Uid)
    requires AllWellKeyed(users)
    ensures AllWellKeyed(Accept(users, viewer, requester).users)
  {
  }

  lemma DeclineKeepsWellKeyed(users: map<Uid, Doc>, viewer: Uid, requester: Uid)
    requires AllWellKeyed(users)
    ensures AllWellKeyed(Decline(users, viewer, requester).users)
  {
  }

  lemma AddFriendKeepsWellKeyed(users: map<Uid, Doc>, viewer: Uid, target: Uid)
    requires AllWellKeyed(users)
    ensures AllWellKeyed(AddFriend(users, viewer, target).users)
  {
  }

  /** Each pending request and each friendship is recorded on both sides. */
  ghost predicate Mirrored(users: map<Uid, Doc>) {
    forall a, b :: a in users && b in users ==>
      && (Lists(users[a], SentKey, b) <==> Lists(users[b], ReceivedKey, a))
      && (Lists(users[a], FriendsKey, b) <==> Lists(users[b], FriendsKey, a))
  }

  /** For each pair, at most one of the three lists of a names b, and nobody
      names itself. */
  ghost predicate Exclusive(users: map<Uid, Doc>) {
    forall a, b :: a in users && b in users ==>
      && (a == b ==> StatusOf(users[a], b) == Unrelated)
      && !(Lists(users[a], FriendsKey, b) && Lists(users[a], SentKey, b))
      && !(Lists(users[a], FriendsKey, b) && Lists(users[a], ReceivedKey, b))
      && !(Lists(users[a], SentKey, b) && Lists(users[a], ReceivedKey, b))
  }

  /** The data invariant of the relationship graph. */
  ghost predicate Consistent(users: map<Uid, Doc>) {
    Mirrored(users) && Exclusive(users)
  }

  /** Every transition keeps both sides of each request and each friendship in
      step, also one that stops half-way because the other user's document does
      not exist (the mirror relates existing documents only). */
  lemma SendKeepsMirrored(users: map<Uid, Doc>, viewer: Uid, target: Uid)
    requires Mirrored(users)
    ensures Mirrored(Send(users, viewer, target).users)
  {
    var w := Send(users, viewer, target);
    forall a, b | a in w.users && b in w.users
      ensures Lists(w.users[a], SentKey, b) <==> Lists(w.users[b], ReceivedKey, a)
      ensures Lists(w.users[a], FriendsKey, b) <==> Lists(w.users[b], FriendsKey, a)
    {
      SendMembership(users, viewer, target, a, SentKey, b);
      SendMembership(users, viewer, target, b, ReceivedKey, a);
      SendMembership(users, viewer, target, a, FriendsKey, b);
      SendMembership(users, viewer, target, b, FriendsKey, a);
    }
  }

  lemma AcceptKeepsMirrored(users: map<Uid, Doc>, viewer: Uid, requester: Uid)
    requires Mirrored(users)
    ensures Mirrored(Accept(users, viewer, requester).users)
  {
    var w := Accept(users, viewer, requester);
    forall a, b | a in w.users && b in w.users
      ensures Lists(w.users[a], SentKey, b) <==> Lists(w.users[b], ReceivedKey, a)
      ensures Lists(w.users[a], FriendsKey, b) <==> Lists(w.users[b], FriendsKey, a)
    {
      AcceptMembership(users, viewer, requester, a, SentKey, b);
      AcceptMembership(users, viewer, requester, b, ReceivedKey, a);
      AcceptMembership(users, viewer, requester, a, FriendsKey, b);
      AcceptMembership(users, viewer, requester, b, FriendsKey, a);
    }
  }

  lemma DeclineKeepsMirrored(users: map<Uid, Doc>, viewer: Uid, requester: Uid)
    requires Mirrored(users)
    ensures Mirrored(Decline(users, viewer, requester).users)
  {
    var w := Decline(users, viewer, requester);
    forall a, b | a in w.users && b in w.users
      ensures Lists(w.users[a], SentKey, b) <==> Lists(w.users[b], ReceivedKey, a)
      ensures Lists(w.users[a], FriendsKey, b) <==> Lists(w.users[b], FriendsKey, a)
    {
      DeclineMembership(users, viewer, requester, a, SentKey, b);
      DeclineMembership(users, viewer, requester, b, ReceivedKey, a);
      DeclineMembership(users, viewer, requester, a, FriendsKey, b);
      DeclineMembership(users, viewer, requester, b, FriendsKey, a);
    }
  }

  lemma AddFriendKeepsMirrored(users: map<Uid, Doc>, viewer: Uid, target: Uid)
    requires Mirrored(users)
    ensures Mirrored(AddFriend(users, viewer, target).users)
  {
    var w := AddFriend(users, viewer, target);
    forall a, b | a in w.users && b in w.users
      ensures Lists(w.users[a], SentKey, b) <==> Lists(w.users[b], ReceivedKey, a)
      ensures Lists(w.users[a], FriendsKey, b) <==> Lists(w.users[b], FriendsKey, a)
    {
      AddFriendMembership(users, viewer, target, a, SentKey, b);
      AddFriendMembership(users, viewer, target, b, ReceivedKey, a);
      AddFriendMembership(users, viewer, target, a, FriendsKey, b);
      AddFriendMembership(users, viewer, target, b, FriendsKey, a);
    }
  }

  /** Repeating a send changes nothing more. */
  lemma SendIdempotent(users: map<Uid, Doc>, viewer: Uid, target: Uid)
    ensures Send(Send(users, viewer, target).users, viewer, target) == Send(users, viewer, target)
  {
    var w := Send(users, viewer, target);
    if viewer in users {
      SendMembership(users, viewer, target, viewer, SentKey, target);
      AddIdAgain(w.users[viewer], SentKey, target);
      assert w.users[viewer := AddId(w.users[viewer], SentKey, target)] == w.users;
      if target in users {
        SendMembership(users, viewer, target, target, ReceivedKey, viewer);
        AddIdAgain(w.users[target], ReceivedKey, viewer);
      }
    }
  }

  /** Repeating an accept changes nothing more. */
  lemma AcceptIdempotent(users: map<Uid, Doc>, viewer: Uid, requester: Uid)
    ensures Accept(Accept(users, viewer, requester).users, viewer, requester) == Accept(users, viewer, requester)
  {
    if viewer !in users {
      return;
    }
    var v1 := Befriend(users[viewer], requester, ReceivedKey);
    var u1 := users[viewer := v1];
    BefriendTwice(users[viewer], requester, ReceivedKey);
    if requester !in users {
      assert Accept(users, viewer, requester) == Written(u1, false);
      SameUpdate(u1, viewer, v1);
      assert Accept(u1, viewer, requester) == Written(u1[viewer := Befriend(v1, requester, ReceivedKey)], false);
    } else if requester == viewer {
      AcceptSelfIdempotent(users, viewer);
    } else {
      var v2 := Befriend(users[requester], viewer, SentKey);
      BefriendTwice(users[requester], viewer, SentKey);
      var u2 := u1[requester := v2];
      assert Accept(users, viewer, requester) == Written(u2, true);
      assert u2[viewer] == v1 && u2[requester] == v2;
      SameUpdate(u2, viewer, v1);
      SameUpdate(u2, requester, v2);
      assert Accept(u2, viewer, requester) == Written(u2[viewer := v1][requester := v2], true);
    }
  }

  /** Accepting oneself, twice, acts once: both sides are the one document. */
  lemma AcceptSelfIdempotent(users: map<Uid, Doc>, x: Uid)
    requires x in users
    ensures Accept(Accept(users, x, x).users, x, x) == Accept(users, x, x)
  {
    var b1 := Befriend(users[x], x, ReceivedKey);
    var d := Befriend(b1, x, SentKey);
    var u1 := users[x := b1];
    assert u1[x] == b1;
    UpdateTwice(users, x, b1, d);
    assert Accept(users, x, x) == Written(users[x := d], true);
    var u := users[x := d];
    var e1 := Befriend(d, x, ReceivedKey);
    var ux := u[x := e1];
    assert ux[x] == e1;
    BefriendSelfTwice(users[x], x);
    assert Befriend(e1, x, SentKey) == d;
    UpdateTwice(u, x, e1, d);
    SameUpdate(u, x, d);
    assert Accept(u, x, x) == Written(ux[x := Befriend(e1, x, SentKey)], true);
  }

  /** Two writes to the same key: the second one wins. */
  lemma UpdateTwice<K, V>(m: map<K, V>, k: K, a: V, b: V)
    ensures m[k := a][k := b] == m[k := b]
  {
  }

  /** Writing back the value a key already holds leaves a map as it is. */
  lemma SameUpdate<K, V>(m: map<K, V>, k: K, v: V)
    requires k in m && m[k] == v
    ensures m[k := v] == m
  {
  }

  /** One side of an accept, applied twice, acts once. */
  lemma BefriendTwice(doc: Doc, other: Uid, pending: Key)
    requires pending != FriendsKey
    ensures var d := Befriend(doc, other, pending); Befriend(d, other, pending) == d
  {
    BefriendEffect(doc, other, pending);
    BefriendAgain(Befriend(doc, other, pending), other, pending);
  }

  /** Both sides of a self-accept, applied twice to the one document, act once. */
  lemma BefriendSelfTwice(doc: Doc, x: Uid)
    ensures var d := Befriend(Befriend(doc, x, ReceivedKey), x, SentKey);
      Befriend(Befriend(d, x, ReceivedKey), x, SentKey) == d
  {
    var d1 := Befriend(doc, x, ReceivedKey);
    var d := Befriend(d1, x, SentKey);
    BefriendEffect(doc, x, ReceivedKey);
    BefriendEffect(d1, x, SentKey);
    assert d[ReceivedKey] == d1[ReceivedKey];
    BefriendAgain(d, x, ReceivedKey);
    BefriendAgain(d, x, SentKey);
  }

  /** Repeating a decline changes nothing more. */
  lemma DeclineIdempotent(users: map<Uid, Doc>, viewer: Uid, requester: Uid)
    ensures Decline(Decline(users, viewer, requester).users, viewer, requester) == Decline(users, viewer, requester)
  {
    var w := Decline(users, viewer, requester);
    if viewer in users {
      var d := w.users[viewer];
      DeclineMembership(users, viewer, requester, viewer, ReceivedKey, requester);
      assert ReceivedKey in d && d[ReceivedKey].IdList? by {
        if requester in users && requester == viewer {
          var d1 := RemoveId(users[viewer], ReceivedKey, requester);
          assert d == RemoveId(d1, SentKey, viewer);
        }
      }
      RemoveIdAgain(d, ReceivedKey, requester);
      assert w.users[viewer := RemoveId(d, ReceivedKey, requester)] == w.users;
      if requester in users {
        DeclineMembership(users, viewer, requester, requester, SentKey, viewer);
        RemoveIdAgain(w.users[requester], SentKey, viewer);
      }
    }
  }

  /** Sending to someone the viewer shows as 'none' keeps the graph consistent;
      afterwards the viewer shows 'sent' and the target shows 'received'. */
  lemma SendFromUnrelated(users: map<Uid, Doc>, viewer: Uid, target: Uid)
    requires Consistent(users)
    requires viewer in users && target in users && viewer != target
    requires StatusOf(users[viewer], target) == Unrelated
    ensures var w := Send(users, viewer, target);
      && Consistent(w.users)
      && StatusOf(w.users[viewer], target) == Sent
      && StatusOf(w.users[target], viewer) == Received
  {
    var w := Send(users, viewer, target);
    SendKeepsMirrored(users, viewer, target);
    forall a, b | a in w.users && b in w.users
      ensures && (a == b ==> StatusOf(w.users[a], b) == Unrelated)
              && !(Lists(w.users[a], FriendsKey, b) && Lists(w.users[a], SentKey, b))
              && !(Lists(w.users[a], FriendsKey, b) && Lists(w.users[a], ReceivedKey, b))
              && !(Lists(w.users[a], SentKey, b) && Lists(w.users[a], ReceivedKey, b))
    {
      SendMembership(users, viewer, target, a, FriendsKey, b);
      SendMembership(users, viewer, target, a, SentKey, b);
      SendMembership(users, viewer, target, a, ReceivedKey, b);
    }
    SendMembership(users, viewer, target, viewer, FriendsKey, target);
    SendMembership(users, viewer, target, viewer, SentKey, target);
    SendMembership(users, viewer, target, target, FriendsKey, viewer);
    SendMembership(users, viewer, target, target, SentKey, viewer);
    SendMembership(users, viewer, target, target, ReceivedKey, viewer);
  }

  /** Accepting, whether or not a request was pending, makes both sides show
      'friends', and neither side keeps the pending entry the accept removes. */
  lemma AcceptMakesFriends(users: map<Uid, Doc>, viewer: Uid, requester: Uid)
    requires viewer in users && requester in users
    ensures var w := Accept(users, viewer, requester);
      && StatusOf(w.users[viewer], requester) == Friends
      && StatusOf(w.users[requester], viewer) == Friends
      && !Lists(w.users[viewer], ReceivedKey, requester)
      && !Lists(w.users[requester], SentKey, viewer)
  {
    AcceptMembership(users, viewer, requester, viewer, FriendsKey, requester);
    AcceptMembership(users, viewer, requester, requester, FriendsKey, viewer);
    AcceptMembership(users, viewer, requester, viewer, ReceivedKey, requester);
    AcceptMembership(users, viewer, requester, requester, SentKey, viewer);
  }

  /** Accepting a request the viewer shows as 'received' keeps the graph
      consistent, and afterwards no request list on either side names the other. */
  lemma AcceptReceived(users: map<Uid, Doc>, viewer: Uid, requester: Uid)
    requires Consistent(users)
    requires viewer in users && requester in users
    requires StatusOf(users[viewer], requester) == Received
    ensures var w := Accept(users, viewer, requester);
      && Consistent(w.users)
      && !Lists(w.users[viewer], SentKey, requester) && !Lists(w.users[viewer], ReceivedKey, requester)
      && !Lists(w.users[requester], SentKey, viewer) && !Lists(w.users[requester], ReceivedKey, viewer)
  {
    var w := Accept(users, viewer, requester);
    assert viewer != requester;
    AcceptKeepsMirrored(users, viewer, requester);
    forall a, b | a in w.users && b in w.users
      ensures && (a == b ==> StatusOf(w.users[a], b) == Unrelated)
              && !(Lists(w.users[a], FriendsKey, b) && Lists(w.users[a], SentKey, b))
              && !(Lists(w.users[a], FriendsKey, b) && Lists(w.users[a], ReceivedKey, b))
              && !(Lists(w.users[a], SentKey, b) && Lists(w.users[a], ReceivedKey, b))
    {
      AcceptMembership(users, viewer, requester, a, FriendsKey, b);
      AcceptMembership(users, viewer, requester, a, SentKey, b);
      AcceptMembership(users, viewer, requester, a, ReceivedKey, b);
    }
    AcceptMembership(users, viewer, requester, viewer, SentKey, requester);
    AcceptMembership(users, viewer, requester, viewer, ReceivedKey, requester);
    AcceptMembership(users, viewer, requester, requester, SentKey, viewer);
    AcceptMembership(users, viewer, requester, requester, ReceivedKey, viewer);
  }

  /** A decline touches no friends list, and once both writes are made neither
      side keeps the pending pair. */
  lemma DeclineKeepsFriends(users: map<Uid, Doc>, viewer: Uid, requester: Uid)
    ensures var w := Decline(users, viewer, requester);
      && (forall a, b :: a in users ==>
            (Lists(w.users[a], FriendsKey, b) <==> Lists(users[a], FriendsKey, b)))
      && (w.ok ==> !Lists(w.users[viewer], ReceivedKey, requester)
                   && !Lists(w.users[requester], SentKey, viewer))
  {
    var w := Decline(users, viewer, requester);
    forall a, b | a in users
      ensures Lists(w.users[a], FriendsKey, b) <==> Lists(users[a], FriendsKey, b)
    {
      DeclineMembership(users, viewer, requester, a, FriendsKey, b);
    }
    if w.ok {
      DeclineMembership(users, viewer, requester, viewer, ReceivedKey, requester);
      DeclineMembership(users, viewer, requester, requester, SentKey, viewer);
    }
  }

  /** Declining a request the viewer shows as 'received' keeps the graph
      consistent and brings both sides back to 'none'. */
  lemma DeclineReceived(users: map<Uid, Doc>, viewer: Uid, requester: Uid)
    requires Consistent(users)
    requires viewer in users && requester in users
    requires StatusOf(users[viewer], requester) == Received
    ensures var w := Decline(users, viewer, requester);
      && Consistent(w.users)
      && StatusOf(w.users[viewer], requester) == Unrelated
      && StatusOf(w.users[requester], viewer) == Unrelated
  {
    var w := Decline(users, viewer, requester);
    DeclineKeepsMirrored(users, viewer, requester);
    forall a, b | a in w.users && b in w.users
      ensures && (a == b ==> StatusOf(w.users[a], b) == Unrelated)
              && !(Lists(w.users[a], FriendsKey, b) && Lists(w.users[a], SentKey, b))
              && !(Lists(w.users[a], FriendsKey, b) && Lists(w.users[a], ReceivedKey, b))
              && !(Lists(w.users[a], SentKey, b) && Lists(w.users[a], ReceivedKey, b))
    {
      DeclineMembership(users, viewer, requester, a, FriendsKey, b);
      DeclineMembership(users, viewer, requester, a, SentKey, b);
      DeclineMembership(users, viewer, requester, a, ReceivedKey, b);
    }
    DeclineMembership(users, viewer, requester, viewer, FriendsKey, requester);
    DeclineMembership(users, viewer, requester, viewer, SentKey, requester);
    DeclineMembership(users, viewer, requester, viewer, ReceivedKey, requester);
    DeclineMembership(users, viewer, requester, requester, FriendsKey, viewer);
    DeclineMembership(users, viewer, requester, requester, SentKey, viewer);
    DeclineMembership(users, viewer, requester, requester, ReceivedKey, viewer);
  }
}
