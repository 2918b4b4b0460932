/**
 The session store of the websocket chat: an ordered list of
 `(uid, socketId)` entries that records which socket each logged-in user
 announced itself on.

 The list is specified by pure functions over `seq<Session>` (`Find`,
 `HasUid`, `Saved`, `RemoveSocket`); the class `SessionStore` holds the list
 in a field and its methods update it in place, each proved against those
 functions.
 */
module Sessions {

  datatype Option<T> = None | Some(value: T)

  /** One entry of the store: a user id bound to the id of a socket. */
  datatype Session = Session(uid: string, socketId: string)

  /** At most one entry per user id. */
  ghost predicate UniqueUids(users: seq<Session>) {
    forall i, j :: 0 <= i < j < |users| ==> users[i].uid != users[j].uid
  }

  /** The first entry whose `uid` is `uid`, if any (`Array.prototype.find`). */
  function Find(users: seq<Session>, uid: string): (r: Option<Session>)
    ensures r.Some? ==> r.value in users && r.value.uid == uid
    ensures r.None? <==> forall s :: s in users ==> s.uid != uid
  {
    if users == [] then None
    else if users[0].uid == uid then Some(users[0])
    else Find(users[1..], uid)
  }

  /** Some entry has user id `uid` (`Array.prototype.some`); it agrees with `Find`. */
  predicate HasUid(users: seq<Session>, uid: string): (b: bool)
    ensures b <==> Find(users, uid).Some?
  {
    var b := exists i :: 0 <= i < |users| && users[i].uid == uid;
    assert b ==> Find(users, uid).Some? by {
      if b {
        var i :| 0 <= i < |users| && users[i].uid == uid;
        assert users[i] in users;
      }
    }
    b
  }

  /** The list after `saveSession(uid, socketId)`: appended only when `uid` is absent. */
  function Saved(users: seq<Session>, uid: string, socketId: string): (r: seq<Session>)
    ensures users <= r && |r| <= |users| + 1
    ensures HasUid(r, uid)
    ensures HasUid(users, uid) ==> r == users
    ensures !HasUid(users, uid) ==> r == users + [Session(uid, socketId)]
  {
    if HasUid(users, uid) then users
    else
      var r := users + [Session(uid, socketId)];
      assert r[|users|].uid == uid;
      r
  }

  /** The list after `removeSession(socketId)`: every entry on another socket, in order. */
  function RemoveSocket(users: seq<Session>, socketId: string): (r: seq<Session>)
    ensures forall s :: s in r <==> s in users && s.socketId != socketId
    ensures |r| <= |users|
  {
    if users == [] then []
    else (if users[0].socketId == socketId then [] else [users[0]])
         + RemoveSocket(users[1..], socketId)
  }

  // ---------------------------------------------------------------------
  // findSession

  /** The entry `Find` returns is the first one with a matching user id. */
  lemma {:induction false} FindIsFirst(users: seq<Session>, uid: string, i: nat)
    requires i < |users| && users[i].uid == uid
    requires forall j :: 0 <= j < i ==> users[j].uid != uid
    ensures Find(users, uid) == Some(users[i])
  {
    if i > 0 {
      FindIsFirst(users[1..], uid, i - 1);
    }
  }

  /** Searching a concatenation finds in the first part before the second. */
  lemma {:induction false} FindAppend(a: seq<Session>, b: seq<Session>, uid: string)
    ensures Find(a + b, uid) == if Find(a, uid).Some? then Find(a, uid) else Find(b, uid)
  {
    if a == [] {
      assert a + b == b;
    } else {
      assert (a + b)[0] == a[0];
      assert (a + b)[1..] == a[1..] + b;
      if a[0].uid != uid {
        FindAppend(a[1..], b, uid);
      }
    }
  }

  // ---------------------------------------------------------------------
  // saveSession

  /**
   First binding wins: after saving, `uid` finds its earlier entry if it had
   one and otherwise the new one; every other user id finds what it found before.
   */
  lemma SavedFind(users: seq<Session>, uid: string, socketId: string, other: string)
    ensures Find(Saved(users, uid, socketId), uid)
         == if HasUid(users, uid) then Find(users, uid) else Some(Session(uid, socketId))
    ensures other != uid ==> Find(Saved(users, uid, socketId), other) == Find(users, other)
  {
    if !HasUid(users, uid) {
      FindAppend(users, [Session(uid, socketId)], uid);
      FindAppend(users, [Session(uid, socketId)], other);
    }
  }

  /** Saving keeps at most one entry per user id. */
  lemma SavedKeepsUnique(users: seq<Session>, uid: string, socketId: string)
    requires UniqueUids(users)
    ensures UniqueUids(Saved(users, uid, socketId))
  {
  }

  /** A second save for a user id already saved changes nothing: the first socket stays. */
  lemma RebindKeepsFirst(users: seq<Session>, uid: string, first: string, second: string)
    requires !HasUid(users, uid)
    ensures Saved(Saved(users, uid, first), uid, second) == Saved(users, uid, first)
    ensures Find(Saved(Saved(users, uid, first), uid, second), uid) == Some(Session(uid, first))
  {
  }

  // ---------------------------------------------------------------------
  // removeSession

  /** Removal distributes over concatenation, so survivors keep their relative order. */
  lemma {:induction false} RemoveSocketAppend(a: seq<Session>, b: seq<Session>, socketId: string)
    ensures RemoveSocket(a + b, socketId) == RemoveSocket(a, socketId) + RemoveSocket(b, socketId)
  {
    if a == [] {
      assert a + b == b;
    } else {
      assert (a + b)[0] == a[0];
      assert (a + b)[1..] == a[1..] + b;
      RemoveSocketAppend(a[1..], b, socketId);
    }
  }

  /**
   Removal deletes every copy of an entry on `socketId` (there may be several,
   since socket ids are not kept unique) and keeps every copy of the others.
   */
  lemma {:induction false} RemoveSocketCount(users: seq<Session>, socketId: string, s: Session)
    ensures multiset(RemoveSocket(users, socketId))[s]
         == if s.socketId == socketId then 0 else multiset(users)[s]
  {
    if users != [] {
      RemoveSocketCount(users[1..], socketId, s);
      assert users == [users[0]] + users[1..];
      assert multiset(users) == multiset([users[0]]) + multiset(users[1..]);
    }
  }

  /** Removing a socket id that no entry carries leaves the list unchanged. */
  lemma {:induction false} RemoveSocketUnknown(users: seq<Session>, socketId: string)
    requires forall s :: s in users ==> s.socketId != socketId
    ensures RemoveSocket(users, socketId) == users
  {
    if users != [] {
      assert users[0] in users;
      forall s | s in users[1..] ensures s.socketId != socketId {
        assert s in users;
      }
      RemoveSocketUnknown(users[1..], socketId);
      assert users == [users[0]] + users[1..];
    }
  }

  /** Removing the same socket id twice has the effect of removing it once. */
  lemma RemoveSocketIdempotent(users: seq<Session>, socketId: string)
    ensures RemoveSocket(RemoveSocket(users, socketId), socketId) == RemoveSocket(users, socketId)
  {
    RemoveSocketUnknown(RemoveSocket(users, socketId), socketId);
  }

  /** Removal keeps at most one entry per user id. */
  lemma {:induction false} RemoveSocketKeepsUnique(users: seq<Session>, socketId: string)
    requires UniqueUids(users)
    ensures UniqueUids(RemoveSocket(users, socketId))
  {
    if users != [] {
      var rest := RemoveSocket(users[1..], socketId);
      assert UniqueUids(users[1..]) by {
        forall i, j | 0 <= i < j < |users[1..]| ensures users[1..][i].uid != users[1..][j].uid {
          assert users[1..][i] == users[i + 1] && users[1..][j] == users[j + 1];
        }
      }
      RemoveSocketKeepsUnique(users[1..], socketId);
      if users[0].socketId != socketId {
        var r := [users[0]] + rest;
        forall i, j | 0 <= i < j < |r| ensures r[i].uid != r[j].uid {
          if i == 0 {
            assert r[j] in rest;
            assert r[j] in users[1..];
            var k :| 0 <= k < |users[1..]| && users[1..][k] == r[j];
            assert users[k + 1] == r[j];
          } else {
            assert r[i] == rest[i - 1] && r[j] == rest[j - 1];
          }
        }
      }
    }
  }

  /**
   After removal a user is found exactly when its entry was on another socket,
   and then it is the same entry.
   */
  lemma RemoveSocketFind(users: seq<Session>, socketId: string, uid: string)
    requires UniqueUids(users)
    ensures Find(RemoveSocket(users, socketId), uid)
         == if Find(users, uid).Some? && Find(users, uid).value.socketId != socketId
            then Find(users, uid) else None
  {
  }

  /** A fresh user saved on a socket is no longer found once that socket is removed. */
  lemma SaveThenRemove(users: seq<Session>, uid: string, socketId: string)
    requires !HasUid(users, uid)
    ensures Find(RemoveSocket(Saved(users, uid, socketId), socketId), uid) == None
  {
  }

  /**
   A user that announces itself on a second socket before its first socket
   closes is unreachable once the first socket closes: the second save was
   ignored, and removing the first socket drops the only entry.
   */
  lemma StaleAfterReconnect(users: seq<Session>, uid: string, first: string, second: string)
    requires !HasUid(users, uid)
    ensures Find(RemoveSocket(Saved(Saved(users, uid, first), uid, second), first), uid) == None
  {
  }

  // ---------------------------------------------------------------------
  // The store object

  /** The store keeps its list in `users`; `Valid` is its invariant. */
  class SessionStore {
    var users: seq<Session>

    ghost predicate Valid()
      reads this
    {
      UniqueUids(users)
    }

    /** A new store holds no sessions. */
    constructor ()
      ensures Valid() && users == []
    {
      users := [];
    }

    /** Scans the list from the front and returns the first entry for `uid`. */
    method FindSession(uid: string) returns (r: Option<Session>)
      ensures r == Find(users, uid)
      ensures r.Some? ==> r.value in users && r.value.uid == uid
      ensures r.None? <==> !HasUid(users, uid)
    {
        var i := 0;
      while i < |users|
        invariant 0 <= i <= |users|
        invariant forall j :: 0 <= j < i ==> users[j].uid != uid
      {
        if users[i].uid == uid {
          FindIsFirst(users, uid, i);
          return Some(users[i]);
        }
        i := i + 1;
      }
      return None;
    }

    /** Appends `(uid, socketId)` unless `uid` already has an entry. */
    method SaveSession(uid: string, socketId: string)
      requires Valid()
      modifies this
      ensures Valid()
      ensures users == Saved(old(users), uid, socketId)
      ensures old(HasUid(users, uid)) ==> users == old(users)
      ensures !old(HasUid(users, uid)) ==> users == old(users) + [Session(uid, socketId)]
    {
      SavedKeepsUnique(users, uid, socketId);
      if !HasUid(users, uid) {
        users := users + [Session(uid, socketId)];
      }
    }

    /** Replaces the list by the entries whose socket is not `socketId`. */
    method RemoveSession(socketId: string)
      requires Valid()
      modifies this
      ensures Valid()
      ensures users == RemoveSocket(old(users), socketId)
    {
      RemoveSocketKeepsUnique(users, socketId);
      users := RemoveSocket(users, socketId);
    }
  }
}
