/**
 The relay of the websocket chat: the three handlers every connection
 registers (`add-user`, `send-message`, `disconnect`) over one shared
 session store.

 Emitting to a socket is not performed: a handler returns the emissions it
 would make, each a `get-message` payload addressed to a socket id.
 `Route`, `Step` and `Run` specify the handlers on the store's list; the
 class `Relay` holds the store and its methods are proved against them.
 */
module Server {
  import opened Sessions

  /** The payload of a `get-message` event: the receiver's id is not part of it. */
  datatype GetMessage = GetMessage(senderUid: string, text: string)

  /** One `get-message` event sent to the socket `socketId`. */
  datatype Emission = Emission(socketId: string, payload: GetMessage)

  /** An event arriving on the connection whose socket id is `socketId`. */
  datatype Event =
    | AddUser(socketId: string, uid: string)
    | SendMessage(socketId: string, senderUid: string, receiverUid: string, text: string)
    | Disconnect(socketId: string)

  /** The store's list after an event, and the events emitted while handling it. */
  datatype Outcome = Outcome(users: seq<Session>, emitted: seq<Emission>)

  /**
   The emissions of `send-message`: one, to the socket recorded for
   `receiverUid`, when the receiver has a session; none otherwise.
   */
  function Route(users: seq<Session>, senderUid: string, receiverUid: string, text: string)
    : (out: seq<Emission>)
    ensures |out| <= 1
    ensures out == [] <==> !HasUid(users, receiverUid)
    ensures forall e :: e in out ==>
              Find(users, receiverUid) == Some(Session(receiverUid, e.socketId))
              && e.payload == GetMessage(senderUid, text)
  {
    match Find(users, receiverUid)
    case Some(user) => [Emission(user.socketId, GetMessage(senderUid, text))]
    case None => []
  }

  /** Handling one event: `send-message` leaves the list alone, the others emit nothing. */
  function Step(users: seq<Session>, ev: Event): (r: Outcome)
    ensures ev.SendMessage? ==> r.users == users
    ensures !ev.SendMessage? ==> r.emitted == []
    ensures |r.emitted| <= 1
  {
    match ev
    case AddUser(socketId, uid) => Outcome(Saved(users, uid, socketId), [])
    case SendMessage(_, senderUid, receiverUid, text) =>
      Outcome(users, Route(users, senderUid, receiverUid, text))
    case Disconnect(socketId) => Outcome(RemoveSocket(users, socketId), [])
  }

  /** The number of `send-message` events in `evs`. */
  function Sends(evs: seq<Event>): (n: nat)
    ensures n <= |evs|
  {
    if evs == [] then 0
    else (if evs[0].SendMessage? then 1 else 0) + Sends(evs[1..])
  }

  /** Handling events one at a time, in order, collecting all emissions. */
  function Run(users: seq<Session>, evs: seq<Event>): (r: Outcome)
    ensures |r.emitted| <= Sends(evs)
    decreases evs
  {
    if evs == [] then Outcome(users, [])
    else
      var first := Step(users, evs[0]);
      var rest := Run(first.users, evs[1..]);
      Outcome(rest.users, first.emitted + rest.emitted)
  }

  /** Every sequence of events keeps at most one session per user id. */
  lemma {:induction false} RunKeepsUnique(users: seq<Session>, evs: seq<Event>)
    requires UniqueUids(users)
    ensures UniqueUids(Run(users, evs).users)
    decreases evs
  {
    if evs != [] {
      match evs[0] {
        case AddUser(socketId, uid) => SavedKeepsUnique(users, uid, socketId);
        case SendMessage(_, _, _, _) =>
        case Disconnect(socketId) => RemoveSocketKeepsUnique(users, socketId);
      }
      RunKeepsUnique(Step(users, evs[0]).users, evs[1..]);
    }
  }

  /** Handling one more event continues from where the earlier events left off. */
  lemma {:induction false} RunSnoc(users: seq<Session>, evs: seq<Event>, ev: Event)
    ensures Run(users, evs + [ev])
         == Outcome(Step(Run(users, evs).users, ev).users,
                    Run(users, evs).emitted + Step(Run(users, evs).users, ev).emitted)
    decreases evs
  {
    if evs == [] {
      assert evs + [ev] == [ev];
    } else {
      assert (evs + [ev])[0] == evs[0];
      assert (evs + [ev])[1..] == evs[1..] + [ev];
      RunSnoc(Step(users, evs[0]).users, evs[1..], ev);
    }
  }

  /** A message to a user who has just announced itself on a socket is sent to that socket. */
  lemma RouteAfterAddUser(users: seq<Session>, socketId: string, senderUid: string,
                          receiverUid: string, text: string)
    requires !HasUid(users, receiverUid)
    ensures Route(Saved(users, receiverUid, socketId), senderUid, receiverUid, text)
         == [Emission(socketId, GetMessage(senderUid, text))]
  {
  }

  /** A message to a user whose only socket has disconnected is dropped. */
  lemma RouteAfterDisconnect(users: seq<Session>, socketId: string, senderUid: string,
                             receiverUid: string, text: string)
    requires !HasUid(users, receiverUid)
    ensures Route(RemoveSocket(Saved(users, receiverUid, socketId), socketId),
                  senderUid, receiverUid, text) == []
  {
  }

  /** A disconnect from a socket that never announced a user leaves the list unchanged. */
  lemma DisconnectUnannounced(users: seq<Session>, socketId: string)
    requires forall s :: s in users ==> s.socketId != socketId
    ensures Step(users, Disconnect(socketId)) == Outcome(users, [])
  {
    RemoveSocketUnknown(users, socketId);
  }

  /** The handlers of all connections over the one store created at start-up. */
  class Relay {
    const sessions: SessionStore

    ghost predicate Valid()
      reads this, sessions
    {
      sessions.Valid()
    }

    /** Start-up creates one empty store shared by every connection. */
    constructor ()
      ensures Valid() && fresh(sessions) && sessions.users == []
    {
      sessions := new SessionStore();
    }

    /** `add-user` on the connection `socketId`: saves the announced user on it. */
    method OnAddUser(socketId: string, uid: string)
      requires Valid()
      modifies sessions
      ensures Valid()
      ensures sessions.users == Saved(old(sessions.users), uid, socketId)
    {
      sessions.SaveSession(uid, socketId);
    }

    /** `send-message`: forwards sender and text to the receiver's socket, if it has one. */
    method OnSendMessage(senderUid: string, receiverUid: string, text: string)
      returns (emitted: seq<Emission>)
      ensures emitted == Route(sessions.users, senderUid, receiverUid, text)
      ensures |emitted| <= 1
      ensures emitted == [] <==> !HasUid(sessions.users, receiverUid)
    {
      var user := sessions.FindSession(receiverUid);
      if user.Some? {
        emitted := [Emission(user.value.socketId, GetMessage(senderUid, text))];
      } else {
        emitted := [];
      }
    }

    /** `disconnect` on the connection `socketId`: removes the sessions on that socket. */
    method OnDisconnect(socketId: string)
      requires Valid()
      modifies sessions
      ensures Valid()
      ensures sessions.users == RemoveSocket(old(sessions.users), socketId)
    {
      sessions.RemoveSession(socketId);
    }

    /** Dispatches an event to its handler. */
    method Handle(ev: Event) returns (emitted: seq<Emission>)
      requires Valid()
      modifies sessions
      ensures Valid()
      ensures Outcome(sessions.users, emitted) == Step(old(sessions.users), ev)
    {
      match ev
      case AddUser(socketId, uid) =>
        OnAddUser(socketId, uid);
        emitted := [];
      case SendMessage(_, senderUid, receiverUid, text) =>
        emitted := OnSendMessage(senderUid, receiverUid, text);
      case Disconnect(socketId) =>
        OnDisconnect(socketId);
        emitted := [];
    }

    /** Handles events in arrival order, one at a time, collecting every emission. */
    method HandleAll(evs: seq<Event>) returns (emitted: seq<Emission>)
      requires Valid()
      modifies sessions
      ensures Valid()
      ensures Outcome(sessions.users, emitted) == Run(old(sessions.users), evs)
    {
      ghost var start := sessions.users;
      emitted := [];
      var i := 0;
      while i < |evs|
        invariant 0 <= i <= |evs|
        invariant Valid()
        invariant Outcome(sessions.users, emitted) == Run(start, evs[..i])
      {
        ghost var before := sessions.users;
        var out := Handle(evs[i]);
        assert Outcome(sessions.users, out) == Step(before, evs[i]);
        RunSnoc(start, evs[..i], evs[i]);
        assert evs[..i + 1] == evs[..i] + [evs[i]];
        emitted := emitted + out;
        i := i + 1;
      }
      assert evs[..i] == evs;
    }
  }
}
