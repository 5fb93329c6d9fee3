/**
  * The websocket package: the process-wide connection table, the per-connection
  * session handler (`Create`) and the server-originated notification relay
  * (`SendWebsocketMessage`).
  */
module Websocket {
  import opened Wrappers
  import opened Transport
  import opened ObjectIds
  import opened Dispatch

  /** What the token check yields: the `username` claim and whether an error was reported. */
  datatype AuthResult = AuthResult(username: string, failed: bool)

  /** The fields a relayed client message is decoded into. */
  datatype Typing = Typing(user: string, message: string, convId: string)

  /** The fields of a stored message that a notification uses. */
  datatype Message = Message(conversationId: ObjectId, sender: string)

  /** One result of reading a client frame: the data read and the error, if any. */
  datatype Inbound = Inbound(msg: Bytes, err: Option<string>)

  /** The conversation store, reduced to what the relay reads: id to member list. */
  type Directory = map<ObjectId, seq<string>>

  datatype EndReason =
    | AuthRejected              // the token did not yield a username; the connection was closed
    | Disconnected              // a "closed" receive error removed the user's entry; the loop broke
    | ConversationLookupFailed  // the handler returned; the entry and the connection were left as they were

  datatype Phase = Active(user: string) | Ended(reason: EndReason)

  datatype Session = Session(conn: ConnId, phase: Phase)

  const OpenNotice: string := "Websocket Open"
  const AuthNotice: string := "Websocket Authenticated"

  /** `strings.Contains`. */
  predicate Contains(s: string, sub: string) {
    sub <= s || (s != [] && Contains(s[1..], sub))
  }

  /** `Contains` finds `sub` exactly when it occurs at some position of `s`. */
  lemma {:induction false} ContainsOccurrence(s: string, sub: string)
    ensures Contains(s, sub) <==> exists i :: 0 <= i <= |s| && sub <= s[i..]
  {
    assert s[0..] == s;
    if s != [] {
      ContainsOccurrence(s[1..], sub);
      if Contains(s[1..], sub) {
        var i :| 0 <= i <= |s| - 1 && sub <= s[1..][i..];
        assert s[1..][i..] == s[i + 1..];
      }
      if i :| 0 <= i <= |s| && sub <= s[i..] {
        if i > 0 {
          assert s[1..][i - 1..] == s[i..];
        }
      }
    }
  }

  /** A receive error whose text mentions "closed" is the only one that can end the loop. */
  predicate IsClosedError(err: Option<string>) {
    err.Some? && Contains(err.value, "closed")
  }

  /** The handshake gate: no error and a non-empty username. */
  predicate Authorized(a: AuthResult) {
    !a.failed && a.username != ""
  }

  /** The conversation a decoded message names; an unparsable id becomes the nil id. */
  function ConversationOf(t: Typing): ObjectId {
    match FromHex(t.convId)
    case Some(id) => id
    case None => NilObjectId
  }

  /** A receive that neither ends the session nor finds its conversation missing. */
  predicate Continues(ev: Inbound, decode: Bytes -> Typing, directory: Directory) {
    !IsClosedError(ev.err) && ConversationOf(decode(ev.msg)) in directory
  }

  /** The writes one receive makes: a verbatim relay, when the session continues; nothing otherwise. */
  function Relayed(ev: Inbound, decode: Bytes -> Typing, directory: Directory, table: Table, fails: set<ConnId>): seq<Effect> {
    if Continues(ev, decode, directory) then
      var t := decode(ev.msg);
      Fanout(directory[ConversationOf(t)], t.user, table, Raw(ev.msg), fails)
    else []
  }

  /** The writes the first `n` receives of `events` make, in order, against a fixed table. */
  function Traffic(events: seq<Inbound>, n: nat, decode: Bytes -> Typing, directory: Directory, table: Table, fails: set<ConnId>): seq<Effect>
    requires n <= |events|
  {
    if n == 0 then []
    else Traffic(events, n - 1, decode, directory, table, fails) + Relayed(events[n - 1], decode, directory, table, fails)
  }

  lemma TrafficStep(before: seq<Effect>, after: seq<Effect>, start: seq<Effect>, events: seq<Inbound>, n: nat,
                    decode: Bytes -> Typing, directory: Directory, table: Table, fails: set<ConnId>)
    requires n < |events|
    requires before == start + Traffic(events, n, decode, directory, table, fails)
    requires after == before + Relayed(events[n], decode, directory, table, fails)
    ensures after == start + Traffic(events, n + 1, decode, directory, table, fails)
  {
  }

  /** The writes of one notification for `message`. */
  function Notify(message: Message, messageType: string, directory: Directory, table: Table, fails: set<ConnId>): seq<Effect> {
    var id := message.conversationId;
    if id in directory then
      Fanout(directory[id], message.sender, table, Notification(messageType, Hex(id)), fails)
    else []
  }

  /**
    * A session whose messages all name its own user as sender never has them
    * written back to its own connection.
    */
  lemma {:induction false} OwnMessagesNotEchoed(events: seq<Inbound>, n: nat, decode: Bytes -> Typing, directory: Directory,
                                                table: Table, fails: set<ConnId>, u: string)
    requires n <= |events| && Injective(table) && u in table
    requires forall k :: 0 <= k < n ==> decode(events[k].msg).user == u
    ensures table[u] !in Attempts(Traffic(events, n, decode, directory, table, fails))
  {
    if n > 0 {
      var ev := events[n - 1];
      OwnMessagesNotEchoed(events, n - 1, decode, directory, table, fails, u);
      AttemptsAppend(Traffic(events, n - 1, decode, directory, table, fails), Relayed(ev, decode, directory, table, fails));
      if Continues(ev, decode, directory) {
        var t := decode(ev.msg);
        SenderReceivesNothing(directory[ConversationOf(t)], t.user, table, Raw(ev.msg), fails);
      }
    }
  }

  /**
    * The sender that the relay skips is the `User` field of the message, not the
    * authenticated user: when an active session sends a message claiming another
    * sender, to a conversation its own user belongs to, the relay of that receive
    * writes to the session's own connection.
    */
  lemma SpoofedSenderIsEchoed(s: Session, ev: Inbound, decode: Bytes -> Typing, directory: Directory, table: Table,
                              fails: set<ConnId>)
    requires s.phase.Active? && s.phase.user in table && table[s.phase.user] == s.conn
    requires Continues(ev, decode, directory)
    requires s.phase.user in directory[ConversationOf(decode(ev.msg))] && decode(ev.msg).user != s.phase.user
    ensures s.conn in Attempts(Relayed(ev, decode, directory, table, fails))
  {
    var t := decode(ev.msg);
    Recipients(directory[ConversationOf(t)], t.user, table, Raw(ev.msg), fails, s.conn);
  }

  /**
    * A notification reaches exactly the connections of the registered members
    * other than the stored message's sender, and none when the conversation is unknown.
    */
  lemma NotificationRecipients(message: Message, messageType: string, directory: Directory, table: Table,
                               fails: set<ConnId>, c: ConnId)
    ensures c in Attempts(Notify(message, messageType, directory, table, fails))
        <==> message.conversationId in directory
             && exists v :: v in directory[message.conversationId] && v != message.sender && v in table && table[v] == c
  {
    var id := message.conversationId;
    if id in directory {
      Recipients(directory[id], message.sender, table, Notification(messageType, Hex(id)), fails, c);
    }
  }

  /**
    * Every notification written carries the message type and the conversation id
    * rendered as hex, which parses back to that conversation.
    */
  lemma NotificationShape(message: Message, messageType: string, directory: Directory, table: Table, fails: set<ConnId>)
    ensures forall e :: e in Notify(message, messageType, directory, table, fails) ==>
              e.Write? && e.frame == Notification(messageType, Hex(message.conversationId))
              && FromHex(e.frame.conversationId) == Some(message.conversationId)
  {
    var id := message.conversationId;
    FromHexOfHex(id);
    if id in directory {
      FanoutFrames(directory[id], message.sender, table, Notification(messageType, Hex(id)), fails);
    }
  }

  /**
    * Where a session with username `u` stands after `consumed` receives from
    * `inbox`, given the table `registered` its handshake left: every receive but
    * the last kept it going (the last one too while it is active); an active
    * session keeps its entry; a disconnect came from a "closed" error and removed
    * the entry; a failed lookup came from a conversation missing from the
    * directory and left the entry in place.
    */
  ghost predicate Progress(phase: Phase, consumed: nat, inbox: seq<Inbound>, decode: Bytes -> Typing, directory: Directory,
                           u: string, registered: Table, table: Table)
  {
    consumed <= |inbox|
    && phase != Ended(AuthRejected)
    && (forall k :: 0 <= k < consumed && (k < consumed - 1 || phase.Active?) ==> Continues(inbox[k], decode, directory))
    && (phase.Active? ==> phase.user == u && table == registered)
    && (phase == Ended(Disconnected) ==>
          0 < consumed && IsClosedError(inbox[consumed - 1].err) && table == registered - {u})
    && (phase == Ended(ConversationLookupFailed) ==>
          0 < consumed && !IsClosedError(inbox[consumed - 1].err)
          && ConversationOf(decode(inbox[consumed - 1].msg)) !in directory && table == registered)
  }

  /**
    * One turn of the receive loop for an active session, from `phase` and
    * `table` to `next` and `table'`: a "closed" error removes the entry for the
    * session's username (whichever connection it holds) and ends the session, or,
    * if the entry is already gone, changes nothing; any other result leaves the
    * table alone and either keeps the session going or, when the conversation is
    * not in the directory, ends the handler.
    */
  ghost predicate Turn(ev: Inbound, decode: Bytes -> Typing, directory: Directory,
                       phase: Phase, table: Table, next: Phase, table': Table)
    requires phase.Active?
  {
    if IsClosedError(ev.err) then
      if phase.user in table then table' == table - {phase.user} && next == Ended(Disconnected)
      else table' == table && next == phase
    else
      table' == table
      && next == if Continues(ev, decode, directory) then phase else Ended(ConversationLookupFailed)
  }

  /**
    * One more receive keeps `Progress`: a "closed" error while the entry is
    * present disconnects, a missing conversation ends the handler, anything
    * else leaves the session active with its entry in place.
    */
  lemma ProgressStep(phase: Phase, next: Phase, consumed: nat, inbox: seq<Inbound>, decode: Bytes -> Typing,
                     directory: Directory, u: string, registered: Table, table: Table, table': Table)
    requires Progress(phase, consumed, inbox, decode, directory, u, registered, table)
    requires phase.Active? && consumed < |inbox| && u in registered
    requires Turn(inbox[consumed], decode, directory, phase, table, next, table')
    ensures Progress(next, consumed + 1, inbox, decode, directory, u, registered, table')
  {
  }

  /**
    * The server's shared state: `connectionTable`, the connections the upgrade
    * has handed out, and every action taken on the transport, in order.
    */
  class Hub {
    var table: Table
    var nextConn: ConnId
    var wire: seq<Effect>

    /** Only connections already handed out are registered, each under one username. */
    ghost predicate Valid()
      reads this
    {
      (forall u :: u in table ==> table[u] < nextConn) && Injective(table)
    }

    constructor ()
      ensures Valid() && table == map[] && wire == []
    {
      table := map[];
      nextConn := 0;
      wire := [];
    }

    /**
      * Upgrade a request to a fresh connection, send the open notice, read one
      * token and check it: on failure close the connection, on success register
      * it under the username and send the authenticated notice.
      */
    method Handshake(token: string, verify: string -> AuthResult, fails: set<ConnId>) returns (s: Session)
      requires Valid()
      modifies this
      ensures Valid() && nextConn == old(nextConn) + 1
      ensures s.conn == old(nextConn) && forall u :: u in old(table) ==> old(table)[u] != s.conn
      ensures var auth := verify(token);
              if Authorized(auth) then
                s.phase == Active(auth.username)
                && table == old(table)[auth.username := s.conn]
                && wire == old(wire) + [WriteTo(s.conn, Notice(OpenNotice), fails), WriteTo(s.conn, Notice(AuthNotice), fails)]
              else
                s.phase == Ended(AuthRejected)
                && table == old(table)
                && wire == old(wire) + [WriteTo(s.conn, Notice(OpenNotice), fails), Close(s.conn)]
    {
      var conn := nextConn;
      nextConn := nextConn + 1;
      wire := wire + [WriteTo(conn, Notice(OpenNotice), fails)];
      var auth := verify(token);
      if auth.failed || auth.username == "" {
        wire := wire + [Close(conn)];
        s := Session(conn, Ended(AuthRejected));
      } else {
        table := table[auth.username := conn];
        wire := wire + [WriteTo(conn, Notice(AuthNotice), fails)];
        s := Session(conn, Active(auth.username));
      }
    }

    /**
      * One turn of the receive loop. A "closed" error removes the entry for the
      * session's username, whichever connection it holds, and ends the session;
      * if the entry is already gone the loop simply goes round again. Any other
      * result is decoded and relayed; a conversation that cannot be found ends
      * the handler without touching the table.
      */
    method Receive(s: Session, ev: Inbound, decode: Bytes -> Typing, directory: Directory, fails: set<ConnId>) returns (next: Session)
      requires Valid() && s.phase.Active?
      modifies this
      ensures Valid() && nextConn == old(nextConn) && next.conn == s.conn
      ensures wire == old(wire) + Relayed(ev, decode, directory, old(table), fails)
      ensures Turn(ev, decode, directory, s.phase, old(table), next.phase, table)
    {
      var user := s.phase.user;
      if IsClosedError(ev.err) {
        if user in table {
          table := table - {user};
          next := Session(s.conn, Ended(Disconnected));
        } else {
          next := s;
        }
      } else {
        var t := decode(ev.msg);
        var id := ConversationOf(t);
        if id !in directory {
          next := Session(s.conn, Ended(ConversationLookupFailed));
        } else {
          Relay(directory[id], t.user, Raw(ev.msg), fails);
          next := s;
        }
      }
    }

    /** Write `frame` to every member other than `sender` that has a connection in the table. */
    method Relay(members: seq<string>, sender: string, frame: Frame, fails: set<ConnId>)
      modifies this`wire
      ensures wire == old(wire) + Fanout(members, sender, table, frame, fails)
    {
      var i := 0;
      while i < |members|
        invariant 0 <= i <= |members|
        invariant wire == old(wire) + Fanout(members[..i], sender, table, frame, fails)
      {
        var v := members[i];
        if v != sender {
          if v in table {
            var c := table[v];
            wire := wire + [WriteTo(c, frame, fails)];
          }
        }
        FanoutAppend(members[..i], [v], sender, table, frame, fails);
        assert members[..i + 1] == members[..i] + [v];
        i := i + 1;
      }
      assert members[..i] == members;
    }

    /** Notify every online member but the sender that `message` was stored. */
    method SendWebsocketMessage(message: Message, messageType: string, directory: Directory, fails: set<ConnId>)
      modifies this`wire
      ensures wire == old(wire) + Notify(message, messageType, directory, table, fails)
    {
      var id := message.conversationId;
      if id !in directory {
        return;
      }
      Relay(directory[id], message.sender, Notification(messageType, Hex(id)), fails);
    }

    /**
      * The receive loop of an authenticated session: take receives from `inbox`
      * until the session ends or the inbox runs out (the handler would then be
      * waiting). Returns the final session and how many receives were consumed.
      */
    method ReceiveLoop(s0: Session, inbox: seq<Inbound>, decode: Bytes -> Typing, directory: Directory, fails: set<ConnId>)
      returns (s: Session, consumed: nat)
      requires Valid() && s0.phase.Active? && s0.phase.user in table
      modifies this
      ensures Valid() && nextConn == old(nextConn) && s.conn == s0.conn
      ensures Progress(s.phase, consumed, inbox, decode, directory, s0.phase.user, old(table), table)
      ensures s.phase.Active? ==> consumed == |inbox|
      ensures wire == old(wire) + Traffic(inbox, consumed, decode, directory, old(table), fails)
    {
      s, consumed := s0, 0;
      while s.phase.Active? && consumed < |inbox|
        invariant Valid() && nextConn == old(nextConn) && s.conn == s0.conn
        invariant Progress(s.phase, consumed, inbox, decode, directory, s0.phase.user, old(table), table)
        invariant wire == old(wire) + Traffic(inbox, consumed, decode, directory, old(table), fails)
        decreases |inbox| - consumed
      {
        ghost var (phase, before, sent) := (s.phase, table, wire);
        s := Receive(s, inbox[consumed], decode, directory, fails);
        ProgressStep(phase, s.phase, consumed, inbox, decode, directory, s0.phase.user, old(table), before, table);
        TrafficStep(sent, wire, old(wire), inbox, consumed, decode, directory, old(table), fails);
        consumed := consumed + 1;
      }
    }

    /**
      * A whole connection: the handshake, then, once authenticated, the receive loop.
      */
    method Create(token: string, inbox: seq<Inbound>, verify: string -> AuthResult, decode: Bytes -> Typing,
                  directory: Directory, fails: set<ConnId>)
      returns (s: Session, consumed: nat)
      requires Valid()
      modifies this
      ensures Valid() && s.conn == old(nextConn) && nextConn == old(nextConn) + 1
      ensures !Authorized(verify(token)) ==>
                s.phase == Ended(AuthRejected) && consumed == 0 && table == old(table)
                && wire == old(wire) + [WriteTo(s.conn, Notice(OpenNotice), fails), Close(s.conn)]
      ensures Authorized(verify(token)) ==>
                var u := verify(token).username;
                var registered := old(table)[u := s.conn];
                Progress(s.phase, consumed, inbox, decode, directory, u, registered, table)
                && (s.phase.Active? ==> consumed == |inbox|)
                && (s.phase == Ended(Disconnected) ==> table == old(table) - {u})
                && wire == old(wire) + [WriteTo(s.conn, Notice(OpenNotice), fails), WriteTo(s.conn, Notice(AuthNotice), fails)]
                          + Traffic(inbox, consumed, decode, directory, registered, fails)
    {
      s := Handshake(token, verify, fails);
      consumed := 0;
      if s.phase.Active? {
        ghost var u := s.phase.user;
        s, consumed := ReceiveLoop(s, inbox, decode, directory, fails);
        assert old(table)[u := s.conn] - {u} == old(table) - {u};
      }
    }
  }
}
