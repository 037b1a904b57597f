/** The server's socket gateway: the handshake token, the authentication
    decision, the per-user room, `getIo` and the three emit helpers. Token
    verification is an abstract partial function; rooms map a room key to
    the set of connections in it. */
module SocketGateway {
  import opened Wrappers
  import opened Strings
  import opened Notifications

  type ConnId = nat

  /** What a connection attempt carries: `handshake.auth.token` and the
      `authorization` header, each possibly absent. */
  datatype Handshake = Handshake(authToken: Option<string>, authorization: Option<string>)

  /** `header.split(' ')[1]`: the second space-separated word, if any. */
  function SecondWord(header: string): (w: Option<string>)
    ensures w.Some? ==> ' ' !in w.value
    ensures w.None? <==> ' ' !in header
  {
    var words := Split(header, ' ');
    SeveralWordsIffSpace(header);
    if |words| >= 2 then Some(words[1]) else None
  }

  /** A header splits into several words exactly when it contains a space. */
  lemma SeveralWordsIffSpace(header: string)
    ensures |Split(header, ' ')| >= 2 <==> ' ' in header
  {
    var words := Split(header, ' ');
    JoinSplit(header, ' ');
    if |words| >= 2 {
      assert Join(words, ' ')[|words[0]|] == ' ';
    } else {
      assert Join(words, ' ') == words[0];
    }
  }

  /** The usual `Bearer <token>` header yields the token. */
  lemma BearerHeaderGivesToken(scheme: string, token: string, rest: string)
    requires ' ' !in scheme && ' ' !in token
    ensures SecondWord(scheme + " " + token) == Some(token)
    ensures SecondWord(scheme + " " + token + " " + rest) == Some(token)
  {
    SplitAfterSeparator(scheme, token, ' ');
    SplitWithoutSeparator(token, ' ');
    assert scheme + " " + token == scheme + [' '] + token;
    var longer := scheme + " " + token + " " + rest;
    assert longer == scheme + [' '] + (token + [' '] + rest);
    SplitAfterSeparator(scheme, token + [' '] + rest, ' ');
    SplitAfterSeparator(token, rest, ' ');
  }

  /** The token the middleware checks: the auth field when it is truthy,
      otherwise the second word of the authorization header. */
  function HandshakeToken(h: Handshake): (t: Option<string>)
    ensures Truthy(h.authToken) ==> t == h.authToken
    ensures !Truthy(h.authToken) && h.authorization.None? ==> t.None?
    ensures !Truthy(h.authToken) && h.authorization.Some? ==> t == SecondWord(h.authorization.value)
  {
    if Truthy(h.authToken) then h.authToken
    else if h.authorization.Some? then SecondWord(h.authorization.value)
    else None
  }

  /** The middleware's verdict on one attempt. */
  datatype AuthResult = Admitted(userId: UserId) | Rejected(reason: string)

  const NoTokenReason := "Authentication error: No token provided"
  const InvalidTokenReason := "Authentication error: Invalid token"

  /** The authentication middleware. `verify` is the token verifier: the
      decoded user id, or nothing when the token does not verify. */
  function Authenticate(h: Handshake, verify: string -> Option<UserId>): (r: AuthResult)
    ensures r.Rejected? ==> r.reason == NoTokenReason || r.reason == InvalidTokenReason
    ensures r == Rejected(NoTokenReason) <==> !Truthy(HandshakeToken(h))
    ensures r == Rejected(InvalidTokenReason) <==>
              Truthy(HandshakeToken(h)) && verify(HandshakeToken(h).value).None?
    ensures r.Admitted? ==> Truthy(HandshakeToken(h)) && verify(HandshakeToken(h).value) == Some(r.userId)
  {
    var token := HandshakeToken(h);
    if !Truthy(token) then Rejected(NoTokenReason)
    else match verify(token.value)
      case None => Rejected(InvalidTokenReason)
      case Some(id) => Admitted(id)
  }

  // ---------------------------------------------------------------------
  // Rooms
  // ---------------------------------------------------------------------

  /** The room of a user: `user_<id>`; the digits after the prefix read back as the id. */
  function RoomKey(u: UserId): (key: string)
    ensures |key| > 5 && key[..5] == "user_"
    ensures AllDigits(key[5..]) && DigitsValue(key[5..]) == u
  {
    NatToStringValue(u);
    var key := "user_" + NatToString(u);
    assert key[5..] == NatToString(u);
    key
  }

  /** Different users have different rooms. */
  lemma RoomKeyInjective(a: UserId, b: UserId)
    ensures RoomKey(a) == RoomKey(b) <==> a == b
  {
    if RoomKey(a) == RoomKey(b) {
      assert NatToString(a) == RoomKey(a)[5..];
      assert NatToString(b) == RoomKey(b)[5..];
      NatToStringInjective(a, b);
    }
  }

  type Rooms = map<string, set<ConnId>>

  /** The connections in a room; an unknown room is empty. */
  function Members(rooms: Rooms, room: string): set<ConnId> {
    if room in rooms then rooms[room] else {}
  }

  /** The live gateway: its rooms and the user each admitted connection
      authenticated as (`socket.userId`). */
  datatype Gateway = Gateway(rooms: Rooms, userOf: map<ConnId, UserId>)

  /** The module-level `io`: absent until `initializeSocket` runs. */
  datatype Server = Uninitialized | Running(gateway: Gateway)

  /** `initializeSocket`: a fresh server with no connections. */
  function InitializeSocket(s: Server): (r: Server)
    ensures r.Running? && r.gateway.userOf == map[]
    ensures forall room :: Members(r.gateway.rooms, room) == {}
  {
    Running(Gateway(map[], map[]))
  }

  /** `getIo`: the instance once initialised, an error before. */
  function GetIo(s: Server): (r: Result<Gateway, string>)
    ensures s.Uninitialized? <==> r == Failure("Socket.io not initialized")
    ensures s.Running? ==> r == Success(s.gateway)
  {
    if s.Uninitialized? then Failure("Socket.io not initialized") else Success(s.gateway)
  }

  /** A connection attempt: rejected attempts leave the gateway untouched;
      an admitted one records its user and joins exactly that user's room. */
  function Connect(g: Gateway, conn: ConnId, h: Handshake, verify: string -> Option<UserId>): (r: (Gateway, AuthResult))
    ensures r.1 == Authenticate(h, verify)
    ensures r.1.Rejected? ==> r.0 == g
    ensures r.1.Admitted? ==> r.0.userOf == g.userOf[conn := r.1.userId]
    ensures r.1.Admitted? ==>
              (forall room :: Members(r.0.rooms, room) ==
                 if room == RoomKey(r.1.userId) then Members(g.rooms, room) + {conn} else Members(g.rooms, room))
  {
    var verdict := Authenticate(h, verify);
    match verdict
    case Rejected(_) => (g, verdict)
    case Admitted(u) =>
      var room := RoomKey(u);
      (Gateway(g.rooms[room := Members(g.rooms, room) + {conn}], g.userOf[conn := u]), verdict)
  }

  /** A disconnect: the connection leaves every room (socket.io does this
      itself; the source's handler only logs). */
  function Disconnect(g: Gateway, conn: ConnId): (r: Gateway)
    ensures forall room :: Members(r.rooms, room) == Members(g.rooms, room) - {conn}
    ensures conn !in r.userOf
    ensures forall c :: c != conn ==> (c in r.userOf <==> c in g.userOf)
    ensures forall c :: c in r.userOf ==> r.userOf[c] == g.userOf[c]
  {
    Gateway(map room | room in g.rooms :: g.rooms[room] - {conn}, g.userOf - {conn})
  }

  /** Disconnecting twice is the same as disconnecting once. */
  lemma DisconnectIdempotent(g: Gateway, conn: ConnId)
    ensures Disconnect(Disconnect(g, conn), conn) == Disconnect(g, conn)
  {
    var once := Disconnect(g, conn);
    var twice := Disconnect(once, conn);
    assert twice.rooms.Keys == once.rooms.Keys;
    assert forall room | room in once.rooms :: twice.rooms[room] == once.rooms[room];
    assert twice.rooms == once.rooms;
  }

  /** Every connection in a room authenticated as the room's user. */
  ghost predicate RoomsAgree(g: Gateway) {
    forall room, c :: c in Members(g.rooms, room) ==> c in g.userOf && room == RoomKey(g.userOf[c])
  }

  /** Connecting a fresh connection and disconnecting keep rooms in agreement
      with the users the connections authenticated as. */
  lemma ConnectKeepsRoomsAgree(g: Gateway, conn: ConnId, h: Handshake, verify: string -> Option<UserId>)
    requires RoomsAgree(g) && conn !in g.userOf
    ensures RoomsAgree(Connect(g, conn, h, verify).0)
  {
    var r := Connect(g, conn, h, verify);
    if r.1.Admitted? {
      forall room, c | c in Members(r.0.rooms, room)
        ensures c in r.0.userOf && room == RoomKey(r.0.userOf[c])
      {
        if c != conn {
          assert c in Members(g.rooms, room);
        }
      }
    }
  }

  lemma DisconnectKeepsRoomsAgree(g: Gateway, conn: ConnId)
    requires RoomsAgree(g)
    ensures RoomsAgree(Disconnect(g, conn))
  {
    var r := Disconnect(g, conn);
    forall room, c | c in Members(r.rooms, room)
      ensures c in r.userOf && room == RoomKey(r.userOf[c])
    {
      assert c in Members(g.rooms, room);
    }
  }

  // ---------------------------------------------------------------------
  // Emitting
  // ---------------------------------------------------------------------

  /** One event handed to one connection. */
  datatype Delivery = Delivery(conn: ConnId, event: PushEvent)

  /** `io.to(room).emit(...)`, a no-op while `io` is unset. */
  function EmitToRoom(s: Server, room: string, e: PushEvent): (out: set<Delivery>)
    ensures s.Uninitialized? ==> out == {}
    ensures s.Running? ==> forall d :: d in out <==> d.event == e && d.conn in Members(s.gateway.rooms, room)
  {
    if s.Uninitialized? then {}
    else set c | c in Members(s.gateway.rooms, room) :: Delivery(c, e)
  }

  /** `emitNotificationToUser`: `newNotification` to the user's room. */
  function EmitNotificationToUser(s: Server, u: UserId, n: Notification): (out: set<Delivery>)
    ensures s.Uninitialized? ==> out == {}
    ensures s.Running? ==> forall d :: d in out <==>
              d.event == NewNotification(n) && d.conn in Members(s.gateway.rooms, RoomKey(u))
  {
    EmitToRoom(s, RoomKey(u), NewNotification(n))
  }

  /** `emitUnreadCountToUser`: `unreadCountUpdate {count}` to the user's room. */
  function EmitUnreadCountToUser(s: Server, u: UserId, count: int): (out: set<Delivery>)
    ensures s.Uninitialized? ==> out == {}
    ensures s.Running? ==> forall d :: d in out <==>
              d.event == UnreadCountUpdate(count) && d.conn in Members(s.gateway.rooms, RoomKey(u))
  {
    EmitToRoom(s, RoomKey(u), UnreadCountUpdate(count))
  }

  /** `emitNotificationDeletionToUser`: `notificationDeleted {notificationId}` to the user's room. */
  function EmitNotificationDeletionToUser(s: Server, u: UserId, id: NotificationId): (out: set<Delivery>)
    ensures s.Uninitialized? ==> out == {}
    ensures s.Running? ==> forall d :: d in out <==>
              d.event == NotificationDeleted(id) && d.conn in Members(s.gateway.rooms, RoomKey(u))
  {
    EmitToRoom(s, RoomKey(u), NotificationDeleted(id))
  }

  /** Pushes reach only connections that authenticated as the recipient. */
  lemma EmitReachesOnlyRecipient(g: Gateway, u: UserId, e: PushEvent)
    requires RoomsAgree(g)
    ensures forall d :: d in EmitToRoom(Running(g), RoomKey(u), e) ==>
              d.conn in g.userOf && g.userOf[d.conn] == u
  {
    forall d | d in EmitToRoom(Running(g), RoomKey(u), e)
      ensures d.conn in g.userOf && g.userOf[d.conn] == u
    {
      RoomKeyInjective(g.userOf[d.conn], u);
    }
  }

  /** Two tabs of the same user: after both connect, a push reaches both. */
  lemma TwoTabsBothReceive(g: Gateway, c1: ConnId, c2: ConnId, h1: Handshake, h2: Handshake,
                           verify: string -> Option<UserId>, u: UserId, e: PushEvent)
    requires Authenticate(h1, verify) == Admitted(u) && Authenticate(h2, verify) == Admitted(u)
    ensures var g2 := Connect(Connect(g, c1, h1, verify).0, c2, h2, verify).0;
            Delivery(c1, e) in EmitToRoom(Running(g2), RoomKey(u), e)
            && Delivery(c2, e) in EmitToRoom(Running(g2), RoomKey(u), e)
  {
    var g1 := Connect(g, c1, h1, verify).0;
    var g2 := Connect(g1, c2, h2, verify).0;
    assert c1 in Members(g1.rooms, RoomKey(u));
    assert c1 in Members(g2.rooms, RoomKey(u)) && c2 in Members(g2.rooms, RoomKey(u));
  }

  /** A rejected handshake adds no connection to any room. */
  lemma RejectedHandshakeJoinsNothing(g: Gateway, conn: ConnId, h: Handshake, verify: string -> Option<UserId>)
    requires Authenticate(h, verify).Rejected?
    ensures forall room :: Members(Connect(g, conn, h, verify).0.rooms, room) == Members(g.rooms, room)
  {
  }
}
