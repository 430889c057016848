/** The relay's process-wide room registry, `users` in server/app.js, with
    the two handlers that change it: `joinRoom` and `disconnect`. */
module Registry {
  import opened Wrappers
  import opened Signals
  import opened Delivery
  import JsKeys

  /** `users`: room name to the ordered list of `{ id, username }` entries. */
  type Users = map<string, seq<Entry>>

  /** Some entry of `list` carries the socket id `id`. */
  predicate Registered(list: seq<Entry>, id: SocketId)
  {
    exists j :: 0 <= j < |list| && list[j].id == id
  }

  /** The room's list, or the empty list the handler creates when the key is missing. */
  function Prior(users: Users, room: string): seq<Entry>
  {
    if room in users then users[room] else []
  }

  /** `list.findIndex(user => user.id === id)`: the first matching position, or -1. */
  function IndexOf(list: seq<Entry>, id: SocketId): (k: int)
    ensures -1 <= k < |list|
    ensures k == -1 <==> !Registered(list, id)
    ensures k >= 0 ==> list[k].id == id && forall j :: 0 <= j < k ==> list[j].id != id
  {
    if list == [] then -1
    else if list[0].id == id then 0
    else
      var k := IndexOf(list[1..], id);
      assert forall j :: 0 < j < |list| ==> list[j] == list[1..][j - 1];
      if k == -1 then -1 else k + 1
  }

  /** `list.splice(k, 1)`. */
  function RemoveAt(list: seq<Entry>, k: nat): seq<Entry>
    requires k < |list|
  {
    list[..k] + list[k + 1..]
  }

  /** The registry after `joinRoom`: the room's old list (or a new empty one)
      with the joiner appended. */
  function JoinUsers(users: Users, room: string, e: Entry): Users
  {
    users[room := Prior(users, room) + [e]]
  }

  /** The key enumeration order after `joinRoom`: a new room becomes a new key. */
  function JoinOrder(order: seq<string>, users: Users, room: string): seq<string>
  {
    if room in users then order else JsKeys.InsertKey(order, room)
  }

  /** Every key of the registry appears in the enumeration order. */
  predicate Listed(order: seq<string>, users: Users)
  {
    forall r :: r in order ==> r in users
  }

  /** Where the departure loop stops: position `pos` in the enumeration order
      and `index` in that room's list. */
  datatype Hit = Hit(pos: nat, index: nat)

  /** The first room, in enumeration order, that has an entry for `id`, and
      the first such entry in it. */
  function FirstHit(order: seq<string>, users: Users, id: SocketId): (h: Option<Hit>)
    requires Listed(order, users)
    ensures h.None? <==> forall q :: 0 <= q < |order| ==> !Registered(users[order[q]], id)
    ensures h.Some? ==>
      && h.value.pos < |order|
      && Registered(users[order[h.value.pos]], id)
      && h.value.index == IndexOf(users[order[h.value.pos]], id)
      && forall q :: 0 <= q < h.value.pos ==> !Registered(users[order[q]], id)
  {
    if order == [] then None
    else if Registered(users[order[0]], id) then Some(Hit(0, IndexOf(users[order[0]], id)))
    else
      var rest := order[1..];
      assert forall q :: 0 < q < |order| ==> order[q] == rest[q - 1];
      match FirstHit(rest, users, id)
      case None => None
      case Some(Hit(p, k)) => Some(Hit(p + 1, k))
  }

  /** The registry and the emitted events after the `disconnect` handler for `id`. */
  function Leave(order: seq<string>, users: Users, id: SocketId): (Users, seq<Emit>)
    requires Listed(order, users)
  {
    Depart(order, users, FirstHit(order, users, id))
  }

  /** A hit names an entry that exists. */
  predicate InRange(order: seq<string>, users: Users, hit: Option<Hit>)
  {
    hit.Some? ==>
      hit.value.pos < |order| && order[hit.value.pos] in users && hit.value.index < |users[order[hit.value.pos]]|
  }

  /** What the handler does once the search has stopped (or not): splice the
      entry out of its room's list and tell the room who left. */
  function Depart(order: seq<string>, users: Users, hit: Option<Hit>): (Users, seq<Emit>)
    requires InRange(order, users, hit)
  {
    match hit
    case None => (users, [])
    case Some(Hit(p, k)) =>
      var room := order[p];
      (users[room := RemoveAt(users[room], k)], [Emit(ToRoom(room), UserLeft(users[room][k].id))])
  }

  /** The relay's state invariant: the enumeration order lists each key of
      the registry once, in the order `for ... in` visits them, and every
      socket the transport has in a room has an entry in that room's list. */
  ghost predicate Consistent(users: Users, order: seq<string>, joined: Rooms)
  {
    && KeysInOrder(users, order)
    && JsKeys.EnumerationOrdered(order)
    && (forall r, s :: r in joined && s in joined[r] ==> r in users && Registered(users[r], s))
  }

  /** The enumeration order lists each key of the registry exactly once. */
  ghost predicate KeysInOrder(users: Users, order: seq<string>)
  {
    && JsKeys.Distinct(order)
    && (forall r :: r in users <==> r in order)
  }

  class SignalServer {
    var users: Users
    /** The own keys of `users`, in the order `for (const room in users)` visits them. */
    var order: seq<string>
    /** The transport's rooms, as `socket.join` built them. */
    var joined: Rooms

    ghost predicate Valid()
      reads this
    {
      Consistent(users, order, joined)
    }

    /** The process starts with `const users = {}`. */
    constructor ()
      ensures Valid()
      ensures users == map[] && order == [] && joined == map[]
    {
      users := map[];
      order := [];
      joined := map[];
    }

    /** The `joinRoom` handler for socket `id`. */
    method JoinRoom(id: SocketId, room: string, username: string) returns (out: seq<Emit>)
      requires Valid()
      modifies this
      ensures Valid()
      ensures room in users
      ensures users == JoinUsers(old(users), room, Entry(id, username))
      ensures order == JoinOrder(old(order), old(users), room)
      ensures joined == AddMember(old(joined), room, id)
      ensures out == [Emit(ToSocket(id), ExistingUsers(Prior(old(users), room))),
                      Emit(ToRoomExcept(room, id), UserJoined(id, username))]
    {
      ghost var users0, order0, joined0 := users, order, joined;
      joined := AddMember(joined, room, id);
      if room !in users {
        users := users[room := []];
        order := JsKeys.InsertKey(order, room);
      }
      out := [Emit(ToSocket(id), ExistingUsers(users[room]))];
      users := users[room := users[room] + [Entry(id, username)]];
      out := out + [Emit(ToRoomExcept(room, id), UserJoined(id, username))];
      assert users == JoinUsers(users0, room, Entry(id, username));
      assert order == JoinOrder(order0, users0, room);
      JoinKeepsConsistent(users0, order0, joined0, room, Entry(id, username));
    }

    /** The `disconnect` handler for socket `id`. By the time it runs the
        transport has already taken the socket out of every room. */
    method Disconnect(id: SocketId) returns (out: seq<Emit>)
      requires Valid()
      modifies this
      ensures Valid()
      ensures joined == RemoveSocket(old(joined), id)
      ensures order == old(order)
      ensures (users, out) == Leave(old(order), old(users), id)
    {
      ghost var users0, joined0 := users, joined;
      assert Listed(order, users);
      joined := RemoveSocket(joined, id);
      var hit := FindDeparture(order, users, id);
      out := [];
      if hit.Some? {
        var room, k := order[hit.value.pos], hit.value.index;
        var gone := users[room][k];
        users := users[room := users[room][..k] + users[room][k + 1..]];
        out := [Emit(ToRoom(room), UserLeft(gone.id))];
      }
      assert (users, out) == Depart(order, users0, hit);
      LeaveKeepsConsistent(users0, order, joined0, id);
    }
  }

  /** The `for (const room in users)` search of the `disconnect` handler:
      the first room in enumeration order whose `findIndex` is not -1. */
  method FindDeparture(order: seq<string>, users: Users, id: SocketId) returns (hit: Option<Hit>)
    requires Listed(order, users)
    ensures hit == FirstHit(order, users, id)
  {
    var i := 0;
    while i < |order|
      invariant 0 <= i <= |order|
      invariant forall q :: 0 <= q < i ==> !Registered(users[order[q]], id)
    {
      var k := IndexOf(users[order[i]], id);
      if k != -1 {
        FirstHitIsFirst(order, users, id, i);
        return Some(Hit(i, k));
      }
      i := i + 1;
    }
    return None;
  }

  /** The departure loop stops at the first room that has an entry for `id`. */
  lemma FirstHitIsFirst(order: seq<string>, users: Users, id: SocketId, i: nat)
    requires Listed(order, users) && i < |order| && Registered(users[order[i]], id)
    requires forall q :: 0 <= q < i ==> !Registered(users[order[q]], id)
    ensures FirstHit(order, users, id) == Some(Hit(i, IndexOf(users[order[i]], id)))
  {
  }

  lemma RegisteredAfterRemoval(list: seq<Entry>, k: nat, s: SocketId)
    requires k < |list| && list[k].id != s && Registered(list, s)
    ensures Registered(RemoveAt(list, k), s)
  {
    var j :| 0 <= j < |list| && list[j].id == s;
    var r := RemoveAt(list, k);
    if j < k {
      assert r[j] == list[j];
    } else {
      assert r[j - 1] == list[j];
    }
  }

  /** `joinRoom` keeps the relay's state invariant. */
  lemma JoinKeepsConsistent(users: Users, order: seq<string>, joined: Rooms, room: string, e: Entry)
    requires Consistent(users, order, joined)
    ensures Consistent(JoinUsers(users, room, e), JoinOrder(order, users, room), AddMember(joined, room, e.id))
  {
    JoinKeepsKeys(users, order, room, e);
    if room !in users {
      JsKeys.InsertKeyKeepsOrder(order, room);
    }
    var u := JoinUsers(users, room, e);
    var m := AddMember(joined, room, e.id);
    forall r, s | r in m && s in m[r] ensures r in u && Registered(u[r], s)
    {
      if r == room {
        var l := Prior(users, room);
        if s == e.id {
          assert u[r][|l|].id == s;
        } else {
          var j :| 0 <= j < |l| && l[j].id == s;
          assert u[r][j] == l[j];
        }
      }
    }
  }

  lemma JoinKeepsKeys(users: Users, order: seq<string>, room: string, e: Entry)
    requires KeysInOrder(users, order)
    ensures KeysInOrder(JoinUsers(users, room, e), JoinOrder(order, users, room))
  {
    if room !in users {
      JsKeys.InsertKeyKeepsDistinct(order, room);
    }
  }

  /** `disconnect` keeps the relay's state invariant. */
  lemma LeaveKeepsConsistent(users: Users, order: seq<string>, joined: Rooms, id: SocketId)
    requires Consistent(users, order, joined)
    ensures Listed(order, users)
    ensures Consistent(Leave(order, users, id).0, order, RemoveSocket(joined, id))
  {
    match FirstHit(order, users, id)
    case None =>
    case Some(Hit(p, k)) =>
      var room := order[p];
      var u := Leave(order, users, id).0;
      var m := RemoveSocket(joined, id);
      forall r, s | r in m && s in m[r] ensures r in u && Registered(u[r], s)
      {
        if r == room {
          RegisteredAfterRemoval(users[room], k, s);
        }
      }
  }

  /** `disconnect` takes out at most one entry in the whole registry: when
      the socket has no entry it changes nothing and emits nothing; otherwise
      the first room in enumeration order that has an entry for the socket
      loses its first such entry (the `splice` at the `findIndex` position),
      every other room is unchanged, and one `user-left` naming the socket
      goes to that room. */
  lemma {:induction false} LeaveRemovesAtMostOne(order: seq<string>, users: Users, id: SocketId)
    requires Listed(order, users)
    ensures var (u, out) := Leave(order, users, id);
      && u.Keys == users.Keys
      && (out == [] <==> forall q :: 0 <= q < |order| ==> !Registered(users[order[q]], id))
      && (out == [] ==> u == users)
      && (out != [] ==>
            && |out| == 1
            && out[0].event == UserLeft(id)
            && out[0].dest.ToRoom?
            && out[0].dest.room in users
            && |u[out[0].dest.room]| == |users[out[0].dest.room]| - 1
            && Registered(users[out[0].dest.room], id)
            && u[out[0].dest.room] == RemoveAt(users[out[0].dest.room], IndexOf(users[out[0].dest.room], id))
            && (exists p :: 0 <= p < |order| && order[p] == out[0].dest.room
                  && forall q :: 0 <= q < p ==> !Registered(users[order[q]], id))
            && forall r :: r in users && r != out[0].dest.room ==> u[r] == users[r])
  {
    var hit := FirstHit(order, users, id);
    if hit.Some? {
      var p := hit.value.pos;
      assert order[p] == Leave(order, users, id).1[0].dest.room;
    }
  }

  /** The first entry for `id` in `l + [e] + t`, when `l` has none, is `e`. */
  lemma IndexAfterPrefix(l: seq<Entry>, e: Entry, t: seq<Entry>, id: SocketId)
    requires e.id == id && !Registered(l, id)
    ensures IndexOf(l + [e] + t, id) == |l|
    ensures RemoveAt(l + [e] + t, |l|) == l + t
  {
    var list := l + [e] + t;
    assert list[|l|] == e;
    forall j | 0 <= j < |l| ensures list[j] == l[j] && l[j].id != id { }
  }

  /** The departure when the first room holding `id` is at position `p` and
      its first entry for `id` follows the entries `l`. */
  lemma LeaveAt(o: seq<string>, u: Users, id: SocketId, p: nat, l: seq<Entry>, e: Entry, t: seq<Entry>)
    requires Listed(o, u) && p < |o| && u[o[p]] == l + [e] + t
    requires e.id == id && !Registered(l, id)
    requires forall q :: 0 <= q < p ==> !Registered(u[o[q]], id)
    ensures Leave(o, u, id) == (u[o[p] := l + t], [Emit(ToRoom(o[p]), UserLeft(id))])
  {
    IndexAfterPrefix(l, e, t, id);
    assert Registered(u[o[p]], id) by { assert u[o[p]][|l|] == e; }
    FirstHitIsFirst(o, u, id, p);
  }

  /** Leaving undoes joining: for a socket with no entry anywhere,
      `joinRoom` followed by `disconnect` restores every room's list (the
      room key stays, possibly with an empty list) and announces the
      departure once, to the room it joined. */
  lemma LeaveUndoesJoin(users: Users, order: seq<string>, room: string, e: Entry)
    requires KeysInOrder(users, order)
    requires forall r :: r in users ==> !Registered(users[r], e.id)
    ensures var o := JoinOrder(order, users, room);
      Listed(o, JoinUsers(users, room, e)) &&
      Leave(o, JoinUsers(users, room, e), e.id) == (users[room := Prior(users, room)], [Emit(ToRoom(room), UserLeft(e.id))])
  {
    JoinKeepsKeys(users, order, room, e);
    LeaveAfterJoin(users, JoinUsers(users, room, e), JoinOrder(order, users, room), room, e);
  }

  /** `disconnect` after a single join of a socket registered nowhere else. */
  lemma LeaveAfterJoin(users: Users, u: Users, o: seq<string>, room: string, e: Entry)
    requires KeysInOrder(u, o)
    requires forall r :: r in users ==> !Registered(users[r], e.id)
    requires u == users[room := Prior(users, room) + [e]]
    ensures Listed(o, u)
    ensures Leave(o, u, e.id) == (users[room := Prior(users, room)], [Emit(ToRoom(room), UserLeft(e.id))])
  {
    assert room in u && room in o;
    var p :| 0 <= p < |o| && o[p] == room;
    OthersUnregistered(users, u, o, room, e.id, p);
    var l := Prior(users, room);
    LeaveLast(o, u, e.id, p, l, e);
    UpdateOverwrites(users, room, l + [e], l);
  }

  lemma UpdateOverwrites(users: Users, room: string, a: seq<Entry>, b: seq<Entry>)
    ensures users[room := a][room := b] == users[room := b]
  {
  }

  /** `LeaveAt` when the departing entry is the last of its room's list. */
  lemma LeaveLast(o: seq<string>, u: Users, id: SocketId, p: nat, l: seq<Entry>, e: Entry)
    requires Listed(o, u) && p < |o| && u[o[p]] == l + [e]
    requires e.id == id && !Registered(l, id)
    requires forall q :: 0 <= q < p ==> !Registered(u[o[q]], id)
    ensures Leave(o, u, id) == (u[o[p] := l], [Emit(ToRoom(o[p]), UserLeft(id))])
  {
    assert u[o[p]] == l + [e] + [];
    LeaveAt(o, u, id, p, l, e, []);
    assert l + [] == l;
  }

  /** Rooms other than `room` keep their lists, so a socket registered
      nowhere before is registered in none of them. */
  lemma OthersUnregistered(users: Users, u: Users, o: seq<string>, room: string, id: SocketId, p: nat)
    requires forall r :: r in users ==> !Registered(users[r], id)
    requires forall r :: r in u <==> r in o
    requires forall r :: r in u && r != room ==> r in users && u[r] == users[r]
    requires p <= |o| && forall q :: 0 <= q < p ==> o[q] != room
    ensures forall q :: 0 <= q < p ==> !Registered(u[o[q]], id)
  {
    forall q | 0 <= q < p ensures !Registered(u[o[q]], id) {
      assert o[q] in u;
    }
  }

  /** A second `joinRoom` from the same socket is not deduplicated: after
      joining two rooms (or one room twice) and disconnecting, a stale entry
      for the departed socket is still registered -- in exactly one of the
      two rooms when they differ. */
  lemma RejoinLeavesStaleEntry(users: Users, order: seq<string>,
                               r1: string, r2: string, e1: Entry, e2: Entry)
    requires KeysInOrder(users, order)
    requires e1.id == e2.id
    requires forall r :: r in users ==> !Registered(users[r], e1.id)
    ensures var u1 := JoinUsers(users, r1, e1);
      var o1 := JoinOrder(order, users, r1);
      var u2 := JoinUsers(u1, r2, e2);
      var o2 := JoinOrder(o1, u1, r2);
      && Listed(o2, u2)
      && var u3 := Leave(o2, u2, e1.id).0;
      && r1 in u3 && r2 in u3
      && (r1 == r2 ==> Registered(u3[r1], e1.id))
      && (r1 != r2 ==> (Registered(u3[r1], e1.id) <==> !Registered(u3[r2], e1.id)))
  {
    var u1: Users := JoinUsers(users, r1, e1);
    var o1: seq<string> := JoinOrder(order, users, r1);
    JoinKeepsKeys(users, order, r1, e1);
    var u2: Users := JoinUsers(u1, r2, e2);
    var o2: seq<string> := JoinOrder(o1, u1, r2);
    JoinKeepsKeys(u1, o1, r2, e2);
    if r1 == r2 {
      RejoinSameRoom(users, u2, o2, r1, e1, e2);
    } else {
      assert u2[r1] == Prior(users, r1) + [e1];
      assert u2[r2] == Prior(users, r2) + [e2];
      RejoinTwoRooms(users, u2, o2, r1, r2, e1, e2);
    }
  }

  /** Joining one room twice and leaving removes only the first of the two entries. */
  lemma RejoinSameRoom(users: Users, u2: Users, o2: seq<string>, r: string, e1: Entry, e2: Entry)
    requires KeysInOrder(u2, o2) && e1.id == e2.id
    requires forall x :: x in users ==> !Registered(users[x], e1.id)
    requires u2 == users[r := Prior(users, r) + [e1] + [e2]]
    ensures Listed(o2, u2) && r in Leave(o2, u2, e1.id).0 && Registered(Leave(o2, u2, e1.id).0[r], e1.id)
  {
    assert r in u2 && r in o2;
    var p :| 0 <= p < |o2| && o2[p] == r;
    OthersUnregistered(users, u2, o2, r, e1.id, p);
    var l := Prior(users, r);
    LeaveAt(o2, u2, e1.id, p, l, e1, [e2]);
    assert (l + [e2])[|l|] == e2;
  }

  /** Joining two rooms and leaving removes the entry from whichever of the
      two comes first in enumeration order, and only from that one. */
  lemma RejoinTwoRooms(users: Users, u2: Users, o2: seq<string>, r1: string, r2: string, e1: Entry, e2: Entry)
    requires KeysInOrder(u2, o2) && e1.id == e2.id && r1 != r2
    requires forall x :: x in users ==> !Registered(users[x], e1.id)
    requires u2 == users[r1 := Prior(users, r1) + [e1]][r2 := Prior(users, r2) + [e2]]
    ensures Listed(o2, u2)
    ensures var u3 := Leave(o2, u2, e1.id).0;
      r1 in u3 && r2 in u3 && (Registered(u3[r1], e1.id) <==> !Registered(u3[r2], e1.id))
  {
    var id := e1.id;
    assert r1 in u2 && r1 in o2 && r2 in u2 && r2 in o2;
    var p1 :| 0 <= p1 < |o2| && o2[p1] == r1;
    var p2 :| 0 <= p2 < |o2| && o2[p2] == r2;
    var p := if p1 <= p2 then p1 else p2;
    var hr := o2[p];
    var other := if hr == r1 then r2 else r1;
    var e := if hr == r1 then e1 else e2;
    forall q | 0 <= q < p ensures !Registered(u2[o2[q]], id) {
      assert o2[q] in u2 && o2[q] != r1 && o2[q] != r2;
    }
    var l := Prior(users, hr);
    LeaveLast(o2, u2, id, p, l, e);
    var lo := Prior(users, other);
    assert u2[other][|lo|].id == id;
  }

  /** `joinRoom` registers the joiner at the end of the room's list: the
      earlier entries keep their order, no other room changes, and a socket
      registered nowhere before is not in the `existing-users` list it is sent. */
  lemma JoinRegistersJoiner(users: Users, room: string, e: Entry)
    ensures var u := JoinUsers(users, room, e);
      && room in u && Registered(u[room], e.id)
      && |u[room]| == |Prior(users, room)| + 1
      && u[room][..|Prior(users, room)|] == Prior(users, room) && u[room][|Prior(users, room)|] == e
      && (forall r :: r in users && r != room ==> r in u && u[r] == users[r])
      && ((forall r :: r in users ==> !Registered(users[r], e.id)) ==> !Registered(Prior(users, room), e.id))
  {
    var u := JoinUsers(users, room, e);
    assert u[room][|Prior(users, room)|] == e;
  }

  /** The `user-joined` broadcast reaches only sockets that already had an
      entry in the room before the join, and never the joiner itself. */
  lemma JoinAnnouncedToPriorMembers(users: Users, order: seq<string>, joined: Rooms, room: string, id: SocketId)
    requires Consistent(users, order, joined)
    ensures forall s :: s in Recipients(AddMember(joined, room, id), ToRoomExcept(room, id)) ==>
      s != id && Registered(Prior(users, room), s)
  {
  }

  /** The `user-left` notice reaches exactly the sockets still in the room,
      never the departed one. */
  lemma DepartureAnnouncedToRemaining(joined: Rooms, room: string, id: SocketId)
    ensures Recipients(RemoveSocket(joined, id), ToRoom(room)) == Members(joined, room) - {id}
  {
  }
}
