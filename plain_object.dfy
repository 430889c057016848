/** `users` in server/app.js is a plain object (`{}`), so a room name that
    is not an own key still finds whatever Object.prototype provides under
    that name. */
module PlainObject {
  import opened Wrappers
  import opened Signals
  import opened Registry

  /** The property names every plain object inherits from Object.prototype.
      Reading `users[name]` for one of them, while it is not an own key,
      yields a function (or, for `__proto__`, the prototype object itself):
      truthy, and without a `push` method. */
  const Inherited: set<string> := {
    "constructor", "__proto__", "hasOwnProperty", "isPrototypeOf",
    "propertyIsEnumerable", "toString", "toLocaleString", "valueOf",
    "__defineGetter__", "__defineSetter__", "__lookupGetter__", "__lookupSetter__"}

  /** The registry update of `joinRoom` as written, over a plain object:
      for an inherited name the `!users[room]` guard finds a truthy value, no
      list is created, and `users[room].push(...)` throws a TypeError
      (`None`). Only the registry is modelled here, not the transport join
      or the emits around the throw. */
  function JoinAsWritten(users: Users, room: string, e: Entry): (r: Option<Users>)
    ensures r.None? ==> room in Inherited
  {
    if room !in users && room in Inherited then None else Some(JoinUsers(users, room, e))
  }

  /** The handler as written fails for an inherited room name and agrees
      with the registry update `JoinRoom` performs for every other name. */
  lemma InheritedRoomNameThrows(users: Users, room: string, e: Entry)
    ensures room !in users && room in Inherited ==> JoinAsWritten(users, room, e).None?
    ensures room !in Inherited ==> JoinAsWritten(users, room, e) == Some(JoinUsers(users, room, e))
    ensures JoinAsWritten(map[], "constructor", e).None?
  {
  }
}
