/**
 * The in-memory session-to-user map that lets the front end hand a user id to the
 * back end on the same server. The lock only serialises the operations, so each
 * operation is a function from one storage value to the next; the clock is a parameter.
 */
module UserIdStorage {
  import opened Wrappers

  /** Seconds between two clean-ups. */
  const CleanupInterval: real := 300.0

  datatype Storage = Storage(entries: map<string, string>, lastCleanup: real)

  /** A fresh storage created at time `now`. */
  function NewStorage(now: real): (st: Storage)
    ensures st.entries == map[] && st.lastCleanup == now
  {
    Storage(map[], now)
  }

  /** `set_user_id`: the session now maps to `userId`; every other session keeps its entry. */
  function SetUserId(st: Storage, sessionId: string, userId: string): (r: Storage)
    ensures sessionId in r.entries && r.entries[sessionId] == userId
    ensures r.entries.Keys == st.entries.Keys + {sessionId}
    ensures forall s :: s in st.entries && s != sessionId ==> r.entries[s] == st.entries[s]
    ensures r.lastCleanup == st.lastCleanup
  {
    st.(entries := st.entries[sessionId := userId])
  }

  /** `get_user_id`: the stored user id, `None` for an unknown session. */
  function GetUserId(st: Storage, sessionId: string): (r: Option<string>)
    ensures r.Some? <==> sessionId in st.entries
    ensures r.Some? ==> r.value == st.entries[sessionId]
  {
    if sessionId in st.entries then Some(st.entries[sessionId]) else None
  }

  /** `remove_user_id`: drops the session's entry, if any, and nothing else. */
  function RemoveUserId(st: Storage, sessionId: string): (r: Storage)
    ensures r.entries.Keys == st.entries.Keys - {sessionId}
    ensures forall s :: s in r.entries ==> r.entries[s] == st.entries[s]
    ensures r.lastCleanup == st.lastCleanup
  {
    if sessionId in st.entries then st.(entries := st.entries - {sessionId}) else st
  }

  /** `cleanup_expired`: never touches the entries; only moves the clean-up time forward,
      once more than the interval has passed. */
  function CleanupExpired(st: Storage, now: real): (r: Storage)
    ensures r.entries == st.entries
    ensures r.lastCleanup >= st.lastCleanup
    ensures r.lastCleanup != st.lastCleanup <==> now - st.lastCleanup > CleanupInterval
    ensures r.lastCleanup != st.lastCleanup ==> r.lastCleanup == now
  {
    if now - st.lastCleanup > CleanupInterval then st.(lastCleanup := now) else st
  }

  /** Reading back what was just stored. */
  lemma GetAfterSet(st: Storage, s: string, u: string, other: string)
    ensures GetUserId(SetUserId(st, s, u), s) == Some(u)
    ensures other != s ==> GetUserId(SetUserId(st, s, u), other) == GetUserId(st, other)
  {
  }

  /** A second store for the same session overwrites the first. */
  lemma SetOverwrites(st: Storage, s: string, u1: string, u2: string)
    ensures SetUserId(SetUserId(st, s, u1), s, u2) == SetUserId(st, s, u2)
  {
  }

  /** Removing after storing undoes the store, whatever was there before. */
  lemma RemoveAfterSet(st: Storage, s: string, u: string)
    ensures RemoveUserId(SetUserId(st, s, u), s) == RemoveUserId(st, s)
  {
    assert SetUserId(st, s, u).entries - {s} == st.entries - {s};
  }

  /** Removing an unknown session changes nothing; after removal the session is unknown. */
  lemma RemoveAbsentIsNoOp(st: Storage, s: string)
    ensures s !in st.entries ==> RemoveUserId(st, s) == st
    ensures GetUserId(RemoveUserId(st, s), s) == None
  {
  }
}
