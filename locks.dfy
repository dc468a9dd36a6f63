/** Advisory lock tables (`files_locked`, `tagset_locks`).

    A lock table is a map from the locked entity to its lock row, so the table's unique key
    on the entity id holds by construction: at most one row per entity. */
module Locks {

  type User = string
  type Time = int

  /** One lock row: who holds the entity and since when (`locked_by`, `locked_since`). */
  datatype Lock = Lock(owner: User, since: Time)

  /** What an acquisition reports: success together with the number of the user's earlier
      locks that the preliminary `DELETE` removed (`lockCounts`), or the conflicting row. */
  datatype Acquired = Granted(released: nat) | Refused(holder: Lock)

  /** The entities whose lock `user` holds. */
  function HeldBy<K>(t: map<K, Lock>, user: User): set<K>
  {
    set k | k in t && t[k].owner == user
  }

  /** `DELETE FROM <locks> WHERE locked_by = user`. */
  function DropHeldBy<K>(t: map<K, Lock>, user: User): (r: map<K, Lock>)
    ensures r.Keys == t.Keys - HeldBy(t, user)
    ensures forall k :: k in r ==> r[k] == t[k] && r[k].owner != user
  {
    map k | k in t && t[k].owner != user :: t[k]
  }

  /** lockFile / lockTagset: first delete every lock of this kind held by `user`, then insert
      the lock row for `key`; the insert fails on the unique key when another owner holds
      `key`, and the result then reports that owner's row. */
  function Acquire<K>(t: map<K, Lock>, key: K, user: User, now: Time): (r: (map<K, Lock>, Acquired))
    // the lock is granted exactly when nobody else holds the entity
    ensures r.1.Granted? <==> key !in t || t[key].owner == user
    // on success the user holds exactly this one lock, taken now
    ensures r.1.Granted? ==> key in r.0 && r.0[key] == Lock(user, now) && HeldBy(r.0, user) == {key}
    ensures r.1.Granted? ==> r.1.released == |HeldBy(t, user)|
    // on conflict the result names the holder, whose row is kept, and the user's earlier
    // locks are gone all the same
    ensures r.1.Refused? ==> key in t && r.1.holder == t[key] && r.1.holder.owner != user
    ensures r.1.Refused? ==> key in r.0 && r.0[key] == t[key] && HeldBy(r.0, user) == {}
    // locks of other owners are never touched
    ensures forall k :: k in t && t[k].owner != user ==> k in r.0 && r.0[k] == t[k]
    ensures forall k :: k in r.0 && k != key ==> k in t && r.0[k] == t[k]
  {
    var cleared := DropHeldBy(t, user);
    if key in cleared then (cleared, Refused(cleared[key]))
    else
      var r := cleared[key := Lock(user, now)];
      assert HeldBy(r, user) == {key};
      (r, Granted(|HeldBy(t, user)|))
  }

  /** unlockFile / unlockTagset: delete the lock row of `key` when `user` holds it, or
      whoever holds it when `force` (an admin session in unlockFile). */
  function Release<K>(t: map<K, Lock>, key: K, user: User, force: bool): (r: map<K, Lock>)
    ensures key !in r <==> key !in t || force || t[key].owner == user
    ensures forall k :: k in t && k != key ==> k in r
    ensures forall k :: k in r ==> k in t && r[k] == t[k]
  {
    if key in t && (force || t[key].owner == user) then t - {key} else t
  }

  /** The invariant that the acquire protocol is meant to keep: each user holds at most one
      lock of a kind. */
  ghost predicate OneLockPerOwner<K>(t: map<K, Lock>)
  {
    forall k1, k2 :: k1 in t && k2 in t && t[k1].owner == t[k2].owner ==> k1 == k2
  }

  lemma AcquireKeepsOneLockPerOwner<K>(t: map<K, Lock>, key: K, user: User, now: Time)
    requires OneLockPerOwner(t)
    ensures OneLockPerOwner(Acquire(t, key, user, now).0)
  {
    var r := Acquire(t, key, user, now).0;
    forall k1, k2 | k1 in r && k2 in r && r[k1].owner == r[k2].owner
      ensures k1 == k2
    {
      if r[k1].owner == user {
        assert k1 in HeldBy(r, user) && k2 in HeldBy(r, user);
      }
    }
  }

  /** Re-locking an entity one already holds succeeds and counts the removed own lock. */
  lemma RelockSucceeds<K>(t: map<K, Lock>, key: K, user: User, now: Time)
    requires key in t && t[key].owner == user
    ensures Acquire(t, key, user, now).1 == Granted(|HeldBy(t, user)|)
    ensures Acquire(t, key, user, now).1.released >= 1
  {
    assert key in HeldBy(t, user);
  }

  /** A user who held no lock of this kind gets lockCounts 0. */
  lemma FirstLockReleasesNothing<K>(t: map<K, Lock>, key: K, user: User, now: Time)
    requires forall k :: k in t ==> t[k].owner != user
    requires key !in t
    ensures Acquire(t, key, user, now) == (t[key := Lock(user, now)], Granted(0))
  {
    assert HeldBy(t, user) == {};
    assert DropHeldBy(t, user) == t;
  }

  /** After a successful acquisition by `user`, releasing the same entity as that user
      removes the lock again and leaves the user holding nothing. */
  lemma AcquireThenRelease<K>(t: map<K, Lock>, key: K, user: User, now: Time)
    requires Acquire(t, key, user, now).1.Granted?
    ensures var r := Release(Acquire(t, key, user, now).0, key, user, false);
      key !in r && HeldBy(r, user) == {}
  {
    var a := Acquire(t, key, user, now).0;
    var r := Release(a, key, user, false);
    assert r == a - {key};
    assert HeldBy(r, user) <= HeldBy(a, user) - {key};
  }
}
