/** `internal/locks/postgres.go`: the table of expiring locks, shared by everybody who may hold one. */
module Locks {
  import opened Protocol

  /** One clock for the program and its database; it never goes back, and nobody knows how far it moves between readings. */
  class Clock {
    var now: int

    constructor ()
      ensures now == 0
    {
      now := 0;
    }

    method Now() returns (t: int)
      modifies this
      ensures old(now) <= now == t
    {
      var elapsed: int := *;
      if elapsed > 0 { now := now + elapsed; }
      t := now;
    }
  }

  class PostgresManager {
    const clock: Clock
    var rows: map<string, LockRow>

    constructor (clock: Clock)
      ensures this.clock == clock && rows == map[]
    {
      this.clock := clock;
      rows := map[];
    }

    /** Insert, or take over a row that has expired or is the owner's own. */
    method TryAcquire(key: string, owner: string, lease: int) returns (ok: bool)
      modifies this, clock
      ensures old(clock.now) <= clock.now
      ensures ok <==> (key !in old(rows) || old(rows)[key].expiresAt < clock.now || old(rows)[key].owner == owner)
      ensures !ok ==> rows == old(rows)
      ensures ok ==> key in rows && rows == old(rows)[key := rows[key]] && rows[key].owner == owner
      ensures ok ==> old(clock.now) + lease <= rows[key].expiresAt <= clock.now + lease
    {
      var start := clock.Now();
      var expiresAt := start + lease;
      var now := clock.Now();
      ok := key !in rows || rows[key].expiresAt < now || rows[key].owner == owner;
      if ok {
        rows := rows[key := LockRow(owner, expiresAt)];
      }
    }

    /** Extends the owner's row; without one nothing happens, and nobody is told. */
    method Refresh(key: string, owner: string, lease: int)
      modifies this, clock
      ensures old(clock.now) <= clock.now
      ensures rows.Keys == old(rows).Keys
      ensures forall k :: k in rows && (k != key || rows[k].owner != owner) ==> rows[k] == old(rows)[k]
      ensures forall k :: k in rows ==> rows[k].owner == old(rows)[k].owner
      ensures key in rows && rows[key].owner == owner ==> old(clock.now) + lease <= rows[key].expiresAt <= clock.now + lease
    {
      var start := clock.Now();
      if key in rows && rows[key].owner == owner {
        rows := rows[key := LockRow(owner, start + lease)];
      }
    }

    method Release(key: string, owner: string)
      modifies this
      ensures rows == map k | k in old(rows) && !(k == key && old(rows)[k].owner == owner) :: old(rows)[k]
    {
      if key in rows && rows[key].owner == owner {
        rows := map k | k in rows && k != key :: rows[k];
      }
    }
  }
}
