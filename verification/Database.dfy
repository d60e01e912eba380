/** The unit of work around every request (`app/database/session.py`). */
module Databases {
  import opened Types

  class Database {
    var committed: Store

    constructor (users: map<UserId, User>)
      ensures committed == Store(users, map[])
    {
      committed := Store(users, map[]);
    }
  }

  /** One `AsyncSession`: a working copy of the store, of which database call number `fault` raises. */
  class Session {
    const db: Database
    const fault: Option<nat>
    var working: Store
    var calls: nat

    constructor (db: Database, fault: Option<nat>)
      ensures this.db == db && this.fault == fault
      ensures working == db.committed && calls == 0
    {
      this.db := db;
      this.fault := fault;
      working := db.committed;
      calls := 0;
    }

    /** One round trip to the database. */
    method Call() returns (r: Result<()>)
      modifies this`calls
      ensures calls == old(calls) + 1
      ensures r == if fault == Some(old(calls)) then Crashed else Ok(())
    {
      calls := calls + 1;
      return if fault == Some(calls - 1) then Crashed else Ok(());
    }

    /** The end of `get_session`: commit when the request returned, otherwise (also when the commit
        itself raises) roll back. */
    method Close<T>(outcome: Result<T>) returns (r: Result<T>)
      modifies this, db
      ensures outcome.Ok? && fault != Some(old(calls)) ==> r == outcome && db.committed == old(working)
      ensures outcome.Ok? && fault == Some(old(calls)) ==> r == Crashed && db.committed == old(db.committed)
      ensures !outcome.Ok? ==> r == outcome && db.committed == old(db.committed)
      ensures working == db.committed
    {
      if outcome.Ok? {
        var done := Call();
        if done.Ok? {
          db.committed := working;
          return outcome;
        }
        working := db.committed;
        return Crashed;
      }
      working := db.committed;
      return outcome;
    }
  }
}
