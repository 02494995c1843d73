/** The users table behind the repository interfaces the services call
    (UserRepository in internal/service/user_service.go and in
    internal/repository/repository.go). The database is abstract: rows by id, the next id
    the sequence hands out, a log of the calls made, and a schedule saying which call fails. */
module Storage {
  import opened Common

  /** The rows by id, and the id the next insert receives. */
  datatype Table<R> = Table(rows: map<int, R>, nextId: int)
  {
    /** The row with this id, or ErrUserNotFound when there is none. */
    function Find(id: int): Result<R>
    {
      if id in rows then Ok(rows[id]) else Err(UserNotFound)
    }

    /** INSERT ... RETURNING id: the row is stored under the next id. */
    function Insert(row: R): Table<R>
    {
      Table(rows[nextId := row], nextId + 1)
    }

    /** DELETE ... WHERE id: removing an absent id is not an error and changes nothing. */
    function Remove(id: int): Table<R>
    {
      Table(rows - {id}, nextId)
    }

    /** UPDATE ... WHERE id: an absent id is not an error and changes nothing. */
    function Replace(id: int, row: R): Table<R>
    {
      if id in rows then Table(rows[id := row], nextId) else this
    }
  }

  /** The ids are all below the next one. */
  predicate Fresh<R>(t: Table<R>)
  {
    forall id :: id in t.rows ==> id < t.nextId
  }

  /** An inserted row is found under the id it received, every other row is untouched,
      and the table stays fresh. */
  lemma InsertThenFind<R>(t: Table<R>, row: R, id: int)
    requires Fresh(t)
    ensures Fresh(t.Insert(row))
    ensures t.Insert(row).Find(t.nextId) == Ok(row)
    ensures id != t.nextId ==> t.Insert(row).Find(id) == t.Find(id)
    ensures t.nextId !in t.rows
  {
  }

  /** After a delete the id is not found; nothing else changes; deleting an absent id is
      the identity. */
  lemma RemoveThenFind<R>(t: Table<R>, id: int, other: int)
    ensures t.Remove(id).Find(id) == Err(UserNotFound)
    ensures other != id ==> t.Remove(other).Find(id) == t.Find(id)
    ensures id !in t.rows ==> t.Remove(id) == t
  {
  }

  /** An update of a stored id is found with the new row; an update of an absent id
      changes nothing, so it cannot create a row. */
  lemma ReplaceThenFind<R>(t: Table<R>, id: int, row: R, other: int)
    ensures id in t.rows ==> t.Replace(id, row).Find(id) == Ok(row)
    ensures id !in t.rows ==> t.Replace(id, row) == t && t.Replace(id, row).Find(id) == Err(UserNotFound)
    ensures other != id ==> t.Replace(id, row).Find(other) == t.Find(other)
  {
  }

  /** Which call the database fails, by its position in the log, and with what. A failing
      query comes back as a database error, wrapped or passed on; ErrUserNotFound is never
      one of them, since the repositories return it only for a missing row. */
  type Schedule = f: nat -> Option<Error> | forall n :: f(n).None? || f(n).value.StorageFailure?
    witness (n: nat) => None

  /** One call made to the repository, with its arguments. */
  datatype Call<F, R> =
    | GetCall(filter: F)
    | DeleteCall(id: int)
    | UpdateCall(id: int, row: R)
    | CreateCall(row: R)
    | GetByIdCall(id: int)

  /** A repository: its table, the calls made so far, which call (by its position in the
      log) the database fails, what a query selects, and how a row takes its id. */
  class Repository<F, R> {
    var table: Table<R>
    var log: seq<Call<F, R>>
    const failure: Schedule
    const select: (Table<R>, F) -> seq<R>
    const withId: (R, int) -> R

    constructor (table: Table<R>, failure: Schedule,
                 select: (Table<R>, F) -> seq<R>, withId: (R, int) -> R)
      ensures this.table == table && log == []
      ensures this.failure == failure && this.select == select && this.withId == withId
    {
      this.table := table;
      log := [];
      this.failure := failure;
      this.select := select;
      this.withId := withId;
    }

    /** Get(filter): the selected rows, or the database's error. The rows are collected by
        appending to a nil slice, so they are nil (None) when no row matched, as well as
        on an error. */
    method Get(filter: F) returns (rows: Option<seq<R>>, err: Option<Error>)
      modifies this
      ensures log == old(log) + [GetCall(filter)] && table == old(table)
      ensures err == failure(|old(log)|)
      ensures rows == if err.None? && select(table, filter) != [] then Some(select(table, filter)) else None
    {
      err := failure(|log|);
      rows := None;
      if err.None? && select(table, filter) != [] {
        rows := Some(select(table, filter));
      }
      log := log + [GetCall(filter)];
    }

    /** Delete(id): succeeds whether or not the id is stored. */
    method Delete(id: int) returns (err: Option<Error>)
      modifies this
      ensures log == old(log) + [DeleteCall(id)]
      ensures err == failure(|old(log)|)
      ensures table == if err.None? then old(table).Remove(id) else old(table)
    {
      err := failure(|log|);
      if err.None? {
        table := table.Remove(id);
      }
      log := log + [DeleteCall(id)];
    }

    /** Update(id, row): the stored row takes the new values and keeps its id; succeeds
        whether or not the id is stored. */
    method Update(id: int, row: R) returns (err: Option<Error>)
      modifies this
      ensures log == old(log) + [UpdateCall(id, row)]
      ensures err == failure(|old(log)|)
      ensures table == if err.None? then old(table).Replace(id, withId(row, id)) else old(table)
    {
      err := failure(|log|);
      if err.None? {
        table := table.Replace(id, withId(row, id));
      }
      log := log + [UpdateCall(id, row)];
    }

    /** Create(row): the row is stored under the next id, which is returned. */
    method Create(row: R) returns (id: int, err: Option<Error>)
      modifies this
      ensures log == old(log) + [CreateCall(row)]
      ensures err == failure(|old(log)|)
      ensures err.None? ==> id == old(table).nextId && table == old(table).Insert(withId(row, id))
      ensures err.Some? ==> id == 0 && table == old(table)
    {
      err := failure(|log|);
      if err.None? {
        id := table.nextId;
        table := table.Insert(withId(row, id));
      } else {
        id := 0;
      }
      log := log + [CreateCall(row)];
    }

    /** GetUserById(id): the stored row, ErrUserNotFound for an absent id, or the
        database's error. */
    method GetUserById(id: int) returns (row: Option<R>, err: Option<Error>)
      modifies this
      ensures log == old(log) + [GetByIdCall(id)] && table == old(table)
      ensures failure(|old(log)|).Some? ==> row == None && err == failure(|old(log)|)
      ensures failure(|old(log)|).None? ==>
                (if table.Find(id).Ok? then row == Some(table.Find(id).value) && err == None
                 else row == None && err == Some(UserNotFound))
      ensures err == Some(UserNotFound) <==> failure(|old(log)|).None? && id !in table.rows
    {
      err := failure(|log|);
      if err.Some? {
        row := None;
      } else if id in table.rows {
        row := Some(table.rows[id]);
      } else {
        row := None;
        err := Some(UserNotFound);
      }
      log := log + [GetByIdCall(id)];
    }
  }
}
