/** UserService of internal/service/user_service.go: the service layer over the Postgres
    repository's records, converting with internal/converter/user.go. */
module UserService {
  import opened Common
  import opened HttpTransport
  import E = Enrichment
  import D = Domain
  import P = PostgresModel
  import Converter
  import Storage

  /** The users the service hands back for the rows the repository returned, in order. */
  function FromRepo(rows: seq<P.User>): (users: seq<D.User>)
  {
    seq(|rows|, k requires 0 <= k < |rows| => Converter.ToUserFromRepo(rows[k]))
  }

  /** Get returns one user per row, in order, each with the row's six data fields and id
      0: the ids of the rows do not survive the conversion. */
  lemma FromRepoDropsIds(rows: seq<P.User>)
    ensures |FromRepo(rows)| == |rows|
    ensures forall k :: 0 <= k < |rows| ==>
      FromRepo(rows)[k].id == 0 && Converter.ToUserFromService(FromRepo(rows)[k]) == rows[k].(id := 0)
  {
    forall k | 0 <= k < |rows|
      ensures Converter.ToUserFromService(FromRepo(rows)[k]) == rows[k].(id := 0)
    {
      Converter.RoundTripsResetId(FromRepo(rows)[k], rows[k]);
    }
  }

  /** Create followed by GetById, on the table: when the repository stamps a row with the
      id it stores it under, the user Create stores under the next id is found there again,
      carrying that id, and GetById's conversion gives back the enriched user with id 0. */
  lemma CreatedUserReadsBack(t: Storage.Table<P.User>, withId: (P.User, int) -> P.User, u: D.User)
    requires Storage.Fresh(t)
    requires forall r: P.User, i: int :: withId(r, i) == r.(id := i)
    ensures var after := t.Insert(withId(Converter.ToUserFromService(u), t.nextId));
      && after.Find(t.nextId).Ok?
      && after.Find(t.nextId).value.id == t.nextId
      && Converter.ToUserFromRepo(after.Find(t.nextId).value) == u.(id := 0)
  {
    var row := withId(Converter.ToUserFromService(u), t.nextId);
    Storage.InsertThenFind(t, row, t.nextId);
    Converter.RoundTripsResetId(u, row);
  }

  class UserService {
    const repository: Storage.Repository<P.UserFilter, P.User>
    const transport: Transport

    /** New(repository, transport). */
    constructor (repository: Storage.Repository<P.UserFilter, P.User>, transport: Transport)
      ensures this.repository == repository && this.transport == transport
    {
      this.repository := repository;
      this.transport := transport;
    }

    /** Get(filter): one repository query with the converted filter. On an error the users
        are nil; otherwise they are a list, empty (not nil) when no row matched. */
    method Get(filter: D.UserFilter) returns (users: Option<seq<D.User>>, err: Option<Error>)
      modifies repository
      ensures repository.log == old(repository.log) + [Storage.GetCall(Converter.ToUserFilterFromService(filter))]
      ensures repository.table == old(repository.table)
      ensures err == repository.failure(|old(repository.log)|)
      ensures err.Some? ==> users == None
      ensures err.None? ==>
        users == Some(FromRepo(repository.select(repository.table, Converter.ToUserFilterFromService(filter))))
    {
      var result: seq<D.User> := [];
      var rows, e := repository.Get(Converter.ToUserFilterFromService(filter));
      if e.Some? {
        return None, e;
      }
      var repoUsers := rows.GetOr([]);
      var i := 0;
      while i < |repoUsers|
        invariant 0 <= i <= |repoUsers|
        invariant |result| == i
        invariant forall k :: 0 <= k < i ==> result[k] == Converter.ToUserFromRepo(repoUsers[k])
      {
        result := result + [Converter.ToUserFromRepo(repoUsers[i])];
        i := i + 1;
      }
      assert result == FromRepo(repoUsers);
      return Some(result), None;
    }

    /** Delete(id): forwarded once; the repository's error is returned unchanged. */
    method Delete(id: int) returns (err: Option<Error>)
      modifies repository
      ensures repository.log == old(repository.log) + [Storage.DeleteCall(id)]
      ensures err == repository.failure(|old(repository.log)|)
      ensures repository.table == if err.None? then old(repository.table).Remove(id) else old(repository.table)
    {
      err := repository.Delete(id);
    }

    /** Update(id, u): forwarded once with the converted user; the repository's error is
        returned unchanged. */
    method Update(id: int, u: D.User) returns (err: Option<Error>)
      modifies repository
      ensures repository.log == old(repository.log) + [Storage.UpdateCall(id, Converter.ToUserFromService(u))]
      ensures err == repository.failure(|old(repository.log)|)
      ensures repository.table ==
        if err.None? then old(repository.table).Replace(id, repository.withId(Converter.ToUserFromService(u), id))
        else old(repository.table)
    {
      err := repository.Update(id, Converter.ToUserFromService(u));
    }

    /** Create(u): the three lookups in order, each writing its field into u, stopping at
        the first failure and returning it; after all three, one repository call with the
        converted user, whose error is dropped. */
    method Create(u: D.UserRef) returns (err: Option<Error>)
      modifies repository, transport, u
      ensures var o := E.Lookup(old(u.name), transport.answer);
        && transport.requested == old(transport.requested) + o.requested
        && u.Value() == old(u.Value()).(age := o.age.GetOr(old(u.age)), gender := o.gender.GetOr(old(u.gender)),
                                        nationality := o.nationality.GetOr(old(u.nationality)))
        && err == o.failure
        && (o.failure.Some? ==> repository.log == old(repository.log) && repository.table == old(repository.table))
        && (o.failure.None? ==>
              repository.log == old(repository.log) + [Storage.CreateCall(Converter.ToUserFromService(u.Value()))]
              && repository.table ==
                   if repository.failure(|old(repository.log)|).None?
                   then old(repository.table).Insert(repository.withId(Converter.ToUserFromService(u.Value()), old(repository.table).nextId))
                   else old(repository.table))
    {
      ghost var name, before := u.name, transport.requested;
      ghost var o := E.Lookup(name, transport.answer);
      var ageReply := transport.Get(E.Api.Agify.Url(u.name));
      assert transport.requested == before + [E.Api.Agify.Url(name)];
      if ageReply.Failed? {
        assert o == E.Outcome([E.Api.Agify.Url(name)], None, None, None, E.StepFailure(E.Agify, ageReply));
        return Some(TransportFailure(ageReply.reason));
      }
      var ageInfo := E.DecodeAge(ageReply.body);
      if ageInfo.Err? {
        assert o == E.Outcome([E.Api.Agify.Url(name)], None, None, None, Some(ageInfo.error));
        return Some(ageInfo.error);
      }
      u.age := ageInfo.value;

      var genderReply := transport.Get(E.Api.Genderize.Url(u.name));
      assert transport.requested == before + [E.Api.Agify.Url(name), E.Api.Genderize.Url(name)];
      if genderReply.Failed? {
        assert o == E.Outcome([E.Api.Agify.Url(name), E.Api.Genderize.Url(name)], Some(ageInfo.value), None, None,
                              E.StepFailure(E.Genderize, genderReply));
        return Some(TransportFailure(genderReply.reason));
      }
      var genderInfo := E.DecodeGender(genderReply.body);
      if genderInfo.Err? {
        assert o == E.Outcome([E.Api.Agify.Url(name), E.Api.Genderize.Url(name)], Some(ageInfo.value), None, None,
                              Some(genderInfo.error));
        return Some(genderInfo.error);
      }
      u.gender := genderInfo.value;

      var nationalityReply := transport.Get(E.Api.Nationalize.Url(u.name));
      ghost var urls := [E.Api.Agify.Url(name), E.Api.Genderize.Url(name), E.Api.Nationalize.Url(name)];
      assert transport.requested == before + urls;
      if nationalityReply.Failed? {
        assert o == E.Outcome(urls, Some(ageInfo.value), Some(genderInfo.value), None,
                              E.StepFailure(E.Nationalize, nationalityReply));
        return Some(TransportFailure(nationalityReply.reason));
      }
      var nationalityInfo := E.DecodeNationality(nationalityReply.body);
      if nationalityInfo.Err? {
        assert o == E.Outcome(urls, Some(ageInfo.value), Some(genderInfo.value), None, Some(nationalityInfo.error));
        return Some(nationalityInfo.error);
      }
      u.nationality := nationalityInfo.value;
      assert o == E.Outcome(urls, Some(ageInfo.value), Some(genderInfo.value), Some(nationalityInfo.value), None);

      var _, storeErr := repository.Create(Converter.ToUserFromService(u.Value()));
      if storeErr.Some? {
        return None;
      }
      return None;
    }

    /** GetById(id): the converted row, or nil and the repository's error unchanged,
        ErrUserNotFound included. */
    method GetById(id: int) returns (user: Option<D.User>, err: Option<Error>)
      modifies repository
      ensures repository.log == old(repository.log) + [Storage.GetByIdCall(id)]
      ensures repository.table == old(repository.table)
      ensures err == if repository.failure(|old(repository.log)|).Some? then repository.failure(|old(repository.log)|)
                     else if id in repository.table.rows then None
                     else Some(UserNotFound)
      ensures err == Some(UserNotFound) <==> repository.failure(|old(repository.log)|).None? && id !in repository.table.rows
      ensures err.Some? ==> user == None
      ensures err.None? ==> user == Some(Converter.ToUserFromRepo(repository.table.rows[id]))
    {
      var row, e := repository.GetUserById(id);
      if e.Some? {
        return None, e;
      }
      return Some(Converter.ToUserFromRepo(row.value)), None;
    }
  }
}
