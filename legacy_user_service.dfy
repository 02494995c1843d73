/** The older UserService of internal/service/userservice.go: the service layer over the
    shared records of internal/model, with unsigned ids and no conversion at all. */
module LegacyUserService {
  import opened Common
  import opened HttpTransport
  import E = Enrichment
  import M = Model
  import Storage

  class UserService {
    const repository: Storage.Repository<M.UserFilter, M.User>
    const transport: Transport

    /** New(repository, transport). */
    constructor (repository: Storage.Repository<M.UserFilter, M.User>, transport: Transport)
      ensures this.repository == repository && this.transport == transport
    {
      this.repository := repository;
      this.transport := transport;
    }

    /** Get(filter): the repository's rows as they are, or nil and its error. The nil slice
        the repository returns when no row matched is passed on as nil. */
    method Get(filter: M.UserFilter) returns (users: Option<seq<M.User>>, err: Option<Error>)
      modifies repository
      ensures repository.log == old(repository.log) + [Storage.GetCall(filter)]
      ensures repository.table == old(repository.table)
      ensures err == repository.failure(|old(repository.log)|)
      ensures err.Some? ==> users == None
      ensures err.None? ==> users == if repository.select(repository.table, filter) == [] then None
                                     else Some(repository.select(repository.table, filter))
    {
      var rows, e := repository.Get(filter);
      if e.Some? {
        return None, e;
      }
      return rows, None;
    }

    /** Delete(id): forwarded once; the repository's error is returned unchanged. */
    method Delete(id: nat) returns (err: Option<Error>)
      modifies repository
      ensures repository.log == old(repository.log) + [Storage.DeleteCall(id)]
      ensures err == repository.failure(|old(repository.log)|)
      ensures repository.table == if err.None? then old(repository.table).Remove(id) else old(repository.table)
    {
      err := repository.Delete(id);
    }

    /** Update(id, u): forwarded once with u itself; the repository's error is returned
        unchanged. */
    method Update(id: nat, u: M.User) returns (err: Option<Error>)
      modifies repository
      ensures repository.log == old(repository.log) + [Storage.UpdateCall(id, u)]
      ensures err == repository.failure(|old(repository.log)|)
      ensures repository.table ==
        if err.None? then old(repository.table).Replace(id, repository.withId(u, id)) else old(repository.table)
    {
      err := repository.Update(id, u);
    }

    /** Create(u): agify, genderize and nationalize in order, each writing its field into u
        as soon as it succeeds, stopping at the first failure and returning it; after all
        three, one repository call with u itself, whose error is dropped. */
    method Create(u: M.UserRef) returns (err: Option<Error>)
      modifies repository, transport, u
      ensures var o := E.Lookup(old(u.name), transport.answer);
        && transport.requested == old(transport.requested) + o.requested
        && u.Value() == old(u.Value()).(age := o.age.GetOr(old(u.age)), gender := o.gender.GetOr(old(u.gender)),
                                        nationality := o.nationality.GetOr(old(u.nationality)))
        && err == o.failure
        && (o.failure.Some? ==> repository.log == old(repository.log) && repository.table == old(repository.table))
        && (o.failure.None? ==>
              repository.log == old(repository.log) + [Storage.CreateCall(u.Value())]
              && repository.table ==
                   if repository.failure(|old(repository.log)|).None?
                   then old(repository.table).Insert(repository.withId(u.Value(), old(repository.table).nextId))
                   else old(repository.table))
    {
      ghost var name, before := u.name, transport.requested;
      ghost var o := E.Lookup(name, transport.answer);
      var ageResponse := transport.Get(E.Api.Agify.Url(u.name));
      assert transport.requested == before + [E.Api.Agify.Url(name)];
      if ageResponse.Failed? {
        assert o == E.Outcome([E.Api.Agify.Url(name)], None, None, None, E.StepFailure(E.Agify, ageResponse));
        return Some(TransportFailure(ageResponse.reason));
      }
      err := E.AgifyInto(ageResponse.body, u);
      if err.Some? {
        assert o == E.Outcome([E.Api.Agify.Url(name)], None, None, None, err);
        return;
      }
      ghost var age := u.age;

      var genderResponse := transport.Get(E.Api.Genderize.Url(u.name));
      assert transport.requested == before + [E.Api.Agify.Url(name), E.Api.Genderize.Url(name)];
      if genderResponse.Failed? {
        assert o == E.Outcome([E.Api.Agify.Url(name), E.Api.Genderize.Url(name)], Some(age), None, None,
                              E.StepFailure(E.Genderize, genderResponse));
        return Some(TransportFailure(genderResponse.reason));
      }
      err := E.GenderizeInto(genderResponse.body, u);
      if err.Some? {
        assert o == E.Outcome([E.Api.Agify.Url(name), E.Api.Genderize.Url(name)], Some(age), None, None, err);
        return;
      }
      ghost var gender := u.gender;

      var nationalityResponse := transport.Get(E.Api.Nationalize.Url(u.name));
      ghost var urls := [E.Api.Agify.Url(name), E.Api.Genderize.Url(name), E.Api.Nationalize.Url(name)];
      assert transport.requested == before + urls;
      if nationalityResponse.Failed? {
        assert o == E.Outcome(urls, Some(age), Some(gender), None, E.StepFailure(E.Nationalize, nationalityResponse));
        return Some(TransportFailure(nationalityResponse.reason));
      }
      err := E.NationalizeInto(nationalityResponse.body, u);
      if err.Some? {
        assert o == E.Outcome(urls, Some(age), Some(gender), None, err);
        return;
      }
      assert o == E.Outcome(urls, Some(age), Some(gender), Some(u.nationality), None);

      var _, storeErr := repository.Create(u.Value());
      if storeErr.Some? {
        return None;
      }
      return None;
    }

    /** GetById(id): the stored row as it is, id included, or nil and the repository's
        error unchanged, ErrUserNotFound included. */
    method GetById(id: nat) returns (user: Option<M.User>, err: Option<Error>)
      modifies repository
      ensures repository.log == old(repository.log) + [Storage.GetByIdCall(id)]
      ensures repository.table == old(repository.table)
      ensures err == if repository.failure(|old(repository.log)|).Some? then repository.failure(|old(repository.log)|)
                     else if id in repository.table.rows then None
                     else Some(M.ErrUserNotFound)
      ensures err == Some(M.ErrUserNotFound) <==> repository.failure(|old(repository.log)|).None? && id !in repository.table.rows
      ensures err.Some? ==> user == None
      ensures err.None? ==> user == Some(repository.table.rows[id])
    {
      var row, e := repository.GetUserById(id);
      if e.Some? {
        return None, e;
      }
      return row, None;
    }
  }
}
