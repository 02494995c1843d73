/** The HTTP layer's converters (internal/controller/http/v1/converter/user.go) between its
    records and the service layer's. */
module ControllerConverter {
  import C = ControllerModel
  import D = Domain
  import opened Validation

  /** The controller's and the service's user hold the same id and the same six fields. */
  predicate SameUser(c: C.User, d: D.User)
  {
    c.id == d.id && c.name == d.name && c.surname == d.surname && c.patronymic == d.patronymic
    && c.age == d.age && c.gender == d.gender && c.nationality == d.nationality
  }

  /** The two patches set the same six fields to the same values. */
  predicate SamePatch(c: C.UpdateUser, d: D.UpdateUser)
  {
    c.name == d.name && c.surname == d.surname && c.patronymic == d.patronymic
    && c.age == d.age && c.gender == d.gender && c.nationality == d.nationality
  }

  /** The two filters hold the same seven criteria and the same limit. */
  predicate SameFilter(c: C.UserFilter, d: D.UserFilter)
  {
    c.name == d.name && c.surname == d.surname && c.patronymic == d.patronymic
    && c.ageFrom == d.ageFrom && c.ageTo == d.ageTo && c.gender == d.gender
    && c.nationality == d.nationality && c.limit == d.limit
  }

  /** A creation request becomes a user holding only the three names: no id yet, and the
      age, gender and nationality left for the enrichment to fill. */
  function ToCreateUserFromController(user: C.CreateUser): (r: D.User)
    ensures r.name == user.name && r.surname == user.surname && r.patronymic == user.patronymic
    ensures r.id == 0 && r.age == 0 && r.gender == "" && r.nationality == ""
  {
    D.User(0, user.name, user.surname, user.patronymic, 0, "", "")
  }

  /** A patch is passed on field for field. */
  function ToUpdateUserFromController(user: C.UpdateUser): (r: D.UpdateUser)
    ensures SamePatch(user, r)
  {
    D.UpdateUser(user.name, user.surname, user.patronymic, user.age, user.gender, user.nationality)
  }

  /** A user is passed down field for field, id included. */
  function ToUserFromController(user: C.User): (r: D.User)
    ensures SameUser(user, r)
  {
    D.User(user.id, user.name, user.surname, user.patronymic, user.age, user.gender, user.nationality)
  }

  /** A filter is passed on field for field, limit included. */
  function ToUserFilterFromController(filter: C.UserFilter): (r: D.UserFilter)
    ensures SameFilter(filter, r)
  {
    D.UserFilter(filter.name, filter.surname, filter.patronymic, filter.ageFrom, filter.ageTo,
                 filter.gender, filter.nationality, filter.limit)
  }

  /** A user is passed up field for field, id included. */
  function ToUserFromService(user: D.User): (r: C.User)
    ensures SameUser(r, user)
  {
    C.User(user.id, user.name, user.surname, user.patronymic, user.age, user.gender, user.nationality)
  }

  /** Users cross the layer boundary unchanged, id included, in both directions. */
  lemma UserRoundTrips(c: C.User, d: D.User)
    ensures ToUserFromService(ToUserFromController(c)) == c
    ensures ToUserFromController(ToUserFromService(d)) == d
  {
  }

  /** Patches and filters are copied field for field: different inputs stay different, so
      no field (the filter's limit included) is dropped. */
  lemma PatchAndFilterConversionsInjective(p: C.UpdateUser, q: C.UpdateUser, f: C.UserFilter, g: C.UserFilter)
    ensures ToUpdateUserFromController(p) == ToUpdateUserFromController(q) ==> p == q
    ensures ToUserFilterFromController(f) == ToUserFilterFromController(g) ==> f == g
    ensures ToUserFilterFromController(f).limit == f.limit
  {
  }

  /** A valid creation request becomes a user that fails validation in exactly the three
      fields the service must still look up: age, gender and nationality. */
  lemma CreatedUserAwaitsEnrichment(request: C.CreateUser)
    requires request.Validate() == {}
    ensures ToUserFromService(ToCreateUserFromController(request)).Validate() == {C.Age, C.Gender, C.Nationality}
  {
    var u := ToUserFromService(ToCreateUserFromController(request));
    C.CreateUserValidateCharacterized(request);
    C.UserValidateNames(u);
    C.UserValidateTraits(u);
  }

  /** The update handler: the stored user is converted up, the patch is copied onto it and
      the result is converted back down. What reaches the service keeps the stored id,
      carries every field the patch sets, and differs from the stored user only there. */
  function UpdateHandler(stored: D.User, patch: C.UpdateUser): (r: D.User)
    ensures r.id == stored.id
    ensures C.Carries(patch, ToUserFromService(r))
    ensures C.Differing(ToUserFromService(stored), ToUserFromService(r)) <= patch.SetFields()
  {
    C.MergeChangesOnlySetFields(patch, ToUserFromService(stored));
    ToUserFromController(patch.MergeInto(ToUserFromService(stored)))
  }

  /** The handler's result is the stored user with the patch merged in, id kept. */
  lemma UpdateHandlerMerges(stored: D.User, patch: C.UpdateUser)
    ensures UpdateHandler(stored, patch).id == stored.id
    ensures ToUserFromService(UpdateHandler(stored, patch)) == patch.MergeInto(ToUserFromService(stored))
    ensures C.Differing(ToUserFromService(stored), ToUserFromService(UpdateHandler(stored, patch))) <= patch.SetFields()
  {
    C.MergeChangesOnlySetFields(patch, ToUserFromService(stored));
  }

  /** The update handler's test: patch {"name":"Ivan"} onto the empty stored user. */
  lemma UpdateHandlerTestCase()
    ensures UpdateHandler(D.User(0, "", "", "", 0, "", ""), C.UpdateUser("Ivan", "", "", 0, "", ""))
         == D.User(0, "Ivan", "", "", 0, "", "")
  {
  }
}
