/** The service layer's converters to and from the repository's records
    (internal/converter/user.go; internal/service/converter/user.go is the same code over
    the service model's identical types). None of them copies the id. */
module Converter {
  import D = Domain
  import P = PostgresModel

  /** The service's user and the repository's row hold the same six data fields. */
  predicate SameData(u: D.User, r: P.User)
  {
    u.name == r.name && u.surname == r.surname && u.patronymic == r.patronymic
    && u.age == r.age && u.gender == r.gender && u.nationality == r.nationality
  }

  /** The two filters hold the same seven criteria and the same limit. */
  predicate SameFilter(f: D.UserFilter, g: P.UserFilter)
  {
    f.name == g.name && f.surname == g.surname && f.patronymic == g.patronymic
    && f.ageFrom == g.ageFrom && f.ageTo == g.ageTo && f.gender == g.gender
    && f.nationality == g.nationality && f.limit == g.limit
  }

  /** The row to store: the six data fields, and id 0 whatever the user's id. */
  function ToUserFromService(user: D.User): (r: P.User)
    ensures SameData(user, r) && r.id == 0
  {
    P.User(0, user.name, user.surname, user.patronymic, user.age, user.gender, user.nationality)
  }

  /** The repository's filter: the same criteria and the same limit. */
  function ToUserFilterFromService(filter: D.UserFilter): (r: P.UserFilter)
    ensures SameFilter(filter, r)
  {
    P.UserFilter(filter.name, filter.surname, filter.patronymic, filter.ageFrom, filter.ageTo,
                 filter.gender, filter.nationality, filter.limit)
  }

  /** The user a row describes: the six data fields, and id 0 whatever the row's id. */
  function ToUserFromRepo(user: P.User): (r: D.User)
    ensures SameData(r, user) && r.id == 0
  {
    D.User(0, user.name, user.surname, user.patronymic, user.age, user.gender, user.nationality)
  }

  /** A round trip through the other layer keeps the six data fields and resets the id:
      it is the identity exactly on records whose id is already 0. */
  lemma RoundTripsResetId(u: D.User, r: P.User)
    ensures ToUserFromRepo(ToUserFromService(u)) == u.(id := 0)
    ensures ToUserFromService(ToUserFromRepo(r)) == r.(id := 0)
    ensures ToUserFromRepo(ToUserFromService(u)) == u <==> u.id == 0
    ensures ToUserFromService(ToUserFromRepo(r)) == r <==> r.id == 0
  {
  }

  /** Users that differ only in the id are stored as the same row. */
  lemma StoredRowIgnoresId(u: D.User, id: int)
    ensures ToUserFromService(u.(id := id)) == ToUserFromService(u)
  {
  }

  /** The filter keeps all eight fields, so the repository sees the same criteria and the
      same limit. */
  lemma FilterConversionKeepsCriteria(f: D.UserFilter, g: D.UserFilter)
    ensures ToUserFilterFromService(f) == ToUserFilterFromService(g) ==> f == g
    ensures ToUserFilterFromService(f).limit == f.limit
    ensures P.NoCriteria(ToUserFilterFromService(f)) <==>
              f == D.UserFilter("", "", "", 0, 0, "", "", f.limit)
  {
  }
}
