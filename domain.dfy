/** The service layer's records. The domain package itself is not part of this model; its
    types are taken to be field-for-field those of internal/service/model/user.go, which the
    older service converter works on. */
module Domain {

  datatype User = User(id: int, name: string, surname: string, patronymic: string,
                       age: int, gender: string, nationality: string)

  /** A sparse patch: an empty string or a zero age means "leave this field alone". */
  datatype UpdateUser = UpdateUser(name: string, surname: string, patronymic: string,
                                   age: int, gender: string, nationality: string)

  datatype UserFilter = UserFilter(name: string, surname: string, patronymic: string,
                                   ageFrom: int, ageTo: int, gender: string,
                                   nationality: string, limit: int)

  /** A `*User` handed to the service, which writes the looked-up fields into it. */
  class UserRef {
    var id: int
    var name: string
    var surname: string
    var patronymic: string
    var age: int
    var gender: string
    var nationality: string

    constructor (u: User)
      ensures Value() == u
    {
      id, name, surname, patronymic := u.id, u.name, u.surname, u.patronymic;
      age, gender, nationality := u.age, u.gender, u.nationality;
    }

    /** The struct the pointer currently points to. */
    function Value(): User
      reads this
    {
      User(id, name, surname, patronymic, age, gender, nationality)
    }
  }
}
