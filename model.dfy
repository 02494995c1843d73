/** The older shared records (internal/model/user.go) and their copy of the partial-update
    merge, with its agreement with the HTTP layer's merge. */
module Model {
  import opened Common
  import C = ControllerModel

  /** The ErrUserNotFound sentinel. */
  const ErrUserNotFound: Error := UserNotFound

  datatype User = User(id: int, name: string, surname: string, patronymic: string,
                       age: int, gender: string, nationality: string)

  datatype UserFilter = UserFilter(name: string, surname: string, patronymic: string,
                                   ageFrom: int, ageTo: int, gender: string,
                                   nationality: string, limit: int)

  /** A sparse patch: an empty string or a zero age means "leave this field alone". */
  datatype UpdateUser = UpdateUser(name: string, surname: string, patronymic: string,
                                   age: int, gender: string, nationality: string)
  {
    /** The user Copy leaves behind. */
    function MergeInto(user: User): User
    {
      User(user.id,
           if name != "" then name else user.name,
           if surname != "" then surname else user.surname,
           if patronymic != "" then patronymic else user.patronymic,
           if age != 0 then age else user.age,
           if gender != "" then gender else user.gender,
           if nationality != "" then nationality else user.nationality)
    }

    /** Copy(user): one guarded assignment per field onto the pointed-to user. */
    method Copy(user: UserRef)
      modifies user
      ensures user.Value() == MergeInto(old(user.Value()))
    {
      if name != "" {
        user.name := name;
      }
      if surname != "" {
        user.surname := surname;
      }
      if patronymic != "" {
        user.patronymic := patronymic;
      }
      if age != 0 {
        user.age := age;
      }
      if gender != "" {
        user.gender := gender;
      }
      if nationality != "" {
        user.nationality := nationality;
      }
    }
  }

  /** A `*User`, written field by field by Copy and by the enrichment helpers. */
  class UserRef {
    var id: int
    var name: string
    var surname: string
    var patronymic: string
    var age: int
    var gender: string
    var nationality: string

    constructor (u: User)
      ensures Value() == u
    {
      id, name, surname, patronymic := u.id, u.name, u.surname, u.patronymic;
      age, gender, nationality := u.age, u.gender, u.nationality;
    }

    /** The struct the pointer currently points to. */
    function Value(): User
      reads this
    {
      User(id, name, surname, patronymic, age, gender, nationality)
    }
  }

  /** The same record in the HTTP layer's package. */
  function AsController(u: User): C.User
  {
    C.User(u.id, u.name, u.surname, u.patronymic, u.age, u.gender, u.nationality)
  }

  function AsControllerPatch(p: UpdateUser): C.UpdateUser
  {
    C.UpdateUser(p.name, p.surname, p.patronymic, p.age, p.gender, p.nationality)
  }

  /** Both copies of the merge agree field for field. */
  lemma MergeAgreesWithController(patch: UpdateUser, user: User)
    ensures AsController(patch.MergeInto(user)) == AsControllerPatch(patch).MergeInto(AsController(user))
  {
  }

  /** Only the fields the patch sets change, never the id; each set field takes the patch's
      value (the age whenever it is non-zero, negative ages included); and this is the only
      user with both properties. */
  lemma MergeChangesOnlySetFields(patch: UpdateUser, user: User, other: User)
    ensures patch.MergeInto(user).id == user.id
    ensures C.Carries(AsControllerPatch(patch), AsController(patch.MergeInto(user)))
    ensures C.Differing(AsController(user), AsController(patch.MergeInto(user))) <= AsControllerPatch(patch).SetFields()
    ensures C.Carries(AsControllerPatch(patch), AsController(other))
            && C.Differing(AsController(user), AsController(other)) <= AsControllerPatch(patch).SetFields()
            ==> other == patch.MergeInto(user)
  {
    MergeAgreesWithController(patch, user);
    C.MergeChangesOnlySetFields(AsControllerPatch(patch), AsController(user));
    if C.Carries(AsControllerPatch(patch), AsController(other))
       && C.Differing(AsController(user), AsController(other)) <= AsControllerPatch(patch).SetFields() {
      C.MergeIsLeastChange(AsControllerPatch(patch), AsController(user), AsController(other));
    }
  }

  /** The empty patch is the identity and a patch applied twice is applied once. */
  lemma MergeIdentityAndIdempotence(patch: UpdateUser, user: User)
    ensures UpdateUser("", "", "", 0, "", "").MergeInto(user) == user
    ensures patch.MergeInto(patch.MergeInto(user)) == patch.MergeInto(user)
  {
  }
}
