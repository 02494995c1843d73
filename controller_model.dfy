/** The HTTP layer's records (internal/controller/http/v1/model/user.go): their validation
    rules, the partial-update merge `UpdateUser.Copy`, and `UserFilter.FillFilters`, which
    reads the query string of GET /api/v1/users. */
module ControllerModel {
  import opened Common
  import opened Validation
  import Strconv

  const Genders: set<string> := {"male", "female"}

  /** The fields of the controller's records, as Validate names the ones that fail. */
  datatype Field = Id | Name | Surname | Patronymic | Age | AgeFrom | AgeTo | Gender | Nationality | Limit

  /** The validated fields of User and UpdateUser. */
  const UserFields: set<Field> := {Name, Surname, Patronymic, Age, Gender, Nationality}

  datatype User = User(id: int, name: string, surname: string, patronymic: string,
                       age: int, gender: string, nationality: string)
  {
    /** The rules of field `f` accept this user. */
    predicate Passes(f: Field)
    {
      match f
      case Name => RequiredText(name) && Length(name, 0, 255) && Alpha(name)
      case Surname => RequiredText(surname) && Length(surname, 0, 255) && Alpha(surname)
      case Patronymic => Length(patronymic, 0, 255) && Alpha(patronymic)
      case Age => RequiredNumber(age) && Min(age, 1) && Max(age, 100)
      case Gender => RequiredText(gender) && In(gender, Genders)
      case Nationality => RequiredText(nationality) && Length(nationality, 2, 2) && Alpha(nationality)
      case _ => true
    }

    /** User.Validate: the fields whose rules fail; the user is valid when there are none.
        A valid user is complete: it has both names, an age, a gender and a nationality. */
    function Validate(): (r: set<Field>)
      ensures r <= UserFields
      ensures r == {} ==> name != "" && surname != "" && 1 <= age <= 100 && gender in Genders
                          && nationality != ""
    {
      var r := set f | f in UserFields && !Passes(f);
      assert r == {} ==> Name !in r && Surname !in r && Age !in r && Gender !in r && Nationality !in r;
      r
    }
  }

  datatype CreateUser = CreateUser(name: string, surname: string, patronymic: string)
  {
    /** The rules of field `f` accept this request. */
    predicate Passes(f: Field)
    {
      match f
      case Name => RequiredText(name) && Length(name, 1, 255) && Alpha(name)
      case Surname => RequiredText(surname) && Length(surname, 1, 255) && Alpha(surname)
      case Patronymic => Length(patronymic, 0, 255) && Alpha(patronymic)
      case _ => true
    }

    /** CreateUser.Validate: the fields whose rules fail; a valid request has both names. */
    function Validate(): (r: set<Field>)
      ensures r <= {Name, Surname, Patronymic}
      ensures r == {} ==> name != "" && surname != ""
    {
      var r := set f | f in {Name, Surname, Patronymic} && !Passes(f);
      assert r == {} ==> Name !in r && Surname !in r;
      r
    }
  }

  /** A sparse patch: an empty string or a zero age means "leave this field alone". */
  datatype UpdateUser = UpdateUser(name: string, surname: string, patronymic: string,
                                   age: int, gender: string, nationality: string)
  {
    /** The rules of field `f` accept this patch. */
    predicate Passes(f: Field)
    {
      match f
      case Name => Length(name, 0, 255) && Alpha(name)
      case Surname => Length(surname, 0, 255) && Alpha(surname)
      case Patronymic => Length(patronymic, 0, 255) && Alpha(patronymic)
      case Age => Min(age, 1) && Max(age, 100)
      case Gender => In(gender, Genders)
      case Nationality => Length(nationality, 2, 2) && Alpha(nationality)
      case _ => true
    }

    /** UpdateUser.Validate: the fields whose rules fail; a field the patch leaves empty
        never does. */
    function Validate(): (r: set<Field>)
      ensures r <= UserFields
      ensures forall f :: f in r ==> Sets(f)
    {
      set f | f in UserFields && !Passes(f)
    }

    /** The patch sets field `f`: a non-empty string, or a non-zero age. */
    predicate Sets(f: Field)
    {
      match f
      case Name => name != ""
      case Surname => surname != ""
      case Patronymic => patronymic != ""
      case Age => age != 0
      case Gender => gender != ""
      case Nationality => nationality != ""
      case _ => false
    }

    /** The fields this patch sets. */
    function SetFields(): set<Field>
    {
      set f | f in UserFields && Sets(f)
    }

    /** The user Copy leaves behind: each field the patch sets overwrites the user's. */
    function MergeInto(user: User): User
    {
      User(user.id,
           if name != "" then name else user.name,
           if surname != "" then surname else user.surname,
           if patronymic != "" then patronymic else user.patronymic,
           if age != 0 then age else user.age,
           if gender != "" then gender else user.gender,
           if nationality != "" then nationality else user.nationality)
    }

    /** Copy(user): one guarded assignment per field onto the pointed-to user. */
    method Copy(user: UserRef)
      modifies user
      ensures user.Value() == MergeInto(old(user.Value()))
    {
      if name != "" {
        user.name := name;
      }
      if surname != "" {
        user.surname := surname;
      }
      if patronymic != "" {
        user.patronymic := patronymic;
      }
      if age != 0 {
        user.age := age;
      }
      if gender != "" {
        user.gender := gender;
      }
      if nationality != "" {
        user.nationality := nationality;
      }
    }
  }

  /** The patch that sets nothing. */
  const NoChange: UpdateUser := UpdateUser("", "", "", 0, "", "")

  /** A `*User`: a User whose fields are assigned in place. */
  class UserRef {
    var id: int
    var name: string
    var surname: string
    var patronymic: string
    var age: int
    var gender: string
    var nationality: string

    constructor (u: User)
      ensures Value() == u
    {
      id, name, surname, patronymic := u.id, u.name, u.surname, u.patronymic;
      age, gender, nationality := u.age, u.gender, u.nationality;
    }

    /** The struct the pointer currently points to. */
    function Value(): User
      reads this
    {
      User(id, name, surname, patronymic, age, gender, nationality)
    }
  }

  /** The fields of a user record. */
  const RecordFields: set<Field> := {Id, Name, Surname, Patronymic, Age, Gender, Nationality}

  /** Two users hold the same value in field `f`. */
  predicate Agree(a: User, b: User, f: Field)
  {
    match f
    case Id => a.id == b.id
    case Name => a.name == b.name
    case Surname => a.surname == b.surname
    case Patronymic => a.patronymic == b.patronymic
    case Age => a.age == b.age
    case Gender => a.gender == b.gender
    case Nationality => a.nationality == b.nationality
    case _ => true
  }

  /** The fields in which two users differ. */
  function Differing(a: User, b: User): set<Field>
  {
    set f | f in RecordFields && !Agree(a, b, f)
  }

  /** Every field the patch sets holds the patch's value in `u`. */
  predicate Carries(patch: UpdateUser, u: User)
  {
    && (patch.name != "" ==> u.name == patch.name)
    && (patch.surname != "" ==> u.surname == patch.surname)
    && (patch.patronymic != "" ==> u.patronymic == patch.patronymic)
    && (patch.age != 0 ==> u.age == patch.age)
    && (patch.gender != "" ==> u.gender == patch.gender)
    && (patch.nationality != "" ==> u.nationality == patch.nationality)
  }

  /** The merge carries the patch and changes only the fields the patch sets, never the id. */
  lemma MergeChangesOnlySetFields(patch: UpdateUser, user: User)
    ensures Carries(patch, patch.MergeInto(user))
    ensures Differing(user, patch.MergeInto(user)) <= patch.SetFields()
    ensures patch.MergeInto(user).id == user.id
  {
  }

  /** The merge is the only user that carries the patch and changes nothing else: it is the
      least change that applies the patch. */
  lemma MergeIsLeastChange(patch: UpdateUser, user: User, other: User)
    requires Carries(patch, other) && Differing(user, other) <= patch.SetFields()
    ensures other == patch.MergeInto(user)
  {
    forall f | f in RecordFields
      ensures Agree(patch.MergeInto(user), other, f)
    {
      assert f in Differing(user, other) ==> patch.Sets(f);
    }
    assert Agree(patch.MergeInto(user), other, Id);
  }

  /** Field `f` of the patch equals the user's current value. */
  predicate SameValue(patch: UpdateUser, user: User, f: Field)
  {
    match f
    case Name => patch.name == user.name
    case Surname => patch.surname == user.surname
    case Patronymic => patch.patronymic == user.patronymic
    case Age => patch.age == user.age
    case Gender => patch.gender == user.gender
    case Nationality => patch.nationality == user.nationality
    case _ => false
  }

  /** The merge changes exactly the fields the patch sets to a new value. */
  lemma MergeChangesExactlyNewValues(patch: UpdateUser, user: User)
    ensures Differing(user, patch.MergeInto(user))
         == set f | f in patch.SetFields() && !SameValue(patch, user, f)
  {
    var m := patch.MergeInto(user);
    forall g: Field
      ensures g in Differing(user, m) <==> g in patch.SetFields() && !SameValue(patch, user, g)
    {
      match g
      case Id =>
      case Name =>
      case Surname =>
      case Patronymic =>
      case Age =>
      case Gender =>
      case Nationality =>
      case _ =>
    }
  }

  /** The empty patch changes nothing, and applying a patch twice is applying it once. */
  lemma MergeIdentityAndIdempotence(patch: UpdateUser, user: User)
    ensures NoChange.MergeInto(user) == user
    ensures patch.MergeInto(patch.MergeInto(user)) == patch.MergeInto(user)
  {
  }

  /** The patch made of `second`'s set fields over `first`'s. */
  function Then(first: UpdateUser, second: UpdateUser): UpdateUser
  {
    UpdateUser(if second.name != "" then second.name else first.name,
               if second.surname != "" then second.surname else first.surname,
               if second.patronymic != "" then second.patronymic else first.patronymic,
               if second.age != 0 then second.age else first.age,
               if second.gender != "" then second.gender else first.gender,
               if second.nationality != "" then second.nationality else first.nationality)
  }

  /** Two merges in a row are one merge of the combined patch. */
  lemma MergeComposes(first: UpdateUser, second: UpdateUser, user: User)
    ensures second.MergeInto(first.MergeInto(user)) == Then(first, second).MergeInto(user)
  {
  }

  /** User.Validate accepts exactly: a name and a surname of 1 to 255 ASCII letters, and a
      patronymic of at most 255 ASCII letters (possibly none). */
  lemma UserValidateNames(u: User)
    ensures Name in u.Validate() <==> !(1 <= |u.name| <= 255 && Alpha(u.name))
    ensures Surname in u.Validate() <==> !(1 <= |u.surname| <= 255 && Alpha(u.surname))
    ensures Patronymic in u.Validate() <==> !(|u.patronymic| <= 255 && Alpha(u.patronymic))
    ensures Id !in u.Validate()
  {
    if Alpha(u.name) { AlphaLength(u.name); }
    if Alpha(u.surname) { AlphaLength(u.surname); }
    if Alpha(u.patronymic) { AlphaLength(u.patronymic); }
  }

  /** ... and an age in 1..100, the gender "male" or "female", and a nationality of exactly
      two ASCII letters. */
  lemma UserValidateTraits(u: User)
    ensures Age in u.Validate() <==> !(1 <= u.age <= 100)
    ensures Gender in u.Validate() <==> u.gender !in Genders
    ensures Nationality in u.Validate() <==> !(|u.nationality| == 2 && Alpha(u.nationality))
    ensures u.Validate() <= UserFields
  {
    if Alpha(u.nationality) { AlphaLength(u.nationality); }
  }

  /** CreateUser.Validate demands a name and a surname of 1 to 255 ASCII letters and
      allows a missing patronymic. */
  lemma CreateUserValidateCharacterized(u: CreateUser)
    ensures Name in u.Validate() <==> !(1 <= |u.name| <= 255 && Alpha(u.name))
    ensures Surname in u.Validate() <==> !(1 <= |u.surname| <= 255 && Alpha(u.surname))
    ensures Patronymic in u.Validate() <==> !(|u.patronymic| <= 255 && Alpha(u.patronymic))
    ensures u.Validate() <= {Name, Surname, Patronymic}
  {
    if Alpha(u.name) { AlphaLength(u.name); }
    if Alpha(u.surname) { AlphaLength(u.surname); }
    if Alpha(u.patronymic) { AlphaLength(u.patronymic); }
  }

  /** UpdateUser.Validate judges only the fields the patch sets, by the rules of User: the
      names... */
  lemma UpdateUserValidateNames(u: UpdateUser)
    ensures Name in u.Validate() <==> !(|u.name| <= 255 && Alpha(u.name))
    ensures Surname in u.Validate() <==> !(|u.surname| <= 255 && Alpha(u.surname))
    ensures Patronymic in u.Validate() <==> !(|u.patronymic| <= 255 && Alpha(u.patronymic))
  {
    if Alpha(u.name) { AlphaLength(u.name); }
    if Alpha(u.surname) { AlphaLength(u.surname); }
    if Alpha(u.patronymic) { AlphaLength(u.patronymic); }
  }

  /** ... and the age, gender and nationality. */
  lemma UpdateUserValidateTraits(u: UpdateUser)
    ensures Age in u.Validate() <==> !(u.age == 0 || 1 <= u.age <= 100)
    ensures Gender in u.Validate() <==> !(u.gender == "" || u.gender in Genders)
    ensures Nationality in u.Validate() <==> !(u.nationality == "" || (|u.nationality| == 2 && Alpha(u.nationality)))
  {
    if Alpha(u.nationality) { AlphaLength(u.nationality); }
  }

  /** A patch is never faulted for a field it leaves unset. */
  lemma ValidateOnlySetFields(u: UpdateUser)
    ensures u.Validate() <= u.SetFields()
  {
    forall f | f in u.Validate()
      ensures f in u.SetFields()
    {
      assert !u.Passes(f);
    }
  }

  /** A valid patch merged onto a valid user leaves a valid user. */
  lemma MergeKeepsValid(patch: UpdateUser, user: User)
    requires patch.Validate() == {} && user.Validate() == {}
    ensures patch.MergeInto(user).Validate() == {}
  {
    UserValidateNames(user);
    UserValidateTraits(user);
    UpdateUserValidateNames(patch);
    UpdateUserValidateTraits(patch);
    UserValidateNames(patch.MergeInto(user));
    UserValidateTraits(patch.MergeInto(user));
  }

  /** The User validation cases of the records' unit tests: two valid users... */
  lemma UserValidationTestCases()
    ensures User(0, "Ivan", "Ivanov", "Ivanovich", 20, "male", "RU").Validate() == {}
    ensures User(0, "Ivan", "Ivanov", "", 20, "male", "RU").Validate() == {}
  {
    UserValidateNames(User(0, "Ivan", "Ivanov", "Ivanovich", 20, "male", "RU"));
    UserValidateTraits(User(0, "Ivan", "Ivanov", "Ivanovich", 20, "male", "RU"));
    UserValidateNames(User(0, "Ivan", "Ivanov", "", 20, "male", "RU"));
    UserValidateTraits(User(0, "Ivan", "Ivanov", "", 20, "male", "RU"));
  }

  /** ... each missing name refused on its own... */
  lemma UserValidationMissingNameCases()
    ensures User(0, "", "Ivanov", "Ivanovich", 20, "male", "RU").Validate() == {Name}
    ensures User(0, "Ivan", "", "Ivanovich", 20, "male", "RU").Validate() == {Surname}
  {
    UserValidateNames(User(0, "", "Ivanov", "Ivanovich", 20, "male", "RU"));
    UserValidateTraits(User(0, "", "Ivanov", "Ivanovich", 20, "male", "RU"));
    UserValidateNames(User(0, "Ivan", "", "Ivanovich", 20, "male", "RU"));
    UserValidateTraits(User(0, "Ivan", "", "Ivanovich", 20, "male", "RU"));
  }

  /** ... and each bad or missing trait refused on its own. */
  lemma UserValidationTraitCases()
    ensures User(0, "Ivan", "Ivanov", "Ivanovich", 0, "male", "RU").Validate() == {Age}
    ensures User(0, "Ivan", "Ivanov", "Ivanovich", -1, "male", "RU").Validate() == {Age}
    ensures User(0, "Ivan", "Ivanov", "Ivanovich", 20, "", "RU").Validate() == {Gender}
    ensures User(0, "Ivan", "Ivanov", "Ivanovich", 20, "male", "").Validate() == {Nationality}
  {
    UserValidateNames(User(0, "Ivan", "Ivanov", "Ivanovich", 0, "male", "RU"));
    UserValidateTraits(User(0, "Ivan", "Ivanov", "Ivanovich", 0, "male", "RU"));
    UserValidateNames(User(0, "Ivan", "Ivanov", "Ivanovich", -1, "male", "RU"));
    UserValidateTraits(User(0, "Ivan", "Ivanov", "Ivanovich", -1, "male", "RU"));
    UserValidateNames(User(0, "Ivan", "Ivanov", "Ivanovich", 20, "", "RU"));
    UserValidateTraits(User(0, "Ivan", "Ivanov", "Ivanovich", 20, "", "RU"));
    UserValidateNames(User(0, "Ivan", "Ivanov", "Ivanovich", 20, "male", ""));
    UserValidateTraits(User(0, "Ivan", "Ivanov", "Ivanovich", 20, "male", ""));
  }

  /** The CreateUser validation cases of the records' unit tests. */
  lemma CreateUserValidationTestCases()
    ensures CreateUser("Ivan", "Ivanov", "Ivanovich").Validate() == {}
    ensures CreateUser("Ivan", "Ivanov", "").Validate() == {}
    ensures CreateUser("", "Ivanov", "Ivanovich").Validate() == {Name}
    ensures CreateUser("Ivan", "", "Ivanovich").Validate() == {Surname}
  {
    CreateUserValidateCharacterized(CreateUser("Ivan", "Ivanov", "Ivanovich"));
    CreateUserValidateCharacterized(CreateUser("Ivan", "Ivanov", ""));
    CreateUserValidateCharacterized(CreateUser("", "Ivanov", "Ivanovich"));
    CreateUserValidateCharacterized(CreateUser("Ivan", "", "Ivanovich"));
  }

  /** The UpdateUser validation cases of the records' unit tests. */
  lemma UpdateUserValidationTestCases()
    ensures UpdateUser("Иван", "", "", 0, "", "").Validate() == {Name}
    ensures UpdateUser("", "Иванов", "", 0, "", "").Validate() == {Surname}
    ensures UpdateUser("Иванович", "", "", 0, "", "").Validate() == {Name}
    ensures UpdateUser("", "", "Иванович", 0, "", "").Validate() == {Patronymic}
    ensures UpdateUser("", "", "", -1, "", "").Validate() == {Age}
    ensures UpdateUser("", "", "", 0, "email", "").Validate() == {Gender}
    ensures UpdateUser("", "", "", 0, "", "Russia").Validate() == {Nationality}
  {
    assert !IsAsciiLetter("Иван"[0]);
    assert !IsAsciiLetter("Иванов"[0]);
    assert !IsAsciiLetter("Иванович"[0]);
    UpdateUserValidateTraits(UpdateUser("", "", "", 0, "", "Russia"));
  }

  /** A filter: exact-match strings, an age range and a row limit; zero values are unset. */
  datatype UserFilter = UserFilter(name: string, surname: string, patronymic: string,
                                   ageFrom: int, ageTo: int, gender: string,
                                   nationality: string, limit: int)
  {
    /** The rules of field `f` accept this filter. */
    predicate Passes(f: Field)
    {
      match f
      case Name => Length(name, 0, 255) && Alpha(name)
      case Surname => Length(surname, 0, 255) && Alpha(surname)
      case Patronymic => Length(patronymic, 0, 255) && Alpha(patronymic)
      case AgeFrom => Min(ageFrom, 1) && Max(ageFrom, 100)
      case AgeTo => Min(ageTo, 1) && Max(ageTo, 100)
      case Gender => In(gender, Genders)
      case Nationality => Length(nationality, 2, 2) && Alpha(nationality)
      case Limit => Min(limit, 1) && Max(limit, 50)
      case _ => true
    }

    /** UserFilter.Validate: the fields whose rules fail; a valid filter has each set age
        bound in 1..100 and a set limit in 1..50. */
    function Validate(): (r: set<Field>)
      ensures r <= FilterFields
      ensures r == {} ==> (ageFrom == 0 || 1 <= ageFrom <= 100) && (ageTo == 0 || 1 <= ageTo <= 100)
                          && (limit == 0 || 1 <= limit <= 50)
    {
      var r := set f | f in FilterFields && !Passes(f);
      assert r == {} ==> AgeFrom !in r && AgeTo !in r && Limit !in r;
      r
    }
  }

  /** The validated fields of UserFilter. */
  const FilterFields: set<Field> := {Name, Surname, Patronymic, AgeFrom, AgeTo, Gender, Nationality, Limit}

  /** UserFilter.Validate accepts exactly the filters whose set string fields obey the
      rules of User. */
  lemma UserFilterValidateText(f: UserFilter)
    ensures Name in f.Validate() <==> !(|f.name| <= 255 && Alpha(f.name))
    ensures Surname in f.Validate() <==> !(|f.surname| <= 255 && Alpha(f.surname))
    ensures Patronymic in f.Validate() <==> !(|f.patronymic| <= 255 && Alpha(f.patronymic))
    ensures Gender in f.Validate() <==> !(f.gender == "" || f.gender in Genders)
    ensures Nationality in f.Validate() <==> !(f.nationality == "" || (|f.nationality| == 2 && Alpha(f.nationality)))
  {
    if Alpha(f.name) { AlphaLength(f.name); }
    if Alpha(f.surname) { AlphaLength(f.surname); }
    if Alpha(f.patronymic) { AlphaLength(f.patronymic); }
    if Alpha(f.nationality) { AlphaLength(f.nationality); }
  }

  /** UserFilter.Validate accepts age bounds in 1..100 and a limit in 1..50, each when set. */
  lemma UserFilterValidateNumbers(f: UserFilter)
    ensures AgeFrom in f.Validate() <==> !(f.ageFrom == 0 || 1 <= f.ageFrom <= 100)
    ensures AgeTo in f.Validate() <==> !(f.ageTo == 0 || 1 <= f.ageTo <= 100)
    ensures Limit in f.Validate() <==> !(f.limit == 0 || 1 <= f.limit <= 50)
    ensures Id !in f.Validate() && Age !in f.Validate()
  {
    assert AgeFrom in f.Validate() <==> !f.Passes(AgeFrom);
    assert AgeTo in f.Validate() <==> !f.Passes(AgeTo);
    assert Limit in f.Validate() <==> !f.Passes(Limit);
  }

  /** The filter validation cases of the records' unit tests (the case labelled an invalid
      patronymic sets the name, and the one labelled an invalid ageTo sets ageFrom), and a
      limit just over the bound. */
  lemma FilterValidationTestCases()
    ensures UserFilter("Иван", "", "", 0, 0, "", "", 0).Validate() == {Name}
    ensures UserFilter("", "Иванов", "", 0, 0, "", "", 0).Validate() == {Surname}
    ensures UserFilter("Иванович", "", "", 0, 0, "", "", 0).Validate() == {Name}
    ensures UserFilter("", "", "", 101, 0, "", "", 0).Validate() == {AgeFrom}
    ensures UserFilter("", "", "", -1, 0, "", "", 0).Validate() == {AgeFrom}
    ensures UserFilter("", "", "", 0, 0, "email", "", 0).Validate() == {Gender}
    ensures UserFilter("", "", "", 0, 0, "", "Russia", 0).Validate() == {Nationality}
    ensures UserFilter("", "", "", 0, 0, "", "", -1).Validate() == {Limit}
    ensures UserFilter("", "", "", 0, 0, "", "", 51).Validate() == {Limit}
  {
    assert !IsAsciiLetter("Иван"[0]);
    assert !IsAsciiLetter("Иванов"[0]);
    assert !IsAsciiLetter("Иванович"[0]);
    UserFilterValidateText(UserFilter("", "", "", 0, 0, "", "Russia", 0));
  }

  /** url.Values: every query key with the values given for it, in order. */
  type Query = map<string, seq<string>>

  const DefaultLimit: int := 10

  /** v[0] for a key present with at least one value. */
  function FirstValue(q: Query, key: string): Option<string>
  {
    if key in q && |q[key]| > 0 then Some(q[key][0]) else None
  }

  /** A string parameter: its first value when that is not empty, else `current`. */
  function TextParam(q: Query, key: string, current: string): string
  {
    match FirstValue(q, key)
    case Some(v) => if v != "" then v else current
    case None => current
  }

  /** A number parameter: its first value when Atoi accepts it, else `current`. */
  function NumberParam(q: Query, key: string, current: int): int
  {
    match FirstValue(q, key)
    case Some(v) => Strconv.Atoi(v).GetOr(current)
    case None => current
  }

  /** The filter after the loop over the query, before the limit default: each field is
      read from its own key, whatever the order in which the keys are visited. */
  function Collected(f: UserFilter, q: Query): UserFilter
  {
    UserFilter(TextParam(q, "name", f.name), TextParam(q, "surname", f.surname),
               TextParam(q, "patronymic", f.patronymic),
               NumberParam(q, "age_from", f.ageFrom), NumberParam(q, "age_to", f.ageTo),
               TextParam(q, "gender", f.gender), TextParam(q, "nationality", f.nationality),
               NumberParam(q, "limit", f.limit))
  }

  /** The filter FillFilters leaves behind. */
  function Filled(f: UserFilter, q: Query): UserFilter
  {
    var c := Collected(f, q);
    if c.limit <= 0 then c.(limit := DefaultLimit) else c
  }

  /** One pass of the loop: the field key `k` names takes the first of `values`. */
  function Assign(f: UserFilter, k: string, values: seq<string>): UserFilter
  {
    if |values| == 0 then f
    else
      var v := values[0];
      if k == "name" then (if v != "" then f.(name := v) else f)
      else if k == "surname" then (if v != "" then f.(surname := v) else f)
      else if k == "patronymic" then (if v != "" then f.(patronymic := v) else f)
      else if k == "age_from" then f.(ageFrom := Strconv.Atoi(v).GetOr(f.ageFrom))
      else if k == "age_to" then f.(ageTo := Strconv.Atoi(v).GetOr(f.ageTo))
      else if k == "gender" then (if v != "" then f.(gender := v) else f)
      else if k == "nationality" then (if v != "" then f.(nationality := v) else f)
      else if k == "limit" then f.(limit := Strconv.Atoi(v).GetOr(f.limit))
      else f
  }

  /** Visiting one more, not yet visited, key is one more Assign. */
  lemma CollectedStep(start: UserFilter, seen: Query, k: string, values: seq<string>)
    requires k !in seen
    ensures Collected(start, seen[k := values]) == Assign(Collected(start, seen), k, values)
  {
    var c := Collected(start, seen);
    TextParamStep(seen, k, values, "name", start.name);
    TextParamStep(seen, k, values, "surname", start.surname);
    TextParamStep(seen, k, values, "patronymic", start.patronymic);
    NumberParamStep(seen, k, values, "age_from", start.ageFrom);
    NumberParamStep(seen, k, values, "age_to", start.ageTo);
    TextParamStep(seen, k, values, "gender", start.gender);
    TextParamStep(seen, k, values, "nationality", start.nationality);
    NumberParamStep(seen, k, values, "limit", start.limit);
  }

  lemma TextParamStep(seen: Query, k: string, values: seq<string>, key: string, current: string)
    requires k !in seen
    ensures TextParam(seen[k := values], key, current)
         == if k != key then TextParam(seen, key, current)
            else if |values| > 0 && values[0] != "" then values[0] else current
  {
  }

  lemma NumberParamStep(seen: Query, k: string, values: seq<string>, key: string, current: int)
    requires k !in seen
    ensures NumberParam(seen[k := values], key, current)
         == if k != key then NumberParam(seen, key, current)
            else if |values| > 0 then Strconv.Atoi(values[0]).GetOr(current) else current
  {
  }

  /** A `*UserFilter`: a filter whose fields FillFilters assigns in place. */
  class UserFilterRef {
    var name: string
    var surname: string
    var patronymic: string
    var ageFrom: int
    var ageTo: int
    var gender: string
    var nationality: string
    var limit: int

    constructor (f: UserFilter)
      ensures Value() == f
    {
      name, surname, patronymic := f.name, f.surname, f.patronymic;
      ageFrom, ageTo, gender, nationality, limit := f.ageFrom, f.ageTo, f.gender, f.nationality, f.limit;
    }

    function Value(): UserFilter
      reads this
    {
      UserFilter(name, surname, patronymic, ageFrom, ageTo, gender, nationality, limit)
    }

    /** One pass of FillFilters' loop: the switch on key `k` with its values `v`. */
    method VisitKey(k: string, v: seq<string>)
      modifies this
      ensures Value() == Assign(old(Value()), k, v)
    {
      if |v| > 0 {
        if k == "name" {
          if v[0] != "" { name := v[0]; }
        } else if k == "surname" {
          if v[0] != "" { surname := v[0]; }
        } else if k == "patronymic" {
          if v[0] != "" { patronymic := v[0]; }
        } else if k == "age_from" {
          var value := Strconv.Atoi(v[0]);
          if value.Some? { ageFrom := value.value; }
        } else if k == "age_to" {
          var value := Strconv.Atoi(v[0]);
          if value.Some? { ageTo := value.value; }
        } else if k == "gender" {
          if v[0] != "" { gender := v[0]; }
        } else if k == "nationality" {
          if v[0] != "" { nationality := v[0]; }
        } else if k == "limit" {
          var value := Strconv.Atoi(v[0]);
          if value.Some? { limit := value.value; }
        }
      }
    }

    /** FillFilters: visits the query keys in whatever order the map yields them, sets the
        field a known key names from that key's first value, then replaces a non-positive
        limit by the default. It never fails. */
    method FillFilters(filters: Query) returns (err: Option<Error>)
      modifies this
      ensures Value() == Filled(old(Value()), filters)
      ensures err == None
    {
      var defaultLimit := DefaultLimit;
      ghost var start := Value();
      ghost var seen: Query := map[];
      var remaining := filters.Keys;
      while remaining != {}
        invariant remaining <= filters.Keys
        invariant seen.Keys == filters.Keys - remaining
        invariant forall k :: k in seen ==> seen[k] == filters[k]
        invariant Value() == Collected(start, seen)
        decreases remaining
      {
        var k :| k in remaining;
        var v := filters[k];
        VisitKey(k, v);
        CollectedStep(start, seen, k, v);
        seen := seen[k := v];
        remaining := remaining - {k};
      }
      assert seen == filters;
      if limit <= 0 {
        limit := defaultLimit;
      }
      err := None;
    }
  }

  /** The limit given in the query, when its first value parses. */
  function LimitParam(q: Query): Option<int>
  {
    match FirstValue(q, "limit")
    case Some(v) => Strconv.Atoi(v)
    case None => None
  }

  /** The limit FillFilters leaves is at least 1: a positive parsed limit is kept, a parsed
      limit of 0 or less becomes the default 10, and without a usable limit parameter a
      positive current limit stays while any other becomes 10. */
  lemma FilledLimit(f: UserFilter, q: Query)
    ensures Filled(f, q).limit >= 1
    ensures LimitParam(q).Some? && LimitParam(q).value > 0 ==> Filled(f, q).limit == LimitParam(q).value
    ensures LimitParam(q).Some? && LimitParam(q).value <= 0 ==> Filled(f, q).limit == DefaultLimit
    ensures LimitParam(q).None? && f.limit > 0 ==> Filled(f, q).limit == f.limit
    ensures LimitParam(q).None? && f.limit <= 0 ==> Filled(f, q).limit == DefaultLimit
  {
  }

  /** Only the first value of a repeated parameter is used. */
  lemma FilledUsesFirstValue(f: UserFilter, q: Query, key: string, v: string, rest: seq<string>)
    ensures Filled(f, q[key := [v] + rest]) == Filled(f, q[key := [v]])
  {
    FirstValueIgnoresRest(q, key, v, rest, "name");
    FirstValueIgnoresRest(q, key, v, rest, "surname");
    FirstValueIgnoresRest(q, key, v, rest, "patronymic");
    FirstValueIgnoresRest(q, key, v, rest, "age_from");
    FirstValueIgnoresRest(q, key, v, rest, "age_to");
    FirstValueIgnoresRest(q, key, v, rest, "gender");
    FirstValueIgnoresRest(q, key, v, rest, "nationality");
    FirstValueIgnoresRest(q, key, v, rest, "limit");
  }

  lemma FirstValueIgnoresRest(q: Query, key: string, v: string, rest: seq<string>, other: string)
    ensures FirstValue(q[key := [v] + rest], other) == FirstValue(q[key := [v]], other)
  {
  }

  /** The fields a query key can set: its own field for the eight known keys, none else. */
  function Affects(key: string): set<Field>
  {
    if key == "name" then {Name}
    else if key == "surname" then {Surname}
    else if key == "patronymic" then {Patronymic}
    else if key == "age_from" then {AgeFrom}
    else if key == "age_to" then {AgeTo}
    else if key == "gender" then {Gender}
    else if key == "nationality" then {Nationality}
    else if key == "limit" then {Limit}
    else {}
  }

  /** The fields in which two filters differ. */
  function FilterDiffering(a: UserFilter, b: UserFilter): set<Field>
  {
    (if a.name != b.name then {Name} else {})
    + (if a.surname != b.surname then {Surname} else {})
    + (if a.patronymic != b.patronymic then {Patronymic} else {})
    + (if a.ageFrom != b.ageFrom then {AgeFrom} else {})
    + (if a.ageTo != b.ageTo then {AgeTo} else {})
    + (if a.gender != b.gender then {Gender} else {})
    + (if a.nationality != b.nationality then {Nationality} else {})
    + (if a.limit != b.limit then {Limit} else {})
  }

  /** Each query key sets at most its own field: dropping it from the query changes no other
      field of the result, and dropping an unknown key changes nothing. */
  lemma {:induction false} FilledKeyAffectsOwnField(f: UserFilter, q: Query, key: string)
    ensures FilterDiffering(Filled(f, q - {key}), Filled(f, q)) <= Affects(key)
  {
    var a, b := Filled(f, q - {key}), Filled(f, q);
    FilledFieldsOfOtherKeys(f, q, key);
    assert key != "name" ==> Name !in FilterDiffering(a, b);
    assert key != "surname" ==> Surname !in FilterDiffering(a, b);
    assert key != "patronymic" ==> Patronymic !in FilterDiffering(a, b);
    assert key != "age_from" ==> AgeFrom !in FilterDiffering(a, b);
    assert key != "age_to" ==> AgeTo !in FilterDiffering(a, b);
    assert key != "gender" ==> Gender !in FilterDiffering(a, b);
    assert key != "nationality" ==> Nationality !in FilterDiffering(a, b);
    assert key != "limit" ==> Limit !in FilterDiffering(a, b);
  }

  /** Field by field: a field is read from its own key only. */
  lemma {:induction false} FilledFieldsOfOtherKeys(f: UserFilter, q: Query, key: string)
    ensures key != "name" ==> Filled(f, q - {key}).name == Filled(f, q).name
    ensures key != "surname" ==> Filled(f, q - {key}).surname == Filled(f, q).surname
    ensures key != "patronymic" ==> Filled(f, q - {key}).patronymic == Filled(f, q).patronymic
    ensures key != "age_from" ==> Filled(f, q - {key}).ageFrom == Filled(f, q).ageFrom
    ensures key != "age_to" ==> Filled(f, q - {key}).ageTo == Filled(f, q).ageTo
    ensures key != "gender" ==> Filled(f, q - {key}).gender == Filled(f, q).gender
    ensures key != "nationality" ==> Filled(f, q - {key}).nationality == Filled(f, q).nationality
    ensures key != "limit" ==> Filled(f, q - {key}).limit == Filled(f, q).limit
  {
    ParamOfOtherKey(q, key, "name");
    ParamOfOtherKey(q, key, "surname");
    ParamOfOtherKey(q, key, "patronymic");
    ParamOfOtherKey(q, key, "age_from");
    ParamOfOtherKey(q, key, "age_to");
    ParamOfOtherKey(q, key, "gender");
    ParamOfOtherKey(q, key, "nationality");
    ParamOfOtherKey(q, key, "limit");
  }

  /** Dropping one key leaves the first value of every other key. */
  lemma ParamOfOtherKey(q: Query, key: string, other: string)
    ensures key != other ==> FirstValue(q - {key}, other) == FirstValue(q, other)
  {
  }

  /** The key gives no usable text: it is absent, has no values, or its first is empty. */
  predicate NoText(q: Query, key: string)
  {
    FirstValue(q, key).None? || FirstValue(q, key).value == ""
  }

  /** The key gives no usable number: it is absent, has no values, or Atoi refuses its first. */
  predicate NoNumber(q: Query, key: string)
  {
    FirstValue(q, key).None? || Strconv.Atoi(FirstValue(q, key).value).None?
  }

  /** A key without a usable value leaves its field as it was; for the limit, as it was
      or, when that is not positive, the default. */
  lemma FilledIgnoresUnusableValues(f: UserFilter, q: Query)
    ensures NoText(q, "name") ==> Filled(f, q).name == f.name
    ensures NoText(q, "surname") ==> Filled(f, q).surname == f.surname
    ensures NoText(q, "patronymic") ==> Filled(f, q).patronymic == f.patronymic
    ensures NoText(q, "gender") ==> Filled(f, q).gender == f.gender
    ensures NoText(q, "nationality") ==> Filled(f, q).nationality == f.nationality
    ensures NoNumber(q, "age_from") ==> Filled(f, q).ageFrom == f.ageFrom
    ensures NoNumber(q, "age_to") ==> Filled(f, q).ageTo == f.ageTo
    ensures NoNumber(q, "limit") ==> Filled(f, q).limit == if f.limit <= 0 then DefaultLimit else f.limit
  {
  }

  /** A key with a usable value sets its field to it; a parsed limit that is not positive
      becomes the default. */
  lemma FilledTakesUsableValues(f: UserFilter, q: Query)
    ensures !NoText(q, "name") ==> Filled(f, q).name == FirstValue(q, "name").value
    ensures !NoText(q, "surname") ==> Filled(f, q).surname == FirstValue(q, "surname").value
    ensures !NoText(q, "patronymic") ==> Filled(f, q).patronymic == FirstValue(q, "patronymic").value
    ensures !NoText(q, "gender") ==> Filled(f, q).gender == FirstValue(q, "gender").value
    ensures !NoText(q, "nationality") ==> Filled(f, q).nationality == FirstValue(q, "nationality").value
    ensures !NoNumber(q, "age_from") ==> Filled(f, q).ageFrom == Strconv.Atoi(FirstValue(q, "age_from").value).value
    ensures !NoNumber(q, "age_to") ==> Filled(f, q).ageTo == Strconv.Atoi(FirstValue(q, "age_to").value).value
    ensures !NoNumber(q, "limit") ==>
              var n := Strconv.Atoi(FirstValue(q, "limit").value).value;
              Filled(f, q).limit == if n <= 0 then DefaultLimit else n
  {
  }

  /** The zero filter the controller starts from. */
  const NoFilter: UserFilter := UserFilter("", "", "", 0, 0, "", "", 0)

  /** The first two query strings of the controller's GET tests: none at all, and a name. */
  lemma FilledTestQueries()
    ensures Filled(NoFilter, map[]) == NoFilter.(limit := 10)
    ensures Filled(NoFilter, map["name" := ["Ivan"]]) == NoFilter.(name := "Ivan", limit := 10)
  {
  }

  /** The controller's GET tests by surname and by patronymic. */
  lemma FilledNameTestQueries()
    ensures Filled(NoFilter, map["surname" := ["Petrova"]]) == NoFilter.(surname := "Petrova", limit := 10)
    ensures Filled(NoFilter, map["patronymic" := ["Ivanovich"]]) == NoFilter.(patronymic := "Ivanovich", limit := 10)
  {
  }

  /** The controller's GET tests by an age bound. */
  lemma FilledAgeTestQueries()
    ensures Filled(NoFilter, map["age_from" := ["30"]]) == NoFilter.(ageFrom := 30, limit := 10)
    ensures Filled(NoFilter, map["age_to" := ["30"]]) == NoFilter.(ageTo := 30, limit := 10)
  {
    assert Strconv.Itoa(30) == "30";
    Strconv.AtoiItoa(30);
  }

  /** The controller's GET tests by gender and by nationality. */
  lemma FilledTraitTestQueries()
    ensures Filled(NoFilter, map["gender" := ["male"]]) == NoFilter.(gender := "male", limit := 10)
    ensures Filled(NoFilter, map["nationality" := ["US"]]) == NoFilter.(nationality := "US", limit := 10)
  {
  }

  /** The controller's GET test with a limit. */
  lemma FilledLimitTestQuery()
    ensures Filled(NoFilter, map["limit" := ["1"]]) == NoFilter.(limit := 1)
  {
    assert Strconv.Atoi("1") == Some(1);
  }

  /** Limits that are not positive fall back to 10; an oversized limit is kept and then
      refused by Validate. */
  lemma FilledLimitEdgeCases()
    ensures Filled(NoFilter, map["limit" := ["-5"]]).limit == 10
    ensures Filled(NoFilter, map["limit" := ["0"]]).limit == 10
    ensures Filled(NoFilter, map["limit" := ["51"]]).limit == 51
    ensures Limit in Filled(NoFilter, map["limit" := ["51"]]).Validate()
  {
    assert Strconv.Itoa(-5) == "-5";
    Strconv.AtoiItoa(-5);
    assert Strconv.Atoi("0") == Some(0);
    assert Strconv.Itoa(51) == "51";
    Strconv.AtoiItoa(51);
    UserFilterValidateNumbers(Filled(NoFilter, map["limit" := ["51"]]));
  }

  /** Unparsable values and unknown keys leave the filter alone. */
  lemma FilledIgnoredInputs()
    ensures Filled(NoFilter, map["age_from" := ["abc"]]) == NoFilter.(limit := 10)
    ensures Filled(NoFilter, map["color" := ["red"]]) == NoFilter.(limit := 10)
  {
    assert Strconv.Atoi("abc") == None;
  }
}
