/** The repository's converter (internal/repository/postgres/converter/user.go): a row to a
    service user, keeping the id but leaving the gender out. */
module PostgresConverter {
  import D = Domain
  import P = PostgresModel
  import Converter

  /** The user a row describes: the id and five data fields copied, the gender empty. */
  function ToUserFromRepo(user: P.User): (r: D.User)
    ensures r.id == user.id && r.gender == ""
    ensures SameFields(user, r.(gender := user.gender))
  {
    D.User(user.id, user.name, user.surname, user.patronymic, user.age, "", user.nationality)
  }

  /** The user has the same value as the row in every field. */
  predicate SameFields(row: P.User, user: D.User)
  {
    row.id == user.id && row.name == user.name && row.surname == user.surname
    && row.patronymic == user.patronymic && row.age == user.age && row.gender == user.gender
    && row.nationality == user.nationality
  }

  /** The conversion is faithful exactly for rows without a gender; the gender always comes
      out empty, whatever the row holds. */
  lemma ToUserFromRepoFaithfulIff(row: P.User)
    ensures ToUserFromRepo(row).gender == ""
    ensures SameFields(row, ToUserFromRepo(row)) <==> row.gender == ""
  {
  }

  /** Against the service layer's converter of the same name: this one keeps the id and
      drops the gender, that one drops the id and keeps the gender. */
  lemma AgreesWithServiceConverter(row: P.User)
    ensures ToUserFromRepo(row) == Converter.ToUserFromRepo(row).(id := row.id, gender := "")
  {
  }
}
