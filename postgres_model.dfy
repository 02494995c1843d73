/** The repository's records (internal/repository/postgres/model/user.go) and
    `UserFilter.GetFilterRequest`, which renders a filter as the text of a SQL WHERE clause. */
module PostgresModel {
  import opened Common
  import Strings
  import Strconv

  /** A row of the users table. */
  datatype User = User(id: int, name: string, surname: string, patronymic: string,
                       age: int, gender: string, nationality: string)

  /** The text columns a filter can match exactly. */
  datatype Column = NameColumn | SurnameColumn | PatronymicColumn | GenderColumn | NationalityColumn
  {
    /** The column's name and the equality operator. */
    function Prefix(): string
    {
      match this
      case NameColumn => "name = "
      case SurnameColumn => "surname = "
      case PatronymicColumn => "patronymic = "
      case GenderColumn => "gender = "
      case NationalityColumn => "nationality = "
    }
  }

  /** One condition of the WHERE clause. */
  datatype Clause = Equals(column: Column, value: string) | AgeAtLeast(bound: int) | AgeAtMost(bound: int)
  {
    /** The text of the condition: a text value goes between single quotes exactly as it
        is, with no escaping; an age bound is written by strconv.Itoa. */
    function Render(): string
    {
      match this
      case Equals(column, value) => column.Prefix() + "'" + value + "'"
      case AgeAtLeast(bound) => "age >= " + Strconv.Itoa(bound)
      case AgeAtMost(bound) => "age <= " + Strconv.Itoa(bound)
    }

    /** The place of the condition in the fixed order GetFilterRequest emits. */
    function Rank(): (r: nat)
      ensures r < 7
    {
      match this
      case Equals(NameColumn, _) => 0
      case Equals(SurnameColumn, _) => 1
      case Equals(PatronymicColumn, _) => 2
      case AgeAtLeast(_) => 3
      case AgeAtMost(_) => 4
      case Equals(GenderColumn, _) => 5
      case Equals(NationalityColumn, _) => 6
    }
  }

  /** Rendering one more condition appends its text. */
  lemma RenderAllAppend(clauses: seq<Clause>, c: Clause)
    ensures RenderAll(clauses + [c]) == RenderAll(clauses) + [c.Render()]
  {
  }

  /** `clauses` with `c` appended when `present`. */
  function Extend(clauses: seq<Clause>, present: bool, c: Clause): (r: seq<Clause>)
    ensures r == clauses + (if present then [c] else [])
  {
    if present then clauses + [c] else clauses
  }

  /** The text of each condition, in order. */
  function RenderAll(clauses: seq<Clause>): (texts: seq<string>)
  {
    seq(|clauses|, i requires 0 <= i < |clauses| => clauses[i].Render())
  }

  datatype UserFilter = UserFilter(name: string, surname: string, patronymic: string,
                                   ageFrom: int, ageTo: int, gender: string,
                                   nationality: string, limit: int)
  {
    /** The conditions of the filter: one per set field, in the order name, surname,
        patronymic, lower age bound, upper age bound, gender, nationality. */
    function Clauses(): seq<Clause>
    {
      (if name != "" then [Equals(NameColumn, name)] else [])
      + (if surname != "" then [Equals(SurnameColumn, surname)] else [])
      + (if patronymic != "" then [Equals(PatronymicColumn, patronymic)] else [])
      + (if ageFrom != 0 then [AgeAtLeast(ageFrom)] else [])
      + (if ageTo != 0 then [AgeAtMost(ageTo)] else [])
      + (if gender != "" then [Equals(GenderColumn, gender)] else [])
      + (if nationality != "" then [Equals(NationalityColumn, nationality)] else [])
    }

    /** The value the filter holds for a text column. */
    function Value(column: Column): string
    {
      match column
      case NameColumn => name
      case SurnameColumn => surname
      case PatronymicColumn => patronymic
      case GenderColumn => gender
      case NationalityColumn => nationality
    }

    /** The WHERE text: the conditions joined by " AND ". */
    function FilterRequest(): string
    {
      Strings.Join(RenderAll(Clauses()), " AND ")
    }

    /** GetFilterRequest: grows a slice of condition texts under one guard per field, then
        joins it. The filter is a value here, so it cannot be changed. */
    method GetFilterRequest() returns (result: string)
      ensures result == FilterRequest()
    {
      var slice: seq<string> := [];
      ghost var clauses: seq<Clause> := [];

      if name != "" {
        var str := "name = " + "'" + name + "'";
        RenderAllAppend(clauses, Equals(NameColumn, name));
        slice := slice + [str];
      }
      clauses := if name != "" then [Equals(NameColumn, name)] else [];
      assert slice == RenderAll(clauses);
      if surname != "" {
        var str := "surname = " + "'" + surname + "'";
        RenderAllAppend(clauses, Equals(SurnameColumn, surname));
        slice := slice + [str];
      }
      clauses := Extend(clauses, surname != "", Equals(SurnameColumn, surname));
      assert slice == RenderAll(clauses);
      if patronymic != "" {
        var str := "patronymic = " + "'" + patronymic + "'";
        RenderAllAppend(clauses, Equals(PatronymicColumn, patronymic));
        slice := slice + [str];
      }
      clauses := Extend(clauses, patronymic != "", Equals(PatronymicColumn, patronymic));
      assert slice == RenderAll(clauses);
      if ageFrom != 0 {
        var itoa := Strconv.Itoa(ageFrom);
        var str := "age >= " + itoa;
        RenderAllAppend(clauses, AgeAtLeast(ageFrom));
        slice := slice + [str];
      }
      clauses := Extend(clauses, ageFrom != 0, AgeAtLeast(ageFrom));
      assert slice == RenderAll(clauses);
      if ageTo != 0 {
        var itoa := Strconv.Itoa(ageTo);
        var str := "age <= " + itoa;
        RenderAllAppend(clauses, AgeAtMost(ageTo));
        slice := slice + [str];
      }
      clauses := Extend(clauses, ageTo != 0, AgeAtMost(ageTo));
      assert slice == RenderAll(clauses);
      if gender != "" {
        var str := "gender = " + "'" + gender + "'";
        RenderAllAppend(clauses, Equals(GenderColumn, gender));
        slice := slice + [str];
      }
      clauses := Extend(clauses, gender != "", Equals(GenderColumn, gender));
      assert slice == RenderAll(clauses);
      if nationality != "" {
        var str := "nationality = " + "'" + nationality + "'";
        RenderAllAppend(clauses, Equals(NationalityColumn, nationality));
        slice := slice + [str];
      }
      clauses := Extend(clauses, nationality != "", Equals(NationalityColumn, nationality));
      assert slice == RenderAll(clauses);
      assert clauses == Clauses();

      result := Strings.Join(slice, " AND ");
    }
  }

  /** The filter with no criteria (the limit is not a criterion). */
  predicate NoCriteria(f: UserFilter)
  {
    f.name == "" && f.surname == "" && f.patronymic == "" && f.ageFrom == 0 && f.ageTo == 0
    && f.gender == "" && f.nationality == ""
  }

  /** Every condition renders as a non-empty text. */
  lemma RenderNotEmpty(c: Clause)
    ensures |c.Render()| > 0
  {
  }

  /** The WHERE text is empty exactly when the filter has no criteria. */
  lemma FilterRequestEmptyIff(f: UserFilter)
    ensures f.FilterRequest() == "" <==> NoCriteria(f)
    ensures f.Clauses() == [] <==> NoCriteria(f)
  {
    var cs := f.Clauses();
    if cs != [] {
      RenderNotEmpty(cs[0]);
      Strings.JoinPrefix(RenderAll(cs), " AND ");
    }
  }

  /** An equality condition on a text column is emitted exactly when the filter sets that
      column, and it carries the filter's value verbatim. */
  lemma TextClauseIff(f: UserFilter, column: Column, v: string)
    ensures Equals(column, v) in f.Clauses() <==> f.Value(column) != "" && v == f.Value(column)
  {
  }

  /** An age condition is emitted exactly when that bound is non-zero, with the bound. */
  lemma AgeClausesIff(f: UserFilter, n: int)
    ensures AgeAtLeast(n) in f.Clauses() <==> f.ageFrom != 0 && n == f.ageFrom
    ensures AgeAtMost(n) in f.Clauses() <==> f.ageTo != 0 && n == f.ageTo
  {
  }

  /** Strictly increasing ranks. */
  predicate Ordered(clauses: seq<Clause>)
  {
    forall i, j :: 0 <= i < j < |clauses| ==> clauses[i].Rank() < clauses[j].Rank()
  }

  /** Each rank is below the next one. */
  predicate NeighboursOrdered(clauses: seq<Clause>)
  {
    forall i :: 0 <= i < |clauses| - 1 ==> clauses[i].Rank() < clauses[i + 1].Rank()
  }

  /** Along neighbours in order, the rank grows at least by the distance. */
  lemma {:induction false} RankGrows(clauses: seq<Clause>, i: nat, j: nat)
    requires NeighboursOrdered(clauses) && i <= j < |clauses|
    ensures clauses[i].Rank() + (j - i) <= clauses[j].Rank()
    decreases j - i
  {
    if i < j {
      RankGrows(clauses, i, j - 1);
    }
  }

  /** Neighbours in order put every pair in order. */
  lemma NeighboursOrderedIsOrdered(clauses: seq<Clause>)
    requires NeighboursOrdered(clauses)
    ensures Ordered(clauses)
  {
    forall i, j | 0 <= i < j < |clauses|
      ensures clauses[i].Rank() < clauses[j].Rank()
    {
      RankGrows(clauses, i, j);
    }
  }

  lemma ClausesNeighboursOrdered(f: UserFilter)
    ensures NeighboursOrdered(f.Clauses())
  {
  }

  /** The conditions come in strictly increasing rank: the fixed field order, each field
      at most once. */
  lemma ClausesOrdered(f: UserFilter)
    ensures Ordered(f.Clauses())
    ensures |f.Clauses()| <= 7
  {
    var cs := f.Clauses();
    ClausesNeighboursOrdered(f);
    NeighboursOrderedIsOrdered(cs);
    if |cs| > 0 {
      RankGrows(cs, 0, |cs| - 1);
    }
  }

  /** The WHERE text holds the texts of the conditions and one " AND " between each pair of
      neighbours. */
  lemma FilterRequestLength(f: UserFilter)
    requires !NoCriteria(f)
    ensures |f.FilterRequest()| == Strings.TotalLength(RenderAll(f.Clauses())) + (|f.Clauses()| - 1) * 5
  {
    FilterRequestEmptyIff(f);
    Strings.JoinLength(RenderAll(f.Clauses()), " AND ");
  }

  /** The limit plays no part in the WHERE text. */
  lemma FilterRequestIgnoresLimit(f: UserFilter, limit: int)
    ensures f.(limit := limit).FilterRequest() == f.FilterRequest()
  {
  }

  /** One condition renders on its own; a quote inside the value is passed through. */
  lemma FilterRequestSingleExamples()
    ensures UserFilter("", "", "", 0, 0, "", "", 10).FilterRequest() == ""
    ensures UserFilter("Ivan", "", "", 0, 0, "", "", 10).FilterRequest() == "name = 'Ivan'"
    ensures UserFilter("O'Brien", "", "", 0, 0, "", "", 10).FilterRequest() == "name = 'O'Brien'"
  {
    assert UserFilter("Ivan", "", "", 0, 0, "", "", 10).Clauses() == [Equals(NameColumn, "Ivan")];
    assert UserFilter("O'Brien", "", "", 0, 0, "", "", 10).Clauses() == [Equals(NameColumn, "O'Brien")];
  }

  /** Two conditions are joined by " AND " in the fixed order. */
  lemma FilterRequestPairExample()
    ensures UserFilter("", "", "", 0, 0, "male", "RU", 10).FilterRequest()
         == "gender = 'male'" + " AND " + "nationality = 'RU'"
  {
    var cs := UserFilter("", "", "", 0, 0, "male", "RU", 10).Clauses();
    assert cs == [Equals(GenderColumn, "male"), Equals(NationalityColumn, "RU")];
    assert cs[0].Render() == "gender = 'male'";
    assert cs[1].Render() == "nationality = 'RU'";
    assert RenderAll(cs) == ["gender = 'male'", "nationality = 'RU'"];
  }

  /** A negative bound is written with its sign. */
  lemma FilterRequestNegativeBoundExample()
    ensures UserFilter("", "", "", -5, 0, "", "", 10).FilterRequest() == "age >= -5"
  {
    assert Strconv.Itoa(-5) == "-5";
    assert UserFilter("", "", "", -5, 0, "", "", 10).Clauses() == [AgeAtLeast(-5)];
  }
}
