# Users CRUD service — a Dafny model

This project models the in-memory logic of the Go users service. The service has a small REST layer over a Postgres `users` table. A new user is enriched by three public name-inference APIs (agify, genderize, nationalize) before it is stored. The model covers:

- the controller records and their `Validate` rules;
- the partial-update merge `UpdateUser.Copy`, in both of its versions;
- how a query string becomes a `UserFilter` (`FillFilters`);
- the `WHERE` clause the Postgres layer builds from a filter (`GetFilterRequest`);
- the record converters between the controller, service and repository layers;
- the two `UserService` versions, with their enrichment sequence and store calls.

Modules, in the order the program layers them:

| module | what it holds |
|---|---|
| `Common` | `Option`, `Result` and the `Error` values the service passes around |
| `Strconv`, `Strings` | `strconv.Atoi` / `strconv.Itoa` over 64-bit ints, and `strings.Join` |
| `Validation` | the ozzo-validation rules used (`Required`, `Length`, `is.Alpha`, `In`, `Min`, `Max`) as predicates |
| `ControllerModel` | the HTTP request records, their `Validate`, `UpdateUser.Copy`, `UserFilter.FillFilters` |
| `ControllerConverter` | controller ↔ domain converters, and the update handler's data flow |
| `Domain` | the domain records the new service works on |
| `PostgresModel` | the repository records and `UserFilter.GetFilterRequest` |
| `PostgresConverter` | the Postgres layer's repo → domain converter |
| `Converter` | the domain ↔ repo converters (`internal/converter` and its copy `internal/service/converter`) |
| `Model` | the older `internal/model` records, `ErrUserNotFound` and the older `UpdateUser.Copy` |
| `HttpTransport` | the outbound GET, as a deterministic remote side plus a log of the requested URLs |
| `Enrichment` | the agify / genderize / nationalize steps and the lookup sequence as a whole |
| `Storage` | the users table behind the repository interfaces: rows by id, a call log and a failure schedule |
| `UserService` | `internal/service/user_service.go` |
| `LegacyUserService` | `internal/service/userservice.go` |

State-changing Go code is modelled imperatively:

- a `*User` that is mutated becomes a class (`UserRef`) whose methods state the whole new value;
- `FillFilters` is a loop over the query keys;
- `GetFilterRequest` appends to a sequence under guards;
- the services are classes over a `Storage.Repository` and an `HttpTransport.Transport`.

Each method is tied to a specification function, for example `Filled`, `FilterRequest`, `MergeInto` or `Lookup`. The source's promises are then proved as lemmas about those functions.

A few points where the model follows the code rather than its documentation:

- Both `Create` versions return nil when the final `repository.Create` fails. The store error is swallowed, not propagated.
- `validation.Length` measures `len`, which counts UTF-8 bytes, not characters. Under `is.Alpha` the two agree (`Validation.AlphaLength`), which is how the lemmas state the bounds in characters.
- `nationalize` indexes `Country[0]` without a check. An empty country list is modelled as the explicit failure `IndexOutOfRange` (a Go panic).
- `agify` decodes `age` into a `uint8`. A JSON age outside 0..255 is a decode failure.

## Model

| member | source | states |
|---|---|---|
| `Strconv.AtoiItoa` | internal/controller/http/v1/model/user.go:136-153 | parsing the decimal rendering of any 64-bit int gives that int back |
| `Strconv.ItoaInjective` | internal/repository/postgres/model/user.go:50-60 | distinct age bounds render as distinct decimal strings |
| `Strings.JoinLength` | internal/repository/postgres/model/user.go:72 | a joined string is as long as its parts plus one separator between each neighbouring pair |
| `Strings.JoinPrefix` | internal/repository/postgres/model/user.go:72 | the first part starts the joined string, and an empty join means an empty first part |
| `Strings.JoinAppend` | internal/repository/postgres/model/user.go:72 | appending a part appends the separator and that part to the join |
| `Validation.AlphaLength` | internal/controller/http/v1/model/user.go:76-81 | on ASCII letters the `Length` rule's byte count equals the character count |
| `Validation.OptionalRulesAcceptAbsent` | internal/controller/http/v1/model/user.go:95-113 | only `Required` rejects an empty string or zero; `Length`, `Alpha`, `In`, `Min` and `Max` accept it |
| `ControllerModel.UpdateUser.Copy` | internal/controller/http/v1/model/user.go:47-71 | the pointed-to user becomes the patch merged into its old value |
| `ControllerModel.UserRef.constructor` | internal/controller/http/v1/model/user.go:11-19 | a new reference holds the given user |
| `ControllerModel.MergeChangesOnlySetFields` | internal/controller/http/v1/model/user.go:47-71 | after the merge every set patch field is carried, `Id` is kept, and only set fields differ from the old user |
| `ControllerModel.MergeIsLeastChange` | internal/controller/http/v1/model/user.go:47-71 | any user that carries the patch and differs from the old one only in set fields is the merge result |
| `ControllerModel.MergeChangesExactlyNewValues` | internal/controller/http/v1/model/user.go:47-71 | a field changes exactly when the patch sets it to a value different from the old one, so a negative age also overwrites |
| `ControllerModel.MergeIdentityAndIdempotence` | internal/controller/http/v1/model/user.go:47-71 | the empty patch is the identity, and merging the same patch twice equals merging it once |
| `ControllerModel.MergeComposes` | internal/controller/http/v1/model/user.go:47-71 | two merges in a row equal one merge of the combined patch, in which the later value wins |
| `ControllerModel.UserValidateNames` | internal/controller/http/v1/model/user.go:73-78 | name and surname fail exactly unless 1..255 ASCII letters; patronymic fails exactly unless at most 255 letters; `Id` is never judged |
| `ControllerModel.UserValidateTraits` | internal/controller/http/v1/model/user.go:79-82 | age fails exactly outside 1..100; gender fails exactly outside {male, female}; nationality fails exactly unless two letters |
| `ControllerModel.CreateUserValidateCharacterized` | internal/controller/http/v1/model/user.go:85-91 | name and surname fail exactly unless 1..255 letters; patronymic is optional; no other field is judged |
| `ControllerModel.UpdateUserValidateNames` | internal/controller/http/v1/model/user.go:93-97 | each name field fails exactly when it is present and is not at most 255 ASCII letters |
| `ControllerModel.UpdateUserValidateTraits` | internal/controller/http/v1/model/user.go:98-100 | each of age, gender and nationality fails exactly when it is present and out of its rule: outside 1..100, outside {male, female}, not two letters |
| `ControllerModel.ValidateOnlySetFields` | internal/controller/http/v1/model/user.go:93-102 | a patch can only fail on fields it sets |
| `ControllerModel.MergeKeepsValid` | internal/controller/http/v1/model/user.go:47-102 | merging a valid patch into a valid user gives a valid user |
| `ControllerModel.User.Validate` | internal/controller/http/v1/model/user.go:73-83 | only the six data fields are judged, and a valid user is complete: both names, an age in 1..100, a gender of {male, female} and a nationality |
| `ControllerModel.CreateUser.Validate` | internal/controller/http/v1/model/user.go:85-91 | only the three names are judged, and a valid request has a name and a surname |
| `ControllerModel.UpdateUser.Validate` | internal/controller/http/v1/model/user.go:93-102 | only fields the patch sets can fail |
| `ControllerModel.UserFilter.Validate` | internal/controller/http/v1/model/user.go:104-115 | only the eight filter fields are judged, and a valid filter has each set age bound in 1..100 and a set limit in 1..50 |
| `ControllerModel.UserValidationTestCases` | internal/controller/http/v1/model/user_test.go:9-39 | the complete test user is valid, and so is the one without a patronymic |
| `ControllerModel.UserValidationMissingNameCases` | internal/controller/http/v1/model/user_test.go:40-63 | a user without name fails on the name alone, and one without surname on the surname alone |
| `ControllerModel.UserValidationTraitCases` | internal/controller/http/v1/model/user_test.go:64-111 | age 0 or -1, no gender and no nationality each fail on that field alone |
| `ControllerModel.CreateUserValidationTestCases` | internal/controller/http/v1/model/user_test.go:125-167 | the full request and one without a patronymic pass; a missing name or surname fails on that field |
| `ControllerModel.UpdateUserValidationTestCases` | internal/controller/http/v1/model/user_test.go:180-232 | a Cyrillic name, surname or patronymic, age -1, gender "email" and nationality "Russia" each fail on that field alone; the case labelled as an invalid patronymic sets the name, and fails on the name |
| `ControllerModel.UserFilterValidateText` | internal/controller/http/v1/model/user.go:104-112 | each text criterion fails exactly when present and out of its rule |
| `ControllerModel.UserFilterValidateNumbers` | internal/controller/http/v1/model/user.go:109-113 | an age bound fails exactly when present and outside 1..100, and a limit exactly when present and outside 1..50 |
| `ControllerModel.FilterValidationTestCases` | internal/controller/http/v1/model/user_test.go:246-315 | the test filters (Cyrillic name and surname, the case labelled an invalid patronymic that sets the name, age_from 101 and -1, gender "email", nationality "Russia", limit -1) each fail on that field alone; so does limit 51, just over the bound, which no test uses |
| `ControllerModel.CollectedStep` | internal/controller/http/v1/model/user.go:120-157 | visiting one more distinct key applies that key's assignment to the filter collected so far |
| `ControllerModel.TextParamStep` | internal/controller/http/v1/model/user.go:121-150 | a text criterion read from a query with one more key is that key's usable first value, or the old reading |
| `ControllerModel.NumberParamStep` | internal/controller/http/v1/model/user.go:135-154 | a numeric criterion read from a query with one more key is that key's parsed first value, or the old reading |
| `ControllerModel.UserFilterRef.constructor` | internal/controller/http/v1/model/user.go:36-45 | a new reference holds the given filter |
| `ControllerModel.UserFilterRef.VisitKey` | internal/controller/http/v1/model/user.go:121-156 | one loop iteration assigns the field its key names, if the first value is usable |
| `ControllerModel.UserFilterRef.FillFilters` | internal/controller/http/v1/model/user.go:117-164 | the filter becomes `Filled` of its old value and the query, and the error is always nil |
| `ControllerModel.FilledLimit` | internal/controller/http/v1/model/user.go:118-161 | the limit is at least 1: a positive parsed limit is kept, otherwise the old positive limit stays, otherwise it is 10 |
| `ControllerModel.FilledUsesFirstValue` | internal/controller/http/v1/model/user.go:121-154 | values after the first for a key have no effect |
| `ControllerModel.FirstValueIgnoresRest` | internal/controller/http/v1/model/user.go:121-154 | the first value of any key does not depend on the values after the first |
| `ControllerModel.FilledKeyAffectsOwnField` | internal/controller/http/v1/model/user.go:122-155 | adding one key to the query can change only the field that key names |
| `ControllerModel.FilledFieldsOfOtherKeys` | internal/controller/http/v1/model/user.go:122-155 | removing a key from the query leaves every field of the other keys as it was |
| `ControllerModel.ParamOfOtherKey` | internal/controller/http/v1/model/user.go:120-121 | removing one key does not change the first value of another |
| `ControllerModel.FilledIgnoresUnusableValues` | internal/controller/http/v1/model/user.go:121-161 | for each of the five text keys, an absent or empty first value leaves the field as it was; for age_from and age_to, an absent or unparsable one does too; for the limit it leaves the old limit, or 10 when that is not positive |
| `ControllerModel.FilledTakesUsableValues` | internal/controller/http/v1/model/user.go:121-161 | for each key, a non-empty text or parsable number as first value becomes the field; a parsed limit that is not positive becomes 10 |
| `ControllerModel.FilledTestQueries` | internal/controller/http/v1/controller_test.go:52-77 | an empty query gives only the default limit 10; `name=Ivan` sets the name |
| `ControllerModel.FilledNameTestQueries` | internal/controller/http/v1/controller_test.go:79-105 | `surname=Petrova` and `patronymic=Ivanovich` set that field, with limit 10 |
| `ControllerModel.FilledAgeTestQueries` | internal/controller/http/v1/controller_test.go:107-133 | `age_from=30` and `age_to=30` set that bound, with limit 10 |
| `ControllerModel.FilledTraitTestQueries` | internal/controller/http/v1/controller_test.go:135-161 | `gender=male` and `nationality=US` set that field, with limit 10 |
| `ControllerModel.FilledLimitTestQuery` | internal/controller/http/v1/controller_test.go:163-174 | `limit=1` is kept and nothing else is set |
| `ControllerModel.FilledLimitEdgeCases` | internal/controller/http/v1/model/user.go:151-161 | limits -5 and 0 become 10; 51 is kept and then fails `Validate` |
| `ControllerModel.FilledIgnoredInputs` | internal/controller/http/v1/model/user.go:120-157 | a non-integer `age_from` and an unknown key change nothing |
| `ControllerConverter.ToCreateUserFromController` | internal/controller/http/v1/converter/user.go:9-15 | the three names are copied; id and age are 0, gender and nationality empty |
| `ControllerConverter.ToUpdateUserFromController` | internal/controller/http/v1/converter/user.go:17-26 | all six patch fields are copied unchanged |
| `ControllerConverter.ToUserFromController` | internal/controller/http/v1/converter/user.go:28-38 | the id and all six fields are copied unchanged |
| `ControllerConverter.ToUserFilterFromController` | internal/controller/http/v1/converter/user.go:40-51 | all eight filter fields, the limit included, are copied unchanged |
| `ControllerConverter.ToUserFromService` | internal/controller/http/v1/converter/user.go:53-63 | the id and all six fields are copied unchanged |
| `ControllerConverter.UserRoundTrips` | internal/controller/http/v1/converter/user.go:28-63 | controller → domain → controller and domain → controller → domain are both the identity, `Id` included |
| `ControllerConverter.PatchAndFilterConversionsInjective` | internal/controller/http/v1/converter/user.go:17-51 | the patch and filter converters lose no field, and the limit is copied |
| `ControllerConverter.CreatedUserAwaitsEnrichment` | internal/controller/http/v1/converter/user.go:9-15 | a valid create request converts to a user that fails validation on exactly age, gender and nationality, the fields enrichment fills |
| `ControllerConverter.UpdateHandler` | internal/controller/http/v1/controller.go:212-231 | what reaches the service keeps the stored id, carries every field the patch sets, and differs from the stored user only in those |
| `ControllerConverter.UpdateHandlerMerges` | internal/controller/http/v1/controller.go:212-231 | the update handler's result is exactly the stored user with the patch merged in by `Copy`, id kept |
| `ControllerConverter.UpdateHandlerTestCase` | internal/controller/http/v1/controller_test.go:276-287 | patch `{"name":"Ivan"}` onto the zero user gives a user whose only non-zero field is the name Ivan |
| `Domain.UserRef.constructor` | internal/service/model/user.go:3-11 | a new reference holds the given user |
| `PostgresModel.Clause.Rank` | internal/repository/postgres/model/user.go:35-70 | each clause kind has one of seven positions in the fixed order |
| `PostgresModel.RenderAllAppend` | internal/repository/postgres/model/user.go:37 | rendering one more clause appends its text |
| `PostgresModel.UserFilter.GetFilterRequest` | internal/repository/postgres/model/user.go:32-75 | the built string equals the specified `FilterRequest` of the filter |
| `PostgresModel.RenderNotEmpty` | internal/repository/postgres/model/user.go:36-68 | no rendered clause is empty |
| `PostgresModel.FilterRequestEmptyIff` | internal/repository/postgres/model/user.go:33-74 | the request is empty, and there are no clauses, exactly when every criterion is empty or zero |
| `PostgresModel.TextClauseIff` | internal/repository/postgres/model/user.go:35-48 | an equality clause for a column occurs exactly when that column's value is non-empty, and with that value |
| `PostgresModel.AgeClausesIff` | internal/repository/postgres/model/user.go:50-60 | an age bound clause occurs exactly when that bound is non-zero, negative bounds included, and with that value |
| `PostgresModel.RankGrows` | internal/repository/postgres/model/user.go:35-70 | in a sequence whose neighbours are in order, positions grow at least with the distance |
| `PostgresModel.NeighboursOrderedIsOrdered` | internal/repository/postgres/model/user.go:35-70 | neighbour order implies every pair is in order |
| `PostgresModel.ClausesNeighboursOrdered` | internal/repository/postgres/model/user.go:35-70 | each clause comes before the next one in the fixed order |
| `PostgresModel.ClausesOrdered` | internal/repository/postgres/model/user.go:35-70 | clauses appear in the order name, surname, patronymic, age >=, age <=, gender, nationality, at most once each |
| `PostgresModel.FilterRequestLength` | internal/repository/postgres/model/user.go:72 | a non-empty request is the clause texts plus exactly one `" AND "` between neighbours |
| `PostgresModel.FilterRequestIgnoresLimit` | internal/repository/postgres/model/user.go:32-75 | the request does not depend on the limit |
| `PostgresModel.FilterRequestSingleExamples` | internal/repository/postgres/model/user.go:35-38 | the empty filter gives ""; `name = 'Ivan'`; a quote in the value passes through unescaped |
| `PostgresModel.FilterRequestPairExample` | internal/repository/postgres/model/user.go:62-72 | gender and nationality are joined in that order with `" AND "` |
| `PostgresModel.FilterRequestNegativeBoundExample` | internal/repository/postgres/model/user.go:50-54 | a negative lower bound renders as `age >= -5` |
| `PostgresConverter.ToUserFromRepo` | internal/repository/postgres/converter/user.go:9-18 | the id, both names, the patronymic, the age and the nationality are copied; the gender is always empty |
| `PostgresConverter.ToUserFromRepoFaithfulIff` | internal/repository/postgres/converter/user.go:9-18 | the result's gender is always empty, and the result equals the row field for field exactly when the row's gender is empty |
| `PostgresConverter.AgreesWithServiceConverter` | internal/repository/postgres/converter/user.go:9-18 | it is the service converter with the row's id kept and the gender dropped |
| `Converter.ToUserFromService` | internal/converter/user.go:8-17 | the six data fields are copied and the id is 0, whatever the user's id |
| `Converter.ToUserFilterFromService` | internal/converter/user.go:19-30 | all eight filter fields, the limit included, are copied unchanged |
| `Converter.ToUserFromRepo` | internal/converter/user.go:32-41 | the six data fields are copied and the id is 0, whatever the row's id |
| `Converter.RoundTripsResetId` | internal/converter/user.go:8-41 | domain → repo → domain and repo → domain → repo reset `Id` to 0 and keep every other field, so they are the identity exactly on `Id` 0; internal/service/converter/user.go:8-41 is the same code over the same fields |
| `Converter.StoredRowIgnoresId` | internal/service/converter/user.go:8-17 | the repo row built from a user does not depend on the user's id, in both copies of the converter |
| `Converter.FilterConversionKeepsCriteria` | internal/converter/user.go:19-30 | the filter converter is injective, copies the limit, and has no criteria exactly when the filter has none; the same holds for internal/service/converter/user.go:19-30 |
| `Model.UpdateUser.Copy` | internal/model/user.go:44-68 | the pointed-to user becomes the patch merged into its old value |
| `Model.UserRef.constructor` | internal/model/user.go:14-22 | a new reference holds the given user |
| `Model.MergeAgreesWithController` | internal/model/user.go:44-68 | the older merge agrees field for field with the controller's merge |
| `Model.MergeChangesOnlySetFields` | internal/model/user.go:44-68 | each non-empty patch string and non-zero age is carried, `Id` is kept, only set fields change, and the merge is the least such change |
| `Model.MergeIdentityAndIdempotence` | internal/model/user.go:44-68 | the empty patch is the identity, and the merge is idempotent |
| `HttpTransport.Transport.constructor` | internal/transport/http/transport.go:14-18 | a new transport has answered nothing yet |
| `HttpTransport.Transport.Get` | internal/transport/http/transport.go:21-31 | one GET logs its URL and returns the remote side's answer to it |
| `Enrichment.DecodeAge` | internal/service/utils.go:13-29 | decoding succeeds exactly on a readable, well-formed body whose age fits a `uint8`, with that age |
| `Enrichment.DecodeGender` | internal/service/utils.go:37-53 | decoding succeeds exactly on a readable, well-formed body, with its gender |
| `Enrichment.DecodeNationality` | internal/service/utils.go:61-83 | decoding succeeds exactly on a readable, well-formed body with at least one country, with the first country; an empty list is `IndexOutOfRange` |
| `Enrichment.AgifyInto` | internal/service/utils.go:13-34 | on failure the user is unchanged and the error returned; on success only the age is set |
| `Enrichment.GenderizeInto` | internal/service/utils.go:37-58 | on failure the user is unchanged; on success only the gender is set |
| `Enrichment.NationalizeInto` | internal/service/utils.go:61-86 | on failure the user is unchanged; on success only the nationality is set, to the first country |
| `Enrichment.Lookup` | internal/service/user_service.go:82-115 | the sequence asks for 1 to 3 URLs, a prefix of agify, genderize, nationalize for the name; it completes, with all three URLs, exactly when it writes a nationality, and it writes a field only after the earlier ones |
| `Enrichment.LookupStopsAtFirstFailure` | internal/service/user_service.go:82-115 | URLs are requested in the order agify, genderize, nationalize from the name; the sequence stops right after the first failing step with that step's error |
| `Enrichment.LookupWritesCompletedSteps` | internal/service/userservice.go:59-92 | a field is written exactly when its step and every earlier one succeed, so a failure at gender leaves the age written |
| `Enrichment.EmptyCountryListFails` | internal/service/utils.go:83 | an empty country list stops the sequence with `IndexOutOfRange` after age and gender were written |
| `Storage.InsertThenFind` | internal/repository/postgres/user_repository.go:152-187 | an insert stores the row under the next id and leaves every other id as it was |
| `Storage.RemoveThenFind` | internal/repository/postgres/user_repository.go:82-108 | after a delete the id is `ErrUserNotFound`, other ids are untouched, and deleting an absent id changes nothing |
| `Storage.ReplaceThenFind` | internal/repository/postgres/user_repository.go:111-149 | an update of a present id stores the row; of an absent id it changes nothing and is no error |
| `Storage.Repository.constructor` | internal/repository/postgres/user_repository.go:18-22 | a new repository has the given table and an empty call log |
| `Storage.Repository.Get` | internal/repository/postgres/user_repository.go:25-79 | one logged call; the rows the table selects for the filter, nil when none matched or on an error; the table is unchanged |
| `Storage.Repository.Delete` | internal/repository/postgres/user_repository.go:82-108 | one logged call; on success the id is removed, with no check that it existed |
| `Storage.Repository.Update` | internal/repository/postgres/user_repository.go:111-149 | one logged call; on success the row is stored under the id, with no check that it existed |
| `Storage.Repository.Create` | internal/repository/postgres/user_repository.go:152-187 | one logged call; on success the row is inserted under the next id, which is returned |
| `Storage.Repository.GetUserById` | internal/repository/postgres/user_repository.go:190-230 | one logged call; the stored row, or `ErrUserNotFound` when the id is absent; the error is `ErrUserNotFound` exactly when the database did not fail and the id is absent, since a failing query only yields a database error |
| `UserService.FromRepoDropsIds` | internal/service/user_service.go:49-51 | one converted user per row, in order, each the row with `Id` 0 |
| `UserService.CreatedUserReadsBack` | internal/service/user_service.go:118 | when the repository stamps each row with its id, the user Create stores is found under the next id with that id, and GetById's conversion gives back the enriched user with id 0 |
| `UserService.UserService.constructor` | internal/service/user_service.go:32-37 | the service holds the given repository and transport |
| `UserService.UserService.Get` | internal/service/user_service.go:40-54 | one repository call with the converted filter; on error no list and that error; otherwise a list of every row converted, in order |
| `UserService.UserService.Delete` | internal/service/user_service.go:57-65 | one repository call; its error is returned unchanged |
| `UserService.UserService.Update` | internal/service/user_service.go:68-76 | one repository call with the converted user; its error is returned unchanged |
| `UserService.UserService.Create` | internal/service/user_service.go:79-125 | the lookup sequence's requests and field writes; its first failure is returned with no store call; after success exactly one store of the converted user, and a store error is dropped |
| `UserService.UserService.GetById` | internal/service/user_service.go:127-135 | one repository call; its error unchanged (`ErrUserNotFound` included) or the stored row converted; `ErrUserNotFound` exactly when the database did not fail and the id is absent |
| `LegacyUserService.UserService.constructor` | internal/service/userservice.go:16-21 | the service holds the given repository and transport |
| `LegacyUserService.UserService.Get` | internal/service/userservice.go:23-31 | the repository's rows or error, passed through unchanged: nil when no row matched, as the repository returns it |
| `LegacyUserService.UserService.Delete` | internal/service/userservice.go:34-42 | one repository call; its error is returned unchanged |
| `LegacyUserService.UserService.Update` | internal/service/userservice.go:45-53 | one repository call with the user itself; its error is returned unchanged |
| `LegacyUserService.UserService.Create` | internal/service/userservice.go:56-102 | the lookup sequence mutates u step by step and stops at its first failure; after success exactly one store of u itself, and a store error is dropped |
| `LegacyUserService.UserService.GetById` | internal/service/userservice.go:104-112 | the repository's row or error, passed through unchanged; `ErrUserNotFound` exactly when the database did not fail and the id is absent |

## Left out

- JSON decoding, `io.ReadAll` and the HTTP client are not modelled. A reply is abstract: a transport failure, an unreadable body, a malformed body, or a decoded payload. Float `probability` fields and the unused `count` and `name` fields are not modelled either.
- The remote side is a fixed function from URL to reply, so asking for the same URL twice gives the same answer. Timing, retries and concurrency are not modelled.
- The database (SQL, squirrel, `database/sql` scanning) is replaced by `Storage.Table`. The rows a `SELECT` returns for a filter are a parameter of the repository (`select`), and so is how a row takes its id (`withId`). Which call fails is a schedule indexed by the call number (`failure`, of type `Storage.Schedule`). A scheduled failure is always a database error (`StorageFailure`), because the repositories return `ErrUserNotFound` only for `sql.ErrNoRows` and wrap or pass on every other error (internal/repository/postgres/user_repository.go:220-224, internal/repository/postgres/userrepository.go:124-129). The services take `withId` as given; the create-then-read round trip is stated for a `withId` that stamps the row with its id (`UserService.CreatedUserReadsBack`).
- HTTP handlers, routing, status codes and request decoding in internal/controller/http/v1/controller.go are not modelled. The only exception is the update handler's data flow (`ControllerConverter.UpdateHandler`).
- Logging, `context.Context`, configuration, migrations, mocks and bootstrap code have no behaviour to model.
- The `Validate` in internal/model/user.go:70-81 is not modelled. It passes field values instead of pointers, so its result depends on the validation library's internals.
- The ozzo-validation library itself is not part of this model. Its rules are written as predicates from their documented meaning. ozzo's error messages are not modelled; `Validate` returns the set of failing fields instead.
- Go map iteration order in `FillFilters` is not modelled. The keys are distinct, and the proof shows the result does not depend on the order (`ControllerModel.CollectedStep`).
- Ints are unbounded, except in `Strconv.Atoi`, which keeps Go's 64-bit range. The age bounds in `GetFilterRequest` are rendered for any int.
- The legacy repository's `uint` ids are modelled as `nat`.
- `LegacyUserService.UserService.Create`: the assignment of the decoded `uint8` age to the `int` field is a type mismatch in Go as written. The model converts the value.
- internal/domain and internal/pkg (where the new service's `utils.Agify`, `utils.Genderize` and `utils.Nationalize` live) are not part of this model. `Domain` follows the field layout of internal/service/model/user.go. The new service's steps reuse the decoders of internal/service/utils.go.
- A nil slice and an empty one are told apart with `Option`. Both repositories return nil when no row matched (they append to a nil slice), and so does the legacy `Get`, which passes it on. `UserService.Get` returns `None` on error and `Some([])` when there are no rows.
