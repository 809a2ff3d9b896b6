# talker-manager: the store and the request validators, in Dafny

This project models the core of a small Express API that manages "talkers":
speaker records with a name, an age and a talk (a date watched and a rate).
The core has three parts:

- **The talker store** (`talker_store.dfy`). It is a JSON file holding an array of records.
  Every operation reads the whole array, changes it and writes it back.
  The file is the `contents` field of the class `TalkerFile`.
  A second field, `readFailure`, says whether reading fails; when it does, `readTalkerFile` returns the error text instead of an array.
  Create, full update, rate update and delete are methods of that class.
  Each method's contract gives the new contents in terms of the old ones, on every path:
  - the normal path;
  - the path where the read failed. A string has no `push`, `findIndex` or `filter`, so the operation throws before it writes anything.
  - the path where no record matches. `findIndex` gives -1. For a full update, writing to index -1 only adds a property that `JSON.stringify` drops. For a rate update, reading `.talk` of `undefined` throws.

  The pure functions `FindIndex`, `Find` and `WithoutId` model `findIndex`, `find` and `filter`.
  Lemmas about them cover id assignment (including how an id repeats after a delete), lookup after create and update, and delete.
- **The talker validators** (`validate_new_talker.dfy`). These check the authorization token, `name`, `age` and `talk`.
  Each is a function from the request's fields to a `Verdict`: `Next` or `Reject(status, message)`.
  The middlewares keep running after they send an answer, but the client only receives the first one.
  So a chain of checks is modelled by its first failing check (`Http.Then`).
- **The login validators** (`validate_login.dfy`). These check that the keys are present, match the e-mail pattern `^[^\s@]+@[^\s@]+\.[^\s@]+$` as a string predicate, and compare the password as a number.

Request values are the primitives of `Js.JsValue`: `Undefined | Null | Bool | Num(real) | Str(string)`.
`Falsy` mirrors JavaScript `!x`.
`IsInteger` mirrors `Number.isInteger`.
`LessThan`, `GreaterThan` and `AtLeast` mirror `<`, `>` and `>=` against a number, through `ToNumber`.

Three behaviours of the code are worth stating plainly:

- **Id reuse.** Ids can repeat after a delete, because create assigns `length + 1`: see `DeleteThenCreateRepeatsId`.
- **Password check.** The password check compares `password >= 6` as numbers, not lengths, so `"12"` passes and `"abcdef"` fails.
- **Update with no match.** An update whose id matches nothing still writes, but it writes the unchanged array and still returns the record it was given.

## Model

| member | source | states |
|---|---|---|
| TalkerStore.FindIndex | src/utils/functions.js:38 | the result is -1 exactly when no record has the id; otherwise it is the first position holding the id |
| TalkerStore.Find | src/index.js:68 | None exactly when no record has the id; otherwise the record at the first matching position |
| TalkerStore.WithoutId | src/utils/functions.js:63 | the survivors are exactly the records whose id differs; the id is gone; the array shrinks exactly when the id was present |
| TalkerStore.AfterUpdate | src/utils/functions.js:38-39 | same length; only the first record with the id is replaced by `{ id, ...data }`; every other position is unchanged |
| TalkerStore.AfterRateUpdate | src/utils/functions.js:51-52 | with no match, the error text of reading `.talk` of undefined; with a match, same length, and only `talk.rate` of the first match changes (id, name, age, watchedAt and every other record stay) |
| TalkerStore.NextId | src/utils/functions.js:25 | the assigned id `length + 1` is at least 1, and it is fresh whenever every stored id is at most the length; the definition is the model, and `CreateKeepsUniqueIdsIff` and `DeleteThenCreateRepeatsId` say when it clashes |
| TalkerStore.NewTalker | src/utils/functions.js:25-26 | `{ id, ...talkerData }`: the record carries the assigned id and exactly the given name, age and talk; the definition is the model, and `CreateKeepsUniqueIdsIff` and `FindAfterCreate` characterise it |
| TalkerStore.TalkerFile.ReadTalkerFile | src/utils/functions.js:7-15 | the parsed array when the read succeeds, the error's message when it fails |
| TalkerStore.TalkerFile.WriteNewTalker | src/utils/functions.js:22-33 | appends the record with id `old length + 1` after every earlier record and returns exactly that record; if the read failed, returns the `push` TypeError text and leaves the file unchanged |
| TalkerStore.TalkerFile.UpdateTalker | src/utils/functions.js:35-46 | writes `AfterUpdate` of the old contents and returns `{ id, ...data }`, which is the stored record when the id matched; with no match the file is unchanged yet the record is returned; a failed read returns the `findIndex` TypeError text and changes nothing |
| TalkerStore.TalkerFile.UpdateRate | src/utils/functions.js:48-58 | with a match, writes `AfterRateUpdate` and returns undefined (None); with no match, or a failed read, returns the error text and writes nothing |
| TalkerStore.TalkerFile.DeleteTalker | src/utils/functions.js:60-69 | writes the old contents without the records with the id; a failed read returns the `filter` TypeError text and changes nothing |
| TalkerStore.CreateKeepsUniqueIdsIff | src/utils/functions.js:25-26 | on an array with unique ids, create keeps the ids unique if and only if no record already has id `length + 1` |
| TalkerStore.CreateKeepsDenseIds | src/utils/functions.js:25-26 | while the ids are exactly 1..n (nothing deleted), the assigned id is fresh and the ids stay exactly 1..n+1 |
| TalkerStore.DeleteThenCreateRepeatsId | src/utils/functions.js:25 | ids [1,2,3], delete 2, create: the new record gets id 3 again, the ids are no longer unique, and the lookup of 3 finds the old record |
| TalkerStore.FindAfterCreate | src/utils/functions.js:25-29 | when the assigned id was fresh, the lookup of it after create gives exactly the created record |
| TalkerStore.FindAfterUpdate | src/utils/functions.js:38-42 | after an update that matched, the lookup of the id gives the record updateTalker returned |
| TalkerStore.UpdatesKeepIds | src/utils/functions.js:38-52 | neither the full update nor the rate update changes any record's id, so both keep ids unique |
| TalkerStore.UpdateWithoutMatchKeepsFile | src/utils/functions.js:38-40 | an update whose id matches nothing leaves the array equal to the old one |
| TalkerStore.DeleteAbsentKeepsFile | src/utils/functions.js:63-65 | deleting an id that no record has leaves the array unchanged |
| TalkerStore.DeleteIdempotent | src/utils/functions.js:63 | deleting twice gives the same array as deleting once |
| TalkerStore.DeleteDistributes | src/utils/functions.js:63 | delete of a concatenation is the concatenation of the deletes, so it keeps the survivors in order |
| TalkerStore.DeleteThenFind | src/utils/functions.js:63 | after delete the id is not found, and every record with another id is still there |
| TalkerStore.DeleteKeepsUniqueIds | src/utils/functions.js:63 | delete keeps the ids unique |
| ValidateNewTalker.ValidateAuthorization | src/middlewares/validateNewTalker.js:3-12 | a falsy token gives 401 "Token não encontrado"; the token passes if and only if it is a string of exactly 16 characters; any other token gives 401 "Token inválido" |
| ValidateNewTalker.ValidateName | src/middlewares/validateNewTalker.js:14-27 | a falsy name gives the 400 "obrigatório" message; a string of 1 or 2 characters gives the minimum-length message; a string passes if and only if it has at least 3 characters |
| ValidateNewTalker.ValidateAge | src/middlewares/validateNewTalker.js:29-44 | a falsy age gives the 400 "obrigatório" message; the age passes if and only if it is an integer of at least 18; anything else gives the integer-at-least-18 message |
| ValidateNewTalker.ValidateWatchedAt | src/middlewares/validateNewTalker.js:52-58 | passes if and only if the date predicate holds; otherwise the 400 format message |
| ValidateNewTalker.RateOutOfRange | src/middlewares/validateNewTalker.js:61 | the condition as written holds exactly for the rates that are not integers from 1 to 5; the definition is the model, and `RateZeroTestIsRedundant` shows its `rate === 0` disjunct adds nothing |
| ValidateNewTalker.ValidateRate | src/middlewares/validateNewTalker.js:60-64 | passes if and only if the rate is an integer from 1 to 5; otherwise the 400 range message |
| ValidateNewTalker.ValidateTalk | src/middlewares/validateNewTalker.js:66-83 | the first failure in the order: talk missing, watchedAt missing, watchedAt format, rate missing, rate out of range; passes if and only if none of them fails |
| ValidateNewTalker.AgeExamples | src/middlewares/validateNewTalker.js:29-43 | 18 passes; 17 and 17.5 get the integer message; an absent age and 0 get the "obrigatório" message |
| ValidateNewTalker.RateZeroTestIsRedundant | src/middlewares/validateNewTalker.js:61 | the condition with `rate === 0` equals the condition without it, and equals "not an integer from 1 to 5" |
| ValidateNewTalker.RateExamples | src/middlewares/validateNewTalker.js:60-64 | 1 to 5 pass; 0, 6 and 2.5 get the range message |
| ValidateNewTalker.RateZeroIsReportedMissing | src/middlewares/validateNewTalker.js:78-81 | with a valid watchedAt, a rate of 0 is reported as "O campo \"rate\" é obrigatório", not as out of range |
| ValidateNewTalker.WatchedAtRecheckIsRedundant | src/middlewares/validateNewTalker.js:72-77 | dropping the extra validateWatchedAt call leaves the verdict of validateTalk unchanged |
| ValidateNewTalker.AcceptedTalkIsWellFormed | src/middlewares/validateNewTalker.js:66-82 | when validateTalk passes, talk is an object, watchedAt satisfies the date predicate and rate is an integer from 1 to 5 |
| ValidateLogin.ValidateRequiredFields | src/middlewares/validateLogin.js:1-16 | a missing email key gives the email message whatever the password; a missing password key then gives the password message; passes if and only if both keys are present |
| ValidateLogin.ValidateFieldFormat | src/middlewares/validateLogin.js:18-33 | a bad e-mail is reported first; otherwise a failed password comparison; passes if and only if both hold |
| ValidateLogin.MatchesEmail | src/middlewares/validateLogin.js:19-20 | `emailRegex.test` on a string: a match has at least 5 characters and starts and ends with a character other than '@' or white space; the definition is the model, and `EmailFromParts` and `EmailToParts` show it is exactly L + "@" + D + "." + T with non-empty plain parts |
| ValidateLogin.EmailTest | src/middlewares/validateLogin.js:20 | only a string of at least 5 characters can pass; the definition is the model, characterised through `MatchesEmail` by `EmailFromParts` and `EmailToParts` |
| ValidateLogin.PasswordTest | src/middlewares/validateLogin.js:21 | `password >= 6`: a passing password is truthy, and a number passes if and only if it is at least 6; the definition is the model, and `DigitPasswordIff` gives the digit-string case |
| ValidateLogin.EmailFromParts | src/middlewares/validateLogin.js:19-20 | every L + "@" + D + "." + T with non-empty parts free of white space and '@' matches |
| ValidateLogin.EmailToParts | src/middlewares/validateLogin.js:19-20 | every match splits as L + "@" + D + "." + T with non-empty parts free of white space and '@' |
| ValidateLogin.AcceptedEmailShape | src/middlewares/validateLogin.js:19-20 | an accepted e-mail has exactly one '@' and no white space |
| ValidateLogin.MatchNeedsAtAndDot | src/middlewares/validateLogin.js:19 | a string without '@' or without '.' does not match |
| ValidateLogin.EmailAcceptedExamples | src/middlewares/validateLogin.js:19-20 | "foo@bar.com" and "a@b.c.d" match |
| ValidateLogin.EmailRejectedExamples | src/middlewares/validateLogin.js:19-20 | "foo@bar" and "foo.com" do not match |
| ValidateLogin.DigitPasswordIff | src/middlewares/validateLogin.js:21 | a digit-only password passes if and only if its decimal value is at least 6 |
| ValidateLogin.LongDigitPasswordPasses | src/middlewares/validateLogin.js:21 | every digit-only password of two or more digits without a leading zero passes, whatever its length |
| ValidateLogin.PasswordExamples | src/middlewares/validateLogin.js:27-31 | "123456" and "12" pass; "5", "abcdef" and "" fail |
| ValidateLogin.EmptyPasswordIsPresent | src/middlewares/validateLogin.js:9-13 | `password: ""` passes the key check (it tests presence, not truthiness) and then fails only the comparison |
| ValidateLogin.LoginExample | src/middlewares/validateLogin.js:1-33 | `{ email: "a@a.com", password: "123456" }` passes both login middlewares |

## Left out

- File I/O, path resolution, `JSON.parse` and `JSON.stringify`: the file is the `contents` field. A failed `fs.writeFile` is not modelled; every write succeeds. A file whose JSON is not an array is not modelled either.
- `generateRandomToken`: it depends on the `uuid` library and on randomness. Nothing links issued tokens to the authorization check, which accepts any 16-character string.
- `validateDateFormat` calls the date-fns `parse` and `isValid` functions, a foreign library. It is the parameter `isValidDate` of the talker validators, and nothing is assumed about it.
- `src/index.js`: Express setup, `listen`, its duplicate `readTalkerFile`, and the GET handlers. Only its lookup by id is modelled, as `Find`. Route wiring is not modelled: `src/index.js` mounts none of these middlewares, so no middleware chain is composed.
- Express response mechanics: `res.status().send()` and `next()`. A middleware that has rejected goes on to `next()` unless a later statement in the same middleware throws. Some examples of such statements:
  - a second `send`, as for a token `""`, a name `""`, every falsy age (`undefined` also fails `Number.isInteger`), a missing or badly formatted watchedAt (sent again by `validateWatchedAt`), a falsy rate (sent again by `validateRate`), a login body missing both keys, and a login body with both a bad e-mail and a bad password;
  - `token.length` on an absent token, `name.length` on an absent name, and destructuring an absent `talk`.

  A name of `false` or `0` is sent only once, since its `length` is undefined, so that middleware does reach `next()`. When it throws, the route handler does not run. Whether the route handler runs, and what it does, is not modelled; only the first verdict the client receives is.
- Exceptions raised after a response was sent are not modelled. Examples are `token.length` on an absent token and destructuring an absent `talk`.
- Asynchrony and the unsynchronised read-modify-write race: each store operation is atomic and they run one after another.
- Route ids are modelled as the integer `Number(id)`. The actual source stores `updateTalker`'s raw `id` argument, so a string route parameter would be stored as a string. Such a record, say with id `"3"`, no longer matches `talker.id === Number(id)` (src/utils/functions.js:38, 51 and src/index.js:68), and `talker.id !== Number(id)` keeps it (src/utils/functions.js:63). So later lookups, rate updates and deletes of that id miss it. `FindAfterUpdate` therefore holds only for numeric ids.
- In create and update, `{ id, ...talkerData }` lets an `id` key inside `talkerData` override the assigned id. Here `TalkerData` holds only name, age and talk.
- Stored records hold a string name, an integer age and an integer rate. `validateName` also passes a truthy non-string name such as 12345, because `(12345).length < 3` is false; records with such names are not modelled. `updateRate`'s new rate is an integer because the validator of the rate patch is not part of this model.
- TalkerStore.TalkerFile.UpdateRate: the TypeError texts ("talkerFile.push is not a function", "Cannot read properties of undefined (reading 'talk')", and so on) are V8's wording since Node 16.9; other engines word them differently.
- Js.ToNumber: only the empty string (0) and digit-only strings are read as numbers; every other string is NaN. JavaScript also reads " 7", "+7", "7.5", "1e3", "0x10" and "Infinity" as numbers. So for those passwords, ValidateLogin.ValidateFieldFormat rejects what the source accepts.
- JsValue has no NaN, -0 or infinities. It also has no arrays or objects other than the `talk` object, so non-primitive tokens, names, ages, rates, e-mails and passwords are not modelled. JavaScript converts some of them: `emailRegex.test(["a@b.c"])` matches, because the array becomes the string "a@b.c", and `[7] >= 6` is true.
- ValidateNewTalker.ValidateAuthorization: a Dafny string counts Unicode scalar values, whereas JavaScript's `length` counts UTF-16 code units. So a token with characters outside the Basic Multilingual Plane has a different length here.
- ValidateNewTalker.ValidateName: same length caveat as the token. A minimum of 3 characters is counted in scalar values, not UTF-16 code units.
- ValidateLogin.EmailTest: only strings are matched. `test` converts its argument to a string, and the string forms of undefined, null, the booleans and the numbers contain no '@'; that is argued, not proved. Arrays and objects, whose string forms can match, are out of scope for `EmailTest`.
