# InstantDoc — a verified model of the contact registry, the nearest-hospital selection, the register guards and the chat transcript

InstantDoc is a first-aid assistant made of two parts:

- a React Native app, whose screens hold a user's emergency contacts, the hospitals near them, a registration form and a chat with a generative-AI assistant;
- an Express/MySQL backend, which stores users and contacts and proxies the chat to Gemini.

This project models the sequential logic of both parts in Dafny and proves what each operation does.

| file | module | models |
|---|---|---|
| `js.dfy` | `Js` | `Option`, the alert dialog, the JavaScript `\s` white-space class, and `Array.prototype.filter` (also used for SQL `WHERE`), with its lemmas |
| `backend.dfy` | `Backend` | `InstantDoc/backend/server.js` |
| `home.dfy` | `Home` | `InstantDoc/app/screens/HomeScreen.js` |
| `hospitals.dfy` | `Hospitals` | `InstantDoc/app/screens/HospitalScreen.js` |
| `register.dfy` | `Register` | `InstantDoc/app/screens/RegisterScreen.js` |
| `chat.dfy` | `Chat` | `InstantDoc/app/screens/ChatScreen.js` |

## How the source is modelled

**Backend (`Backend.Server`).**
- The `users` and `contacts` tables are sequences of rows in primary-key order. Each table has an auto-increment counter.
- Every route handler is a method. It returns a `Response` (a status and a JSON body) and updates the tables the way the handler's `INSERT` or `DELETE` does.
- A database error is the parameter `fault`: `QueryFails(n)` makes the handler's n-th query fail.
- bcrypt is left abstract:
  - `bcrypt.compare` is a function parameter that may throw (`None`);
  - the hash that `bcrypt.hash` produces is a parameter.
- The JWT is its claims, `Token(id, email)`.
- Request-body fields are strings, with `""` standing for both missing and empty. `user_id` is an int, with 0 standing for missing. JavaScript treats all of these as false, and the handlers take the same branch for each.
- Phone normalisation (`replace(/\D/g, "")`) and the Gemini reply extraction (`?.` chain with `||` fallback) are pure functions.

**Screens.** Each screen is a class whose fields are its React state. Each handler is a method.
- A request to the backend or to Google Places is replaced by its outcome, passed in as a parameter.
- The haversine distance is an uninterpreted function parameter.
- Each handler runs to completion before the next starts.

**Behaviour of the code that the model keeps as written:**
- `POST /contacts` (`server.js:120-151`) checks no count, so `Server.AddContact` stores a contact whatever the owner already holds. The 4-contact cap exists only on the home screen (`Home.HomeScreen.AddContact`).
- The duplicate query compares the normalised phone, but the insert stores the raw one (`server.js:127-143`).
  - A number written with any non-digit, such as `"555 1234"`, never matches its own stored row, so the same request succeeds again and again (`Backend.RawPhoneNeverBlocksRepeat`).
  - A digits-only number does block a repeat (`Backend.DigitsOnlyPhoneBlocksRepeat`).
- The 201 body of `POST /contacts` is only a message (`server.js:148`), so the home screen appends an entry whose id is None (`Entry.id == None`). Such an entry cannot be deleted from the screen until the list is fetched again (`Home.UnsavedEntrySurvivesDelete`).
- The home screen shows `data.message` of a failed delete (`HomeScreen.js:94`), but every backend error body carries `error` (`server.js:176`, `180`). Against this backend a failed delete therefore always shows "Could not delete contact." (`Home.BackendDeleteErrorShowsDefault`).

## Model

| member | source | states |
|---|---|---|
| Js.Filter | InstantDoc/app/screens/HomeScreen.js:91 | the kept elements all come from the input and pass the test, every passing element is kept, and the result is no longer than the input |
| Js.FilterIdempotent | InstantDoc/app/screens/HomeScreen.js:91 | filtering twice with the same test gives the same list as filtering once |
| Js.FilterAppend | InstantDoc/backend/server.js:127 | filtering a concatenation is the concatenation of the filtered parts |
| Js.FilterKeepsAll | InstantDoc/backend/server.js:127 | a list whose every element passes the test is returned unchanged |
| Backend.NormalizePhone | InstantDoc/backend/server.js:127 | the normalised phone holds only digits, is no longer than the input, and keeps every digit of the input |
| Backend.NormalizeIdempotent | InstantDoc/backend/server.js:127 | normalising twice equals normalising once |
| Backend.NormalizeFixesExactlyDigits | InstantDoc/backend/server.js:127 | a phone is its own normal form if and only if it is written with digits only |
| Backend.PunctuationIgnored | InstantDoc/backend/server.js:127-131 | a non-digit inserted anywhere in a phone does not change its normal form, and so does not change the duplicate test |
| Backend.DuplicateCountMeansPhoneTaken | InstantDoc/backend/server.js:130-137 | the duplicate count with the normalised phone is positive exactly when a row of the user holds that normalised phone |
| Backend.Lookup | InstantDoc/backend/server.js:80-91 | the e-mail lookup finds nothing exactly when no user has the address; what it finds is a stored user with that address |
| Backend.LookupUnique | InstantDoc/backend/server.js:87-91 | with distinct e-mails, `results[0]` is the one user registered under the address |
| Backend.FilterKeepsIdOrder | InstantDoc/backend/server.js:158-164 | a `WHERE` selection keeps rows in primary-key order |
| Backend.DeleteAffectsOneRow | InstantDoc/backend/server.js:172-181 | with unique ids, the delete affects one row when the id is present and none otherwise |
| Backend.RawPhoneNeverBlocksRepeat | InstantDoc/backend/server.js:127-143 | after a phone with a non-digit is stored raw, the duplicate test for the same request still finds nothing |
| Backend.DigitsOnlyPhoneBlocksRepeat | InstantDoc/backend/server.js:127-143 | after a digits-only phone is stored, the duplicate test for the same request finds it |
| Backend.FirstCandidateText | InstantDoc/backend/server.js:199 | the `?.` chain yields a text exactly when there is a first candidate with content, a first part and a text, and then it is that text |
| Backend.ExtractReply | InstantDoc/backend/server.js:199 | the reply is never empty; it is the first candidate's text when that is present and non-empty, otherwise "No response from Gemini" |
| Backend.AskGemini | InstantDoc/backend/server.js:187-205 | 200 with a non-empty reply exactly when the provider call succeeded, otherwise 500 with the fixed error |
| Backend.Server.constructor | InstantDoc/backend/server.js:17-23 | both tables start empty and the invariant holds |
| Backend.Server.Register | InstantDoc/backend/server.js:33-70 | 400 on a missing field; 500 "Database error" when the lookup fails, or when the insert of a fresh e-mail fails; 400 when the e-mail is taken; otherwise exactly one user (the next id, the hash) is appended and 201; the users table is unchanged on every failure, the contacts table always; e-mails stay unique |
| Backend.Server.Login | InstantDoc/backend/server.js:71-118 | 400 on a missing field; 500 on a failed query or a throwing compare; the same 401 body exactly for an unknown e-mail or a wrong password; 200 only for a stored user whose hash matches, with that user's id, name and e-mail and the token claims; no other status |
| Backend.Server.AddContact | InstantDoc/backend/server.js:120-151 | 400 on a missing field; 500 "Database error" when the count fails, or when the insert of a phone not yet taken fails; 400 when a row of the user holds the normalised phone; otherwise exactly one row with the raw phone is appended and 201, with no count limit and no id in the body; the table is unchanged on every failure |
| Backend.Server.ListContacts | InstantDoc/backend/server.js:155-166 | 500 on a failed query; otherwise 200 with exactly the user's rows, in table order, and nothing changed |
| Backend.Server.DeleteContact | InstantDoc/backend/server.js:168-185 | 500 on a failed query; 404 with the table unchanged when no row has the id; otherwise 200 and exactly that one row is removed, the rest kept in order |
| Backend.Server.RegisterThenLogin | InstantDoc/backend/server.js:44-111 | registering a fresh e-mail and logging in with the same password yields a token and profile carrying the id registration assigned |
| Home.AddGuard | InstantDoc/app/screens/HomeScreen.js:39-52 | no alert exactly when name and phone are non-empty, the user id is truthy and fewer than 4 contacts are shown; empty fields give the fields alert; 4 or more always alert |
| Home.DeleteFailedAlert | InstantDoc/app/screens/HomeScreen.js:94 | the alert of a failed delete is titled "Error" and is never empty: the reply's message, or the default text when there is none |
| Home.DeleteReplyOf | InstantDoc/app/screens/HomeScreen.js:86-94 | the delete counts as done exactly on a 2xx status; a non-empty failure message comes from a `{ message }` body |
| Home.BackendDeleteErrorShowsDefault | InstantDoc/app/screens/HomeScreen.js:92-95 | every `{ error }` body the backend sends on a failed delete reaches the screen as an empty message, so the default alert is shown |
| Home.DeleteIsExactAndIdempotent | InstantDoc/app/screens/HomeScreen.js:91 | the filtered list holds no entry with the id and every entry with another id; repeating the delete changes nothing |
| Home.UnsavedEntrySurvivesDelete | InstantDoc/app/screens/HomeScreen.js:55-91 | an entry added without an id survives every delete that passes the id guard |
| Home.HomeScreen.constructor | InstantDoc/app/screens/HomeScreen.js:9-12 | empty list, empty inputs, no user |
| Home.HomeScreen.FetchContacts | InstantDoc/app/screens/HomeScreen.js:28-35 | the fetched rows replace the list; a failed fetch leaves it unchanged |
| Home.HomeScreen.LoadStoredUser | InstantDoc/app/screens/HomeScreen.js:15-25 | with a stored user its id is set and its contacts fetched; without one nothing changes |
| Home.HomeScreen.AddContact | InstantDoc/app/screens/HomeScreen.js:38-63 | the request is sent exactly when all three guards pass; a failing guard alerts and changes nothing; a saved contact is appended with the reply's id and the inputs are cleared; a failed save alerts and changes nothing; at most 4 contacts stay at most 4 |
| Home.HomeScreen.DeleteContact | InstantDoc/app/screens/HomeScreen.js:78-96 | the request is sent exactly when the id is truthy; a falsy id alerts and changes nothing; a successful delete leaves exactly the entries with another id; a failed one alerts with the reply's message or the default and changes nothing |
| Hospitals.FirstNearestUnique | InstantDoc/app/screens/HospitalScreen.js:53-61 | at most one index is the first nearest, so the selection is determined by the list |
| Hospitals.SelectsNearestOfThree | InstantDoc/app/screens/HospitalScreen.js:49-65 | of candidates at 3.2, 1.1 and 5.0 km, the one at 1.1 km is the first nearest and no other is |
| Hospitals.FindNearestHospital | InstantDoc/app/screens/HospitalScreen.js:49-65 | nothing is selected exactly for an empty list; otherwise the selected hospital is an element of the list at a distance no greater than any other and strictly less than every earlier one, and the reported distance is that minimum |
| Hospitals.HospitalScreen.constructor | InstantDoc/app/screens/HospitalScreen.js:10-14 | no location, no hospitals, loading, no selection |
| Hospitals.HospitalScreen.FetchHospitals | InstantDoc/app/screens/HospitalScreen.js:30-47 | `loading` is cleared on every path; the result list replaces the hospitals; a failed or empty search leaves the selection unchanged; otherwise the first nearest is selected |
| Hospitals.HospitalScreen.Mount | InstantDoc/app/screens/HospitalScreen.js:16-28 | without permission nothing changes (so `loading` stays set); with it the position is recorded and the fetch runs |
| Register.MatchesEmailPattern | InstantDoc/app/screens/RegisterScreen.js:15 | the unanchored `\S+@\S+\.\S+` match somewhere in the string; a matching string has at least five characters, an `@` and a `.` |
| Register.IsValidEmail | InstantDoc/app/screens/RegisterScreen.js:15 | `isValidEmail` as a search for an `@` and a later `.` with non-blank characters around them; an accepted string has at least five characters, an `@` and a `.` |
| Register.ValidEmailMatchesPattern | InstantDoc/app/screens/RegisterScreen.js:15 | every string `isValidEmail` accepts contains a match of `\S+@\S+\.\S+` |
| Register.PatternMatchIsValidEmail | InstantDoc/app/screens/RegisterScreen.js:15 | every string containing such a match is accepted |
| Register.RejectsEmptyAndNoAt | InstantDoc/app/screens/RegisterScreen.js:15 | the empty string and any string without `@` are rejected |
| Register.RejectsNoDotAfterAt | InstantDoc/app/screens/RegisterScreen.js:15 | a string with no `.` at least two places after an `@` is rejected |
| Register.AcceptsSurroundingText | InstantDoc/app/screens/RegisterScreen.js:15 | the match is unanchored: `mail x@y.org now` is accepted |
| Register.RejectsTrailingDot | InstantDoc/app/screens/RegisterScreen.js:15 | `a@b.` is rejected |
| Register.RejectsBlankBeforeAt | InstantDoc/app/screens/RegisterScreen.js:15 | `a @b.c` is rejected |
| Register.RegisterGuard | InstantDoc/app/screens/RegisterScreen.js:19-26 | no alert exactly when all fields are non-empty and the e-mail is valid; an empty field gives the fields alert, otherwise an invalid e-mail gives the e-mail alert |
| Register.RegisterScreen.constructor | InstantDoc/app/screens/RegisterScreen.js:9-12 | empty fields, not loading |
| Register.RegisterScreen.HandleRegister | InstantDoc/app/screens/RegisterScreen.js:17-29 | the request is sent exactly when the guards pass, and then `loading` is set; otherwise `loading` is untouched |
| Register.RegisterScreen.RegisterSettled | InstantDoc/app/screens/RegisterScreen.js:30-39 | `loading` is cleared on both outcomes; success alerts and moves to the login screen; failure alerts with the reply's error or the default |
| Chat.BotText | InstantDoc/app/screens/ChatScreen.js:19-23 | the bot's text is never empty: the reply, "No response" for an empty reply, or the error text on failure |
| Chat.ReplyOf | InstantDoc/app/screens/ChatScreen.js:16-23 | axios resolves exactly on a 2xx status; the reply text is the body's `reply`, and a body without one falls back to "No response" |
| Chat.BackendReplyShownVerbatim | InstantDoc/app/screens/ChatScreen.js:16-23 | against the backend's `/gemini` route the screen shows the backend's reply verbatim, or the error text when the provider failed |
| Chat.ChatScreen.constructor | InstantDoc/app/screens/ChatScreen.js:6-7 | empty transcript and input |
| Chat.ChatScreen.SendMessage | InstantDoc/app/screens/ChatScreen.js:9-27 | blank input changes nothing and sends nothing; otherwise exactly the untrimmed user message and then one bot message are appended after the unchanged transcript, and the input is cleared |

## Left out

- HTTP, CORS, body parsing and the MySQL connection (`server.js:1-31`, `209-211`) are not modelled; handlers are methods over in-memory tables.
- The column collation of the tables (possibly case- or accent-insensitive) is not part of the source and is not modelled: e-mails and phones are compared exactly.
- Concurrency is not modelled: the check-then-insert windows in `/register` and `POST /contacts`, overlapping requests, and the screens' stale `contacts` closure. Every handler runs atomically.
- bcrypt and JWT internals (salt, cost, signing secret, one-hour expiry) are not modelled; their results are parameters.
- Backend.Server.Register: an exception thrown by `bcrypt.hash` and the outer `catch` (500 "Internal server error") are not modelled, because in the code the hash runs inside a database callback that the outer `try` does not cover.
- JSON fields of a type other than string (or number for `user_id`) are not modelled.
- Backend.Server.DeleteContact: the 400 branch for an empty `:id` is not modelled, because Express does not route a request with an empty segment to this handler; `parseInt` of the path segment is not modelled, the id is already an int (a segment that is not a plain number is not considered).
- An auto-increment value consumed by a failed insert is not modelled: counters move only on success.
- `getDistance` (haversine) and `toFixed(2)` are floating point and are not modelled; the distance is a parameter, and infinite or NaN distances are not considered.
- A places reply without a `results` field is not modelled; `reply` is a list or a failure.
- Alerts, `Linking.openURL`, `AsyncStorage`, the location permission, the GPS, `Keyboard.dismiss`, navigation, JSX and styles are not modelled beyond the alert values and the navigation flag the handlers return.
- `confirmDelete` and `callContact` in `HomeScreen.js` are not modelled: they only open a dialog or the dialler.
- The fetched contact rows keep their `user_id` in the source; `Home.Entry` keeps only id, name and phone.
- LoginScreen.js, LandingScreen.js, `_layout.js` and BottomTabs.js are not part of this model.
