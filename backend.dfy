/**
  The InstantDoc backend (an Express server over a MySQL database): user
  registration and login, the emergency-contact registry, and the proxy to
  the Gemini text-generation service.

  The two tables are held in memory as sequences of rows in primary-key
  order, each with its auto-increment counter. Every SQL statement a handler
  issues is replaced by the sequence operation it stands for (`WHERE` is a
  filter, `INSERT` an append). Request-body fields are strings in which ""
  stands for both a missing and an empty field, and `user_id` is an int in
  which 0 stands for a missing one: JavaScript treats `undefined`, "" and 0
  alike as false, and the handlers take the same branch for each.
 */
module Backend {
  import opened Js

  /** A row of the `users` table; `passwordHash` is the bcrypt hash stored at registration. */
  datatype User = User(id: nat, name: string, email: string, passwordHash: string)

  /** A row of the `contacts` table, owned by the user `userId`. */
  datatype Contact = Contact(id: nat, userId: int, name: string, phone: string)

  /** The claims signed into the session token (the secret and the one-hour expiry are not modelled). */
  datatype Token = Token(id: nat, email: string)

  /** The JSON body of a response. */
  datatype Body =
    | Message(text: string)
    | Failure(error: string)
    | Rows(rows: seq<Contact>)
    | LoggedIn(message: string, token: Token, userId: nat, name: string, email: string)
    | Reply(reply: string)

  datatype Response = Response(status: nat, body: Body)

  /**
    Whether one of a handler's database queries reports an error:
    `QueryFails(n)` makes its n-th query (counting from 1) fail.
   */
  datatype DbFault = NoFault | QueryFails(query: nat)

  /** The parts of a Gemini `generateContent` reply that the proxy looks at; any may be absent. */
  datatype Part = Part(text: Option<string>)
  datatype Content = Content(parts: Option<seq<Part>>)
  datatype Candidate = Candidate(content: Option<Content>)
  datatype GeminiData = GeminiData(candidates: Option<seq<Candidate>>)

  const AllFieldsRequired := "All fields are required"
  const DatabaseError := "Database error"
  const EmailExists := "Email already exists. Please use a different email."
  const UserRegistered := "User registered successfully!"
  const InvalidCredentials := "Invalid email or password"
  const InternalError := "Internal server error"
  const LoginSuccessful := "Login successful"
  const PhoneAlreadyAdded := "This phone number is already added as an emergency contact."
  const ContactSaved := "Contact saved successfully!"
  const DeleteFailed := "Failed to delete contact"
  const ContactNotFound := "Contact not found"
  const ContactDeleted := "Contact deleted successfully"
  const GeminiFailed := "Failed to get response from Gemini API"
  const NoGeminiResponse := "No response from Gemini"

  // ---------------------------------------------------------------------
  // Phone normalisation: `phone.replace(/\D/g, "")`
  // ---------------------------------------------------------------------

  /** `\d`: an ASCII decimal digit. */
  predicate IsDigit(c: char)
  {
    '0' <= c <= '9'
  }

  predicate AllDigits(s: string)
  {
    forall i | 0 <= i < |s| :: IsDigit(s[i])
  }

  /** Deletes every non-digit character, keeping the digits in order. */
  function NormalizePhone(phone: string): (r: string)
    ensures AllDigits(r)
    ensures |r| <= |phone|
    ensures forall i | 0 <= i < |phone| && IsDigit(phone[i]) :: phone[i] in r
  {
    Filter(phone, IsDigit)
  }

  /** Normalising an already normalised number changes nothing. */
  lemma NormalizeIdempotent(phone: string)
    ensures NormalizePhone(NormalizePhone(phone)) == NormalizePhone(phone)
  {
    FilterIdempotent(phone, IsDigit);
  }

  /** A number written with digits only is its own normal form, and only such a number is. */
  lemma NormalizeFixesExactlyDigits(phone: string)
    ensures NormalizePhone(phone) == phone <==> AllDigits(phone)
  {
    if AllDigits(phone) {
      FilterKeepsAll(phone, IsDigit);
    }
  }

  /** Punctuation or spacing inserted anywhere in a number does not change its normal form. */
  lemma PunctuationIgnored(before: string, sep: char, after: string)
    requires !IsDigit(sep)
    ensures NormalizePhone(before + [sep] + after) == NormalizePhone(before + after)
  {
    FilterAppend(before + [sep], after, IsDigit);
    FilterAppend(before, [sep], IsDigit);
    FilterAppend(before, after, IsDigit);
    assert Filter([sep], IsDigit) == [];
  }

  // ---------------------------------------------------------------------
  // The `WHERE` clauses of the queries, as filter tests
  // ---------------------------------------------------------------------

  /** `WHERE email = ?` on `users`. */
  function WithEmail(email: string): (keep: User -> bool)
  {
    (u: User) => u.email == email
  }

  /** `WHERE user_id = ?` on `contacts`. */
  function OwnedBy(userId: int): (keep: Contact -> bool)
  {
    (c: Contact) => c.userId == userId
  }

  /** `WHERE user_id = ? AND phone = ?` on `contacts`. */
  function SamePhone(userId: int, phone: string): (keep: Contact -> bool)
  {
    (c: Contact) => c.userId == userId && c.phone == phone
  }

  /** The rows that survive `DELETE FROM contacts WHERE id = ?`. */
  function NotId(id: int): (keep: Contact -> bool)
  {
    (c: Contact) => c.id != id
  }

  predicate EmailTaken(users: seq<User>, email: string)
  {
    exists i | 0 <= i < |users| :: users[i].email == email
  }

  /** An e-mail lookup that selects nothing means the address is not registered. */
  lemma NoneSelected(users: seq<User>, email: string)
    requires Filter(users, WithEmail(email)) == []
    ensures !EmailTaken(users, email)
  {
  }

  /** `SELECT * FROM users WHERE email = ?` followed by `results[0]`. */
  function Lookup(users: seq<User>, email: string): (r: Option<User>)
    ensures r.None? <==> !EmailTaken(users, email)
    ensures r.Some? ==> r.value in users && r.value.email == email
  {
    var found := Filter(users, WithEmail(email));
    if found == [] then NoneSelected(users, email); None else Some(found[0])
  }

  /** The duplicate test of `POST /contacts`: a stored phone of this user equals the NORMALISED input. */
  predicate PhoneTaken(contacts: seq<Contact>, userId: int, phone: string)
  {
    exists i | 0 <= i < |contacts| :: contacts[i].userId == userId && contacts[i].phone == NormalizePhone(phone)
  }

  /**
    `SELECT COUNT(*) ... WHERE user_id = ? AND phone = ?` with the normalised
    phone counts a row exactly when the phone is taken.
   */
  lemma {:induction false} DuplicateCountMeansPhoneTaken(contacts: seq<Contact>, userId: int, phone: string)
    ensures PhoneTaken(contacts, userId, phone) <==> |Filter(contacts, SamePhone(userId, NormalizePhone(phone)))| > 0
  {
    var keep := SamePhone(userId, NormalizePhone(phone));
    var found := Filter(contacts, keep);
    if PhoneTaken(contacts, userId, phone) {
      var i :| 0 <= i < |contacts| && contacts[i].userId == userId && contacts[i].phone == NormalizePhone(phone);
      assert keep(contacts[i]);
    }
    if |found| > 0 {
      assert keep(found[0]);
      var i :| 0 <= i < |contacts| && contacts[i] == found[0];
    }
  }

  predicate HasContact(contacts: seq<Contact>, id: int)
  {
    exists i | 0 <= i < |contacts| :: contacts[i].id == id
  }

  // ---------------------------------------------------------------------
  // Table invariants: auto-increment ids, unique e-mail addresses
  // ---------------------------------------------------------------------

  /** Rows in primary-key order, every id below the auto-increment counter, e-mails distinct. */
  ghost predicate UsersValid(users: seq<User>, nextId: nat)
  {
    && (forall i, j | 0 <= i < j < |users| :: users[i].id < users[j].id && users[i].email != users[j].email)
    && (forall i | 0 <= i < |users| :: users[i].id < nextId)
  }

  ghost predicate IdsIncreasing(contacts: seq<Contact>)
  {
    forall i, j | 0 <= i < j < |contacts| :: contacts[i].id < contacts[j].id
  }

  /** Rows in primary-key order, every id below the auto-increment counter. */
  ghost predicate ContactsValid(contacts: seq<Contact>, nextId: nat)
  {
    IdsIncreasing(contacts) && forall i | 0 <= i < |contacts| :: contacts[i].id < nextId
  }

  /** With e-mails unique, the lookup finds exactly the one user registered under the address. */
  lemma LookupUnique(users: seq<User>, nextId: nat, i: nat)
    requires UsersValid(users, nextId)
    requires i < |users|
    ensures Lookup(users, users[i].email) == Some(users[i])
  {
  }

  /** A row with a smaller id than every row of an ordered list keeps it ordered when put in front. */
  lemma PrependKeepsOrder(c: Contact, rest: seq<Contact>)
    requires IdsIncreasing(rest)
    requires forall j | 0 <= j < |rest| :: c.id < rest[j].id
    ensures IdsIncreasing([c] + rest)
  {
    var r := [c] + rest;
    forall i, j | 0 <= i < j < |r|
      ensures r[i].id < r[j].id
    {
      assert r[j] == rest[j - 1];
      if 0 < i {
        assert r[i] == rest[i - 1];
      }
    }
  }

  /** Every row a filter keeps from the tail of an ordered list has a larger id than its head. */
  lemma HeadBelowFilteredTail(contacts: seq<Contact>, keep: Contact -> bool)
    requires IdsIncreasing(contacts) && contacts != []
    ensures forall j | 0 <= j < |Filter(contacts[1..], keep)| :: contacts[0].id < Filter(contacts[1..], keep)[j].id
  {
    var tail := contacts[1..];
    var rest := Filter(tail, keep);
    forall j | 0 <= j < |rest|
      ensures contacts[0].id < rest[j].id
    {
      var k :| 0 <= k < |tail| && tail[k] == rest[j];
      assert contacts[k + 1] == rest[j];
    }
  }

  /** A `WHERE` filter returns rows in table (primary-key) order. */
  lemma {:induction false} FilterKeepsIdOrder(contacts: seq<Contact>, keep: Contact -> bool)
    requires IdsIncreasing(contacts)
    ensures IdsIncreasing(Filter(contacts, keep))
  {
    if contacts != [] {
      var tail := contacts[1..];
      assert IdsIncreasing(tail);
      FilterKeepsIdOrder(tail, keep);
      if keep(contacts[0]) {
        HeadBelowFilteredTail(contacts, keep);
        PrependKeepsOrder(contacts[0], Filter(tail, keep));
      }
    }
  }

  /** With ids unique, `DELETE ... WHERE id = ?` affects one row when the id is present and none otherwise. */
  lemma {:induction false} DeleteAffectsOneRow(contacts: seq<Contact>, id: int)
    requires IdsIncreasing(contacts)
    ensures |Filter(contacts, NotId(id))| == |contacts| - (if HasContact(contacts, id) then 1 else 0)
  {
    if contacts != [] {
      DeleteAffectsOneRow(contacts[1..], id);
      if contacts[0].id == id {
        assert !HasContact(contacts[1..], id) by {
          forall k | 0 <= k < |contacts[1..]|
            ensures contacts[1..][k].id != id
          {
            assert contacts[k + 1] == contacts[1..][k];
          }
        }
      } else {
        assert HasContact(contacts, id) ==> HasContact(contacts[1..], id) by {
          if HasContact(contacts, id) {
            var k :| 0 <= k < |contacts| && contacts[k].id == id;
            assert contacts[1..][k - 1] == contacts[k];
          }
        }
        assert HasContact(contacts[1..], id) ==> HasContact(contacts, id) by {
          if HasContact(contacts[1..], id) {
            var k :| 0 <= k < |contacts[1..]| && contacts[1..][k].id == id;
            assert contacts[k + 1] == contacts[1..][k];
          }
        }
      }
    }
  }

  // ---------------------------------------------------------------------
  // Consequences of storing the raw phone but comparing the normalised one
  // ---------------------------------------------------------------------

  /**
    A phone written with any non-digit (a space, a dash) never matches its own
    stored row, so the same request can be repeated and stored again.
   */
  lemma RawPhoneNeverBlocksRepeat(contacts: seq<Contact>, id: nat, userId: int, name: string, phone: string)
    requires !AllDigits(phone)
    requires !PhoneTaken(contacts, userId, phone)
    ensures !PhoneTaken(contacts + [Contact(id, userId, name, phone)], userId, phone)
  {
  }

  /** A phone written with digits only does block a repeat of the same request. */
  lemma DigitsOnlyPhoneBlocksRepeat(contacts: seq<Contact>, id: nat, userId: int, name: string, phone: string)
    requires AllDigits(phone)
    ensures PhoneTaken(contacts + [Contact(id, userId, name, phone)], userId, phone)
  {
    NormalizeFixesExactlyDigits(phone);
    var stored := contacts + [Contact(id, userId, name, phone)];
    assert stored[|contacts|].phone == NormalizePhone(phone);
  }

  // ---------------------------------------------------------------------
  // POST /gemini
  // ---------------------------------------------------------------------

  /** `data.candidates?.[0]?.content?.parts?.[0]?.text` */
  function FirstCandidateText(data: GeminiData): (r: Option<string>)
    ensures r.Some? <==>
              && data.candidates.Some? && |data.candidates.value| > 0
              && data.candidates.value[0].content.Some?
              && data.candidates.value[0].content.value.parts.Some?
              && |data.candidates.value[0].content.value.parts.value| > 0
              && data.candidates.value[0].content.value.parts.value[0].text.Some?
    ensures r.Some? ==> r == data.candidates.value[0].content.value.parts.value[0].text
  {
    match data.candidates
    case None => None
    case Some(candidates) =>
      if |candidates| == 0 then None
      else match candidates[0].content
        case None => None
        case Some(content) =>
          match content.parts
          case None => None
          case Some(parts) => if |parts| == 0 then None else parts[0].text
  }

  /** The reply text: the first candidate's text, or the fallback when that is absent or empty. */
  function ExtractReply(data: GeminiData): (r: string)
    ensures r != ""
    ensures r == NoGeminiResponse || FirstCandidateText(data) == Some(r)
    ensures FirstCandidateText(data).Some? && FirstCandidateText(data).value != "" ==> r == FirstCandidateText(data).value
  {
    match FirstCandidateText(data)
    case Some(text) => if text != "" then text else NoGeminiResponse
    case None => NoGeminiResponse
  }

  /**
    `POST /gemini`: `upstream` is what the Gemini call returned for the prompt,
    or None when the call failed (network error or a non-2xx status).
   */
  function AskGemini(upstream: Option<GeminiData>): (res: Response)
    ensures res.status == 200 <==> upstream.Some?
    ensures res.status == 200 ==> res.body.Reply? && res.body.reply != ""
    ensures upstream.None? ==> res == Response(500, Failure(GeminiFailed))
  {
    match upstream
    case None => Response(500, Failure(GeminiFailed))
    case Some(data) => Response(200, Reply(ExtractReply(data)))
  }

  // ---------------------------------------------------------------------
  // The server and its tables
  // ---------------------------------------------------------------------

  class Server {
    var users: seq<User>
    var contacts: seq<Contact>
    var nextUserId: nat
    var nextContactId: nat

    ghost predicate Valid()
      reads this
    {
      UsersValid(users, nextUserId) && ContactsValid(contacts, nextContactId)
    }

    constructor ()
      ensures Valid()
      ensures users == [] && contacts == []
    {
      users := [];
      contacts := [];
      nextUserId := 1;
      nextContactId := 1;
    }

    /**
      `POST /register`. `hashed` is the bcrypt hash of `password` (its salt is
      random, so it is a parameter). Query 1 is the e-mail lookup, query 2 the insert.
     */
    method Register(name: string, email: string, password: string, hashed: string, fault: DbFault)
      returns (res: Response)
      requires Valid()
      modifies this
      ensures Valid()
      ensures contacts == old(contacts) && nextContactId == old(nextContactId)
      ensures res.status == 201 <==>
                name != "" && email != "" && password != "" && fault != QueryFails(1)
                && !EmailTaken(old(users), email) && fault != QueryFails(2)
      ensures res.status == 201 ==>
                && res.body == Message(UserRegistered)
                && users == old(users) + [User(old(nextUserId), name, email, hashed)]
                && nextUserId == old(nextUserId) + 1
      ensures res.status != 201 ==> users == old(users) && nextUserId == old(nextUserId)
      ensures name == "" || email == "" || password == "" ==> res == Response(400, Failure(AllFieldsRequired))
      ensures name != "" && email != "" && password != "" && fault == QueryFails(1) ==>
                res == Response(500, Failure(DatabaseError))
      ensures name != "" && email != "" && password != "" && fault != QueryFails(1) && EmailTaken(old(users), email) ==>
                res == Response(400, Failure(EmailExists))
      ensures name != "" && email != "" && password != "" && !EmailTaken(old(users), email) && fault == QueryFails(2) ==>
                res == Response(500, Failure(DatabaseError))
      ensures res.status == 500 ==> res.body == Failure(DatabaseError)
    {
      if name == "" || email == "" || password == "" {
        return Response(400, Failure(AllFieldsRequired));
      }
      if fault == QueryFails(1) {
        return Response(500, Failure(DatabaseError));
      }
      var results := Filter(users, WithEmail(email));
      if |results| > 0 {
        assert results[0] in users;
        return Response(400, Failure(EmailExists));
      }
      NoneSelected(users, email);
      if fault == QueryFails(2) {
        return Response(500, Failure(DatabaseError));
      }
      users := users + [User(nextUserId, name, email, hashed)];
      nextUserId := nextUserId + 1;
      res := Response(201, Message(UserRegistered));
    }

    /**
      `POST /login`. `compare` stands for `bcrypt.compare(password, hash)`:
      None when it throws. Query 1 is the e-mail lookup.
     */
    method Login(email: string, password: string, compare: (string, string) -> Option<bool>, fault: DbFault)
      returns (res: Response)
      ensures email == "" || password == "" ==> res == Response(400, Failure(AllFieldsRequired))
      ensures email != "" && password != "" && fault == QueryFails(1) ==> res == Response(500, Failure(DatabaseError))
      ensures email != "" && password != "" && fault != QueryFails(1) && Lookup(users, email).Some? ==>
                var u := Lookup(users, email).value;
                && (compare(password, u.passwordHash) == None ==> res == Response(500, Failure(InternalError)))
                && (compare(password, u.passwordHash) == Some(true) ==>
                      res == Response(200, LoggedIn(LoginSuccessful, Token(u.id, u.email), u.id, u.name, u.email)))
      ensures res.status == 401 <==>
                && email != "" && password != "" && fault != QueryFails(1)
                && (!EmailTaken(users, email) || compare(password, Lookup(users, email).value.passwordHash) == Some(false))
      ensures res.status == 401 ==> res == Response(401, Failure(InvalidCredentials))
      ensures res.status == 200 ==>
                exists i | 0 <= i < |users| ::
                  && users[i].email == email
                  && compare(password, users[i].passwordHash) == Some(true)
                  && res.body == LoggedIn(LoginSuccessful, Token(users[i].id, email), users[i].id, users[i].name, email)
      ensures res.status in {200, 400, 401, 500}
    {
      if email == "" || password == "" {
        return Response(400, Failure(AllFieldsRequired));
      }
      if fault == QueryFails(1) {
        return Response(500, Failure(DatabaseError));
      }
      var found := Lookup(users, email);
      if found.None? {
        return Response(401, Failure(InvalidCredentials));
      }
      var user := found.value;
      match compare(password, user.passwordHash)
      case None =>
        res := Response(500, Failure(InternalError));
      case Some(isMatch) =>
        if !isMatch {
          res := Response(401, Failure(InvalidCredentials));
        } else {
          res := Response(200, LoggedIn(LoginSuccessful, Token(user.id, user.email), user.id, user.name, user.email));
        }
    }

    /**
      `POST /contacts`. Query 1 is the duplicate count, query 2 the insert.
      The count compares the normalised phone, the insert stores the raw one,
      and no limit on the number of contacts is checked.
     */
    method AddContact(userId: int, name: string, phone: string, fault: DbFault)
      returns (res: Response)
      requires Valid()
      modifies this
      ensures Valid()
      ensures users == old(users) && nextUserId == old(nextUserId)
      ensures res.status == 201 <==>
                userId != 0 && name != "" && phone != "" && fault != QueryFails(1)
                && !PhoneTaken(old(contacts), userId, phone) && fault != QueryFails(2)
      ensures res.status == 201 ==>
                && res.body == Message(ContactSaved)
                && contacts == old(contacts) + [Contact(old(nextContactId), userId, name, phone)]
                && nextContactId == old(nextContactId) + 1
      ensures res.status != 201 ==> contacts == old(contacts) && nextContactId == old(nextContactId)
      ensures userId == 0 || name == "" || phone == "" ==> res == Response(400, Failure(AllFieldsRequired))
      ensures userId != 0 && name != "" && phone != "" && fault == QueryFails(1) ==>
                res == Response(500, Failure(DatabaseError))
      ensures userId != 0 && name != "" && phone != "" && fault != QueryFails(1) && PhoneTaken(old(contacts), userId, phone) ==>
                res == Response(400, Failure(PhoneAlreadyAdded))
      ensures userId != 0 && name != "" && phone != "" && !PhoneTaken(old(contacts), userId, phone) && fault == QueryFails(2) ==>
                res == Response(500, Failure(DatabaseError))
      ensures res.status == 500 ==> res.body == Failure(DatabaseError)
    {
      if userId == 0 || name == "" || phone == "" {
        return Response(400, Failure(AllFieldsRequired));
      }
      var normalized := NormalizePhone(phone);
      if fault == QueryFails(1) {
        return Response(500, Failure(DatabaseError));
      }
      var count := |Filter(contacts, SamePhone(userId, normalized))|;
      DuplicateCountMeansPhoneTaken(contacts, userId, phone);
      if count > 0 {
        return Response(400, Failure(PhoneAlreadyAdded));
      }
      if fault == QueryFails(2) {
        return Response(500, Failure(DatabaseError));
      }
      contacts := contacts + [Contact(nextContactId, userId, name, phone)];
      nextContactId := nextContactId + 1;
      res := Response(201, Message(ContactSaved));
    }

    /** `GET /contacts/:user_id`: the rows owned by `userId`, in table order. Query 1 is the select. */
    method ListContacts(userId: int, fault: DbFault) returns (res: Response)
      requires Valid()
      ensures fault == QueryFails(1) ==> res == Response(500, Failure(DatabaseError))
      ensures fault != QueryFails(1) ==> res.status == 200 && res.body.Rows?
      ensures res.status == 200 ==>
                && res.body.Rows?
                && IdsIncreasing(res.body.rows)
                && (forall i | 0 <= i < |res.body.rows| :: res.body.rows[i] in contacts && res.body.rows[i].userId == userId)
                && (forall i | 0 <= i < |contacts| && contacts[i].userId == userId :: contacts[i] in res.body.rows)
    {
      if fault == QueryFails(1) {
        return Response(500, Failure(DatabaseError));
      }
      var results := Filter(contacts, OwnedBy(userId));
      FilterKeepsIdOrder(contacts, OwnedBy(userId));
      res := Response(200, Rows(results));
    }

    /**
      `DELETE /contacts/:id`, with the path segment already read as a number.
      Query 1 is the delete.
     */
    method DeleteContact(id: int, fault: DbFault) returns (res: Response)
      requires Valid()
      modifies this
      ensures Valid()
      ensures users == old(users) && nextUserId == old(nextUserId) && nextContactId == old(nextContactId)
      ensures fault == QueryFails(1) ==> res == Response(500, Failure(DeleteFailed)) && contacts == old(contacts)
      ensures fault != QueryFails(1) && !HasContact(old(contacts), id) ==>
                res == Response(404, Failure(ContactNotFound)) && contacts == old(contacts)
      ensures fault != QueryFails(1) && HasContact(old(contacts), id) ==>
                && res == Response(200, Message(ContactDeleted))
                && contacts == Filter(old(contacts), NotId(id))
                && |contacts| == |old(contacts)| - 1
      ensures forall i | 0 <= i < |contacts| :: contacts[i].id != id || res.status != 200
    {
      if fault == QueryFails(1) {
        return Response(500, Failure(DeleteFailed));
      }
      var remaining := Filter(contacts, NotId(id));
      DeleteAffectsOneRow(contacts, id);
      var affectedRows := |contacts| - |remaining|;
      if affectedRows == 0 {
        return Response(404, Failure(ContactNotFound));
      }
      FilterKeepsIdOrder(contacts, NotId(id));
      contacts := remaining;
      res := Response(200, Message(ContactDeleted));
    }

    /**
      Registering and then logging in with the same credentials: the session
      token carries the id that registration gave the new user.
     */
    method RegisterThenLogin(name: string, email: string, password: string, hashed: string,
                             compare: (string, string) -> Option<bool>)
      returns (registered: Response, loggedIn: Response)
      requires Valid()
      requires name != "" && email != "" && password != ""
      requires compare(password, hashed) == Some(true)
      modifies this
      ensures Valid()
      ensures registered.status == 201 <==> !EmailTaken(old(users), email)
      ensures registered.status == 201 ==>
                && users == old(users) + [User(old(nextUserId), name, email, hashed)]
                && loggedIn == Response(200, LoggedIn(LoginSuccessful, Token(old(nextUserId), email), old(nextUserId), name, email))
    {
      registered := Register(name, email, password, hashed, NoFault);
      if registered.status == 201 {
        LookupUnique(users, nextUserId, |users| - 1);
      }
      loggedIn := Login(email, password, compare, NoFault);
    }
  }
}
