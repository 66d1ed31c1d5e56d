/**
  The home screen of the InstantDoc app: the user's list of emergency
  contacts, the two text inputs for a new contact, and the signed-in user's
  id. Requests to the backend are replaced by their outcomes, passed in as
  parameters; each handler runs to completion before the next starts.
 */
module Home {
  import opened Js
  import Backend

  /**
    A contact as the screen holds it. `id` is absent for a contact added on
    this screen whose save reply carried no id.
   */
  datatype Entry = Entry(id: Option<int>, name: string, phone: string)

  /** How `axios.post(".../contacts")` settled: resolved, with the reply's `data.id`, or rejected. */
  datatype SaveReply = Saved(dataId: Option<int>) | SaveFailed

  /**
    How `axios.delete(".../contacts/:id")` settled; `message` is the rejected
    reply's `data.message`, "" when there is none.
   */
  datatype DeleteReply = Deleted | DeleteFailed(message: string)

  /** The most contacts the screen lets the user add. */
  const MaxContacts := 4

  const MissingFields := Alert("Error", "Please enter both name and phone number.")
  const MissingUser := Alert("Error", "User ID is missing")
  const LimitReached := Alert("Limit Reached", "You can only add up to 4 emergency contacts.")
  const SaveError := Alert("Error", "Could not save contact.")
  const InvalidId := Alert("Error", "Invalid contact ID.")
  const DefaultDeleteError := "Could not delete contact."

  /** JavaScript truthiness of an id: neither `undefined`/`null` nor 0. */
  predicate IsTruthyId(id: Option<int>)
  {
    id.Some? && id.value != 0
  }

  /** The guards of `addContact`, in order: the alert of the first that fails, or None when all pass. */
  function AddGuard(name: string, phone: string, userId: Option<int>, count: nat): (r: Option<Alert>)
    ensures r.None? <==> name != "" && phone != "" && IsTruthyId(userId) && count < MaxContacts
    ensures name == "" || phone == "" ==> r == Some(MissingFields)
    ensures count >= MaxContacts ==> r.Some?
  {
    if name == "" || phone == "" then Some(MissingFields)
    else if !IsTruthyId(userId) then Some(MissingUser)
    else if count >= MaxContacts then Some(LimitReached)
    else None
  }

  /** The alert of a failed delete: the reply's message, or the default text when there is none. */
  function DeleteFailedAlert(message: string): (a: Alert)
    ensures a.title == "Error" && a.message != ""
    ensures message != "" ==> a.message == message
    ensures message == "" ==> a.message == DefaultDeleteError
  {
    Alert("Error", if message != "" then message else DefaultDeleteError)
  }

  /**
    What the screen receives from a backend response to the delete: axios
    resolves on a 2xx status only, and the screen reads `data.message`,
    which only a `{ message }` body carries.
   */
  function DeleteReplyOf(res: Backend.Response): (r: DeleteReply)
    ensures r == Deleted <==> 200 <= res.status < 300
    ensures r.DeleteFailed? && r.message != "" ==> res.body.Message? && res.body.text == r.message
  {
    if 200 <= res.status < 300 then Deleted
    else DeleteFailed(if res.body.Message? then res.body.text else "")
  }

  /**
    Every error the backend's delete route sends is an `{ error }` body, so
    the screen never shows the backend's reason: a failed delete always
    alerts with the default text.
   */
  lemma BackendDeleteErrorShowsDefault(res: Backend.Response)
    requires !(200 <= res.status < 300)
    requires res.body.Failure?
    ensures DeleteReplyOf(res) == DeleteFailed("")
    ensures DeleteFailedAlert(DeleteReplyOf(res).message) == Alert("Error", DefaultDeleteError)
  {
  }

  /** The test of `contacts.filter(contact => contact.id !== id)`. */
  function KeepUnless(id: Option<int>): (keep: Entry -> bool)
  {
    (e: Entry) => e.id != id
  }

  /** Deleting keeps exactly the entries with another id, so deleting the same id again removes nothing. */
  lemma {:induction false} DeleteIsExactAndIdempotent(entries: seq<Entry>, id: Option<int>)
    ensures forall i | 0 <= i < |Filter(entries, KeepUnless(id))| :: Filter(entries, KeepUnless(id))[i].id != id
    ensures forall i | 0 <= i < |entries| && entries[i].id != id :: entries[i] in Filter(entries, KeepUnless(id))
    ensures Filter(Filter(entries, KeepUnless(id)), KeepUnless(id)) == Filter(entries, KeepUnless(id))
  {
    var kept := Filter(entries, KeepUnless(id));
    forall i | 0 <= i < |kept|
      ensures kept[i].id != id
    {
      assert KeepUnless(id)(kept[i]);
    }
    forall i | 0 <= i < |entries| && entries[i].id != id
      ensures entries[i] in kept
    {
      assert KeepUnless(id)(entries[i]);
    }
    FilterIdempotent(entries, KeepUnless(id));
  }

  /**
    An entry without an id (one added on this screen) survives every delete
    that gets past the id guard: it can only go away when the list is fetched again.
   */
  lemma UnsavedEntrySurvivesDelete(entries: seq<Entry>, i: nat, id: Option<int>)
    requires i < |entries| && entries[i].id == None
    requires IsTruthyId(id)
    ensures entries[i] in Filter(entries, KeepUnless(id))
  {
  }

  class HomeScreen {
    var contacts: seq<Entry>
    var name: string
    var phone: string
    var userId: Option<int>

    /** At most `MaxContacts` contacts on the screen. */
    ghost predicate WithinCap()
      reads this
    {
      |contacts| <= MaxContacts
    }

    constructor ()
      ensures contacts == [] && name == "" && phone == "" && userId == None
    {
      contacts := [];
      name := "";
      phone := "";
      userId := None;
    }

    /**
      `fetchContacts`: `reply` holds the rows of `GET /contacts/:user_id`, or
      None when the request failed. The rows replace the list whatever their
      number, since the backend does not limit it.
     */
    method FetchContacts(reply: Option<seq<Entry>>)
      modifies this`contacts
      ensures contacts == if reply.Some? then reply.value else old(contacts)
    {
      if reply.Some? {
        contacts := reply.value;
      }
    }

    /** The mount effect: `storedId` is the id of the user kept in storage, None when none is. */
    method LoadStoredUser(storedId: Option<int>, reply: Option<seq<Entry>>)
      modifies this`userId, this`contacts
      ensures storedId.None? ==> userId == old(userId) && contacts == old(contacts)
      ensures storedId.Some? ==>
                userId == storedId && contacts == if reply.Some? then reply.value else old(contacts)
    {
      if storedId.Some? {
        userId := storedId;
        FetchContacts(reply);
      }
    }

    /**
      `addContact`: the three guards, then the save request and the list
      update. `sent` says whether the request was made; `reply` is its outcome.
     */
    method AddContact(reply: SaveReply) returns (alert: Option<Alert>, sent: bool)
      modifies this`contacts, this`name, this`phone
      ensures sent <==> AddGuard(old(name), old(phone), userId, |old(contacts)|).None?
      ensures alert.None? ==>
                && AddGuard(old(name), old(phone), userId, |old(contacts)|).None?
                && reply.Saved?
                && contacts == old(contacts) + [Entry(reply.dataId, old(name), old(phone))]
                && name == "" && phone == ""
      ensures alert.Some? ==> contacts == old(contacts) && name == old(name) && phone == old(phone)
      ensures AddGuard(old(name), old(phone), userId, |old(contacts)|).Some? ==>
                alert == AddGuard(old(name), old(phone), userId, |old(contacts)|)
      ensures AddGuard(old(name), old(phone), userId, |old(contacts)|).None? ==>
                (alert.None? <==> reply.Saved?) && (reply == SaveFailed ==> alert == Some(SaveError))
      ensures old(WithinCap()) ==> WithinCap()
    {
      alert := AddGuard(name, phone, userId, |contacts|);
      sent := alert.None?;
      if !sent {
        return;
      }
      match reply
      case Saved(dataId) =>
        contacts := contacts + [Entry(dataId, name, phone)];
        name := "";
        phone := "";
      case SaveFailed =>
        alert := Some(SaveError);
    }

    /**
      `deleteContact`: the id guard, then the delete request and the list
      update. `sent` says whether the request was made; `reply` is its outcome.
     */
    method DeleteContact(id: Option<int>, reply: DeleteReply) returns (alert: Option<Alert>, sent: bool)
      modifies this`contacts
      ensures sent <==> IsTruthyId(id)
      ensures !IsTruthyId(id) ==> alert == Some(InvalidId) && contacts == old(contacts)
      ensures IsTruthyId(id) && reply == Deleted ==>
                alert.None? && contacts == Filter(old(contacts), KeepUnless(id))
      ensures IsTruthyId(id) && reply.DeleteFailed? ==>
                && alert == Some(DeleteFailedAlert(reply.message))
                && contacts == old(contacts)
      ensures |contacts| <= |old(contacts)|
      ensures old(WithinCap()) ==> WithinCap()
    {
      if !IsTruthyId(id) {
        return Some(InvalidId), false;
      }
      sent := true;
      match reply
      case Deleted =>
        contacts := Filter(contacts, KeepUnless(id));
        alert := None;
      case DeleteFailed(message) =>
        alert := Some(DeleteFailedAlert(message));
    }
  }
}
