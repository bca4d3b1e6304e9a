/**
 * The add-user page: a five-field form, and a submit handler that validates
 * it, builds a user record stamped with the current time, and prepends that
 * record to the list kept in the browser's `newUsers` storage slot.
 */
module AddUser {
  import opened Wrappers
  import opened UserTypes

  /** The form's inputs, by their `name` attribute. */
  datatype Field = NameField | EmailField | PhoneField | WebsiteField | CompanyField

  /** The value of one input. */
  function Get(form: UserFormData, field: Field): string
  {
    match field
    case NameField => form.name
    case EmailField => form.email
    case PhoneField => form.phone
    case WebsiteField => form.website
    case CompanyField => form.company
  }

  /** `{ ...prev, [name]: value }`: the form with one input replaced. */
  function Update(form: UserFormData, field: Field, value: string): UserFormData
  {
    match field
    case NameField => form.(name := value)
    case EmailField => form.(email := value)
    case PhoneField => form.(phone := value)
    case WebsiteField => form.(website := value)
    case CompanyField => form.(company := value)
  }

  /** Updating an input sets that input and leaves every other input as it was. */
  lemma UpdateSpec(form: UserFormData, field: Field, value: string)
    ensures forall other :: Get(Update(form, field, value), other) == if other == field then value else Get(form, other)
  {
  }

  /** The message of the validation error. */
  const RequiredMessage: string := "Name and email are required"

  /** The validation step: an error when the name or the email is the empty string. */
  function Validate(form: UserFormData): Option<string>
  {
    if form.name == "" || form.email == "" then Some(RequiredMessage) else None
  }

  /**
   * A form is rejected exactly when its name or email is the empty string
   * (so a whitespace-only one is accepted), and always with the same message.
   */
  lemma ValidateSpec(form: UserFormData)
    ensures Validate(form).None? <==> |form.name| > 0 && |form.email| > 0
    ensures Validate(form).Some? ==> Validate(form).value == RequiredMessage
  {
  }

  /** The record built from the form: the id is the clock reading, absent optional fields are empty. */
  function BuildUser(form: UserFormData, now: int): User
  {
    User(
      now,
      form.name,
      form.email,
      if form.phone != "" then form.phone else "",
      if form.website != "" then form.website else "",
      Company(if form.company != "" then form.company else "", "", ""))
  }

  /** The form that the built record's fields spell out. */
  function FormOf(u: User): UserFormData
  {
    UserFormData(u.name, u.email, u.phone, u.website, u.company.name)
  }

  /**
   * The built record carries the form's fields unchanged and the clock
   * reading as its id; the catch phrase and the slogan are empty.
   */
  lemma BuildUserSpec(form: UserFormData, now: int)
    ensures FormOf(BuildUser(form, now)) == form
    ensures BuildUser(form, now).id == now
    ensures BuildUser(form, now).company.catchPhrase == "" && BuildUser(form, now).company.bs == ""
  {
  }

  /** What the `newUsers` storage slot holds. */
  datatype Slot =
    | Absent                        // never written
    | Empty                         // the empty string
    | Unparsable(syntaxError: string) // text that is not JSON; the parser's message
    | NonArray                      // JSON that is not an array
    | Array(entries: seq<User>)     // a JSON array of users

  /** A parsed JSON value, as far as the handler distinguishes it. */
  datatype Json = JsonArray(items: seq<User>) | JsonOther

  /** `existing ? JSON.parse(existing) : []`: a missing or empty slot reads as `[]`, text that is not JSON throws. */
  function ReadSlot(slot: Slot): Result<Json>
  {
    match slot
    case Absent => Ok(JsonArray([]))
    case Empty => Ok(JsonArray([]))
    case Unparsable(message) => Err(message)
    case NonArray => Ok(JsonOther)
    case Array(entries) => Ok(JsonArray(entries))
  }

  /** The stored users the handler prepends to, once a value that is not an array is coerced to `[]`. */
  function Stored(slot: Slot): seq<User>
  {
    if slot.Array? then slot.entries else []
  }

  /** What a submission leaves behind: the error shown and the storage slot. */
  datatype Submission = Submission(error: Option<string>, newUsers: Slot)

  /** The outcome of submitting `form` at clock reading `now` against the stored `slot`. */
  function Submit(form: UserFormData, slot: Slot, now: int): Submission
  {
    if Validate(form).Some? then Submission(Validate(form), slot)
    else if slot.Unparsable? then Submission(Some(slot.syntaxError), slot)
    else Submission(None, Array([BuildUser(form, now)] + Stored(slot)))
  }

  /** A form missing its name or email is rejected with the validation message and nothing is written. */
  lemma SubmitRejectsMissingFields(form: UserFormData, slot: Slot, now: int)
    requires form.name == "" || form.email == ""
    ensures Submit(form, slot, now) == Submission(Some(RequiredMessage), slot)
  {
  }

  /**
   * A valid form with a readable slot clears the error and stores the new
   * user first, ahead of the users stored before; an absent, empty or
   * non-array slot ends up holding the new user alone.
   */
  lemma SubmitPrepends(form: UserFormData, slot: Slot, now: int)
    requires form.name != "" && form.email != ""
    requires !slot.Unparsable?
    ensures Submit(form, slot, now).error == None
    ensures Submit(form, slot, now).newUsers.Array?
    ensures Submit(form, slot, now).newUsers.entries[0] == BuildUser(form, now)
    ensures Submit(form, slot, now).newUsers.entries[1..] == Stored(slot)
    ensures |Submit(form, slot, now).newUsers.entries| == |Stored(slot)| + 1
    ensures !slot.Array? ==> Submit(form, slot, now).newUsers == Array([BuildUser(form, now)])
  {
  }

  /** Unparsable stored text makes a valid submission fail with the parser's message; nothing is written. */
  lemma SubmitUnparsableFails(form: UserFormData, slot: Slot, now: int)
    requires form.name != "" && form.email != ""
    requires slot.Unparsable?
    ensures Submit(form, slot, now) == Submission(Some(slot.syntaxError), slot)
  {
  }

  /** A submission shows no error exactly when it stores the new user ahead of the stored ones. */
  lemma SubmitErrorIffNoWrite(form: UserFormData, slot: Slot, now: int)
    ensures Submit(form, slot, now).error.None?
        <==> Submit(form, slot, now).newUsers == Array([BuildUser(form, now)] + Stored(slot))
  {
    var s := Submit(form, slot, now);
    if s.error.Some? && slot.Array? {
      assert |s.newUsers.entries| != |[BuildUser(form, now)] + Stored(slot)|;
    }
  }

  /**
   * Submitting a name and an email with every optional field blank stores a
   * record whose phone, website and company fields are all empty, first in line.
   */
  lemma BlankOptionalFields(slot: Slot, now: int)
    requires !slot.Unparsable?
    ensures var u := Submit(UserFormData("Ada Lovelace", "ada@example.com", "", "", ""), slot, now).newUsers.entries[0];
      u == User(now, "Ada Lovelace", "ada@example.com", "", "", Company("", "", ""))
  {
  }

  /** The add-user page's state, with the storage slot it writes to. */
  class AddUserPage {
    var formData: UserFormData
    var loading: bool
    var error: Option<string>
    var newUsers: Slot

    /** A blank form, not loading, no error, over whatever the slot already holds. */
    constructor (stored: Slot)
      ensures formData == UserFormData("", "", "", "", "")
      ensures !loading && error == None && newUsers == stored
    {
      formData := UserFormData("", "", "", "", "");
      loading := false;
      error := None;
      newUsers := stored;
    }

    /** `handleChange`: the edited input takes the new value. */
    method HandleChange(field: Field, value: string)
      modifies this`formData
      ensures formData == Update(old(formData), field, value)
    {
      formData := Update(formData, field, value);
    }

    /**
     * `handleSubmit` at clock reading `now`: the error and the slot become
     * those of `Submit`, the form is kept, and loading is off on every path.
     */
    method HandleSubmit(now: int)
      modifies this`loading, this`error, this`newUsers
      ensures error == Submit(formData, old(newUsers), now).error
      ensures newUsers == Submit(formData, old(newUsers), now).newUsers
      ensures !loading
    {
      loading := true;
      error := None;
      var thrown: Option<string> := None;
      if formData.name == "" || formData.email == "" {
        thrown := Some(RequiredMessage);
      } else {
        var newUser := BuildUser(formData, now);
        var existing := newUsers;
        match ReadSlot(existing) {
          case Err(message) =>
            thrown := Some(message);
          case Ok(parsed) =>
            var list := if parsed.JsonArray? then parsed.items else [];
            list := [newUser] + list;
            newUsers := Array(list);
        }
      }
      if thrown.Some? {
        error := thrown;
      }
      loading := false;
    }
  }
}
