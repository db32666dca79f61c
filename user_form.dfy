/**
 * The logic of the user form: validation of a draft record against the
 * stored users, the change handler that edits one field of the draft, the
 * city choices derived from the chosen state, and the submit handler that
 * saves a valid draft into the store.
 */
module UserForm {
  import opened Options
  import opened Text
  import opened Patterns
  import opened Users
  import opened UserSlice

  /** Read-only configuration: the name length bounds and the state-to-cities table. */
  datatype Config = Config(nameMinCharLength: nat, nameMaxCharLength: nat, states: map<string, seq<string>>)

  /**
   * The error map is keyed by field. Its keys in the source are the strings
   * "name", "email", "linkedin", "gender", "pin", "state" and "city"; the
   * address fields are keyed by their own name, so the PIN's key is "pin".
   */
  const ErrorKeys: set<Field> := {Name, Email, LinkedIn, Gender, Pin, State, City}

  /** The messages of the error map; `Shown` gives the exact string each one shows. */
  datatype Message =
    | NameRequired | NameTooShort(min: nat) | NameTooLong(max: nat)
    | EmailRequired | InvalidEmail | EmailExists
    | LinkedInRequired | InvalidLinkedIn
    | GenderRequired
    | PinRequired | PinFormat
    | StateRequired
    | CityRequired

  function Shown(m: Message): string {
    match m
    case NameRequired => "Name is required"
    case NameTooShort(min) => "Name must be at least " + NatToString(min) + " characters"
    case NameTooLong(max) => "Name must be less than " + NatToString(max) + " characters"
    case EmailRequired => "Email is required"
    case InvalidEmail => "Invalid email"
    case EmailExists => "Email already exists"
    case LinkedInRequired => "LinkedIn URL is required"
    case InvalidLinkedIn => "Invalid LinkedIn URL"
    case GenderRequired => "Gender is required"
    case PinRequired => "PIN is required"
    case PinFormat => "PIN must be 6 digits"
    case StateRequired => "State is required"
    case CityRequired => "City is required"
  }

  /** `users.find((user) => user.email === email)`. */
  function FindUser(users: seq<User>, email: string): (r: Option<User>)
    ensures r.Some? <==> HasEmail(users, email)
    ensures r.Some? ==> r.value in users && r.value.email == email
    ensures r.Some? ==> exists k :: 0 <= k < |users| && IsFirstWith(users, email, k) && r.value == users[k]
  {
    var i := FindIndex(users, email);
    if i == -1 then None else Some(users[i])
  }

  // The check of each field, as its if/else-if chain decides it.

  function NameError(c: Config, raw: string): Option<Message> {
    var name := Trim(raw);
    if name == "" then Some(NameRequired)
    else if |name| < c.nameMinCharLength then Some(NameTooShort(c.nameMinCharLength))
    else if |name| > c.nameMaxCharLength then Some(NameTooLong(c.nameMaxCharLength))
    else None
  }

  function EmailError(raw: string, users: seq<User>, isEditing: bool): Option<Message> {
    var email := Trim(raw);
    if email == "" then Some(EmailRequired)
    else if !IsEmail(email) then Some(InvalidEmail)
    else if !isEditing && FindUser(users, email).Some? then Some(EmailExists)
    else None
  }

  function LinkedInError(raw: string): Option<Message> {
    var linkedin := Trim(raw);
    if linkedin == "" then Some(LinkedInRequired)
    else if !IsLinkedIn(linkedin) then Some(InvalidLinkedIn)
    else None
  }

  function PinError(raw: string): Option<Message> {
    var pin := Trim(raw);
    if pin == "" then Some(PinRequired)
    else if !IsPin(pin) then Some(PinFormat)
    else None
  }

  /** A field that is only required to be non-empty, compared untrimmed. */
  function RequiredError(value: string, message: Message): Option<Message> {
    if value == "" then Some(message) else None
  }

  function Lookup(m: map<Field, Message>, key: Field): Option<Message> {
    if key in m then Some(m[key]) else None
  }

  /** Records the message of a check that reported one. */
  function Put(m: map<Field, Message>, key: Field, message: Option<Message>): map<Field, Message> {
    if message.Some? then m[key := message.value] else m
  }

  /** Maps that agree on every lookup are equal. */
  lemma LookupExtensional(m: map<Field, Message>, n: map<Field, Message>)
    requires forall f :: Lookup(m, f) == Lookup(n, f)
    ensures m == n
  {
    assert forall f :: f in m <==> Lookup(m, f).Some?;
    assert forall f :: f in n <==> Lookup(n, f).Some?;
    assert m.Keys == n.Keys;
  }

  lemma LookupPut(m: map<Field, Message>, key: Field, message: Option<Message>, f: Field)
    ensures Lookup(Put(m, key, message), f) == if f == key && message.Some? then message else Lookup(m, f)
  {
  }

  /** The outcome of each field's check, in the order `validateForm` runs them. */
  datatype Report = Report(
    name: Option<Message>, email: Option<Message>, linkedin: Option<Message>, gender: Option<Message>,
    pin: Option<Message>, state: Option<Message>, city: Option<Message>)

  const AllPassed: Report := Report(None, None, None, None, None, None, None)

  /** Runs every field's check; none depends on another's outcome. */
  function Checks(c: Config, d: User, users: seq<User>, isEditing: bool): Report {
    Report(
      NameError(c, d.name),
      EmailError(d.email, users, isEditing),
      LinkedInError(d.linkedin),
      RequiredError(d.gender, GenderRequired),
      PinError(d.address.pin),
      RequiredError(d.address.state, StateRequired),
      RequiredError(d.address.city, CityRequired))
  }

  /** The outcome reported for field `f`; the address lines are never checked. */
  function Outcome(r: Report, f: Field): Option<Message> {
    match f
    case Name => r.name
    case Email => r.email
    case LinkedIn => r.linkedin
    case Gender => r.gender
    case Pin => r.pin
    case State => r.state
    case City => r.city
    case Line1 => None
    case Line2 => None
  }

  /** The map of the messages reported: one entry per failed check and nothing else. */
  function ErrorMap(r: Report): (err: map<Field, Message>)
    ensures err.Keys <= ErrorKeys
    ensures forall f :: Lookup(err, f) == Outcome(r, f)
    ensures err == map[] <==> r == AllPassed
  {
    var err := map f | f in ErrorKeys && Outcome(r, f).Some? :: Outcome(r, f).value;
    assert err == map[] <==> r == AllPassed by {
      if r != AllPassed {
        var f :| f in ErrorKeys && Outcome(r, f).Some? by {
          if r.name.Some? { assert Outcome(r, Name).Some?; }
          else if r.email.Some? { assert Outcome(r, Email).Some?; }
          else if r.linkedin.Some? { assert Outcome(r, LinkedIn).Some?; }
          else if r.gender.Some? { assert Outcome(r, Gender).Some?; }
          else if r.pin.Some? { assert Outcome(r, Pin).Some?; }
          else if r.state.Some? { assert Outcome(r, State).Some?; }
          else { assert Outcome(r, City).Some?; }
        }
        assert f in err;
      }
    }
    err
  }

  /** Recording the seven outcomes one after another, as `validateForm` does, builds that map. */
  lemma RecordingBuildsErrorMap(r: Report)
    ensures Put(Put(Put(Put(Put(Put(Put(map[], Name, r.name), Email, r.email), LinkedIn, r.linkedin),
      Gender, r.gender), Pin, r.pin), State, r.state), City, r.city) == ErrorMap(r)
  {
    var m1 := Put(map[], Name, r.name);
    var m2 := Put(m1, Email, r.email);
    var m3 := Put(m2, LinkedIn, r.linkedin);
    var m4 := Put(m3, Gender, r.gender);
    var m5 := Put(m4, Pin, r.pin);
    var m6 := Put(m5, State, r.state);
    var m7 := Put(m6, City, r.city);
    forall f ensures Lookup(m7, f) == Lookup(ErrorMap(r), f) {
      LookupPut(map[], Name, r.name, f);
      LookupPut(m1, Email, r.email, f);
      LookupPut(m2, LinkedIn, r.linkedin, f);
      LookupPut(m3, Gender, r.gender, f);
      LookupPut(m4, Pin, r.pin, f);
      LookupPut(m5, State, r.state, f);
      LookupPut(m6, City, r.city, f);
    }
    LookupExtensional(m7, ErrorMap(r));
  }

  /**
   * The error map of `validateForm`: every field is checked, each key holds
   * at most the one message its own chain chose, and no other key appears.
   */
  function Errors(c: Config, d: User, users: seq<User>, isEditing: bool): map<Field, Message> {
    ErrorMap(Checks(c, d, users, isEditing))
  }

  /** The submission is accepted exactly when the error map has no keys. */
  predicate IsValid(c: Config, d: User, users: seq<User>, isEditing: bool) {
    Errors(c, d, users, isEditing) == map[]
  }

  // The if/else-if chain of each field, as one step of `validateForm` on the error map.

  method RecordName(c: Config, ghost raw: string, name: string, err: map<Field, Message>)
    returns (next: map<Field, Message>)
    requires name == Trim(raw)
    ensures next == Put(err, Name, NameError(c, raw))
  {
    next := err;
    if name == "" {
      next := next[Name := NameRequired];
    } else if |name| < c.nameMinCharLength {
      next := next[Name := NameTooShort(c.nameMinCharLength)];
    } else if |name| > c.nameMaxCharLength {
      next := next[Name := NameTooLong(c.nameMaxCharLength)];
    }
  }

  method RecordEmail(ghost raw: string, email: string, existingUser: Option<User>, ghost users: seq<User>,
                     isEditing: bool, err: map<Field, Message>)
    returns (next: map<Field, Message>)
    requires email == Trim(raw) && existingUser == FindUser(users, email)
    ensures next == Put(err, Email, EmailError(raw, users, isEditing))
  {
    next := err;
    if email == "" {
      next := next[Email := EmailRequired];
    } else if !IsEmail(email) {
      next := next[Email := InvalidEmail];
    } else if !isEditing && existingUser.Some? {
      next := next[Email := EmailExists];
    }
  }

  method RecordLinkedIn(ghost raw: string, linkedin: string, err: map<Field, Message>)
    returns (next: map<Field, Message>)
    requires linkedin == Trim(raw)
    ensures next == Put(err, LinkedIn, LinkedInError(raw))
  {
    next := err;
    if linkedin == "" {
      next := next[LinkedIn := LinkedInRequired];
    } else if !IsLinkedIn(linkedin) {
      next := next[LinkedIn := InvalidLinkedIn];
    }
  }

  method RecordPin(ghost raw: string, pin: string, err: map<Field, Message>)
    returns (next: map<Field, Message>)
    requires pin == Trim(raw)
    ensures next == Put(err, Pin, PinError(raw))
  {
    next := err;
    if pin == "" {
      next := next[Pin := PinRequired];
    } else if !IsPin(pin) {
      next := next[Pin := PinFormat];
    }
  }

  /** The gender, state and city checks: the untrimmed value must not be empty. */
  method RecordRequired(key: Field, value: string, message: Message, err: map<Field, Message>)
    returns (next: map<Field, Message>)
    ensures next == Put(err, key, RequiredError(value, message))
  {
    next := err;
    if value == "" {
      next := next[key := message];
    }
  }

  /** `validateForm`: trim the inputs, run every field's check into the error map, and report whether it stayed empty. */
  method ValidateForm(c: Config, formData: User, users: seq<User>, isEditing: bool)
    returns (err: map<Field, Message>, ok: bool)
    ensures err == Errors(c, formData, users, isEditing)
    ensures ok == IsValid(c, formData, users, isEditing)
  {
    err := map[];
    var name := Trim(formData.name);
    var email := Trim(formData.email);
    var linkedin := Trim(formData.linkedin);
    var pin := Trim(formData.address.pin);
    var gender := formData.gender;
    var existingUser := FindUser(users, email);

    err := RecordName(c, formData.name, name, err);
    err := RecordEmail(formData.email, email, existingUser, users, isEditing, err);
    err := RecordLinkedIn(formData.linkedin, linkedin, err);
    err := RecordRequired(Gender, gender, GenderRequired, err);
    err := RecordPin(formData.address.pin, pin, err);
    err := RecordRequired(State, formData.address.state, StateRequired, err);
    err := RecordRequired(City, formData.address.city, CityRequired, err);
    RecordingBuildsErrorMap(Checks(c, formData, users, isEditing));

    ok := |err.Keys| == 0;
    assert ok ==> err == map[];
  }

  /** Accepted exactly when no field's own check reports a message. */
  lemma ValidIffNoFieldError(c: Config, d: User, users: seq<User>, isEditing: bool)
    ensures IsValid(c, d, users, isEditing) <==>
      NameError(c, d.name).None? && EmailError(d.email, users, isEditing).None? &&
      LinkedInError(d.linkedin).None? && RequiredError(d.gender, GenderRequired).None? &&
      PinError(d.address.pin).None? && RequiredError(d.address.state, StateRequired).None? &&
      RequiredError(d.address.city, CityRequired).None?
  {
  }

  /** What an accepted record looks like, one condition per field. */
  lemma ValidExactly(c: Config, d: User, users: seq<User>, isEditing: bool)
    ensures IsValid(c, d, users, isEditing) <==>
      && !AllWhitespace(d.name)
      && c.nameMinCharLength <= |Trim(d.name)| <= c.nameMaxCharLength
      && IsEmail(Trim(d.email))
      && (isEditing || !HasEmail(users, Trim(d.email)))
      && IsLinkedIn(Trim(d.linkedin))
      && d.gender != ""
      && IsPin(Trim(d.address.pin))
      && d.address.state != ""
      && d.address.city != ""
  {
    ValidIffNoFieldError(c, d, users, isEditing);
    NameRules(c, d.name);
    EmailRules(d.email, users, isEditing);
    LinkedInRules(d.linkedin);
    PinRules(d.address.pin);
  }

  /** The name rules: blank, too short, too long, or within the inclusive bounds. */
  lemma NameRules(c: Config, raw: string)
    ensures NameError(c, raw) == Some(NameRequired) <==> AllWhitespace(raw)
    ensures !AllWhitespace(raw) && |Trim(raw)| < c.nameMinCharLength ==>
      NameError(c, raw) == Some(NameTooShort(c.nameMinCharLength))
    ensures !AllWhitespace(raw) && c.nameMinCharLength <= |Trim(raw)| && |Trim(raw)| > c.nameMaxCharLength ==>
      NameError(c, raw) == Some(NameTooLong(c.nameMaxCharLength))
    ensures NameError(c, raw) == None <==>
      !AllWhitespace(raw) && c.nameMinCharLength <= |Trim(raw)| <= c.nameMaxCharLength
  {
    TrimFacts(raw);
  }

  /** Boundary cases of a name without surrounding whitespace: a name of exactly the maximum length is accepted. */
  lemma NameBoundaries(c: Config, name: string)
    requires name != [] && Trimmed(name)
    ensures c.nameMinCharLength <= |name| == c.nameMaxCharLength ==> NameError(c, name) == None
    ensures |name| == c.nameMinCharLength ==> NameError(c, name) != Some(NameTooShort(c.nameMinCharLength))
    ensures |name| + 1 == c.nameMinCharLength ==> NameError(c, name) == Some(NameTooShort(c.nameMinCharLength))
    ensures c.nameMinCharLength <= |name| == c.nameMaxCharLength + 1 ==>
      NameError(c, name) == Some(NameTooLong(c.nameMaxCharLength))
  {
    TrimFacts(name);
  }

  /** The email rules: blank, malformed, duplicate when adding, otherwise accepted. */
  lemma EmailRules(raw: string, users: seq<User>, isEditing: bool)
    ensures EmailError(raw, users, isEditing) == Some(EmailRequired) <==> AllWhitespace(raw)
    ensures !AllWhitespace(raw) && !IsEmail(Trim(raw)) ==> EmailError(raw, users, isEditing) == Some(InvalidEmail)
    ensures IsEmail(Trim(raw)) && !isEditing && HasEmail(users, Trim(raw)) ==>
      EmailError(raw, users, isEditing) == Some(EmailExists)
    ensures EmailError(raw, users, isEditing) == None <==>
      IsEmail(Trim(raw)) && (isEditing || !HasEmail(users, Trim(raw)))
  {
    TrimFacts(raw);
  }

  /** While editing, a well-formed email never gets a message, whatever is stored. */
  lemma EditingSuppressesDuplicate(raw: string, users: seq<User>)
    requires IsEmail(Trim(raw))
    ensures EmailError(raw, users, true) == None
  {
  }

  /** While editing, the stored users play no part in validation. */
  lemma EditingIgnoresUsers(c: Config, d: User, users: seq<User>, others: seq<User>)
    ensures Errors(c, d, users, true) == Errors(c, d, others, true)
  {
  }

  /** A record accepted for insertion is accepted for an update too. */
  lemma ValidForAddIsValidForEdit(c: Config, d: User, users: seq<User>)
    requires IsValid(c, d, users, false)
    ensures IsValid(c, d, users, true)
  {
    ValidExactly(c, d, users, false);
    ValidExactly(c, d, users, true);
  }

  /** The LinkedIn rules. */
  lemma LinkedInRules(raw: string)
    ensures LinkedInError(raw) == Some(LinkedInRequired) <==> AllWhitespace(raw)
    ensures LinkedInError(raw) == None <==> IsLinkedIn(Trim(raw))
    ensures LinkedInError(raw) == Some(InvalidLinkedIn) <==> !AllWhitespace(raw) && !IsLinkedIn(Trim(raw))
  {
    TrimFacts(raw);
  }

  /** The PIN rules. */
  lemma PinRules(raw: string)
    ensures PinError(raw) == Some(PinRequired) <==> AllWhitespace(raw)
    ensures PinError(raw) == None <==> IsPin(Trim(raw))
    ensures PinError(raw) == Some(PinFormat) <==> !AllWhitespace(raw) && !IsPin(Trim(raw))
  {
    TrimFacts(raw);
  }

  lemma PinExamples()
    ensures PinError("123456") == None
    ensures PinError("12345") == Some(PinFormat)
    ensures PinError("1234567") == Some(PinFormat)
    ensures PinError("12a456") == Some(PinFormat)
  {
    assert Trimmed("123456") && Trimmed("12345") && Trimmed("1234567") && Trimmed("12a456");
    assert !IsDigit("12a456"[2]);
  }

  /** Gender, state and city are required only to be non-empty: each gets a message exactly when it is empty, so a single space passes. */
  lemma UntrimmedRequiredFields(c: Config, d: User, users: seq<User>, isEditing: bool)
    ensures Gender in Errors(c, d, users, isEditing) <==> d.gender == ""
    ensures State in Errors(c, d, users, isEditing) <==> d.address.state == ""
    ensures City in Errors(c, d, users, isEditing) <==> d.address.city == ""
    ensures d.gender == " " && d.address.state == " " && d.address.city == " " ==>
      Gender !in Errors(c, d, users, isEditing) && State !in Errors(c, d, users, isEditing) &&
      City !in Errors(c, d, users, isEditing)
  {
    var err := Errors(c, d, users, isEditing);
    assert Lookup(err, Gender) == RequiredError(d.gender, GenderRequired);
    assert Lookup(err, State) == RequiredError(d.address.state, StateRequired);
    assert Lookup(err, City) == RequiredError(d.address.city, CityRequired);
  }

  /** The form's initial draft gets the "required" message of every checked field. */
  lemma EmptyDraftGetsRequiredMessages(c: Config, users: seq<User>, isEditing: bool)
    ensures Errors(c, EmptyUser, users, isEditing) ==
      map[Name := NameRequired, Email := EmailRequired, LinkedIn := LinkedInRequired, Gender := GenderRequired,
          Pin := PinRequired, State := StateRequired, City := CityRequired]
  {
    NameRules(c, "");
    EmailRules("", users, isEditing);
    LinkedInRules("");
    PinRules("");
    var r := Checks(c, EmptyUser, users, isEditing);
    assert r == Report(Some(NameRequired), Some(EmailRequired), Some(LinkedInRequired), Some(GenderRequired),
      Some(PinRequired), Some(StateRequired), Some(CityRequired));
    LookupExtensional(ErrorMap(r),
      map[Name := NameRequired, Email := EmailRequired, LinkedIn := LinkedInRequired, Gender := GenderRequired,
          Pin := PinRequired, State := StateRequired, City := CityRequired]);
  }

  // The change handler.

  /** A top-level key of the record. */
  function TopLevelField(key: string): Option<Field> {
    if key == "name" then Some(Name)
    else if key == "email" then Some(Email)
    else if key == "linkedin" then Some(LinkedIn)
    else if key == "gender" then Some(Gender)
    else None
  }

  /** A key of the address. */
  function AddressField(key: string): Option<Field> {
    if key == "line1" then Some(Line1)
    else if key == "line2" then Some(Line2)
    else if key == "state" then Some(State)
    else if key == "city" then Some(City)
    else if key == "pin" then Some(Pin)
    else None
  }

  /** The field that an input named `name` edits: the second dot-separated part inside the address when the name includes "address.". */
  function TargetField(name: string): Option<Field> {
    if Includes(name, "address.") then
      IncludedCharIn(name, "address.", 7);
      AddressField(Split(name, '.')[1])
    else
      TopLevelField(name)
  }

  /** `handleChange`: the draft with the targeted field set to `value` and every other field as it was. */
  function HandleChange(prev: User, name: string, value: string): (next: User)
    ensures TargetField(name).Some? ==> Get(next, TargetField(name).value) == value
    ensures forall f :: Some(f) != TargetField(name) ==> Get(next, f) == Get(prev, f)
  {
    match TargetField(name)
    case None => prev
    case Some(f) => Set(prev, f, value)
  }

  /** An input named "address.<key>" edits that key of the address. */
  lemma AddressInputEditsAddress(key: string)
    requires '.' !in key
    ensures TargetField("address." + key) == AddressField(key)
  {
    var name := "address." + key;
    assert "address." <= name[0..];
    assert name == "address" + ['.'] + key;
    SplitAfterPrefix("address", '.', key);
    assert Split(key, '.') == [key] by {
      var parts := Split(key, '.');
      assert |parts| == 1;
    }
  }

  /** An input whose name does not include "address." edits the top-level key of that name. */
  lemma TopLevelInputEditsTopLevel(name: string)
    requires !Includes(name, "address.")
    ensures TargetField(name) == TopLevelField(name)
  {
  }

  /** The four top-level inputs of the form each edit their own field. */
  lemma TopLevelInputs()
    ensures TargetField("name") == Some(Name)
    ensures TargetField("email") == Some(Email)
    ensures TargetField("linkedin") == Some(LinkedIn)
    ensures TargetField("gender") == Some(Gender)
  {
    assert !("address." <= "linkedin"[0..]) by {
      assert "linkedin"[0] != "address."[0];
    }
  }

  /** `cityOptions`: no choices until a state is chosen, then the configured cities of that state (undefined for an unknown state). */
  function CityOptions(c: Config, state: string): (r: Option<seq<string>>)
    ensures state == "" ==> r == Some([])
    ensures state != "" ==> (r.Some? <==> state in c.states)
    ensures state != "" && state in c.states ==> r == Some(c.states[state])
    ensures forall city :: r.Some? && city in r.value ==> state in c.states && city in c.states[state]
  {
    if state != "" then
      if state in c.states then Some(c.states[state]) else None
    else
      Some([])
  }

  /** The state input edits the state of the address. */
  lemma StateInputEditsState()
    ensures TargetField("address.state") == Some(State)
  {
    AddressInputEditsAddress("state");
    assert "address." + "state" == "address.state";
  }

  /** After the state input changes, the city choices are the configured cities of the new state. */
  lemma ChoosingStateOffersItsCities(c: Config, d: User, state: string)
    requires state != "" && state in c.states
    ensures CityOptions(c, HandleChange(d, "address.state", state).address.state) == Some(c.states[state])
  {
    StateInputEditsState();
    assert Get(HandleChange(d, "address.state", state), State) == state;
  }

  // The submit handler.

  /** The users after `handleSubmit` as written: a valid draft is saved as it was typed, untrimmed. */
  function Submitted(c: Config, d: User, users: seq<User>, isEditing: bool): seq<User> {
    if !IsValid(c, d, users, isEditing) then users
    else if isEditing then Updated(users, d)
    else users + [d]
  }

  /**
   * `handleSubmit`: nothing changes unless the draft is valid; then the draft
   * overwrites the edited user (when editing) or is appended (when adding),
   * and the editing marker is cleared.
   */
  method HandleSubmit(c: Config, store: Slice, formData: User) returns (saved: bool)
    modifies store
    ensures saved == IsValid(c, formData, old(store.users), old(store.editingUser).Some?)
    ensures store.users == Submitted(c, formData, old(store.users), old(store.editingUser).Some?)
    ensures store.editingUser == if saved then None else old(store.editingUser)
  {
    var isEditing := store.editingUser.Some?;
    var _, ok := ValidateForm(c, formData, store.users, isEditing);
    if !ok {
      return false;
    }
    if isEditing {
      store.UpdateUser(formData);
    } else {
      store.AddUser(formData);
    }
    store.SetEditingUser(None);
    saved := true;
  }

  /** When adding, a draft whose trimmed email is already stored leaves the store as it was. */
  lemma SubmittedRefusesStoredEmail(c: Config, d: User, users: seq<User>)
    requires HasEmail(users, Trim(d.email))
    ensures Submitted(c, d, users, false) == users
  {
    ValidExactly(c, d, users, false);
  }

  /** As written, a draft whose email has no surrounding whitespace keeps the stored emails distinct. */
  lemma SubmittedTrimmedKeepsDistinct(c: Config, d: User, users: seq<User>, isEditing: bool)
    requires EmailsDistinct(users) && Trimmed(d.email)
    ensures EmailsDistinct(Submitted(c, d, users, isEditing))
  {
    if IsValid(c, d, users, isEditing) {
      if isEditing {
        UpdatePreservesDistinct(users, d);
      } else {
        ValidExactly(c, d, users, isEditing);
        TrimFacts(d.email);
        AppendPreservesDistinct(users, d);
      }
    }
  }

  /** Whatever the draft, the number of stored users grows by at most one. */
  lemma SubmittedGrowsByAtMostOne(c: Config, d: User, users: seq<User>, isEditing: bool)
    ensures |users| <= |Submitted(c, d, users, isEditing)| <= |users| + 1
    ensures isEditing ==> |Submitted(c, d, users, isEditing)| == |users|
  {
  }

  /** A well-formed record whose fields carry no surrounding whitespace. */
  const Ann: User := User("Ann", "a@b.com", "https://linkedin.com/in/ann", "Female", Address("", "", "CA", "LA", "560001"))

  /** The same record with a no-break space before the email, which `trim` removes. */
  const NbspAnn: User := Ann.(email := "\U{00A0}a@b.com")

  /** For a record whose checked fields carry no surrounding whitespace, validity is stated on the fields themselves. */
  lemma TrimmedRecordValid(c: Config, d: User, users: seq<User>, isEditing: bool)
    requires Trimmed(d.name) && Trimmed(d.email) && Trimmed(d.linkedin) && Trimmed(d.address.pin)
    ensures IsValid(c, d, users, isEditing) <==>
      && d.name != ""
      && c.nameMinCharLength <= |d.name| <= c.nameMaxCharLength
      && IsEmail(d.email)
      && (isEditing || !HasEmail(users, d.email))
      && IsLinkedIn(d.linkedin)
      && d.gender != ""
      && IsPin(d.address.pin)
      && d.address.state != ""
      && d.address.city != ""
  {
    TrimFacts(d.name);
    TrimFacts(d.email);
    TrimFacts(d.linkedin);
    TrimFacts(d.address.pin);
    ValidExactly(c, d, users, isEditing);
  }

  /** Ann's fields are all well-formed and carry no surrounding whitespace. */
  lemma AnnWellFormed()
    ensures Trimmed(Ann.name) && Trimmed(Ann.email) && Trimmed(Ann.linkedin) && Trimmed(Ann.address.pin)
    ensures |Ann.name| == 3 && IsEmail(Ann.email) && IsLinkedIn(Ann.linkedin) && IsPin(Ann.address.pin)
  {
    assert Ann.email[1] == '@' && Ann.email[3] == '.';
    assert LinkedInPrefix <= Ann.linkedin;
  }

  /** Ann passes every check wherever her email is not stored yet. */
  lemma AnnIsValid(c: Config, users: seq<User>, isEditing: bool)
    requires c.nameMinCharLength <= 3 <= c.nameMaxCharLength
    requires isEditing || !HasEmail(users, Ann.email)
    ensures IsValid(c, Ann, users, isEditing)
  {
    AnnWellFormed();
    TrimmedRecordValid(c, Ann, users, isEditing);
  }

  /** Validation reads the email only through its trimmed value. */
  lemma ErrorsSeeTrimmedEmail(c: Config, d: User, email: string, users: seq<User>, isEditing: bool)
    requires Trim(email) == Trim(d.email)
    ensures Errors(c, d.(email := email), users, isEditing) == Errors(c, d, users, isEditing)
  {
    assert Checks(c, d.(email := email), users, isEditing) == Checks(c, d, users, isEditing);
  }

  /**
   * As written, a valid email with surrounding whitespace can be saved twice:
   * the duplicate check looks for the trimmed email, the store holds the
   * untrimmed one, so the second submission finds no match.
   */
  lemma ResubmitDuplicatesEmail(c: Config, d: User)
    requires IsValid(c, d, [], false)
    requires Trim(d.email) != d.email
    ensures Submitted(c, d, [], false) == [d]
    ensures Submitted(c, d, [d], false) == [d, d]
    ensures !EmailsDistinct(Submitted(c, d, [d], false))
  {
    ValidExactly(c, d, [], false);
    ValidExactly(c, d, [d], false);
    assert !HasEmail([d], Trim(d.email)) by {
      assert [d][0].email == d.email;
    }
    assert [d] + [d] == [d, d];
    assert [d, d][0].email == [d, d][1].email;
  }

  lemma NbspTrimmedAway()
    ensures Trim(NbspAnn.email) == Ann.email != NbspAnn.email
  {
    TrimIsMiddle(NbspAnn.email, 1, |NbspAnn.email|);
    assert NbspAnn.email[1..] == Ann.email;
  }

  /** Such a record exists: Ann with a no-break space before her email, on an empty store. */
  lemma NbspResubmitDuplicatesEmail(c: Config)
    requires c.nameMinCharLength <= 3 <= c.nameMaxCharLength
    ensures Submitted(c, NbspAnn, Submitted(c, NbspAnn, [], false), false) == [NbspAnn, NbspAnn]
  {
    AnnIsValid(c, [], false);
    NbspTrimmedAway();
    ErrorsSeeTrimmedEmail(c, Ann, NbspAnn.email, [], false);
    assert Ann.(email := NbspAnn.email) == NbspAnn;
    ResubmitDuplicatesEmail(c, NbspAnn);
  }

  /** The record saved by the corrected submit handler: the email as the duplicate check saw it. */
  function Normalized(d: User): (r: User)
    ensures r.email == Trim(d.email)
    ensures forall f :: f != Email ==> Get(r, f) == Get(d, f)
  {
    d.(email := Trim(d.email))
  }

  /** The users after the corrected submit handler. */
  function SubmittedCorrected(c: Config, d: User, users: seq<User>, isEditing: bool): seq<User> {
    if !IsValid(c, d, users, isEditing) then users
    else if isEditing then Updated(users, Normalized(d))
    else users + [Normalized(d)]
  }

  /** The corrected handler validates the saved record exactly as it validated the draft. */
  lemma NormalizedValidatesAlike(c: Config, d: User, users: seq<User>, isEditing: bool)
    ensures Errors(c, Normalized(d), users, isEditing) == Errors(c, d, users, isEditing)
  {
    TrimIdempotent(d.email);
    ErrorsSeeTrimmedEmail(c, d, Trim(d.email), users, isEditing);
  }

  /** With the correction, no sequence of submissions ever stores two users with the same email. */
  lemma SubmittedCorrectedKeepsEmailsDistinct(c: Config, d: User, users: seq<User>, isEditing: bool)
    requires EmailsDistinct(users)
    ensures EmailsDistinct(SubmittedCorrected(c, d, users, isEditing))
  {
    if IsValid(c, d, users, isEditing) {
      if isEditing {
        UpdatePreservesDistinct(users, Normalized(d));
      } else {
        ValidExactly(c, d, users, isEditing);
        AppendPreservesDistinct(users, Normalized(d));
      }
    }
  }

  /** With the correction, the second submission of the same draft is refused. */
  lemma CorrectedResubmitRefused(c: Config, d: User)
    requires IsValid(c, d, [], false)
    ensures SubmittedCorrected(c, d, [], false) == [Normalized(d)]
    ensures Errors(c, d, [Normalized(d)], false) == Errors(c, d, [], false)[Email := EmailExists]
    ensures SubmittedCorrected(c, d, [Normalized(d)], false) == [Normalized(d)]
  {
    ValidExactly(c, d, [], false);
    var stored := [Normalized(d)];
    assert HasEmail(stored, Trim(d.email)) by {
      assert stored[0].email == Trim(d.email);
    }
    EmailRules(d.email, stored, false);
    EmailRules(d.email, [], false);
    var before := Checks(c, d, [], false);
    var after := Checks(c, d, stored, false);
    assert after == before.(email := Some(EmailExists));
    LookupExtensional(ErrorMap(after), ErrorMap(before)[Email := EmailExists]);
  }

  /** `handleSubmit` with the correction: the saved record carries the trimmed email. */
  method HandleSubmitCorrected(c: Config, store: Slice, formData: User) returns (saved: bool)
    modifies store
    ensures saved == IsValid(c, formData, old(store.users), old(store.editingUser).Some?)
    ensures store.users == SubmittedCorrected(c, formData, old(store.users), old(store.editingUser).Some?)
    ensures store.editingUser == if saved then None else old(store.editingUser)
    ensures EmailsDistinct(old(store.users)) ==> EmailsDistinct(store.users)
  {
    ghost var users := store.users;
    var isEditing := store.editingUser.Some?;
    if EmailsDistinct(users) {
      SubmittedCorrectedKeepsEmailsDistinct(c, formData, users, isEditing);
    }
    var _, ok := ValidateForm(c, formData, store.users, isEditing);
    if !ok {
      return false;
    }
    var payload := formData.(email := Trim(formData.email));
    if isEditing {
      store.UpdateUser(payload);
    } else {
      store.AddUser(payload);
    }
    store.SetEditingUser(None);
    saved := true;
  }
}
