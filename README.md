# User form and user store, in Dafny

This project models the logic behind a small React/Redux user-management
screen. The form keeps a draft user record (name, email, LinkedIn URL,
gender and an address of two lines, state, city and PIN). It validates the
draft against the users already in the store and edits one field per
input event. It offers the cities of the chosen state. On submit it saves a
valid draft, either by appending it or by overwriting the user being edited.

The store is the `user` slice: an ordered list of users, plus the user being
edited, if any. Three reducers change it: `addUser`, `updateUser` and
`setEditingUser`.

Layout:

- `options.dfy` (`Options`): the `Option` type. `null` and `undefined` are `None`.
- `text.dfy` (`Text`): the JavaScript string operations the form uses.
  - `trim` is modelled with ECMAScript's WhiteSpace and LineTerminator sets. It has a reference definition (`TrimIsMiddle`), and `TrimFacts` and `TrimIdempotent` state its properties.
  - Also here: `includes`, `split` on one character with its inverse `Join`, and how a number is printed inside a template literal.
- `patterns.dfy` (`Patterns`): the three regular expressions as predicates. The email and LinkedIn ones are each proved equal to a reading of the regular expression as a concatenation (`EmailIsPattern`, `LinkedInIsPattern`).
- `users.dfy` (`Users`): the record, its nine leaf fields, and reading or replacing one field.
- `user_slice.dfy` (`UserSlice`): the slice as a class `Slice`.
  - The class has the fields `users` and `editingUser`, and the three reducers are methods that reassign them.
  - `Updated` is the reference function for `updateUser`. The lemmas about it cover keeping emails distinct and idempotence.
- `user_form.dfy` (`UserForm`):
  - `validateForm`: as the method `ValidateForm`, which builds the error map field by field, proved against the function `Errors`. The lemmas characterise `Errors` field by field and as a whole.
  - `handleChange` (`HandleChange`), `cityOptions` (`CityOptions`) and `handleSubmit` (`HandleSubmit`, a method on the store).
  - The corrected submit handler of the finding below.

Validation is split into one step per field (`RecordName`, `RecordEmail`, …).
Each step is the field's own `if`/`else if` chain, run on the error map in
source order inside `ValidateForm`. That is the same computation as the
source's single function body.

Three behaviours of the code are easy to misread:

- The name's upper bound is inclusive. A trimmed name of exactly `nameMaxCharLength` characters is accepted (`NameBoundaries`), although the message says "less than".
- A saved record is stored exactly as typed, untrimmed (`Submitted`). See the finding below.
- The city is checked only for being non-empty. Nothing checks that it belongs to the chosen state's list (`UntrimmedRequiredFields`).

## Model

| member | source | states |
|---|---|---|
| Text.TrimFacts | sample-project/src/components/UserForm.jsx:35-38 | `trim` never lengthens a string. Its result has no whitespace at either end. It is empty exactly when the input is all whitespace. It leaves an already-trimmed string alone. |
| Text.TrimIsMiddle | sample-project/src/components/UserForm.jsx:35-38 | For any whitespace-only prefix and suffix around a trimmed middle, `trim` returns exactly that middle. This is the reference definition of `trim`. |
| Text.TrimIdempotent | sample-project/src/components/UserForm.jsx:35-38 | Trimming twice is trimming once. |
| Text.IncludedCharIn | sample-project/src/components/UserForm.jsx:90 | A string that includes a substring contains each of the substring's characters. |
| Text.Split | sample-project/src/components/UserForm.jsx:91 | `split` on one character gives at least one part. No part contains the separator. Joining the parts with the separator gives back the input. There are two or more parts exactly when the separator occurs. |
| Text.SplitAfterPrefix | sample-project/src/components/UserForm.jsx:91 | After a separator-free prefix and one separator, part 1 of the split is the first part of what follows. |
| Text.NatToString | sample-project/src/components/UserForm.jsx:45-47 | A number inside a template literal prints as a non-empty string of decimal digits whose value is that number, with no leading zero unless the number is 0. |
| Patterns.EmailIsPattern | sample-project/src/components/UserForm.jsx:50-54 | The email test holds exactly when the string is a non-whitespace word, `@`, a word, `.`, and a word. `@` and `.` may themselves sit inside the words. |
| Patterns.EmailSplits | sample-project/src/components/UserForm.jsx:50-54 | A string that passes the email test splits into the three words around `@` and `.`. |
| Patterns.PartsMakeEmail | sample-project/src/components/UserForm.jsx:50-54 | Three non-whitespace words joined by `@` and `.` pass the email test. |
| Patterns.LinkedInIsPattern | sample-project/src/components/UserForm.jsx:59-63 | The LinkedIn test holds exactly when the string is `https://linkedin.com/` or `https://www.linkedin.com/` followed by one or more characters that are not line terminators. |
| Users.Set | sample-project/src/components/UserForm.jsx:92-97 | Replacing one field of a record sets that field to the value and keeps every other field. |
| Users.FieldsDetermineUser | sample-project/src/components/UserForm.jsx:92-97 | Two records that agree on all nine fields are the same record. |
| UserSlice.FindIndex | sample-project/src/redux/userSlice.js:16-18 | `findIndex` returns -1 exactly when no user has the email. Otherwise it returns the first position whose email is equal. |
| UserSlice.Updated | sample-project/src/redux/userSlice.js:15-19 | The update keeps the length. It writes the payload at the first position with the payload's email, keeps every other user, and keeps every position's email. With no match it changes nothing. |
| UserSlice.UpdatePreservesDistinct | sample-project/src/redux/userSlice.js:15-19 | An update keeps stored emails distinct. |
| UserSlice.AppendPreservesDistinct | sample-project/src/redux/userSlice.js:12-14 | Appending keeps stored emails distinct exactly when the new email is not stored yet. |
| UserSlice.UpdateIdempotent | sample-project/src/redux/userSlice.js:15-19 | Updating twice with the same payload is the same as updating once. |
| UserSlice.Slice.constructor | sample-project/src/redux/userSlice.js:3-6 | The initial state has no users and nobody being edited. |
| UserSlice.Slice.AddUser | sample-project/src/redux/userSlice.js:12-14 | The payload becomes the last user. The editing marker is unchanged. A new email keeps stored emails distinct. |
| UserSlice.Slice.UpdateUser | sample-project/src/redux/userSlice.js:15-19 | The new list is `Updated` of the old one. The editing marker is unchanged. Stored emails stay distinct. |
| UserSlice.Slice.SetEditingUser | sample-project/src/redux/userSlice.js:21-23 | The editing marker becomes the payload (a user or null). The users are unchanged. |
| UserForm.FindUser | sample-project/src/components/UserForm.jsx:40 | `find` returns a user exactly when some stored user has the email. The user it returns is the first stored user with that email. |
| UserForm.ErrorMap | sample-project/src/components/UserForm.jsx:34 | The error map has a key only for a failed check, holding that check's message. Its keys lie among the seven checked fields. It is empty exactly when every check passed. |
| UserForm.RecordingBuildsErrorMap | sample-project/src/components/UserForm.jsx:42-82 | Recording the seven outcomes one after another builds exactly that map. |
| UserForm.RecordName | sample-project/src/components/UserForm.jsx:42-48 | The name chain records the name's message, if any, and leaves the other keys alone. |
| UserForm.RecordEmail | sample-project/src/components/UserForm.jsx:51-57 | The email chain records the email's message, if any, and leaves the other keys alone. |
| UserForm.RecordLinkedIn | sample-project/src/components/UserForm.jsx:60-64 | The LinkedIn chain records its message, if any, and leaves the other keys alone. |
| UserForm.RecordRequired | sample-project/src/components/UserForm.jsx:66-82 | A field required only to be non-empty (gender, state, city) records its message exactly when the field is empty. |
| UserForm.RecordPin | sample-project/src/components/UserForm.jsx:71-75 | The PIN chain records its message, if any, and leaves the other keys alone. |
| UserForm.ValidateForm | sample-project/src/components/UserForm.jsx:33-86 | It returns the error map of the draft, and reports success exactly when that map is empty. |
| UserForm.ValidIffNoFieldError | sample-project/src/components/UserForm.jsx:84-85 | A draft is accepted exactly when none of the seven checks reports a message. |
| UserForm.ValidExactly | sample-project/src/components/UserForm.jsx:33-86 | A draft is accepted exactly when all of the following hold. The trimmed name is non-blank and within the inclusive bounds. The trimmed email is well formed, and not stored unless editing. The trimmed LinkedIn URL matches. Gender is non-empty. The trimmed PIN is six digits. State and city are non-empty. |
| UserForm.NameRules | sample-project/src/components/UserForm.jsx:42-48 | A blank name gets "required". Below the minimum it gets "too short". Above the maximum it gets "too long". Within the inclusive bounds it gets nothing. |
| UserForm.NameBoundaries | sample-project/src/components/UserForm.jsx:44-47 | For a non-empty name without surrounding whitespace: when min ≤ max, a name of exactly the maximum length is accepted, and one character more is too long. A name of exactly the minimum length is not too short, and one fewer is too short. |
| UserForm.EmailRules | sample-project/src/components/UserForm.jsx:51-57 | A blank email gets "required". A malformed one gets "invalid". A stored one gets "already exists" when adding. The email passes exactly when it is well formed and, unless editing, not stored. |
| UserForm.EditingSuppressesDuplicate | sample-project/src/components/UserForm.jsx:55 | While editing, a well-formed email never gets a message. |
| UserForm.EditingIgnoresUsers | sample-project/src/components/UserForm.jsx:55 | While editing, the stored users do not affect validation. |
| UserForm.ValidForAddIsValidForEdit | sample-project/src/components/UserForm.jsx:55 | A draft accepted for adding is accepted for editing too. |
| UserForm.LinkedInRules | sample-project/src/components/UserForm.jsx:60-64 | A blank URL gets "required". A non-matching one gets "invalid". A matching one gets nothing. |
| UserForm.PinRules | sample-project/src/components/UserForm.jsx:71-75 | A blank PIN gets "required". Anything but six digits gets the format message. Six digits get nothing. |
| UserForm.PinExamples | sample-project/src/components/UserForm.jsx:70-75 | "123456" passes. Five digits, seven digits, or a letter among the digits gets the format message. |
| UserForm.UntrimmedRequiredFields | sample-project/src/components/UserForm.jsx:77-82 | In the error map of any draft, gender, state and city have a message exactly when they are empty. A single space counts as a value. |
| UserForm.EmptyDraftGetsRequiredMessages | sample-project/src/components/UserForm.jsx:9-21 | The form's initial, all-empty draft gets exactly the seven "required" messages. |
| UserForm.HandleChange | sample-project/src/components/UserForm.jsx:88-99 | The targeted field reads back as the new value. Every other field is unchanged. |
| UserForm.AddressInputEditsAddress | sample-project/src/components/UserForm.jsx:90-95 | An input named `address.<key>`, with no dot in `<key>`, edits that key of the address. |
| UserForm.TopLevelInputEditsTopLevel | sample-project/src/components/UserForm.jsx:96-97 | An input whose name does not include `address.` edits the top-level key of that name. |
| UserForm.TopLevelInputs | sample-project/src/components/UserForm.jsx:96-97 | The inputs `name`, `email`, `linkedin` and `gender` edit their own fields. |
| UserForm.CityOptions | sample-project/src/components/UserForm.jsx:113-116 | No state gives an empty list. A known state gives exactly its configured list of cities. An unknown state gives undefined. |
| UserForm.StateInputEditsState | sample-project/src/components/UserForm.jsx:90-95 | The input named `address.state` edits the state of the address. |
| UserForm.ChoosingStateOffersItsCities | sample-project/src/components/UserForm.jsx:88-116 | After the `address.state` input sets a known state, the city choices are that state's configured cities. |
| UserForm.HandleSubmit | sample-project/src/components/UserForm.jsx:101-111 | Saving happens exactly when the draft is valid. Cases: <br>• Invalid: nothing changes. <br>• Valid while editing: the draft overwrites the user with its email. <br>• Valid while adding: the draft is appended. <br>After a save the editing marker is cleared. |
| UserForm.SubmittedRefusesStoredEmail | sample-project/src/components/UserForm.jsx:101-111 | When adding, a draft whose trimmed email is stored leaves the store unchanged. |
| UserForm.SubmittedTrimmedKeepsDistinct | sample-project/src/components/UserForm.jsx:101-111 | As written, a submission keeps stored emails distinct when the draft's email has no surrounding whitespace. |
| UserForm.SubmittedGrowsByAtMostOne | sample-project/src/components/UserForm.jsx:101-111 | A submission adds at most one user, and none while editing. |
| UserForm.TrimmedRecordValid | sample-project/src/components/UserForm.jsx:33-86 | For a draft without surrounding whitespace, validity is stated directly on its fields. |
| UserForm.AnnWellFormed | sample-project/src/components/UserForm.jsx:50-75 | The example record's fields are trimmed, well-formed values. |
| UserForm.AnnIsValid | sample-project/src/components/UserForm.jsx:33-86 | The example record is accepted whenever the name bounds admit three characters and its email is not stored yet or the form is editing. |
| UserForm.ErrorsSeeTrimmedEmail | sample-project/src/components/UserForm.jsx:36-40 | Validation depends on the email only through its trimmed value. |
| UserForm.ResubmitDuplicatesEmail | sample-project/src/components/UserForm.jsx:101-111 | Take a valid draft whose email has surrounding whitespace, and add it twice to an empty store. Both submissions are saved, and the store then holds two users with the same email. |
| UserForm.NbspTrimmedAway | sample-project/src/components/UserForm.jsx:36 | `trim` removes a leading no-break space from the example email. |
| UserForm.NbspResubmitDuplicatesEmail | sample-project/src/components/UserForm.jsx:101-111 | Concretely: whenever the name bounds admit three characters, the example record with a no-break space before its email is stored twice on an empty store. |
| UserForm.Normalized | sample-project/src/components/UserForm.jsx:36 | The corrected payload carries the trimmed email and every other field unchanged. |
| UserForm.NormalizedValidatesAlike | sample-project/src/components/UserForm.jsx:33-86 | The corrected payload validates exactly as the draft does. |
| UserForm.SubmittedCorrectedKeepsEmailsDistinct | sample-project/src/components/UserForm.jsx:101-111 | With the correction, every submission keeps stored emails distinct. |
| UserForm.CorrectedResubmitRefused | sample-project/src/components/UserForm.jsx:101-111 | With the correction, a draft saved once is refused the second time with "Email already exists" and no other new message. |
| UserForm.HandleSubmitCorrected | sample-project/src/components/UserForm.jsx:101-111 | Same as `HandleSubmit`, except that the saved record has the trimmed email, and stored emails stay distinct. |

## Left out

- The rendering (JSX, Bootstrap layout, labels, where the error texts appear) and the state and city dropdown markup are left out. They only display. `Shown` gives each message's exact text.
- `setErrors`, the `useEffect` that loads the edited user into the draft, `console.log` and `closeForm()` are left out. They are UI side effects: the error map is returned rather than stored, and the draft is a parameter.
- The configuration file and the state-to-cities JSON are parameters (`Config`), not fixed values. Their files are not part of this model.
- Strings are sequences of Unicode code points, not UTF-16 code units. `length` and the regular expressions are read on code points, so characters outside the Basic Multilingual Plane would count differently.
- Optional chaining on missing fields (`formData.name?.trim() || ""`) is left out. Every field of the record is a string, so `undefined` never occurs.
- HandleChange: the model leaves the draft unchanged when the targeted key is not one of the nine fields. The targeted key is the second dot-separated part for a name that includes `address.`, and the whole name otherwise. In the source such a key (or the bare name `address`) would add or overwrite an arbitrary key of the object.
- Immer's copy-on-write of the store and Redux's dispatch and subscription machinery are left out. The reducers are methods that reassign the slice's fields.
- The state-options list (`Object.keys(statesCities.states)`) is left out. It is the key set of the configured map.
- The table of users, the application shell and the entry point are not part of this model.

## Findings

| source | as written | input that shows it | evidently intended | confidence | as-written member | corrected member |
|---|---|---|---|---|---|---|
| sample-project/src/components/UserForm.jsx:101-111 | `handleSubmit` stores the untrimmed `formData`, while `validateForm` (lines 36, 40, 55) looks for an existing user with the trimmed email. | Add a valid user whose email is a no-break space (U+00A0) followed by `a@b.com` twice on an empty store. The no-break space survives an email input's whitespace stripping. The second lookup searches for `"a@b.com"`, finds nothing, and both records are saved with the same email. | No two stored users share an email: the saved record carries the email as it was checked. | not executed | UserForm.ResubmitDuplicatesEmail | UserForm.SubmittedCorrectedKeepsEmailsDistinct |
