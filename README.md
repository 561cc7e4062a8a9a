# SLH: medical-records access control and lab02 web validators, in Dafny

This project models the logic core of the SLH repository. The core has two parts.

**karak** (Lab3) is a medical-records service.
- Users have a role: Admin, Doctor or Patient.
- A patient may own a medical folder. The folder holds personal data (AVS number, blood type) and the set of doctors treating the patient.
- Reports are written by an author about a patient.
- A Casbin enforcer decides each (subject, object, action) triple.
- Input validators guard usernames, passwords and Swiss AVS numbers.

**lab02** is a small web application.
- Form validators check e-mail, name, UUID id, boolean and text fields.
- An in-memory post list supports creating a post with an optional JPEG upload, and liking or disliking a post.

## Modules

- `wrappers.dfy` (`Wrappers`): `Option` and `Result`. `Result` supports `:-`, which propagates an error the way Rust's `?` does.
- `text.dfy` (`Text`): character and string helpers.
  - The UTF-8 byte length, which is what Rust's `str::len` returns.
  - ASCII character classes, and Rust's ASCII case operations.
  - `CharClasses`, which stands for the Unicode classes the code takes from `char` and from the regex crate. A classification is any one that agrees with ASCII on ASCII characters.
- `input_validation.dfy` (`InputValidation`):
  - the non-library part of `password_validation`;
  - `username_validation` and `Username::try_from`;
  - `validate_avs_number`, a `method` with the source's checksum loop;
  - `AVSNumber::try_from`, and the `Display` normal form of an AVS number.
- `models.dfy` (`Models`): the karak records, and the folder's doctor-set operations.
- `authorization.dfy` (`Authorization`): the decision engine.
  - `Enforce` fails closed, with one decision function per domain action.
  - The Casbin rule file is not part of the repository. It is replaced by the closed rule table `Policy`, reconstructed from the unit tests of `authorization.rs`. An `Enforcer` is any function from triples to a decision or an evaluation error, so fail-closed is proved for every engine. `DefaultEnforcer` evaluates `Policy`.
- `services.dfy` (`Services`): the class `Service`.
  - It holds the session `user`, the `users` and `reports` maps, and the enforcer.
  - Every mutator resolves its target, then builds a context, then decides, then writes.
  - Each method's contract gives, per outcome: the error, whether the grant was decided, and the exact new maps.
- `web_input.dfy` (`WebInput`): lab02's `utils/input.rs`. Each regular expression is written as a predicate on strings.
- `posts.dfy` (`Posts`): lab02's post list, as the class `PostStore`.
  - `LikePost` is a search loop followed by an in-place toggle.
  - `SavePost` appends a post.
  - `CreatePost` is the field loop of `create_post`, with the upload guard.

## Modelling choices

- **A Doctor may add a report for any patient who has a folder**, whether or not the folder lists it. The tests at `authorization.rs:324-336` expect exactly that, and `Policy` follows them.
- **`list_patients` uses the raw session id** (`services.rs:210-215`). It does not check that the session id resolves to a user, unlike every other query.
- **The AVS checksum is the code's own** (`input_validation.rs:258-263`). Digits at even indices count double, without casting out nines, and the sum must be a multiple of 10. This is not the EAN-13 check digit. The model states the code's rule.

## Model

| member | source | states |
|---|---|---|
| Text.NonAsciiLength | Lab2/lab02/lab02/src/utils/input.rs:13 | A string without ASCII characters takes at least two bytes per character in UTF-8. |
| Text.Utf8LengthBounds | Lab3/code/karak/karak/src/utils/input_validation.rs:144-146 | The byte length that `len()` measures lies between the character count and four times it. It equals the character count exactly when the string is pure ASCII. |
| Text.AsciiLower | Lab2/lab02/lab02/src/utils/input.rs:24 | Lower-casing keeps the length, maps each character to its ASCII lower case, and leaves no upper-case letter. |
| InputValidation.PasswordValidation | Lab3/code/karak/karak/src/utils/input_validation.rs:18-41 | An accepted password has 8 to 72 bytes, is not the username up to ASCII case, has a non-numeric character, and has a strength score of at least 3. |
| InputValidation.PasswordAsciiRules | Lab3/code/karak/karak/src/utils/input_validation.rs:18-41 | For an ASCII password, acceptance holds exactly when it has 8 to 72 characters, differs from the username ignoring case, has a non-digit, and has strength at least 3. |
| InputValidation.PasswordLengthExamples | Lab3/code/karak/karak/src/utils/input_validation.rs:279-280 | A 5-character password and a 73-character password are rejected, whatever the strength score. |
| InputValidation.PasswordUsernameExamples | Lab3/code/karak/karak/src/utils/input_validation.rs:283-284 | The username itself is rejected as a password, and so is its upper-case form. |
| InputValidation.AllDigitsRejected | Lab3/code/karak/karak/src/utils/input_validation.rs:29-32 | A password of 8 to 72 ASCII digits is rejected, whatever the strength score. |
| InputValidation.PasswordDigitsExamples | Lab3/code/karak/karak/src/utils/input_validation.rs:289-292 | The test passwords "1234567890" and "12345678" are rejected. |
| InputValidation.StrengthDecides | Lab3/code/karak/karak/src/utils/input_validation.rs:18-41 | For an ASCII password of 8 to 72 characters that is not the username and does not start with a digit, acceptance holds exactly when the strength score is at least 3. |
| InputValidation.PasswordAcceptedExamples | Lab3/code/karak/karak/src/utils/input_validation.rs:275-276 | The two test passwords the tests accept pass every rule except strength. They are accepted exactly when they score 3 or more. |
| InputValidation.PasswordWeakExamples | Lab3/code/karak/karak/src/utils/input_validation.rs:287-288 | "password123" and "qwerty123" pass every rule except strength. They are rejected exactly when they score below 3. |
| InputValidation.UsernameValidation | Lab3/code/karak/karak/src/utils/input_validation.rs:142-167 | An accepted username has 3 to 30 characters, all ASCII. |
| InputValidation.UsernameRules | Lab3/code/karak/karak/src/utils/input_validation.rs:142-167 | Acceptance holds if and only if all of these hold: 3 to 30 characters; first and last are ASCII alphanumeric and every character is in `[A-Za-z0-9._-]`; no `..`, `__` or `--`; the lower-cased name is not admin, root, superuser, test or guest. |
| InputValidation.ContainsPair | Lab3/code/karak/karak/src/utils/input_validation.rs:155-158 | `contains` of a doubled symbol holds exactly when two adjacent positions hold that symbol. |
| InputValidation.UsernameTryFrom | Lab3/code/karak/karak/src/utils/input_validation.rs:112-128 | Conversion succeeds if and only if validation succeeds, and it wraps the string unchanged. |
| InputValidation.UsernameAcceptedExamples | Lab3/code/karak/karak/src/utils/input_validation.rs:299-301 | "utilisateur_01", "Jean.Dupont" and "test-user" are accepted. |
| InputValidation.UsernameLengthExamples | Lab3/code/karak/karak/src/utils/input_validation.rs:304-305 | A 2-character name and a 31-character name are rejected. |
| InputValidation.UsernameCharacterExamples | Lab3/code/karak/karak/src/utils/input_validation.rs:308-311 | A leading `_`, a trailing `_`, an `@` and a space are rejected. |
| InputValidation.DoubledRejected | Lab3/code/karak/karak/src/utils/input_validation.rs:155-158 | A doubled `.`, `_` or `-` anywhere in the name rejects it. |
| InputValidation.UsernameDoubledExample | Lab3/code/karak/karak/src/utils/input_validation.rs:314 | "utilisateur..nom" is rejected. |
| InputValidation.ReservedRejected | Lab3/code/karak/karak/src/utils/input_validation.rs:161-164 | Each of the five reserved names is rejected. |
| InputValidation.UsernameConversionAccepted | Lab3/code/karak/karak/src/utils/input_validation.rs:330-331 | "nom_utilisateur" and "user-123" convert, each wrapped unchanged. |
| InputValidation.UsernameConversionRejected | Lab3/code/karak/karak/src/utils/input_validation.rs:334-336 | "nom@utilisateur", the empty name and "root" do not convert. |
| InputValidation.DigitChars | Lab3/code/karak/karak/src/utils/input_validation.rs:252 | Only ASCII digits are kept, and the result is no longer than the input. |
| InputValidation.AsciiDigits | Lab3/code/karak/karak/src/utils/input_validation.rs:252 | Every extracted digit value is at most 9. |
| InputValidation.ValidateAvsNumber | Lab3/code/karak/karak/src/utils/input_validation.rs:245-264 | The loop's verdict equals the reference definition `AvsValid`: the pattern `756` then dotted 4-, 4- and 2-digit groups, exactly 13 ASCII digits, and a weighted sum (2 at even indices, 1 at odd) divisible by 10. |
| InputValidation.AvsNumberTryFrom | Lab3/code/karak/karak/src/utils/input_validation.rs:197-219 | Conversion succeeds if and only if the number validates, and it keeps the raw string. |
| InputValidation.AvsUndottedAccepted | Lab3/code/karak/karak/src/utils/input_validation.rs:245-264 | 13 ASCII digits starting with 756 are accepted exactly when the checksum holds. |
| InputValidation.AvsDottedAccepted | Lab3/code/karak/karak/src/utils/input_validation.rs:245-264 | The same 13 digits written as `ddd.dddd.dddd.dd` are accepted exactly when the checksum holds. |
| InputValidation.RegroupPattern | Lab3/code/karak/karak/src/utils/input_validation.rs:246 | The dotted form of 13 digits starting with 756 matches the AVS pattern. |
| InputValidation.RegroupDigits | Lab3/code/karak/karak/src/utils/input_validation.rs:223-231 | Taking the digits of the dotted form gives back the 13 digits. |
| InputValidation.DottedGroupsDigits | Lab3/code/karak/karak/src/utils/input_validation.rs:246-255 | A string matching the dotted groups has at most as many ASCII digits as the groups' total. Having exactly that many makes it all digits and dots. |
| InputValidation.DottedGroupsLength | Lab3/code/karak/karak/src/utils/input_validation.rs:246 | A string matching the groups is at most the groups' total plus one dot per group. |
| InputValidation.DottedGroupsMin | Lab3/code/karak/karak/src/utils/input_validation.rs:246 | A string matching the groups is at least the groups' total long. |
| InputValidation.AvsValidIsAscii | Lab3/code/karak/karak/src/utils/input_validation.rs:245-264 | An accepted number is made of ASCII digits and dots only, and has 13 to 16 characters. |
| InputValidation.AvsDisplay | Lab3/code/karak/karak/src/utils/input_validation.rs:221-235 | With 13 digits, the display has 16 characters and the same digits in the same order. With any other digit count, the raw text is shown unchanged. `AvsDisplayNormalForm` gives the dotted form. |
| InputValidation.AvsDisplayNormalForm | Lab3/code/karak/karak/src/utils/input_validation.rs:221-235 | A valid number displays as its digits regrouped. The displayed form is itself valid, has the same digits, and displays as itself. |
| InputValidation.AvsDisplayIgnoresDots | Lab3/code/karak/karak/src/utils/input_validation.rs:221-235 | The undotted and the dotted form of the same 13 digits display identically. |
| InputValidation.DigitCharsConcat | Lab3/code/karak/karak/src/utils/input_validation.rs:224 | Digit extraction distributes over concatenation. |
| InputValidation.DigitCharsFull | Lab3/code/karak/karak/src/utils/input_validation.rs:224-226 | Extraction keeps every character exactly when all of them are ASCII digits, and then it returns the string unchanged. |
| InputValidation.WeightedSumStep | Lab3/code/karak/karak/src/utils/input_validation.rs:258-261 | One loop step adds twice the digit at an even index and the digit itself at an odd index. |
| InputValidation.ChecksumOf | Lab3/code/karak/karak/src/utils/input_validation.rs:258-261 | For 13 digits the sum is the explicit alternating 2,1,2,... weighted sum. |
| InputValidation.ValidExampleChecksum | Lab3/code/karak/karak/src/utils/input_validation.rs:353 | The digits of 756.1234.5678.97 sum to 110 under the weights. |
| InputValidation.AvsAcceptedExamples | Lab3/code/karak/karak/src/utils/input_validation.rs:340-355 | "756.1234.5678.97" and "7561234567897" are accepted, and both display as "756.1234.5678.97". |
| InputValidation.AvsChecksumExample | Lab3/code/karak/karak/src/utils/input_validation.rs:363 | "7560000000009" is rejected, because its checksum fails. |
| InputValidation.WrongDottedChecksum | Lab3/code/karak/karak/src/utils/input_validation.rs:362 | The digits of 756.1234.5678.00 sum to 87. |
| InputValidation.AvsDottedChecksumExample | Lab3/code/karak/karak/src/utils/input_validation.rs:362 | "756.1234.5678.00" is rejected. |
| InputValidation.ShortDottedRejected | Lab3/code/karak/karak/src/utils/input_validation.rs:246 | A 10-character remainder that starts with a dot cannot hold the dotted 4-, 4- and 2-digit groups. |
| InputValidation.AvsTooShortExample | Lab3/code/karak/karak/src/utils/input_validation.rs:357 | "756.1234.5678" is rejected. |
| InputValidation.AvsWrongPrefixExample | Lab3/code/karak/karak/src/utils/input_validation.rs:358 | A number without the 756 prefix is rejected. |
| InputValidation.AvsLettersExample | Lab3/code/karak/karak/src/utils/input_validation.rs:359 | A number with letters in a group is rejected, whatever the Unicode tables. |
| Models.NewFolder | Lab3/code/karak/karak/src/authorization.rs:507-515 | A new folder holds the given personal data and no doctor. |
| Models.AddDoctorTo | Lab3/code/karak/karak/src/services.rs:227-232 | Adding a doctor makes it a member and keeps the data and every other doctor. |
| Models.RemoveDoctorFrom | Lab3/code/karak/karak/src/services.rs:246-251 | Removing a doctor makes it a non-member and keeps the data and every other doctor. |
| Models.FolderDoctorRoundTrip | Lab3/code/karak/karak/src/authorization.rs:505-524 | A new folder lists no doctor. Adding one lists it, and removing it again gives back the new folder. |
| Models.AddRemoveDoctorInverse | Lab3/code/karak/karak/src/authorization.rs:505-524 | Removal undoes the addition of a doctor who was not listed. |
| Authorization.Enforcer.WithSubject | Lab3/code/karak/karak/src/authorization.rs:39-44 | The context carries the given subject and asks this engine. |
| Authorization.ParseAction | Lab3/code/karak/karak/src/authorization.rs:74-111 | An action string parses to the action of that name, and a known name always parses. |
| Authorization.Policy | Lab3/code/karak/karak/src/authorization.rs:147-595 | The rule table that `Enforcer::load` reads (lines 13-14), rebuilt from these tests. A grant needs a known action and an object of that action's shape. An Admin is granted every such triple. Only an Admin is granted update-role. A Doctor is never granted create-folder, and a Patient never add-report. `DefaultEnforcer` evaluates this table; `DefaultEnforcerFollowsPolicy` and the per-action laws give its meaning. |
| Authorization.DefaultEnforcerFollowsPolicy | Lab3/code/karak/karak/src/authorization.rs:13-14 | The default engine answers every triple as the rule table does, and never errs. |
| Authorization.Enforce | Lab3/code/karak/karak/src/authorization.rs:48-72 | Fail closed: the result is Ok exactly when the engine decided true. Any other outcome, a refusal or an evaluation error, is AccessDenied. |
| Authorization.FailClosed | Lab3/code/karak/karak/src/authorization.rs:58-71 | An evaluation error is turned into AccessDenied, not propagated, and so is a false decision. |
| Authorization.BrokenEngineDeniesAll | Lab3/code/karak/karak/src/authorization.rs:58-62 | An engine that always errs grants nothing. |
| Authorization.ReadData | Lab3/code/karak/karak/src/authorization.rs:74-76 | Granted exactly when the engine grants read-data on the patient. |
| Authorization.UpdateData | Lab3/code/karak/karak/src/authorization.rs:78-80 | Granted exactly when the engine grants update-data on the target. |
| Authorization.DeleteData | Lab3/code/karak/karak/src/authorization.rs:82-84 | Granted exactly when the engine grants delete-data on the target. |
| Authorization.AddReport | Lab3/code/karak/karak/src/authorization.rs:86-91 | Granted exactly when the engine grants add-report on the (patient, report) pair. |
| Authorization.ReadReport | Lab3/code/karak/karak/src/authorization.rs:93-95 | Granted exactly when the engine grants read-report on the (patient, report) pair. |
| Authorization.UpdateReport | Lab3/code/karak/karak/src/authorization.rs:97-99 | Granted exactly when the engine grants update-report on the report. |
| Authorization.UpdateRole | Lab3/code/karak/karak/src/authorization.rs:101-103 | Granted exactly when the engine grants update-role on the (target, role) pair. |
| Authorization.AddDoctor | Lab3/code/karak/karak/src/authorization.rs:105-107 | Granted exactly when the engine grants add-doctor on the (patient, doctor) pair. |
| Authorization.RemoveDoctor | Lab3/code/karak/karak/src/authorization.rs:109-111 | Granted exactly when the engine grants remove-doctor on the (patient, doctor) pair. |
| Authorization.ReadDataLaw | Lab3/code/karak/karak/src/authorization.rs:169-217 | read-data is granted iff the subject is an Admin, is the target, or is a Doctor listed in the target's folder. A Patient is granted iff it is the target. A Doctor on another user is granted iff it is listed. |
| Authorization.UpdateDeleteDataLaw | Lab3/code/karak/karak/src/authorization.rs:220-296 | update-data and delete-data are granted iff the subject is an Admin or is the target. |
| Authorization.CreateFolderLaw | Lab3/code/karak/karak/src/authorization.rs:558-595 | create-folder is granted iff the subject is an Admin, or a Patient acting on itself. A Doctor is always denied. |
| Authorization.AddReportLaw | Lab3/code/karak/karak/src/authorization.rs:301-379 | add-report is granted iff the subject is an Admin, or a Doctor and the patient has a folder. A Patient is denied, even for itself. |
| Authorization.ReadReportLaw | Lab3/code/karak/karak/src/authorization.rs:382-410 | read-report is granted iff the subject is an Admin, the report's author, or a Doctor listed in the patient's folder. |
| Authorization.UpdateReportLaw | Lab3/code/karak/karak/src/authorization.rs:413-451 | update-report is granted iff the subject is an Admin or the report's author. |
| Authorization.UpdateRoleLaw | Lab3/code/karak/karak/src/authorization.rs:454-483 | update-role is granted iff the subject is an Admin, for every target and every new role. |
| Authorization.DoctorManagementLaw | Lab3/code/karak/karak/src/authorization.rs:485-502 | add-doctor and remove-doctor are granted iff the subject is an Admin or is the patient. |
| Authorization.UnknownActionDenied | Lab3/code/karak/karak/src/authorization.rs:48-72 | An action the policy does not name is denied for every subject and object. |
| Services.Verify | Lab3/code/karak/karak/src/utils/password_utils.rs:60-68 | Without a stored hash, verification fails. With one, it is the hasher's answer. |
| Services.FolderWithData | Lab3/code/karak/karak/src/services.rs:150-156 | The folder gets the new personal data. An existing folder keeps its doctors, and a created one has none. |
| Services.WithDoctor | Lab3/code/karak/karak/src/services.rs:227-232 | Only the folder's doctor set changes: the doctor is inserted or removed. A user without a folder is returned unchanged. |
| Services.WithoutReportsOf | Lab3/code/karak/karak/src/services.rs:167 | Exactly the reports about other patients remain, unchanged. |
| Services.Service.constructor | Lab3/code/karak/karak/src/services.rs:42-48 | A service over a consistent database starts with no session. |
| Services.Service.LookupUsername | Lab3/code/karak/karak/src/services.rs:59 | A user is found iff the name is registered, and it is the stored user with that name. |
| Services.Service.LookupUser | Lab3/code/karak/karak/src/services.rs:113-115 | The id is found iff the name is registered, and it is the id of the user with that name. |
| Services.Service.Enforce | Lab3/code/karak/karak/src/services.rs:81-92 | A context exists iff the session id resolves to a user, its subject is that user's current record, and it asks the service's own engine. Otherwise the result is AccessDenied. |
| Services.Service.GrantedMeans | Lab3/code/karak/karak/src/services.rs:81-92 | A service-level grant means that the session resolves and the engine decided true for that user. |
| Services.Service.Decided | Lab3/code/karak/karak/src/services.rs:86-92 | A decision error becomes the service's AccessDenied, and a grant stays Ok. |
| Services.Service.Register | Lab3/code/karak/karak/src/services.rs:55-78 | A taken username gives UserAlreadyExists and stores nothing. Otherwise a Patient without a folder is stored under the fresh id, which is returned. Session and reports are unchanged. |
| Services.Service.Login | Lab3/code/karak/karak/src/services.rs:96-105 | Login succeeds iff the name is registered and the password verifies. Success sets the session to that user's id. Failure gives InvalidCredentials and leaves the session unchanged. |
| Services.Service.Logout | Lab3/code/karak/karak/src/services.rs:108-110 | The session becomes empty, and the tables are unchanged. |
| Services.Service.UpdateRole | Lab3/code/karak/karak/src/services.rs:118-129 | An unknown id gives a DB error before any decision. A known id is changed iff granted, and then only its role changes. A denial is AccessDenied and changes nothing. |
| Services.Service.GetData | Lab3/code/karak/karak/src/services.rs:132-138 | An unknown id gives a DB error. A known record is returned iff read-data is granted, and otherwise AccessDenied. |
| Services.Service.UpdateData | Lab3/code/karak/karak/src/services.rs:142-158 | An unknown id gives a DB error. Otherwise the write happens iff granted: the folder's data is replaced and the doctors kept, or a folder with no doctors is created. A denial changes nothing. |
| Services.Service.DeleteData | Lab3/code/karak/karak/src/services.rs:163-170 | An unknown id gives a DB error. On a grant the folder is removed and all reports about the patient are deleted; role and other users stay. A denial changes nothing. |
| Services.Service.AddReport | Lab3/code/karak/karak/src/services.rs:173-193 | An unknown patient gives a DB error. Otherwise the report is stored under the fresh id iff add-report is granted for it. A denial changes nothing. |
| Services.Service.ListReports | Lab3/code/karak/karak/src/services.rs:195-208 | Without a resolvable session nothing is listed. Otherwise the result is exactly the stored reports about the user that the subject may read. |
| Services.Service.ListPatients | Lab3/code/karak/karak/src/services.rs:210-215 | Without a session nothing is listed. Otherwise the result is exactly the stored users whose folder lists the session id as a doctor. |
| Services.Service.AddDoctor | Lab3/code/karak/karak/src/services.rs:217-233 | The doctor is resolved before the patient: an unknown doctor gives its DB error first. On a grant the doctor is inserted in the patient's folder, or nothing changes without a folder. A denial changes nothing. |
| Services.Service.RemoveDoctor | Lab3/code/karak/karak/src/services.rs:235-252 | Same order as AddDoctor. On a grant the doctor is removed from the patient's folder, or nothing changes without a folder. A denial changes nothing. |
| Services.Service.UpdateReport | Lab3/code/karak/karak/src/services.rs:254-267 | An unknown report gives NoSuchReport. Otherwise, iff granted, only that report's content is replaced. A denial changes nothing. |
| Services.NoSubjectNoAccess | Lab3/code/karak/karak/src/services.rs:81-92 | Without a resolvable session nothing is granted, reading data fails, and no report is listed. |
| Services.NoReportsListedAfterDelete | Lab3/code/karak/karak/src/services.rs:163-170 | Once no report about a patient is stored, as after delete_data, none is listed for it. |
| Services.ReadDataScenario | Lab3/code/karak/karak/src/services.rs:132-138 | Under the default rules, a Patient reading another user's record gets AccessDenied, and an Admin gets the record. |
| WebInput.ValidEmail | Lab2/lab02/lab02/src/utils/input.rs:4-8 | The regular expression as a split into local part, `@`, host, `.` and last label. An accepted address has exactly one `@`, with at least one character before it and three after it. `EmailRules` gives the full meaning. |
| WebInput.EmailRules | Lab2/lab02/lab02/src/utils/input.rs:4-8 | An address is accepted iff it splits at an `@` into a non-empty local part and a domain with a dot that has text on both sides, the whole containing no white space and no other `@`. |
| WebInput.EmailSplit | Lab2/lab02/lab02/src/utils/input.rs:4-8 | A match of the regular expression gives such a split at its `@`. |
| WebInput.EmailJoin | Lab2/lab02/lab02/src/utils/input.rs:4-8 | Such a split yields the positions of the `@` and of the dot that the regular expression matches. |
| WebInput.NoLaterAtRejected | Lab2/lab02/lab02/src/utils/input.rs:4-8 | An address with no `@` after its first character is rejected. |
| WebInput.AsciiEmailAccepted | Lab2/lab02/lab02/src/utils/input.rs:4-8 | An ASCII address without white space, with its only `@` and a later dot splitting it into three non-empty parts, is accepted. |
| WebInput.EmailAcceptedExamples | Lab2/lab02/lab02/src/utils/input.rs:46-47 | "test@example.com" and "user.name+tag+sorting@example.com" are accepted. |
| WebInput.EmailMissingPartExamples | Lab2/lab02/lab02/src/utils/input.rs:48-49 | An address without `@`, and one with an empty local part, are rejected. |
| WebInput.EmailEmptyHostExample | Lab2/lab02/lab02/src/utils/input.rs:50 | "username@.com" is rejected. |
| WebInput.EmailTwoAtExample | Lab2/lab02/lab02/src/utils/input.rs:51 | An address with two `@` is rejected. |
| WebInput.ValidName | Lab2/lab02/lab02/src/utils/input.rs:11-15 | An accepted name is non-empty and at most 50 bytes in UTF-8, hence also at most 50 characters. `NameRules` and `WideNameRejected` give the meaning. |
| WebInput.WideNameRejected | Lab2/lab02/lab02/src/utils/input.rs:13 | The bound counts bytes: a name of more than 25 characters, none of them ASCII, is rejected. |
| WebInput.NameRules | Lab2/lab02/lab02/src/utils/input.rs:11-15 | An accepted name has 1 to 50 characters, and a name of more than 50 bytes is rejected. An ASCII name is accepted iff it has 1 to 50 characters, each a letter, white space or `-`. |
| WebInput.NameAcceptedExamples | Lab2/lab02/lab02/src/utils/input.rs:56-58 | "John Doe", "Jane" and "Jean-Claude" are accepted. |
| WebInput.NameRejectedExamples | Lab2/lab02/lab02/src/utils/input.rs:59-61 | A name with digits, the empty name and a 51-letter name are rejected. |
| WebInput.ValidId | Lab2/lab02/lab02/src/utils/input.rs:18-25 | An accepted id has 36 characters, each a dash or a hex digit of either case. `IdRules` and `IdCaseInsensitive` give the full meaning. |
| WebInput.IdRules | Lab2/lab02/lab02/src/utils/input.rs:18-25 | An id is accepted iff it has 36 characters, dashes at positions 8, 13, 18 and 23, and hex digits of either case everywhere else. |
| WebInput.IdCaseInsensitive | Lab2/lab02/lab02/src/utils/input.rs:24 | An id is accepted iff its lower-cased form is. |
| WebInput.IdAcceptedExample | Lab2/lab02/lab02/src/utils/input.rs:66 | The test UUID is accepted. |
| WebInput.IdLengthExamples | Lab2/lab02/lab02/src/utils/input.rs:67-68 | A UUID without dashes and a short id are rejected. |
| WebInput.IdStrayLetterExample | Lab2/lab02/lab02/src/utils/input.rs:69 | A UUID ending in a non-hex letter is rejected. |
| WebInput.ValidBool | Lab2/lab02/lab02/src/utils/input.rs:28-33 | A value is accepted iff it is present and is `true` or `false`. |
| WebInput.BoolExamples | Lab2/lab02/lab02/src/utils/input.rs:73-78 | Both booleans are accepted. The string "true" and an absent value are rejected. |
| WebInput.ValidText | Lab2/lab02/lab02/src/utils/input.rs:36-38 | Accepted text is non-empty and at most maxLen bytes in UTF-8, hence also at most maxLen characters. `TextRules` and `WideTextRejected` give the meaning. |
| WebInput.WideTextRejected | Lab2/lab02/lab02/src/utils/input.rs:37 | The bound counts bytes: text of more than maxLen / 2 characters, none of them ASCII, is rejected. |
| WebInput.TextRules | Lab2/lab02/lab02/src/utils/input.rs:36-38 | Accepted text has 1 to maxLen characters, text of more than maxLen bytes is rejected, and ASCII text is accepted exactly then. |
| WebInput.TextExamples | Lab2/lab02/lab02/src/utils/input.rs:82-85 | The test texts within their limits are accepted. The empty text and an over-long text are rejected. |
| Posts.ParseVote | Lab2/lab02/lab02/src/backend/handlers_auth.rs:202-217 | "like" and "dislike" are the only votes, each mapped to its own. |
| Posts.Toggle | Lab2/lab02/lab02/src/backend/handlers_auth.rs:203-216 | The new vote state is always -1, 0 or 1. |
| Posts.ToggleRules | Lab2/lab02/lab02/src/backend/handlers_auth.rs:203-216 | A like turns 1 into 0 and anything else into 1. A dislike turns -1 into 0 and anything else into -1. |
| Posts.ToggleTwice | Lab2/lab02/lab02/src/backend/handlers_auth.rs:203-216 | Voting the same way twice, from neutral or from that vote, returns to the start. |
| Posts.FirstIndex | Lab2/lab02/lab02/src/backend/handlers_auth.rs:199 | The position found is the first with the id. None means no post has it. |
| Posts.CheckUpload | Lab2/lab02/lab02/src/backend/handlers_auth.rs:70-99 | A file passes iff it ends in `.jpg`, is at most 5·1024·1024 bytes, decodes, is at most 1920×1080 and is RGB8 or RGBA8. The error is that of the first check that fails: NotJpg iff the extension is wrong; TooLarge iff it is a `.jpg` over the size limit; NotAnImage iff it passes those and does not decode; DimensionsTooLarge iff it decodes wider than 1920 or taller than 1080; UnsupportedFormat iff it passes all that and is not RGB8 or RGBA8. |
| Posts.Collect | Lab2/lab02/lab02/src/backend/handlers_auth.rs:60-118 | Gathering succeeds iff every file field passes the guard. Text is then present iff a text field was seen, and an image path iff a file field was. The text kept is that of the last text field, and the path kept is that of the last file field. A rejected form fails with the error of its first rejected file field. |
| Posts.RejectionEndsCollect | Lab2/lab02/lab02/src/backend/handlers_auth.rs:70-99 | A rejected upload after a prefix that passed is the error of the whole form. |
| Posts.CollectStopsAtError | Lab2/lab02/lab02/src/backend/handlers_auth.rs:70-99 | After the first rejected upload, the later fields do not change the error. |
| Posts.PostStore.constructor | Lab2/lab02/lab02/src/backend/handlers_auth.rs:34-36 | The post list starts empty. |
| Posts.PostStore.SavePost | Lab2/lab02/lab02/src/backend/handlers_auth.rs:163-183 | Exactly one post is appended, with the given content and image path, no vote and the fresh id. That id is returned and finds the new post. Vote states stay in range. |
| Posts.PostStore.LikePost | Lab2/lab02/lab02/src/backend/handlers_auth.rs:186-223 | An absent id is NotFound, and an unknown action on a present post is InvalidAction; neither changes anything. Otherwise only the first matching post's vote is toggled. Vote states stay in range. |
| Posts.PostStore.CreatePost | Lab2/lab02/lab02/src/backend/handlers_auth.rs:56-130 | A rejected upload returns that error and saves nothing, and so does a form without text. Otherwise one post is appended with the last text and image path. |

## Left out

- The Casbin engine, `model.conf` and `policy.csv` (authorization.rs:4, 13-14, 33-37) are not part of this model. They are replaced by the closed table `Policy`, reconstructed from the unit tests. The laws are proved for `DefaultEnforcer`; the fail-closed lemmas hold for any engine.
- Authorization.ReadDataLaw: grants a Doctor read-data on its own record, as update-data and delete-data grant self-access. The rule file is not part of the repository, and the read-data tests (`authorization.rs:147-163`, `185-200`) only ask about a Doctor reading a patient whose folder lists it, so this case is a choice of the model rather than a fact checked against the code.
- Logging (`info!`, `error!`) and the JSON serialisation of the decision triple are side effects only, and are not modelled.
- Argon2 hashing is a foreign library with random salts. `verify` takes the hasher's answer as a parameter `check`. The dummy comparison on a missing hash, which evens out timing, is not modelled.
- zxcvbn scoring is a foreign library. `PasswordValidation` takes the score as a parameter `strength`.
- The interactive prompts (`password_input_validation`, `username_input_validation`) are terminal I/O loops. `Register` takes the password hash as a parameter.
- Fresh ids (`UserID::new`, `ReportID::new`, `Uuid::new_v4`) are random. They are parameters, with a freshness precondition.
- `Service::save`, YAML save and load of posts, and `save_posts_to_file` are persistence, and are not modelled. The unseen `db` module is modelled as maps. `get_user(id)` is read as lookup in `users`, failing when the id is absent. `get_patients(u)` (services.rs:213) is read as the ids of the stored users whose folder lists `u` among its doctors; that meaning is assumed, since the `db` module is not part of this model. The payload of `DBError` names the id that failed to resolve, so the doctor-before-patient order is observable.
- Services.Service.ListReports and Services.Service.ListPatients: they return sets, so the iteration order of the database is not modelled.
- The Unicode tables (`is_alphabetic`, `is_whitespace`, `is_numeric`, `\s`, `\d`) are not modelled. Only their agreement with ASCII is assumed, as the `CharClasses.Consistent()` requirement.
- Text.AsciiLower: Unicode `to_lowercase` is modelled as ASCII lowercasing. The two differ only on non-ASCII characters: in `valid_id` no non-ASCII character lowercases into `[0-9a-f-]`, and in `username_validation` only ASCII strings reach the check.
- The regular-expression engine is not modelled. Each pattern is written directly as a predicate.
- In `like_post`, the JSON body extraction is left out: a missing `post_id`, a malformed UUID and a missing `action` each return a bad-request error. `LikePost` receives the parsed id and action.
- The `RwLock` around the post list is concurrency, and is not modelled. Neither are its poisoned-lock error, the axum and multipart plumbing, image decoding or file writes. `CheckUpload` receives the decoded dimensions and colour type, and `CreatePost` receives the paths the files are saved at.
- The Handlebars rendering of `home`, `handlers_unauth.rs` and `utils/webauthn.rs` are HTTP, WebAuthn, e-mail and template I/O. None of them holds self-contained logic.
