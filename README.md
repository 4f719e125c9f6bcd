# Prayer tracker: agents, partners and their records

This project models the data layer and the partner routes of a small
prayer-chain tracker. An **agent** signs in with an email and a password. It
keeps an ordered list of **partners**. Each partner has a name, an email and
four ordered lists: donations, notes, prayers and thank-yous. An
**appointment** has its own follow-ups and notes.

The model has four parts:

- **Validation.** Each schema is a function from a document to its
  validation errors. The errors are a map from a field path (`email`,
  `partners.0.name`, ...) to one message.
- **Agent storage.** The agent collection is a class (`AgentStore`), and an
  in-memory agent is a class (`AgentDocument`) with the password's
  modified flag.
- **Saving.** `AgentDocument.Save` validates the agent, re-hashes the
  password if it was modified, and then writes. A failed save writes
  nothing.
- **Routes.** The four `/partner` handlers are modelled over the store.

## Modules

- `wrappers.dfy`: `Option`.
- `text.dfy`: JavaScript's `String.prototype.trim` (its whitespace set) and
  decimal digits.
- `schema.dfy`: error paths and maps, the `trim` setter, the `required` rule
  for strings, the shared four-value mode enum, and the note sub-schema.
- `donation.dfy`, `thank_you.dfy`, `follow_up.dfy`, `appointment.dfy`,
  `partner.dfy`: one module per schema.
- `agent.dfy`: the agent schema, the partner-email validator, email
  uniqueness, the re-hash hook, `validPassword`, the store and the document.
- `partner_routes.dfy`: POST `/partner`, GET `/partner/:id`,
  GET `/partner/:id/edit` and PUT `/partner/:id`.

## How things are represented

- Dates are integer milliseconds.
- The clock (`Date.now`) is a parameter, `now`.
- Amounts are integer cents.
- bcrypt's `hash` and `compare` are function parameters. Either may fail.
- A session is the id of the signed-in agent. On each request the agent is
  read back from the store. If the record is gone, the request counts as
  signed out.

## Model

| member | source | states |
|---|---|---|
| Text.Trim | models/partner.js:20 | the trimmed string is never longer than the input and neither starts nor ends with whitespace |
| Text.TrimShape | models/partner.js:20 | the trimmed string is a contiguous slice of the input, and everything cut before and after it is whitespace |
| Text.TrimEmptyIff | models/partner.js:20-22 | a string trims to "" exactly when it is all whitespace |
| Text.TrimUntouched | models/partner.js:20 | a string that neither starts nor ends with whitespace trims to itself |
| Text.TrimIdempotent | models/agent.js:23 | trimming a trimmed string changes nothing |
| Text.DigitsRoundTrip | models/donation.js:25 | the decimal digits of n read back as n |
| Schema.Trimmed | models/partner.js:26 | an absent value stays absent; a given value is stored trimmed |
| Schema.TrimmedPresentIff | models/partner.js:26-28 | after trimming, a value passes `required` exactly when it was given and is not all whitespace |
| Schema.FieldError | models/partner.js:27 | one message at one path, or no error; nothing at any other path |
| Schema.Prefixed | models/partner.js:30 | a sub-document's errors re-keyed under `list.index`, with nothing else added |
| Schema.Nested | models/partner.js:30-33 | every entry's error appears under `list.i`, and every key is such an entry's error |
| Schema.NestedEmptyIff | models/partner.js:30-33 | a list reports nothing exactly when none of its entries does |
| Schema.NestedAppendClean | models/appointment.js:39 | appending an entry without errors leaves the list's errors unchanged |
| Schema.ModeError | models/thankYou.js:12-19 | `required` is checked first (missing or empty gives the "not supplied" message); otherwise a value outside the four modes gives the "unknown" message with the value in quotes; otherwise no error |
| Donation.NewDonation | models/donation.js:9-12 | an absent date becomes the creation time; an explicit date and the amount are kept |
| Donation.DonationErrors | models/donation.js:13-16 | no error exactly when the amount is present; otherwise exactly the one "No donation amount supplied" error on `amount` |
| Donation.FormatCents | models/donation.js:25 | the text always ends in a point and two digits, and starts with a minus sign exactly when the amount is negative |
| Donation.TwoDigits | models/donation.js:25 | exactly two decimal digits |
| Donation.FormatAmount | models/donation.js:24-26 | a stored amount is formatted from its cents; a missing amount gives "NaN" |
| Donation.UnsignedRoundTrip | models/donation.js:25 | a non-negative amount prints as digits, a point and exactly two digits, and reads back as the same cents |
| Donation.NegativeRoundTrip | models/donation.js:25 | a negative amount prints with a minus sign and reads back as the same cents |
| Donation.FormatCentsRoundTrip | models/donation.js:24-26 | the formatted amount always has exactly two fraction digits after a point and reads back as the stored cents |
| Donation.FormatCentsInjective | models/donation.js:25 | two different amounts never format the same |
| Donation.ThreeHundredDollars | models/donation.js:14-25 | 30000 cents formats as "300.00", and "300.00" reads as 30000 cents |
| ThankYou.NewThankYou | models/thankYou.js:8-18 | the date defaults to the creation time and an explicit date is kept; the mode is stored trimmed |
| ThankYou.ThankYouErrors | models/thankYou.js:12-20 | no error exactly when the mode is present and one of the four; any error is on `mode` |
| ThankYou.ThankYouModeRule | models/thankYou.js:12-19 | on the raw input: missing or blank gives exactly the "No mode of expressing thanks supplied" error; an unknown trimmed value gives exactly the "Unknown mode of expressing thanks: '<value>'" error; a known value, padded or not, is accepted |
| FollowUp.NewFollowUp | models/followUp.js:8-26 | the date defaults to the creation time and an explicit date is kept; the reply fields are kept; the notes start empty; the mode is trimmed |
| FollowUp.FollowUpErrors | models/followUp.js:18-26 | no error exactly when the mode is present and one of the four; any error is on `mode` |
| FollowUp.FollowUpModeRule | models/followUp.js:18-25 | missing or blank gives exactly "No mode of requesting an followUp supplied"; an unknown value gives exactly "Unknown mode of requesting an followUp: '<value>'"; a known value is accepted |
| FollowUp.FollowUpFreeFields | models/followUp.js:13-17 | the reply date, the reply result and the notes carry no rule: changing them never changes the errors |
| FollowUp.PushNote | models/followUp.js:17 | the notes grow by exactly one at the end; earlier notes and every other field are unchanged |
| FollowUp.FollowUpErrorList | models/appointment.js:39 | one error map per follow-up, in list order |
| Appointment.NewAppointmentAsWritten | models/appointment.js:11-38 | as written: the request date defaults to the creation time; the follow-up date defaults to the one value fixed when the schema was built; the lists start empty; the mode is trimmed; the reply date and result are kept as given |
| Appointment.NewAppointment | models/appointment.js:11-38 | corrected follow-up default (see Findings): the request date defaults to the creation time and an explicit date is kept; an absent follow-up date is nine days after the request date; the lists start empty; the mode is trimmed; the reply date and result are kept as given |
| Appointment.FollowUpOnError | models/appointment.js:18-23 | no error exactly when the follow-up date is strictly after the request date; otherwise "You are not a time traveller" |
| Appointment.AppointmentErrors | models/appointment.js:11-39 | errors appear only on `followUpOn`, on `requestMode`, or under `followUps.i` for an existing follow-up |
| Appointment.FollowUpOnRule | models/appointment.js:18-23 | an error on `followUpOn` exactly when it is not strictly after the current `dateOfRequest`, with message "You are not a time traveller" |
| Appointment.TimeTravelOnlyError | models/appointment.js:15-39 | with a known mode and valid follow-ups, a follow-up date not after the request date gives exactly one error, "You are not a time traveller" on `followUpOn` |
| Appointment.RequestModeRule | models/appointment.js:30-37 | on the raw input: missing or blank gives "No mode of requesting an appointment supplied"; an unknown trimmed value gives "Unknown mode of requesting an appointment: '<value>'"; a known value gives no `requestMode` error |
| Appointment.OnlyModeCanFail | models/appointment.js:18-37 | with dates in order and no follow-ups, the whole error map is the mode rule's verdict on `requestMode` and nothing else |
| Appointment.RequestModeOnlyError | models/appointment.js:30-37 | a new appointment with a defaulted follow-up date: the whole error map is exactly the "not supplied" error, exactly the "unknown" error with the trimmed value, or empty, by the raw mode |
| Appointment.RequestModeOnlyErrorAsWritten | models/appointment.js:17-37 | the same whole-map verdicts for the schema as written, while fewer than nine days have passed since the schema was built |
| Appointment.RequestModeKey | models/appointment.js:30-37 | the `requestMode` entry of the errors is exactly the enum rule's verdict |
| Appointment.DefaultFollowUpIsOneConstant | models/appointment.js:17 | as written, every appointment with a defaulted follow-up date gets the same instant, schema build time plus 777 600 000 ms, whenever it is created |
| Appointment.StaleDefaultRejected | models/appointment.js:17-22 | as written, once nine days have passed since the schema was built, an appointment with both dates defaulted fails with "You are not a time traveller" |
| Appointment.DefaultFollowUpAlwaysLater | models/appointment.js:15-23 | with the per-document default, a defaulted follow-up date never breaks the date rule |
| Appointment.PushNote | models/appointment.js:29 | the notes grow by exactly one at the end, nothing else changes, and the errors are unchanged |
| Appointment.PushFollowUp | models/appointment.js:39 | the follow-ups grow by exactly one at the end; earlier ones and every other field are unchanged |
| Appointment.PushValidFollowUpKeepsErrors | models/appointment.js:39 | pushing a valid follow-up leaves the appointment's errors as they were |
| Partner.NewPartner | models/partner.js:17-33 | email and name are stored trimmed; the four lists start empty |
| Partner.PartnerErrors | models/partner.js:17-36 | errors appear only on `email`, on `name`, or under a donation or thank-you entry |
| Partner.DonationErrorList | models/partner.js:30 | one error map per donation, in list order |
| Partner.ThankYouErrorList | models/partner.js:33 | one error map per thank-you, in list order |
| Partner.OwnErrors | models/partner.js:18-29 | an error on `email` exactly when it is missing or empty ("No email supplied"), and on `name` exactly when it is ("No name supplied"); no other key |
| Partner.SubErrors | models/partner.js:30-33 | the errors of the sub-lists are all keyed under a list and an index |
| Partner.SubErrorsEmptyIff | models/partner.js:30-33 | the sub-lists report nothing exactly when every donation and thank-you is valid |
| Partner.PartnerFieldRules | models/partner.js:17-36 | errors are keyed per field, with each field's message; a partner reports nothing exactly when it and all its sub-documents are valid |
| Partner.OneMissingFieldOneError | models/partner.js:18-29 | a partner with a name but a blank email reports only the email error, and the other way round |
| Partner.NewPartnerErrors | models/partner.js:18-29 | on the raw input, an email or name error exactly when that field is missing or all whitespace, and no other error |
| Partner.PushDonation | models/partner.js:30 | the donations grow by exactly one at the end; earlier entries and every other field are unchanged |
| Partner.PushThankYou | models/partner.js:33 | the thank-yous grow by exactly one at the end; earlier entries and every other field are unchanged |
| Partner.PushNote | models/partner.js:31 | the notes grow by exactly one at the end, nothing else changes, and the errors are unchanged (notes carry no rule) |
| Partner.PushPrayer | models/partner.js:32 | the prayers grow by exactly one at the end, nothing else changes, and the errors are unchanged (prayers carry no rule) |
| Partner.DonationErrorListAppend | models/partner.js:30 | appending a donation appends its errors |
| Partner.ThankYouErrorListAppend | models/partner.js:33 | appending a thank-you appends its errors |
| Partner.PushValidDonationKeepsErrors | models/partner.js:30 | pushing a valid donation leaves the partner's errors as they were |
| Partner.PushValidThankYouKeepsErrors | models/partner.js:33 | pushing a valid thank-you leaves the partner's errors as they were |
| Agent.ScanInner | models/agent.js:38-42 | the inner loop finds the first later entry that clashes with the current one, or shows that none does |
| Agent.ScanOuter | models/agent.js:37-44 | the outer loop finds the first clashing pair in visiting order, or shows that no pair clashes |
| Agent.PartnersErrorAsWritten | models/agent.js:35-46 | as written: the check fails exactly when two partners with different ids share an email, and the message names the email of the partner at index 0 |
| Agent.PartnersError | models/agent.js:35-46 | corrected message (see Findings): fails on the same lists as the schema's check, and the message names an email that really is duplicated |
| Agent.PartnersCheckBasics | models/agent.js:36-44 | empty and one-entry lists pass; a list passes exactly when partners with different ids have different emails |
| Agent.IdCheckIsPositionCheck | models/agent.js:39 | when the ids are distinct, comparing ids is the same as comparing positions |
| Agent.HeadDuplicateMessagesAgree | models/agent.js:46 | when the partner at index 0 has a duplicate, the schema's message and the corrected one are the same, naming that partner's email |
| Agent.MessageAsWrittenMisnames | models/agent.js:46 | for partners x, y, y the schema's message names x, whose email nobody shares; the corrected message names y |
| Agent.PartnerErrorList | models/agent.js:33-34 | one error map per partner, in list order |
| Agent.OwnAgentErrors | models/agent.js:14-48 | an `email` error exactly when the email is missing or empty ("No email supplied") or another stored agent holds it ("That email is taken"); a `password` error exactly when the password is missing or empty; a `partners` error exactly when two partners clash, whose message names the email of the first partner in the list |
| Agent.AgentErrors | models/agent.js:13-48 | a save reports `email` exactly when the email is missing, empty or taken, `password` exactly when the password is missing or empty, and `partners` exactly when two partners share an email. When `partners` fails, nothing else is reported beyond the agent's own rules: the array's validator runs before its entries are validated |
| Agent.PartnerEntries | models/agent.js:33-34 | when no two partners share an email, the save reports each partner's errors under `partners.i`, exactly the paths that partner reports and with its messages |
| Agent.OwnEntries | models/agent.js:13-48 | a top-level path is in the agent's errors exactly when the agent's own rules report it, with the same message |
| Agent.OwnAgentErrorsEmptyIff | models/agent.js:14-48 | the agent's own rules report nothing exactly when the email is present and free, the password is present and no partners clash |
| Agent.AgentErrorsEmptyIff | models/agent.js:13-48 | a save passes validation exactly when the agent's own rules hold and every partner is valid |
| Agent.TakenEmailOnlyError | models/agent.js:18 | an otherwise valid agent whose email another stored agent holds fails with exactly one error: "That email is taken" on `email` |
| Agent.NoPartnersOwnErrorsOnly | models/agent.js:33-48 | an agent with no partners reports only what its own rules report, and the partner check passes |
| Agent.NewAgentBlankEmail | models/agent.js:14-20 | on the raw input, a missing or blank email with a usable password gives exactly the one "No email supplied" error |
| Agent.NewAgentBlankPassword | models/agent.js:21-26 | on the raw input, a missing or blank password with a usable, free email gives exactly the one "No password supplied" error |
| Agent.OtherAgentsPartnersIrrelevant | models/agent.js:36-44 | another agent's partners never change this agent's errors: partner emails are unique per agent only |
| Agent.Rehashed | models/agent.js:53-70 | an unmodified password is left exactly as it is; a modified one becomes the trimmed hash of the plaintext, or the save fails if hashing fails; nothing but the password changes |
| Agent.ValidPassword | models/agent.js:72-85 | the agent is accepted exactly when the comparison reports a match; a mismatch and a comparison error both give `false`, and no error is ever passed on |
| Agent.StoredPasswordAccepts | models/agent.js:63-79 | with a bcrypt-like pair, the stored hash accepts the plaintext it was made from |
| Agent.AgentStore.constructor | models/agent.js:13-51 | an empty collection satisfies the store invariant (every email present and held by one agent) |
| Agent.AgentStore.FindById | models/agent.js:13-51 | a stored agent comes back as a fresh, unmodified, not-new document equal to the record; an unknown id gives nothing |
| Agent.AgentDocument.Create | models/agent.js:13-32 | a new agent is stored trimmed with no partners; it is new, and its password counts as modified when given |
| Agent.AgentDocument.Load | models/agent.js:13-32 | a loaded agent equals its record and is neither new nor modified |
| Agent.AgentDocument.SetEmail | models/agent.js:14-19 | assigns the trimmed email and nothing else; the password's modified flag is unchanged |
| Agent.AgentDocument.SetPassword | models/agent.js:21-26 | assigns the trimmed password; it counts as modified exactly when the document is new, was already modified, or the trimmed value differs from the old one |
| Agent.AgentDocument.UnshiftPartner | models/agent.js:33-34 | the partner goes to index 0; the old partners follow in their order |
| Agent.AgentDocument.ReplacePartner | models/agent.js:33-34 | one partner is replaced in place; the length and every other partner are unchanged |
| Agent.AgentDocument.Save | models/agent.js:13-70 | validation errors (with the schema's own `partners` message) give `Invalid(errors)` and write nothing; a hook failure writes nothing; otherwise the record, re-hashed only if the password was modified, is written under its id; the store invariant is kept |
| Agent.ChangeEmail | models/agent.js:53-57 | after an email-only change and a save, the stored password hash is exactly as before |
| Agent.StorePreserved | models/agent.js:18 | writing a record whose email is present and free keeps every stored email unique |
| PartnerRoutes.Deserialize | routes/partner.js:36-41 | the session gives the stored agent with that id, or no user if the record is gone |
| PartnerRoutes.FindPartner | routes/partner.js:41 | the index of the first partner whose id equals the requested id, or none when no partner has it |
| PartnerRoutes.Lookup | routes/partner.js:15 | a form field, when the form sent it |
| PartnerRoutes.ShowPartner | routes/partner.js:35-53 | signed out gives the "Login first" redirect; a missing partner gives the "That partner does not exist" redirect; a rendered show page has no errors and shows the signed-in agent's first partner with the requested id |
| PartnerRoutes.EditPartnerForm | routes/partner.js:58-74 | signed out gives the "Login first" redirect; a missing partner gives the "You have no such partner" redirect; a rendered edit form has no errors and shows the signed-in agent's first partner with the requested id |
| PartnerRoutes.EditedPartner | routes/partner.js:92-96 | only email and name may change, and each either stays or becomes the trimmed form value sent for it |
| PartnerRoutes.PartnerPage | routes/partner.js:35-74 | signed out gives a redirect to `/` with "Login first"; a partner not in the agent's own list gives the not-found redirect; otherwise the page shows that agent's first partner with that id |
| PartnerRoutes.OtherAgentsPartnerHidden | routes/partner.js:41-46 | another agent's partner id counts as absent: show gives "That partner does not exist" and edit gives "You have no such partner" |
| PartnerRoutes.EditedFieldRule | routes/partner.js:92-96 | a field changes exactly when the form sends it with something other than whitespace, and then becomes that value trimmed; only email and name ever change |
| PartnerRoutes.EditIdempotent | routes/partner.js:92-96 | submitting the same form twice changes nothing the second time |
| PartnerRoutes.EditKeepsPresentFields | routes/partner.js:92-96 | blank fields never blank a required field: a partner with a valid email and name keeps them valid |
| PartnerRoutes.ApplyBody | routes/partner.js:92-96 | the loop over the form fields, in any order, yields the edited partner |
| PartnerRoutes.PostPartner | routes/partner.js:11-25 | the new partner's id differs from every id the agent already has. Signed out gives 401 and changes nothing. If the agent with the new partner at index 0 validates: the store holds that list (old partners shifted down, in order), and the redirect goes to the new partner with "Added <name> to prayer chain". Otherwise every error is flashed and nothing changes |
| PartnerRoutes.PutPartner | routes/partner.js:79-109 | signed out gives the login redirect; a partner not in the agent's list gives 401 "You are unauthorized". Otherwise, if valid, only that partner is replaced in place, redirecting with "Update successful"; if invalid, nothing is written and the edit form shows the errors. On every outcome the signed-in agent's stored password is kept (an update never re-hashes), and no other agent's record changes |
| PartnerRoutes.PostDuplicateRejected | routes/partner.js:15-25 | adding a partner whose email the agent already has fails on `partners`, with the message naming that email; only the agent's own rules report, none of the partners' |
| PartnerRoutes.SinglePartnerErrors | models/agent.js:13-48 | an agent with an email, a password and one partner whose only error is one message at one path reports exactly that message under `partners.0` |
| PartnerRoutes.PostBlankFieldErrors | routes/partner.js:15-25 | adding a partner with a blank name, or with a blank email, to a valid agent gives exactly one error, "No name supplied" or "No email supplied" under `partners.0` |
| PartnerRoutes.PostDuplicateHidesNameError | models/agent.js:33-46 | a new partner with a blank name and an existing partner's email is reported only as the duplicate, without "No name supplied" |
| PartnerRoutes.PutDuplicateRejected | routes/partner.js:92-109 | editing a partner's email to another partner's email fails on `partners`, so nothing is written; the message names the first partner's email, which is the submitted email when the edited partner is at index 0 |
| PartnerRoutes.PutMessageNamesHead | routes/partner.js:79-109 | for partners x, y, z, editing z's email to y's fails with a message naming x |

## Left out

- bcrypt's salt generation, hashing and comparison are parameters. The model assumes nothing about them except in `StoredPasswordAccepts`, which assumes comparing a plaintext with its own digest matches.
- mongoose-currency parsing of strings such as "$299" is not modelled. `amount` is an already-parsed integer count of cents. `ParseCents` is a reference reader for the formatter's own output only.
- Float precision of `toFixed`: the formatter is stated exactly on integer cents. Exponential notation above 1e21 is not modelled.
- `timestamps` (`createdAt`/`updatedAt`) on every schema and the clock are not modelled. The creation time is a parameter.
- The order of flashed messages is not modelled: the POST failure response carries the error map, not an ordered list of flashes. Flashes from earlier requests shown on a rendered page are not modelled either.
- Only the `email` and `name` form fields are modelled. A form key naming another partner path (`donations`, `notes`, `_id`, ...) would be assigned too, and what mongoose then does with the value is not modelled. Keys that are no partner path are ignored, as mongoose ignores unknown paths.
- PartnerRoutes.PutPartner: `req.user.save(req.body)` passes the form as the options object of `save`. An option key such as `validateBeforeSave` in the form would change how the save runs, and that is not modelled: the model always saves with the default options.
- Form values are strings. A non-string value would make `trim()` throw, and that case is not modelled.
- PostPartner: the 400 response when reading the agent fails is not modelled. The agent was just read back from the same store for the session, so this model has no failing read.
- Agent.PartnersError: ids are compared by value, while the source compares ObjectId references. `IdCheckIsPositionCheck` shows the two agree when ids are distinct.
- Agent.AgentDocument.Save: saving a stored document whose record has been deleted is a failed write (`WriteFailed`), and inserting a new document whose id is taken is one too. Both write nothing.
- Agent.AgentStore.Valid keeps only the uniqueness invariant (ids match keys; every email present and unique). The other field rules are checked on every save, but a stored record is not required to satisfy them.
- `ThankYouSchema.methods.formatAmount` is not modelled: it reads an `amount` field that the schema does not declare.
- `findOrCreate` (models/agent.js:87, models/partner.js:38) is not modelled. The unique-validator plugin on the partner schema has no effect, because no partner path is unique.
- Sessions, the Passport strategy, app.js, the mailer and the render-only routes are not part of this model. Neither are password reset, partner delete and prayer posting, whose handlers are not in the modelled files.
- Concurrency between requests is not modelled: each handler runs to completion against the store.

## Findings

| source | as written | input that shows it | evidently intended | confidence | as-written member | corrected member |
|---|---|---|---|---|---|---|
| models/agent.js:46 | the message names the email of `props.value[0]`, the first partner, whichever partners clash | partners with emails x, y, y in that order: the message names x, which nobody duplicates | name the email that is duplicated | not executed; high for edits (`PutMessageNamesHead`), while a POST always clashes at index 0 (`HeadDuplicateMessagesAgree`) | Agent.MessageAsWrittenMisnames | Agent.PartnersError |
| models/appointment.js:17 | the `followUpOn` default is computed once, when the schema is built, so every appointment gets the same instant | a process started at time T, and an appointment created with both dates defaulted at any time at or after T + 777 600 000 ms: its follow-up date is not after its request date, so the save fails with "You are not a time traveller" | nine days after the appointment's own request date | not executed; high | Appointment.StaleDefaultRejected | Appointment.DefaultFollowUpAlwaysLater |
