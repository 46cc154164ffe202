# Franchise onboarding server — a Dafny model

This project models the server of a franchise-partner onboarding portal.

- **Enquiries.** A visitor submits an enquiry, or HR enters a partner manually. HR and then the operational head approve it in two steps.
- **Provisioning.** The operational head's approval creates a partner account: a user with a generated franchise code and a temporary password, plus a franchise record.
- **Profile and agreement.** The partner completes a profile and accepts the agreement. The acceptance is stamped on the franchise and appended to an agreement log. The agreement can then be printed.
- **Dashboard.** Admins see counts over the stores.

The stores are the enquiry, franchise, user and agreement-log collections. They are fields of one `Store.Database` object. Handlers that write change it through its insert and save methods; each method enforces what the document schema enforces:

- required paths;
- the two unique indexes on franchises (user and code);
- email uniqueness of users;
- the pre-save hook that stamps `updatedAt`.

`Database.Valid()` is the invariant every handler keeps:

- ids are fresh and distinct;
- stored documents pass validation, with trimmed fields and a lower-case email;
- every accepted agreement has a log entry, or is one whose log entry the store rejected (the ghost set `Database.unlogged`).

Each handler is modelled in two parts:

1. A pure *decision* function: the role gate, the validators, the lookup and the guards. It answers one `Reply` value, `Done(status, value)` or `Fail(failure)`, where the failure is `ValidationFailed` (400 with errors), `Forbidden` (the role gate), `NotFound` (404), `BadRequest` (400 with a message) or `ServerError` (500).
2. A method that performs the writes the code performs, in the same order.

Lemmas relate the handlers to each other:

- an approval step is never taken twice;
- a second acceptance fails;
- submitting the profile opens the acceptance;
- an acceptance opens printing and shows in the status;
- a profile submission is idempotent and reads back as submitted;
- the franchise-code generator is fresh below 10000 and repeats a code past 9999.

Modules follow the source files:

| module | source |
|---|---|
| `FranchiseEnquiryModel`, `FranchiseModel`, `AgreementLogModel` | `server/models/*.js` |
| `FranchiseCodes`, `FranchiseUtils` | `server/utils/franchiseUtils.js` |
| `FranchiseRoutes` | `server/routes/franchise.js` |
| `UserRoutes` | `server/routes/user.js` |
| `AgreementRoutes` | `server/routes/agreement.js` |
| `AdminRoutes` | `server/routes/admin.js` |

Four helper modules support them:

- `Common`: ids, times, roles, replies.
- `Strings`: JavaScript `trim`, `toLowerCase`, `||`, string order, `parseInt`, `String(n)` and `padStart`.
- `Query`: Mongo `findOne`, `find`, `countDocuments` and sort, over sequences.
- `Store`: the database.

Behaviours of the code that the model keeps:

- **Temporary password.** It is the enquiry's email (`FranchiseUtils.PartnerUser`).
- **No rollback.** A failed provisioning leaves the enquiry `operational_approved` without a franchise (`FranchiseRoutes.ApproveOperational`). Provisioning can also leave a user without a franchise when the code is taken (`FranchiseUtils.TakenCodeStrandsUser`).
- **No rejection.** There is no rejection path, and the approval route ignores `action` and `notes`.
- **Manual entries lose their partner type.** Under the default strict schema a manual entry's partner type is dropped. The account later provisioned for it is a franchise-partner account (`FranchiseRoutes.ManualEntryProvisionsFranchisePartner`).
- **The public form can set any status.** It passes the whole body to the constructor, so a body `status` replaces `pending` (`FranchiseRoutes.PublicStatusSkipsHr`).
- **An acceptance can stay unlogged.** A `signatureData` that is a JSON object or array fails the log's String cast after the franchise was saved accepted. The answer is 500, no log entry is written, and every retry is refused as already accepted (`AgreementRoutes.RejectedSignatureUnlogged`).
- **The public form can set approvers.** The same constructor call stores approvers, approval times, notes and `submittedAt` taken from the body. An approver can thus be stored without its time (`FranchiseRoutes.PublicBodyNamesApprover`).

## Model

| member | source | states |
|---|---|---|
| Common.PartnerRole | server/utils/franchiseUtils.js:28-39 | the user role of an account is a partner role, and it is `channel_partner` exactly for the channel type |
| Common.ParsePartnerType | server/routes/franchise.js:124 | the `isIn` check accepts exactly "franchise_partner" and "channel_partner" |
| Strings.Trim | server/models/FranchiseEnquiry.js:4-8 | a trimmed value is a slice of the input with only white space outside it, has no edge white space, and is empty exactly when the input was all white space |
| Strings.TrimIdempotent | server/routes/franchise.js:20-23 | the validator's trim followed by the schema's trim setter equals one trim |
| Strings.NormalizeStored | server/models/FranchiseEnquiry.js:9-14 | a stored email is the trimmed input with each character lower-cased |
| Strings.NormalizeStoredIdempotent | server/models/FranchiseEnquiry.js:9-14 | storing a stored email again does not change it |
| Strings.Or | server/utils/franchiseUtils.js:52-53 | `a \|\| b` is `a` unless it is missing or empty |
| Strings.FirstNonEmpty | server/routes/franchise.js:180-183 | a chain of `\|\|` yields the first non-empty candidate, else the fallback |
| Strings.FirstOfTwo | server/routes/franchise.js:180-183 | a two-candidate `\|\|` chain is the nested `\|\|` |
| Strings.FirstOfThree | server/routes/franchise.js:181-182 | a three-candidate `\|\|` chain is the nested `\|\|` |
| Strings.ParseDigits | server/utils/franchiseUtils.js:15-18 | `parseInt` of k decimal digits is below 10^k |
| Strings.ParseToDigits | server/utils/franchiseUtils.js:15-22 | `parseInt` of `String(n)` gives back `n` |
| Strings.ParseLeadingZeros | server/utils/franchiseUtils.js:15-18 | leading zeros do not change the value `parseInt` reads |
| Strings.ToDigitsLength | server/utils/franchiseUtils.js:22 | below 10^k a number has at most k digits |
| Strings.LexLessDigits | server/utils/franchiseUtils.js:8-10 | on digit strings of equal length, string order is number order |
| Strings.PadStart | server/utils/franchiseUtils.js:22 | `padStart` reaches the width with the fill on the left and never truncates |
| Query.FindFirst | server/routes/user.js:17-19 | `findOne` yields the first matching document, and none exactly when nothing matches |
| Query.Filter | server/routes/franchise.js:75 | `find` keeps only matching documents, each as often as it occurs in the collection, and nothing else |
| Query.Count | server/routes/admin.js:18-29 | `countDocuments` is at most the collection size; it is 0 exactly when nothing matches and the full size exactly when everything matches |
| Query.SortDesc | server/routes/franchise.js:76 | a descending sort is sorted and a permutation of its input |
| FranchiseEnquiryModel.ParseStatus | server/models/FranchiseEnquiry.js:37-40 | the enum validator accepts a string only as the spelling of the status it yields |
| FranchiseEnquiryModel.ParseStatusName | server/models/FranchiseEnquiry.js:37-40 | every one of the seven spellings is accepted as its own status |
| FranchiseEnquiryModel.AllStatusesListed | server/models/FranchiseEnquiry.js:39 | the status enum lists every status |
| FranchiseEnquiryModel.NewEnquiry | server/models/FranchiseEnquiry.js:3-72 | the constructor trims the required paths and the optional city, state and message, lowercases the email, takes the status, notes, approvers, approval times and `submittedAt` from its input, defaults status to pending, notes to "" and `submittedAt` to now, and under strict mode drops the undeclared `partnerType` |
| FranchiseModel.ParseIdProofType | server/models/Franchise.js:58-62 | the enum accepts exactly the four spellings, each as its own kind |
| FranchiseModel.NewFranchise | server/models/Franchise.js:3-91 | the constructor applies the setters and the defaults: franchise partner, country "India", profile incomplete, agreement pending, no acceptance time |
| FranchiseModel.PreSave | server/models/Franchise.js:94-97 | every save stamps `updatedAt` with the current time and changes nothing else |
| AgreementLogModel.NewAgreementLog | server/models/AgreementLog.js:3-33 | a log carries the franchise and the acceptance time, version "1.0", the given request data and a null `pdfUrl` |
| Store.FranchisesAppend | server/models/Franchise.js:9-19 | appending a franchise whose user and code are unused keeps both unique indexes |
| Store.SaveKeepsLogged | server/routes/user.js:63-72 | a franchise save that accepts nothing new keeps every acceptance logged or recorded as unlogged |
| Store.AcceptanceLogged | server/routes/agreement.js:33-46 | an acceptance saved with its log entry keeps every acceptance logged |
| Store.AcceptanceUnlogged | server/routes/agreement.js:33-46 | an acceptance saved without a log entry, for a franchise not logged before, leaves an accepted agreement unlogged |
| Store.FranchiseOfUserAfterSave | server/routes/agreement.js:18 | after a save that keeps the owner, `findOne({ userId })` finds the same franchise |
| Store.FindFranchiseAfterSave | server/routes/agreement.js:69 | after a save that keeps the id, `findById` finds the same franchise |
| Store.Database.InsertEnquiry | server/models/FranchiseEnquiry.js:4-24 | any normalized enquiry under the next id is written exactly when its required paths are non-empty; the invariant holds and nothing else changes |
| Store.Database.SaveEnquiry | server/routes/franchise.js:264-268 | saving a storable, normalized enquiry under its own id replaces it in place, changes nothing else and keeps the invariant |
| Store.Database.InsertUser | server/utils/franchiseUtils.js:35-41 | a user is created exactly when the email is not yet registered |
| Store.Database.SaveUser | server/utils/franchiseUtils.js:57-58 | saving a user replaces it in place |
| Store.Database.InsertFranchise | server/utils/franchiseUtils.js:43-55 | a franchise is created exactly when its required paths are set and its user and code are unused, and it is stored as the pre-save hook leaves it |
| Store.Database.SaveFranchise | server/models/Franchise.js:94-97 | saving a franchise succeeds exactly when it passes validation and stores it with `updatedAt` stamped; a save that accepts nothing new keeps the audit |
| Store.Database.InsertLog | server/routes/agreement.js:39-46 | a log is only ever appended, one entry per call |
| FranchiseCodes.CodeNumber | server/utils/franchiseUtils.js:15-18 | the number `parseInt` reads from a matching code's digits is below 10 to the power of their count |
| FranchiseCodes.CodePrefix | server/utils/franchiseUtils.js:6 | the prefix is "CH" exactly for channel partners, otherwise "FR" |
| FranchiseCodes.GreatestMatching | server/utils/franchiseUtils.js:8-10 | the lookup yields a stored code matching `^prefix\d+$` that no other matching code exceeds in string order, or none when no code matches |
| FranchiseCodes.NextNumber | server/utils/franchiseUtils.js:12-20 | the new number is at least 1 |
| FranchiseCodes.FormatCode | server/utils/franchiseUtils.js:22 | a formatted code matches the lookup pattern and has at least four digits |
| FranchiseCodes.GenerateFranchiseCode | server/utils/franchiseUtils.js:5-23 | a generated code has the prefix and at least four digits |
| FranchiseCodes.GeneratedCodeMatches | server/utils/franchiseUtils.js:8-22 | every generated code is seen by the next lookup for its role |
| FranchiseCodes.FormatCodeRoundTrip | server/utils/franchiseUtils.js:15-22 | parsing a formatted code's suffix gives back its number |
| FranchiseCodes.FormatCodeWidth | server/utils/franchiseUtils.js:22 | below 10000 a code has exactly four digits |
| FranchiseCodes.FirstCode | server/utils/franchiseUtils.js:12-22 | with no matching code stored, the code is prefix + "0001" |
| FranchiseCodes.NextCodeFollowsGreatest | server/utils/franchiseUtils.js:14-20 | otherwise the code's number is the string-greatest matching code's number plus one |
| FranchiseCodes.NextNumberExceeds | server/utils/franchiseUtils.js:8-20 | while all matching codes have four digits, the new number exceeds every stored one |
| FranchiseCodes.FreshCode | server/utils/franchiseUtils.js:8-22 | while all matching codes have four digits, the new code is not yet stored |
| FranchiseCodes.DuplicatePast9999 | server/utils/franchiseUtils.js:8-22 | with "FR9999" and "FR10000" stored, the generator yields "FR10000" again |
| FranchiseCodes.After9999 | server/utils/franchiseUtils.js:14-22 | whenever "FR9999" sorts first, the next code is "FR10000" |
| FranchiseUtils.AccountRole | server/utils/franchiseUtils.js:28 | the account type is the enquiry's partner type, else franchise partner |
| FranchiseUtils.PartnerUser | server/utils/franchiseUtils.js:32-41 | the user carries the enquiry's contact data and the partner role, and its password is the hash of the email |
| FranchiseUtils.ProvisionedFields | server/utils/franchiseUtils.js:43-55 | the franchise gets the enquiry's contact data, the role, and the new user; its city is the city, else the location; its state is the state, else "" |
| FranchiseUtils.ProvisionedFranchise | server/utils/franchiseUtils.js:43-55 | the created franchise passes validation, links the enquiry and the user, and starts incomplete and pending |
| FranchiseUtils.ProvisionAccount | server/utils/franchiseUtils.js:32-72 | a registered email writes nothing; a taken code leaves the new user behind without a franchise; otherwise the user and the franchise are written, the user is linked to the franchise, and {email, code, email as password, role} is returned |
| FranchiseUtils.LinkFranchise | server/utils/franchiseUtils.js:43-58 | the franchise is created for the new user and the user's `franchiseId` is set to it |
| FranchiseUtils.Provision | server/utils/franchiseUtils.js:26-72 | an account is created exactly when the email is unregistered and the generated code unused; the stored users are kept as a prefix, and without an account the franchises are unchanged |
| FranchiseUtils.TakenCodeStrandsUser | server/utils/franchiseUtils.js:35-55 | with a free email and a taken code, a user without a franchise is left behind and no account is returned |
| FranchiseUtils.CreateFranchiseAccount | server/utils/franchiseUtils.js:26-77 | the users, franchises and answer are those of `Provision` for the stored users and codes |
| FranchiseRoutes.AcceptedEmailKept | server/routes/franchise.js:21 | an email `isEmail` accepts is stored non-empty and keeps its length, so it never makes the save fail |
| FranchiseRoutes.PublicSubmission | server/routes/franchise.js:17-49 | 400 exactly when name, phone or location is empty or the email is invalid; 500 when the trimmed fields are empty or the body status is outside the enum; otherwise 201 with the trimmed, normalized enquiry under the next id, pending unless the body names a status, with the trimmed city, state and message, the body's notes or "", the body's approvers and `submittedAt` or now, and the body's partner type only when the schema is not strict |
| FranchiseRoutes.PublicCityReachesFranchise | server/utils/franchiseUtils.js:52-53 | a valid, storable form body with a castable status is saved, and the franchise provisioned for it gets the trimmed city, or the trimmed location when the city is missing or blank, and the trimmed state or "" |
| FranchiseRoutes.EnquiryBodyValid | server/routes/franchise.js:20-23 | the form's validators: a body they pass has an email that is stored non-empty |
| FranchiseRoutes.PublicDocument | server/routes/franchise.js:32 | `new FranchiseEnquiry(req.body)` for a valid body: trimmed fields including city, state and message, the body's status or pending, the body's notes or "", the body's approvers and times, the body's partner type only when the schema is not strict, storable exactly when the trimmed fields stay non-empty |
| FranchiseRoutes.PublicBodyNamesApprover | server/routes/franchise.js:32 | a body naming an HR approver without a time is stored with that approver and no approval time |
| FranchiseRoutes.PublicSubmissionBadStatus | server/routes/franchise.js:32-33 | a body status outside the enum ends in a server error |
| FranchiseRoutes.SubmitEnquiry | server/routes/franchise.js:25-48 | an accepted submission appends exactly its enquiry and answers its summary; a refused one writes nothing |
| FranchiseRoutes.PendingSelection | server/routes/franchise.js:60-73 | role=hr selects pending and role=operational_head selects hr_approved; otherwise a given status selects exactly that status, and without one the three open statuses are selected |
| FranchiseRoutes.PendingEnquiries | server/routes/franchise.js:54-86 | the queue holds exactly the stored enquiries the selection matches, each as often as it is stored, most recently submitted first; other roles are refused |
| FranchiseRoutes.EnquiryById | server/routes/franchise.js:91-110 | the enquiry with the id, or 404 when there is none |
| FranchiseRoutes.PartnerBodyValid | server/routes/franchise.js:120-125 | the manual entry's validators: a body they pass names one of the two partner types and has an email that is stored non-empty |
| FranchiseRoutes.ManualEntry | server/routes/franchise.js:115-158 | only HR; 400 on an invalid body; otherwise the enquiry is stored at hr_approved with HR as approver, the time, and the notes or ""; its partner type is kept only without strict mode |
| FranchiseRoutes.ManualDocument | server/routes/franchise.js:137-147 | the created enquiry is hr_approved by the caller and storable exactly when the trimmed fields stay non-empty |
| FranchiseRoutes.CreatePartner | server/routes/franchise.js:127-157 | the handler answers as `ManualEntry` and appends the enquiry exactly when it succeeds |
| FranchiseRoutes.ManualEntryProvisionsFranchisePartner | server/routes/franchise.js:137-147 | under strict mode a manually entered partner is provisioned as a franchise partner |
| FranchiseRoutes.UserOf | server/routes/franchise.js:170 | the populated user is a stored user with that id, and null exactly when no user has it |
| FranchiseRoutes.EnquiryOf | server/routes/franchise.js:171 | the populated enquiry is a stored enquiry with that id, and null exactly when no enquiry has it |
| FranchiseRoutes.FormatEntry | server/routes/franchise.js:175-184 | each column is the franchise's value when it is non-empty; the owner falls back to the enquiry's name, email and phone to the user's then the enquiry's, location to the enquiry's location; else "—"; no column is empty |
| FranchiseRoutes.Entries | server/routes/franchise.js:175 | one row per franchise, in order |
| FranchiseRoutes.ListFranchises | server/routes/franchise.js:163-192 | every franchise appears exactly once as its row, newest first; other roles are refused |
| FranchiseRoutes.ProvisionedEntry | server/routes/franchise.js:175-184 | a provisioned franchise lists the enquiry's contact data, and as location the city or else the enquiry's location |
| FranchiseRoutes.ApprovalDecision | server/routes/franchise.js:257-297 | 404 without the enquiry; HR steps a pending enquiry and the operational head an hr_approved one; every other combination is 400 |
| FranchiseRoutes.ApplyStep | server/routes/franchise.js:264-279 | a step sets the new status, the approver and the time, and nothing else |
| FranchiseRoutes.OnlyApprovalsWritten | server/routes/franchise.js:263-297 | approval writes only hr_approved or operational_approved, never a rejection or `approved` |
| FranchiseRoutes.ApproveOperational | server/routes/franchise.js:273-292 | the enquiry is saved operational_approved; users and franchises become those of `Provision`; the answer is 200 with the enquiry and the account record when one is created, and otherwise 500 with the enquiry left approved |
| FranchiseRoutes.Approve | server/routes/franchise.js:251-303 | a refused approval writes nothing; HR's step changes only the enquiry; the operational head's step saves, leaves users and franchises as `Provision` makes them, and answers as `ApproveOperational` |
| FranchiseRoutes.FindStoredEnquiry | server/routes/franchise.js:257 | with distinct ids, `findById` finds the stored enquiry |
| FranchiseRoutes.AppendFreshId | server/routes/franchise.js:33 | an enquiry stored under the next id keeps the ids distinct |
| FranchiseRoutes.FindAfterSave | server/routes/franchise.js:257 | a saved enquiry is found where it was |
| FranchiseRoutes.ApprovalIsOneWay | server/routes/franchise.js:264-297 | after HR's step only the operational step remains, and after it no approval is possible |
| FranchiseRoutes.QueueIsActionable | server/routes/franchise.js:63-66 | every enquiry in HR's or the head's queue can be approved by that role |
| FranchiseRoutes.PublicStatusSkipsHr | server/routes/franchise.js:32 | a public submission naming hr_approved can be approved by the operational head at once |
| FranchiseRoutes.ManualEntryAwaitsHead | server/routes/franchise.js:137-147 | a manual entry awaits only the operational head |
| FranchiseRoutes.HeadApprovesNew | server/routes/franchise.js:273-276 | a newly stored hr_approved enquiry is open to the operational head's step |
| UserRoutes.FranchiseDetails | server/routes/user.js:11-31 | partners get their own franchise, or 404 when they have none; other roles are refused |
| UserRoutes.ProvisionedPartnerFindsFranchise | server/utils/franchiseUtils.js:43-58 | after provisioning, the new partner's details read returns the new franchise, with the generated code and an incomplete profile |
| UserRoutes.DetailsAreOwnFranchise | server/routes/user.js:17-19 | under the unique user index the read returns exactly the franchise the caller owns |
| UserRoutes.DetailsBodyValid | server/routes/user.js:41-48 | the details validators: a body they pass stores a proof kind and number and an address city and state |
| UserRoutes.SubmittedAddress | server/routes/user.js:43-70 | the stored address keeps exactly the paths sent, each trimmed, and the country as sent |
| UserRoutes.SubmittedIdProof | server/routes/user.js:47-70 | the stored proof has a kind exactly when the type is one of the four spellings, the number trimmed, the document link as sent |
| UserRoutes.AssignDetails | server/routes/user.js:63-70 | only the owner name, business name, address, proof, business details and profile status change, so code, user, enquiry, partner type, email, phone, agreement status and acceptance time are kept; the profile is complete |
| UserRoutes.DetailsDecision | server/routes/user.js:36-60 | other roles are refused; 400 exactly when a required detail is empty or the proof type is not one of the four kinds; 404 exactly when the caller has no franchise |
| UserRoutes.SubmitDetails | server/routes/user.js:50-83 | a refusal writes nothing; otherwise the caller's franchise is replaced by the details assigned and stamped, or 500 when the trimmed owner name is empty; nothing else is written |
| UserRoutes.SubmitDetailsIdempotent | server/routes/user.js:63-72 | submitting the same details twice leaves the state of one submission, up to the save time |
| UserRoutes.SubmitThenRead | server/routes/user.js:17-25 | after a submission the details route returns the submitted owner, business, address, proof and details, with the profile complete |
| AgreementRoutes.SignatureOrNull | server/routes/agreement.js:42 | an absent or empty signature is stored as null, any other castable one as its text |
| AgreementRoutes.AcceptDecision | server/routes/agreement.js:15-31 | only franchise partners; 404 without a franchise, then 400 for an incomplete profile, then 400 when already accepted; it succeeds from pending or declined |
| AgreementRoutes.DeclinedIsAcceptable | server/routes/agreement.js:23-35 | a declined agreement with a complete profile is accepted like a pending one |
| AgreementRoutes.AcceptAgreement | server/routes/agreement.js:34-35 | acceptance sets the status to accepted and the acceptance time, and nothing else |
| AgreementRoutes.Accept | server/routes/agreement.js:12-57 | a refusal writes nothing; an acceptance saves the franchise accepted, then appends exactly one log for it and answers 200, or, for a signature the String cast rejects, answers 500 with no log and records the franchise as unlogged; the audit invariant holds throughout |
| AgreementRoutes.RejectedSignatureUnlogged | server/routes/agreement.js:29-46 | after an acceptance whose log was rejected, the franchise is accepted without a log entry and every retry is refused as already accepted |
| AgreementRoutes.SecondAcceptFails | server/routes/agreement.js:29-36 | after an acceptance a second one is refused as already accepted |
| AgreementRoutes.DetailsOpenAcceptance | server/routes/agreement.js:23-31 | after a profile submission a franchise partner's pending or declined agreement can be accepted |
| AgreementRoutes.PrintTarget | server/routes/agreement.js:66-70 | a franchise partner's print targets their own franchise; any other role's targets the franchise with the id |
| AgreementRoutes.AgreementFileName | server/routes/agreement.js:89 | the attachment name embeds the franchise code |
| AgreementRoutes.PrintAgreement | server/routes/agreement.js:62-97 | 404 without the franchise, 400 until accepted; the renderer runs only on an accepted agreement |
| AgreementRoutes.PartnerPrintIgnoresId | server/routes/agreement.js:66-67 | for a franchise partner the `:id` makes no difference |
| AgreementRoutes.AcceptThenPrint | server/routes/agreement.js:66-83 | after an acceptance the partner, and every other role by id, print the accepted agreement |
| AgreementRoutes.FindStoredFranchise | server/routes/agreement.js:69 | with distinct ids, `findById` finds the stored franchise |
| AgreementRoutes.AgreementStatusOf | server/routes/agreement.js:102-122 | a franchise partner reads the agreement status, acceptance time and profile status of their own franchise; it succeeds exactly for a partner who owns a franchise |
| AgreementRoutes.AcceptThenStatus | server/routes/agreement.js:108-117 | after an acceptance the status reads accepted with its time and a complete profile |
| AdminRoutes.CountStatus | server/routes/admin.js:19-24 | a status count is at most the number of enquiries, and 0 exactly when no enquiry has the status |
| AdminRoutes.Stats | server/routes/admin.js:17-29 | the totals are the collection sizes; the pending and approved counts count their enquiry status, the active count counts the accepted agreements, and each is bounded by its total |
| AdminRoutes.CountAgreement | server/routes/admin.js:26-28 | an agreement-status count is at most the number of franchises, 0 exactly when no franchise has the status, and the full size exactly when all have it |
| AdminRoutes.Groups | server/routes/admin.js:32-34 | each group is a status that occurs, with its count |
| AdminRoutes.GroupsComplete | server/routes/admin.js:32-34 | every status that occurs has its group |
| AdminRoutes.GroupsDistinct | server/routes/admin.js:32-34 | groups over distinct statuses have distinct statuses |
| AdminRoutes.GroupsTotal | server/routes/admin.js:32-34 | the group counts add up to the status counts |
| AdminRoutes.CountOverCons | server/routes/admin.js:32-34 | one more enquiry adds to the count of its own status only |
| AdminRoutes.AllStatusesOnce | server/models/FranchiseEnquiry.js:39 | each status is listed once in the enum |
| AdminRoutes.CountOverAll | server/routes/admin.js:32-34 | every enquiry is counted under exactly one status |
| AdminRoutes.Breakdown | server/routes/admin.js:32-34 | each `$group` result is a status with its enquiry count, which is positive |
| AdminRoutes.BreakdownDistinct | server/routes/admin.js:32-34 | the breakdown has one group per status |
| AdminRoutes.BreakdownComplete | server/routes/admin.js:32-34 | every status that occurs appears with its count |
| AdminRoutes.BreakdownTotal | server/routes/admin.js:32-34 | the breakdown's counts add up to `totalEnquiries` |
| AdminRoutes.Dashboard | server/routes/admin.js:12-52 | admins and the operational head get the counters and the breakdown; other roles are refused; the stores are only read |
| AdminRoutes.ApprovedOnlyFromBody | server/routes/admin.js:22-24 | an enquiry is stored `approved` only when a public body names that status |
| AdminRoutes.ManualEntryNotApproved | server/routes/admin.js:22-24 | a manual entry is never stored `approved` |

## Left out

- **The React clients.** `client/` and `upl-client/` are user interface and HTTP calls.
- **The PDF layout.** The renderer of `server/utils/pdfGenerator.js` is an opaque function parameter of `AgreementRoutes.PrintAgreement`. The response headers are reduced to the attachment name.
- **Authentication.** `server/routes/auth.js` and its middleware are left out: the authenticated actor {id, role} is an input, and a role the route's `checkRole` does not list is answered `Forbidden`.
- **Password hashing.** bcrypt is opaque: a hash records only what was hashed (`Store.PasswordHash`).
- **Email validation.** `isEmail` is a boolean verdict that comes with the body. The model only requires that it never accepts a blank value or one with white space at its edges (`FranchiseRoutes.AcceptedEmailKept`). The `normalizeEmail` output is taken to be the email as sent, and the schema's trim and lowercase then apply.
- **The user schema.** It is not part of this model. A user carries the paths the routes read and write, and email uniqueness is the one constraint enforced.
- **The second `/create-partner` handler.** It is registered after the first on the same path, so it never runs.
- **`/admin/users`.** Its role gate passes one comma-joined string, so its behaviour depends on the middleware.
- **Mongo and Express wiring, the seed script, and console logging.**
- **Concurrency.** Requests run one at a time. The race between reading the greatest code and inserting a franchise is not modelled; the code's unique index is a store-level rejection.
- **Clock and time.** Concrete dates are abstract `Time` values. One request uses one time, where the source reads the clock several times.
- **Identifiers.** A malformed `:id` (a cast error, answered 500) is not modelled: ids are already-cast naturals.
- PublicSubmission: a client-supplied `_id` in the body is not modelled, because ids are issued by the store. Body values that fail an ObjectId or Date cast are left out too: approvers and times arrive already cast. A body `partnerType` other than the two partner-type spellings is not modelled.
- NormalizeStored: folds only the ASCII letters A-Z, whereas `toLowerCase` folds every Unicode letter. A non-ASCII upper-case email is thus stored unchanged by the model.
- **Collection order.** The status breakdown lists groups in enum order. The aggregation leaves the order unspecified.
- **`populate`.** The details and enquiry reads return the stored record without populating its references. The list's populated user and enquiry are lookups that may find nothing.
- **Database errors.** Failures other than validation and unique-index rejections are not modelled. Example: a lost connection.
- **Nested address assignment.** `UserRoutes.SubmittedAddress` replaces the whole stored address with the submitted object, so an omitted `country` is left unset rather than defaulted again.
- **`FranchiseRoutes.PendingEnquiries`.** Ties in `submittedAt` are ordered as the model's sort leaves them; the store's order for ties is not specified.
