# Organization registration and joining, modelled in Dafny

This project models the two step-by-step workflows of the wiki application's
`OrganizationController`, plus the JSON branch of its category listing.

- **Registration (`store($step)`)** has four steps, all kept in the server-side session:
  1. Submit an email. The controller keeps it together with a verification key drawn by `mt_rand(100000, 999999)`.
  2. Submit that key back.
  3. Submit a first name, last name and confirmed password.
  4. Submit an organization name that is not yet taken. This creates, one after the other:
     - an active user built from whatever the session holds;
     - an organization owned by that user;
     - six default categories of that organization.

  Any other step number aborts with 404.
- **Joining (`postJoin($step)`)** has two steps:
  1. Name an existing organization. Its name is kept in the session.
  2. Validate the email against that organization and a confirmed password, then create a pending (inactive) user. The organization is found with a substring `LIKE` lookup that takes the first match.
- **`getCategories` for a JSON request** lists links to the first five wikis of an organization, in order.

## Modules

- `Wrappers`: `Option`.
- `Validation`: the part of the framework's request validation the two workflows rely on.
  - Field keys, rules and failures.
  - The difference between `required` and the other rules: other rules are skipped on a missing or blank value.
  - `Validate`, plus lemmas that turn "no errors" into plain conditions on the request.
- `Entities`: the records (user, organization, category) and the three append-only tables.
  - The session, and the outcome of a request: next step, sent back with errors, done with an alert, 404, or 500.
  - The store invariant `Wellformed`: ids are handed out in sequence, and owners and organizations that are referenced exist.
- `VerificationKey`: the decimal form of the drawn key, its six-digit shape, and its round trip back to the number.
- `Registration`: `Store`, the whole effect of one registration request as a function of the session and the tables, one function per step.
  - The lemmas: what each step accepts, what it writes, the step transitions, the order of the whole workflow, and preservation of the store invariant.
- `Joining`: `PostJoin` and its lemmas, the same way.
- `Controller`: the imperative model.
  - The class `OrganizationController` holds the session and the three tables as fields. Its methods update them in place, step by step, as the controller does.
  - Each such method is proved to produce exactly the new state and outcome that the `Registration` or `Joining` function gives, and to keep `Wellformed`.
  - Each step is therefore written twice, on purpose: once as a function over values, which the lemmas reason about, and once as a method that updates the fields in place.
  - `CreateCategories` is the category-creation loop of finalization.
  - `GetCategories` is the wiki loop with its early `break`.

Where the design intent and the code differ, the model follows the code:
- The fifth default category is spelled "Human Resuorces".
- Neither workflow clears the session when it finishes.
- Nothing stops a client from jumping straight to a later step. Step 4 on an empty session creates an active user with every field from the session missing (`StepFourOnEmptySession`).
- Finalization is not atomic. The methods append the user, the organization and the categories one after the other.
- Join step 2 finds the organization with a `%name%` pattern and takes the first match. An earlier organization whose name merely contains the joined name is therefore the one the email is checked against (`LikePicksEarlierSuperstring`).
- If join step 2 finds no organization, as happens when the tables hold none, the controller reads `$organization->id` from null. The model turns that into a `ServerError` outcome that changes nothing. It is not a precondition.

## Model

| member | source | states |
|---|---|---|
| Validation.Validate | app/Http/Controllers/OrganizationController.php:116 | the error bag names only fields that have rules, and each named field has at least one failure |
| Validation.FieldFailuresEmpty | app/Http/Controllers/OrganizationController.php:116 | a field reports nothing exactly when none of its rules fails |
| Validation.FieldFailuresReport | app/Http/Controllers/OrganizationController.php:332 | every failing rule of a field is reported; a rule with a custom message (join step 1's `exists`) is reported with that message |
| Validation.ValidatePasses | app/Http/Controllers/OrganizationController.php:116 | validation passes exactly when no rule of any field fails |
| Validation.ValidatePassesByField | app/Http/Controllers/OrganizationController.php:332 | validation passes exactly when every field reports nothing |
| Validation.RequiredPasses | app/Http/Controllers/OrganizationController.php:97 | a field whose only rule is `required` passes exactly when it is present and not blank after trimming |
| Validation.RequiredAndPasses | app/Http/Controllers/OrganizationController.php:93 | `required` followed by one other rule passes exactly when the field is filled and the other rule holds of it |
| Validation.RequiredAndBothPass | app/Http/Controllers/OrganizationController.php:104 | `required` followed by two other rules passes exactly when the field is filled and both rules hold of it |
| Validation.PassedRequiredIsFilled | app/Http/Controllers/OrganizationController.php:116-122 | once validation has passed, every field whose rules start with `required` is present and filled, so reading it afterwards is safe |
| Entities.NextIdsAreFresh | app/Http/Controllers/OrganizationController.php:156-163 | in well-formed tables, the id the next row of each table receives is held by no existing row |
| VerificationKey.DecimalShape | app/Http/Controllers/OrganizationController.php:122 | the stored form of a key is a non-empty string of digits that starts with '0' only for zero |
| VerificationKey.DecimalLength | app/Http/Controllers/OrganizationController.php:122 | a number between 10^k and 10^(k+1) has k+1 digits |
| VerificationKey.DrawnKeyIsSixDigits | app/Http/Controllers/OrganizationController.php:120-122 | every key `mt_rand(100000, 999999)` can draw is stored as six digits without a leading zero |
| VerificationKey.DecimalRoundTrip | app/Http/Controllers/OrganizationController.php:135 | reading the stored digits back gives the drawn number |
| VerificationKey.DecimalInjective | app/Http/Controllers/OrganizationController.php:135 | two keys have the same stored form exactly when they are equal |
| Registration.StoreRules | app/Http/Controllers/OrganizationController.php:91-114 | a step has a rule set exactly when it is 1 to 4, so any other step aborts with 404; every field of every step's rules starts with `required` |
| Registration.Store | app/Http/Controllers/OrganizationController.php:89-214 | no registration request removes or alters an existing row: each of the three tables only grows |
| Registration.SubmitEmail | app/Http/Controllers/OrganizationController.php:116-122 | step 1 never touches the tables; it either advances or is rejected, and a rejection changes nothing |
| Registration.ConfirmKey | app/Http/Controllers/OrganizationController.php:134-142 | step 2 changes neither the session nor the tables; it either advances or is rejected |
| Registration.SubmitCredentials | app/Http/Controllers/OrganizationController.php:143-147 | step 3 never touches the tables; it either advances or is rejected, and a rejection changes nothing |
| Registration.CreateOrganization | app/Http/Controllers/OrganizationController.php:148-211 | step 4 leaves the session as it was, since it is not cleared; it either finishes or is rejected, and a rejection changes nothing |
| Registration.Register | app/Http/Controllers/OrganizationController.php:148-199 | finalization appends exactly one user, one organization and one category per default name, and keeps every existing row in place |
| Registration.DefaultCategories | app/Http/Controllers/OrganizationController.php:165-196 | one category per default name |
| Registration.StepOneRules | app/Http/Controllers/OrganizationController.php:92-94 | step 1 passes validation exactly when the email is filled and is a valid address |
| Registration.StepTwoRules | app/Http/Controllers/OrganizationController.php:95-99 | step 2 passes validation exactly when the key field is filled |
| Registration.StepThreeRules | app/Http/Controllers/OrganizationController.php:100-105 | step 3 passes validation exactly when both names are filled and at most 15 characters, and the password is filled, at least 6 characters and equal to its confirmation |
| Registration.StepFourRules | app/Http/Controllers/OrganizationController.php:107-110 | step 4 passes validation exactly when the organization name is filled and no organization has it |
| Registration.StoreUnknownStep | app/Http/Controllers/OrganizationController.php:112-113 | a step outside 1..4 ends in 404 with session and tables unchanged |
| Registration.StoreInvalidIsRejected | app/Http/Controllers/OrganizationController.php:116 | a request failing its step's rules is sent back with exactly those errors, and nothing is written |
| Registration.StoreTransitions | app/Http/Controllers/OrganizationController.php:206-213 | 404 exactly for steps outside 1..4; an accepted step below 4 advances to the next step; only step 4 ends with the success alert; no step fails with a server error; a rejected or 404 request changes nothing |
| Registration.StoreStepOne | app/Http/Controllers/OrganizationController.php:119-122 | accepted step 1 writes exactly `email` (the submitted value) and `validation_key` (six digits); every other session key and every table is unchanged |
| Registration.StoreStepTwo | app/Http/Controllers/OrganizationController.php:134-142 | step 2 advances to step 3 when the submitted key equals the stored one, and otherwise is sent back with "Validation key mismatch." on `validation_key`; the state never changes |
| Registration.StoreStepThree | app/Http/Controllers/OrganizationController.php:143-147 | accepted step 3 writes exactly `first_name`, `last_name` and `password` from the request; all else is unchanged |
| Registration.StoreStepFourDuplicate | app/Http/Controllers/OrganizationController.php:107-110 | step 4 with an organization name already in use is rejected on that field and creates nothing |
| Registration.StoreStepFour | app/Http/Controllers/OrganizationController.php:148-211 | accepted step 4 appends exactly one active user from the session's fields, one organization owned by that user with the submitted name and description, and six categories in the fixed order with both new ids and consecutive fresh ids; it ends with the success alert and does not clear the session |
| Registration.StepTwoAcceptsOnlyTheDrawnKey | app/Http/Controllers/OrganizationController.php:120-142 | after step 1 has drawn a key, step 2 accepts the decimal form of a number exactly when that number is the drawn key |
| Registration.FirstThreeSteps | app/Http/Controllers/OrganizationController.php:119-147 | steps 1 to 3 accepted in order advance 2, 3, 4, leave the tables alone, and leave the session holding the step-1 email and the step-3 names and password |
| Registration.RegistrationInOrder | app/Http/Controllers/OrganizationController.php:89-214 | four accepted requests in order end with the success alert and with the founding user built from the step-1 email and the step-3 name and password |
| Registration.StepFourOnEmptySession | app/Http/Controllers/OrganizationController.php:149-156 | step 4 does not wait for the earlier steps: on an empty session it creates an active user whose fields from the session are all missing |
| Registration.DefaultCategoriesShape | app/Http/Controllers/OrganizationController.php:165-196 | the default categories are six, numbered consecutively from the id they are given, each carrying the given user id and organization id |
| Registration.RegisterPreservesWellformed | app/Http/Controllers/OrganizationController.php:156-199 | finalization keeps ids sequential and every referenced user and organization present |
| Registration.StorePreservesWellformed | app/Http/Controllers/OrganizationController.php:89-214 | every registration request, whatever its step, keeps the tables well formed |
| Joining.FirstLike | app/Http/Controllers/OrganizationController.php:321 | a found organization is a stored one whose name contains the joined name |
| Joining.LookedUp | app/Http/Controllers/OrganizationController.php:321 | the organization join step 2 checks the email against is a stored one |
| Joining.StepOneRules | app/Http/Controllers/OrganizationController.php:313-315 | every field of join step 1's rules starts with `required` |
| Joining.StepTwoRules | app/Http/Controllers/OrganizationController.php:323-326 | every field of join step 2's rules starts with `required` |
| Joining.PostJoin | app/Http/Controllers/OrganizationController.php:307-361 | joining never creates or alters an organization or a category, and adds at most one user, at the end of the user table |
| Joining.SelectOrganization | app/Http/Controllers/OrganizationController.php:312-336 | join step 1 never touches the tables; it either advances or is rejected, and a rejection changes nothing |
| Joining.RequestMembership | app/Http/Controllers/OrganizationController.php:320-357 | join step 2 leaves the session, the organizations and the categories as they were; a rejected request or a failed lookup changes nothing |
| Joining.PendingMember | app/Http/Controllers/OrganizationController.php:344-351 | the pending user gets the next free id and is inactive |
| Joining.FirstLikeIsFirst | app/Http/Controllers/OrganizationController.php:321 | the lookup finds an organization exactly when some name contains the joined name, and it finds the earliest such organization in table order |
| Joining.StepOneRulesAccept | app/Http/Controllers/OrganizationController.php:312-319 | join step 1 passes validation exactly when the organization name is filled and is the name of a stored organization |
| Joining.StepTwoRulesAccept | app/Http/Controllers/OrganizationController.php:323-326 | join step 2 passes validation exactly when the email is filled, belongs to the looked-up organization and is a valid address, and the password is filled and equal to its confirmation |
| Joining.JoinTransitions | app/Http/Controllers/OrganizationController.php:311-360 | 404 exactly for steps other than 1 and 2; a server error exactly for step 2 when the lookup finds nothing; a rejection exactly when the step's rules report errors; accepted step 1 advances to step 2; accepted step 2 ends with the alert; every other outcome changes nothing |
| Joining.JoinInvalidIsRejected | app/Http/Controllers/OrganizationController.php:332 | a join request failing its step's rules is sent back with exactly those errors, and nothing is written |
| Joining.JoinStepOneRefused | app/Http/Controllers/OrganizationController.php:312-332 | join step 1 with a blank, missing or unknown organization name is rejected and writes nothing |
| Joining.JoinStepTwoRefused | app/Http/Controllers/OrganizationController.php:320-332 | join step 2 with a missing or invalid email, an email the organization does not have, or a missing or unconfirmed password is rejected and writes nothing |
| Joining.JoinStepOne | app/Http/Controllers/OrganizationController.php:335-336 | accepted join step 1 writes only `organization_name`, advances to step 2 and creates nothing |
| Joining.JoinStepOneUnknownName | app/Http/Controllers/OrganizationController.php:316-318 | join step 1 with a filled name that no organization has is sent back with exactly the custom message "Specified organization does't exists." |
| Joining.JoinStepTwo | app/Http/Controllers/OrganizationController.php:344-357 | accepted join step 2 appends exactly one inactive user from the request (names unvalidated, so possibly missing); no organization or category is created and the session is kept |
| Joining.StepOneEnablesStepTwo | app/Http/Controllers/OrganizationController.php:321-336 | after an accepted step 1 the step-2 lookup finds an organization |
| Joining.LikePicksEarlierSuperstring | app/Http/Controllers/OrganizationController.php:321 | with "Acme Corp" stored before "Acme", joining "Acme" looks up "Acme Corp" |
| Joining.PostJoinPreservesWellformed | app/Http/Controllers/OrganizationController.php:307-361 | every join request keeps the tables well formed |
| Controller.OrganizationController.constructor | app/Http/Controllers/OrganizationController.php:33-42 | a controller is built with the given validation oracle, an empty session and empty, well-formed tables |
| Controller.OrganizationController.Store | app/Http/Controllers/OrganizationController.php:89-214 | the session, tables and outcome after one registration request are those `Registration.Store` gives for some key in [100000, 999999]; the tables stay well formed |
| Controller.OrganizationController.SubmitEmail | app/Http/Controllers/OrganizationController.php:116-122 | step 1 in place: the result is `Registration.SubmitEmail` for the key drawn from [100000, 999999] |
| Controller.OrganizationController.ConfirmKey | app/Http/Controllers/OrganizationController.php:134-142 | step 2 in place equals `Registration.ConfirmKey` |
| Controller.OrganizationController.SubmitCredentials | app/Http/Controllers/OrganizationController.php:143-147 | step 3 in place equals `Registration.SubmitCredentials` |
| Controller.OrganizationController.CreateOrganization | app/Http/Controllers/OrganizationController.php:148-211 | step 4 in place, with the user, the organization and the categories appended one after the other, equals `Registration.CreateOrganization` and keeps the tables well formed |
| Controller.OrganizationController.CreateCategories | app/Http/Controllers/OrganizationController.php:197-199 | the loop appends exactly the six default categories, in order, with fresh consecutive ids, and changes nothing else |
| Controller.OrganizationController.PostJoin | app/Http/Controllers/OrganizationController.php:307-361 | the session, tables and outcome after one join request are those `Joining.PostJoin` gives; the tables stay well formed |
| Controller.OrganizationController.SelectOrganization | app/Http/Controllers/OrganizationController.php:312-336 | join step 1 in place equals `Joining.SelectOrganization` |
| Controller.OrganizationController.RequestMembership | app/Http/Controllers/OrganizationController.php:320-357 | join step 2 in place, including the failed lookup, equals `Joining.RequestMembership` and keeps the tables well formed |
| Controller.GetCategories | app/Http/Controllers/OrganizationController.php:221-239 | a non-JSON request gets the category page; a JSON request gets min(number of wikis, 5) links, the i-th linking the i-th wiki by its slug and name, so an order-preserving prefix of the wikis |

## Left out

- Mail: the verification mail is commented out in the source, and sending mail is I/O.
- The ORM behind `createUser`, `postOrganization` and `category->create` is not part of this model. Each is modelled as appending a row whose id is the table's length plus one. That is what an auto-increment column hands out only while no row has ever been deleted. `destroy` does delete organizations, and after a deletion the database's next id is larger than this. The model assumes no deletions, which is what `Wellformed` states.
- The three database calls of finalization and the one of join step 2 are assumed to succeed. A database error there ends the request with a 500, possibly after some rows were written. So "no step fails with a server error" (`StoreTransitions`) and the user `StepFourOnEmptySession` creates hold only for calls that succeed.
- Laravel's validator internals are abstract. The email syntax check and the custom `organization_has_email` rule are the two predicates of `Oracle`. `unique` and `exists` are exact membership among the organization names; SQL collation and case folding are not modelled.
- Join step 2's `LIKE` pattern is modelled as a plain, case-sensitive substring test. A `%` or `_` inside the joined name is not treated as a wildcard. Under a case-insensitive collation, such as MySQL's default, the database also matches names that differ in case.
- Joining.FirstLike: takes the first match in insertion order. `->first()` has no `orderBy`, so SQL itself fixes no order, and the organization found may differ from the model's.
- Controller.OrganizationController.ConfirmKey: compares the submitted text with the decimal spelling of the stored key. PHP's loose `==` between a string and an integer also accepts other numeric spellings such as "0123456" or "123456.0"; the model does not.
- The step route parameter is an integer here. PHP's loose `switch` matching of a string parameter against the case labels is not modelled.
- Controller.OrganizationController.Store: the drawn key is any value in [100000, 999999]; the distribution of `mt_rand` is not modelled.
- Only the keys the two workflows use exist in the model's session and requests. Other session entries and other request fields are not represented.
- Controller.GetCategories: a link is kept as the organization slug and the wiki slug; the URL `route('wikis.show', ...)` builds from them is not generated. The non-JSON branch's category query and view are only the `CategoryPage` outcome. `isContentTypeJson` (the content-type header check) is the boolean `isJson`.
- Redirect URLs and flash data other than the alert text are not modelled. `alert_type` is always "success" in both workflows.
- `index`, `create`, `join`, `update`, `destroy`, `edit`, `getMembers`, `getUserContributedWikis`, `getActivity` and `inviteUsers` are not modelled. They render views or wrap model methods that are not part of this model.
- Transactions and concurrent requests: the source has neither, and the model claims no atomicity. It proves only the effect of one request applied in full.
