# cat_charity_fund in Dafny

A model of the core of cat_charity_fund. This is a FastAPI service in which users
donate to charity projects. Each donation is distributed among the projects that
still need money.

The centre of the model is the **investment pass** (`investment` in
app/services/investment.py). After every project or donation is created, the pass
loads the donations and projects whose `fully_invested` is False. It then moves
money from donations into projects:

- both sides' `invested_amount` grow by the same amount;
- the `fully_invested` flag is set on whichever side is used up;
- the record's `fully_invested` hook stamps that side's `close_date`.

Around the pass sit smaller pieces, also modelled here:

- the two ORM records with their defaults, check constraints and close-date hook;
- the request guards of app/api/validators.py;
- the pydantic request schemas for projects and donations;
- the password rule of `UserManager.validate_password`.

## Layout

| file | module | what it models |
|---|---|---|
| wrappers.dfy | `Wrappers` | `Option`, `Result`, `Outcome` |
| models.dfy | `Models` | the `CharityProject` and `Donation` rows as classes. `Funding` is the value of their four funding columns. `Consistent` is the state every row is kept in. `SetFullyInvested` is the `validate_fully_invested` hook. |
| investment.dfy | `Investment` | the pass as imperative code over the row objects and a `DonationCursor`. There is one method per loop (`InvestFor`, `InvestWhile`) and one for the body of the `for` loop (`InvestTurn`). Each method is proved against `Run`, a state machine over `Funding` values that mirrors the loops line by line. |
| investment_props.dfy | `InvestmentProperties` | what a pass does, proved about `Run` |
| sweep.dfy | `InvestmentSweep` | `Sweep`, the complete distribution the loops are shaped for (see Findings) |
| validators.dfy | `Validators` | the four guards, over a `Store` of the project table |
| schemas.dfy | `RequestBodies`, `ProjectSchemas`, `DonationSchemas` | request bodies and their validation, and the two donation views |
| user.dfy | `PasswordPolicy` | `validate_password` |

### The cursor contract

The donation query's result is read with `first()`. This is SQLAlchemy's
`Result.first()`:

- it returns the first row, or None;
- it then closes the result, so `donations.closed` is True afterwards.

`FetchContract` names this contract, `FirstCloses`. It also names the "next row"
reading of the same call, `FetchNext`, which the shape of the loop suggests. The
pass is modelled once, line by line, for either contract. Its behaviour under the
real contract is a theorem: `FirstClosesIsOneTransfer` proves that a pass is a
single transfer between the first unfunded project and the first unfunded donation.

The remainder `project_amount` is computed once per project, at line 17, and is
never recomputed. Under `FetchNext` this stale value over-funds a project
(`StaleAmountOverfundsUnderFetchNext`). Under `FirstCloses` the loop never gets a
second turn, so the stale value is harmless.

### Where the intent and the code differ

- **Order.** Projects and donations are meant to be served oldest first, but neither
  query has an ORDER BY. The model follows the code: rows are taken in whatever order
  the store returns, and that order is the order of the tables the pass is given.
- **Sweep.** The loops are shaped for a sweep that goes on until one side is used up.
  The code performs at most one transfer per pass. The model follows the code (`Run`)
  and gives the sweep separately (`Sweep`); see Findings. The pass as written is the
  first step of the sweep (`PassThenSweepIsSweep`).

## Model

| member | source | states |
|---|---|---|
| Models.NameFitsColumn | app/models/charity_project.py:23 | A name the `String(100)` column stores has at most 100 characters. |
| Models.AssignFullyInvested | app/models/charity_project.py:40-54 | Assigning `fully_invested` stores the value as given and changes neither amount. True sets the close date to the clock; False leaves the close date as it was. |
| Models.SatisfiesChecks | app/models/charity_project.py:33-38 | The two check constraints: a positive target and a non-negative invested amount. A row that meets them has a remainder no larger than its target. |
| Models.Consistent | app/models/charity_project.py:25-38 | The state every row is kept in: the check constraints, and invested ≤ target. The flag is set exactly when invested equals the target, and a close date exists exactly when the flag is set. A consistent row's remainder lies between 0 and its target and is 0 exactly when the row is fully invested. |
| Models.OpenedIsConsistent | app/models/charity_project.py:25-38 | A row inserted with a positive target and the column defaults (invested 0, not fully invested, no close date) satisfies both check constraints and the consistency invariant, and its remainder is its target. |
| Models.AssignKeepsConsistent | app/models/charity_project.py:40-54 | Assigning `fully_invested` its consistent value through the hook (True exactly when invested equals the target) keeps a consistent row consistent. |
| Models.CharityProject.constructor | app/models/charity_project.py:23-31 | A new project keeps its id, name and description, has the default funding columns, and takes `create_date` from the clock. |
| Models.CharityProject.SetFullyInvested | app/models/charity_project.py:40-54 | The assigned value is stored as given. True sets `close_date` to the clock; False leaves `close_date` unchanged. |
| Models.Donation.constructor | app/models/donation.py:23-31 | A new donation keeps its id, user and comment, has the default funding columns, and takes `create_date` from the clock. |
| Models.Donation.SetFullyInvested | app/models/donation.py:40-54 | The assigned value is stored as given. True sets `close_date` to the clock; False leaves `close_date` unchanged. |
| Investment.DonationCursor.constructor | app/services/investment.py:10-12 | The result of the donation query starts open, before its first row, over exactly the loaded rows and with the given fetch contract. |
| Investment.Fetch | app/services/investment.py:18 | One fetch returns the next loaded position, or None when none is left. Under `FirstCloses` the cursor is closed afterwards. Under `FetchNext` it closes exactly when it was already closed or nothing was left. |
| Investment.DonationCursor.First | app/services/investment.py:18 | `donations.first()` returns the loaded row at the position `Fetch` names, and moves the cursor to the state `Fetch` gives. |
| Investment.SelectUnfunded | app/services/investment.py:10-15 | Every selected position is a row whose `fully_invested` is False. |
| Investment.Load | app/services/investment.py:10-15 | The pass loads positions of rows whose `fully_invested` is False, from both tables, and keeps the fetch contract and the clock. |
| Investment.Transfer | app/services/investment.py:22-35 | Both rows gain the same amount: the smaller of the project amount computed at line 17 and the donation's remainder. No target changes. The donation is flagged exactly when it was already flagged or the project amount is at least its remainder. The project is flagged exactly when it was already flagged or the project amount is at most that remainder. A side that amount uses up gets the clock as its close date; the other keeps its close date. |
| Investment.SelectUnfundedComplete | app/services/investment.py:10-15 | Every unfunded row is selected, and the positions are strictly increasing (store order, each row once). |
| Investment.Inner | app/services/investment.py:19-38 | The `while` loop as a state function. Its contract states only that both tables keep their lengths, the `for` position is unchanged, and the cursor stays within the loaded rows. Its behaviour is proved in the lemmas below. |
| Investment.Outer | app/services/investment.py:16-40 | The `for` loop as a state function. Its contract states only that both tables keep their lengths. |
| Investment.Advance | app/services/investment.py:39-40 | The test after the `while` loop: stop when the cursor is closed, otherwise go on with the next project. Its contract states only that the tables keep their lengths. |
| Investment.Run | app/services/investment.py:7-41 | The whole pass from the loaded positions. Its contract states only that both tables keep their lengths. |
| Investment.MoveFunds | app/services/investment.py:22-35 | The two rows' funding columns change exactly as `Transfer` says, given the project remainder passed in. Its frame names only `invested_amount`, `fully_invested` and `close_date` of the two rows, so every other column of both rows is unchanged. |
| Investment.MoveFundsAt | app/services/investment.py:22-35 | The transfer on the rows at two positions gives the state with those two positions updated by `Transfer`, and the tables still mirror it. Only the three funding columns of the two rows can change. |
| Investment.TransferAt | app/services/investment.py:22-35 | One transfer inside the `while` loop is one unfolding of `Inner`: when the cursor is closed, `Inner` ends there; otherwise it continues from the next fetch. Only the three funding columns of the two rows can change. |
| Investment.FetchAt | app/services/investment.py:38 | `donations.first()` on the live cursor returns the row at the position `Fetch` gives, and advances the mirrored state to `Fetch`'s cursor. |
| Investment.InvestWhile | app/services/investment.py:19-38 | The `while` loop on the row objects ends in exactly the state `Inner` gives from the state it was entered in. Only `invested_amount`, `fully_invested` and `close_date` of the rows can change. |
| Investment.TurnContinues | app/services/investment.py:39-40 | After one turn: with the cursor closed, the pass ends in that state; otherwise the pass continues from the next project. |
| Investment.InvestTurn | app/services/investment.py:17-40 | One turn of the `for` loop (line 17's remainder, the fetch at line 18, the `while` loop) either ends the pass in the state `Outer` gives, or leaves the rest of the pass equal to `Outer` from the next project. Only the three funding columns of the rows can change. |
| Investment.InvestFor | app/services/investment.py:16-40 | The `for` loop on the row objects ends in exactly the state `Outer` gives, and the rows mirror that state. Ids, names, descriptions, owners, comments and creation dates are unchanged. |
| Investment.Invest | app/services/investment.py:7-41 | After `investment(session)`, every project row and every donation row holds the funding columns `Run` computes from their old values. Every project keeps its id, name, description and creation date, and every donation keeps its id, owner, comment and creation date. |
| InvestmentProperties.TransferMovesMinimum | app/services/investment.py:22-34 | With a fresh project remainder, a transfer moves min(project remainder, donation remainder) into both rows and changes no target. |
| InvestmentProperties.TransferFlagsExhaustedSides | app/services/investment.py:23-35 | For open consistent rows, the project is flagged iff its remainder ≤ the donation's, and the donation iff its remainder ≤ the project's (both on equality). A flagged side is closed at the clock. Both rows stay consistent and both invested amounts strictly grow. |
| InvestmentProperties.FirstUnfunded | app/services/investment.py:10-18 | The position found is an unfunded row, and every row before it is fully invested. None means every row is fully invested. |
| InvestmentProperties.SelectUnfundedHead | app/services/investment.py:10-18 | The query returns nothing iff no row is unfunded, and its first row is the first unfunded row. |
| InvestmentProperties.FirstClosesIsOneTransfer | app/services/investment.py:16-40 | Under `Result.first()`'s contract, a pass is exactly one transfer, between the first unfunded project and the first unfunded donation in store order, using the project's own remainder. With no such pair, nothing changes. |
| InvestmentProperties.OnePassKeepsConsistent | app/services/investment.py:22-34 | Under `Result.first()`'s contract (`FirstCloses`): if every row is `Consistent` before a pass, every row still is after it. That is, target > 0, 0 ≤ invested ≤ target, flag ⇔ invested = target, and close date ⇔ flag. |
| InvestmentProperties.OnePassNeverDecreases | app/services/investment.py:22-34 | Under `Result.first()`'s contract (`FirstCloses`), for consistent tables, no invested amount goes down in a pass. |
| InvestmentProperties.TransferKeeps | app/services/investment.py:22-35 | One transfer changes only the rows at loaded positions, and both tables gain the same invested total. |
| InvestmentProperties.InnerKeeps | app/services/investment.py:19-38 | The `while` loop changes only rows at loaded positions, and adds the same total to both tables, under either fetch contract. |
| InvestmentProperties.OuterKeeps | app/services/investment.py:16-40 | The same, for the `for` loop from any project boundary. |
| InvestmentProperties.AdvanceKeeps | app/services/investment.py:39-40 | The same, for the test after the `while` and the rest of the pass. |
| InvestmentProperties.RunLeavesClosedRows | app/services/investment.py:10-15 | A row already fully invested when the pass starts is not changed, under either fetch contract. |
| InvestmentProperties.RunConservesMoney | app/services/investment.py:23-35 | The projects gain exactly the total the donations give, under either fetch contract. |
| InvestmentProperties.NothingToMatchChangesNothing | app/services/investment.py:16-21 | With no unfunded project or no unfunded donation, a pass changes no row, under either fetch contract. |
| InvestmentProperties.FetchNextRunsBothDonations | app/services/investment.py:17-38 | Under the "next row" reading, a project of 100 meets two donations of 60 and is credited 120. |
| InvestmentProperties.StaleAmountOverfundsUnderFetchNext | app/services/investment.py:17-38 | Because line 17's remainder is never refreshed, the "next row" reading funds a project past its target (invested 120 of 100, inconsistent). Under the real contract the same tables get one transfer of 60. |
| InvestmentProperties.OnePassLeavesMatchablePair | app/services/investment.py:36-40 | A project of 100 with two waiting donations of 50 gets only 50 in a pass. An open project and an open donation remain, and a second pass moves more money. |
| InvestmentSweep.SweepFrom | app/services/investment.py:16-40 | The intended distribution over given positions. Its contract states only that both tables keep their lengths; the lemmas below state its properties. |
| InvestmentSweep.Sweep | app/services/investment.py:16-40 | The intended distribution over all unfunded rows. Its contract states only that both tables keep their lengths. |
| InvestmentSweep.SweepFromKeeps | app/services/investment.py:22-35 | Rows at positions the sweep is not given are unchanged, and both tables gain the same invested total. |
| InvestmentSweep.SweepFromKeepsFlags | app/services/investment.py:23-35 | A fully invested row stays fully invested. |
| InvestmentSweep.SweepFromKeepsConsistent | app/services/investment.py:22-34 | Over increasing positions of open rows, consistent rows stay consistent and no invested amount goes down. |
| InvestmentSweep.SweepFromExhaustsOneSide | app/services/investment.py:19-40 | The sweep stops only when every row at a project position, or every row at a donation position, is fully invested. |
| InvestmentSweep.AllFundedSelectsNothing | app/services/investment.py:10-15 | A table whose rows are all fully invested loads nothing. |
| InvestmentSweep.SweepLeavesClosedRowsAndConserves | app/services/investment.py:10-35 | Rows closed before the sweep are unchanged, and money is conserved. |
| InvestmentSweep.SweepKeepsConsistent | app/services/investment.py:22-34 | Consistent tables stay consistent, and no invested amount goes down. |
| InvestmentSweep.SweepLeavesNoMatchablePair | app/services/investment.py:16-40 | Afterwards every project or every donation is fully invested, so no open project and open donation remain side by side. |
| InvestmentSweep.SweepIdempotent | app/services/investment.py:16-40 | Sweeping again after a sweep changes nothing, whatever the clock. |
| InvestmentSweep.SelectUnfundedReplaceFirst | app/services/investment.py:10-15 | Replacing the first unfunded row drops it from the query's rows when the new row is fully invested, and leaves the rows as they were otherwise. |
| InvestmentSweep.OneTransferBeginsSweep | app/services/investment.py:16-40 | The pass's single transfer is the first step of the distribution: distributing after it gives the same tables as distributing at once. |
| InvestmentSweep.PassThenSweepIsSweep | app/services/investment.py:7-41 | A pass under `Result.first()`'s contract moves no money the distribution would not move: distributing after the pass gives the same tables as distributing instead of it. |
| InvestmentSweep.SweepFundsProjectFromTwoDonations | app/services/investment.py:16-40 | The project of 100 with two donations of 50 ends fully invested at 100, and both donations are used up. |
| Validators.Indexed | app/crud/charity_project.py:30-38 | The two lookups agree on one table. Each id maps to the row with that id, and each name maps to the id of the one row holding it, so names are unique. Every stored name fits the column. The ids the name lookup returns are exactly the stored ids. |
| Validators.CheckNameDuplicate | app/api/validators.py:9-30 | Fails with 400 "Проект с таким именем уже существует!" exactly when the name index holds the name, and passes otherwise. |
| Validators.NameDuplicateIffNameTaken | app/api/validators.py:23-30 | With a consistent index, the name check fails exactly when some stored project already has that name. |
| Validators.CreateKeepsIndexed | app/api/validators.py:9-30 | Adding a project whose name passed the duplicate check, under an unused id and with a name that fits the column, keeps the two maps consistent: ids, unique names and name lengths. |
| Validators.CheckCharityProjectExists | app/api/validators.py:33-56 | Returns the stored project with that id, and fails with 404 "Проект не найден!" exactly when there is none. |
| Validators.ExistingProjectHasId | app/api/validators.py:50-56 | With a consistent index, the project returned carries the id asked for. |
| Validators.CheckProjectBeforeDelete | app/api/validators.py:59-82 | A missing project gives 404 before any other check. Otherwise it fails with 400 exactly when the project is fully invested or holds money, and returns the project itself exactly when neither holds. |
| Validators.DeletionKeepsInvestedTotal | app/api/validators.py:76-82 | A project that passes the delete guard holds no money, so removing its row leaves the invested total of the project table unchanged. |
| Validators.EditVerdict | app/api/validators.py:105-117 | A closed project is refused with 400 before any amount check. Otherwise a target below invested is refused with 422, any other is accepted, and the project closes exactly when the new target equals invested. |
| Validators.EditedFunding | app/api/validators.py:116-117 | After an accepted edit, the invested amount is unchanged and the target is the new one if given. The project is closed exactly when it was closed or the new target equals invested, and only then does the close date become the clock. |
| Validators.EditGuardKeepsConsistent | app/api/validators.py:105-117 | For an open consistent project and a positive new target, the guard accepts exactly the targets after which the edited project is still consistent (invested ≤ target, and the flag and close date in step). |
| Validators.CheckProjectBeforeEdit | app/api/validators.py:85-118 | A missing project gives 404 before any other check. Otherwise the result follows `EditVerdict`: refusals change nothing; an accepted edit returns the project, closing it through the hook when the target equals invested. Its frame names only `fully_invested` and `close_date` of the found row, so no other column changes. |
| ProjectSchemas.FullAmountPositive | app/schemas/charity_project.py:21-26 | Refuses a non-positive amount and returns a positive one unchanged. On None (explicit null) the comparison raises. |
| ProjectSchemas.NameCannotBeNull | app/schemas/charity_project.py:28-33 | Refuses None and the empty string, and returns anything else unchanged. |
| ProjectSchemas.TextField | app/schemas/charity_project.py:16-17 | A name or description is accepted exactly when it is absent and optional, or is a string of length 1 up to the maximum; an accepted value is the one given. |
| ProjectSchemas.AmountField | app/schemas/charity_project.py:18 | An amount is accepted exactly when it is absent and optional, or is a positive integer. An explicit null raises in Update. |
| ProjectSchemas.ParseProject | app/schemas/charity_project.py:7-40 | A body raises exactly when an optional `full_amount` is an explicit null. An accepted body has only declared fields, and under the required schema it gives all three. An accepted name is non-empty and fits the `String(100)` column, an accepted description is non-empty, and an accepted amount is positive. |
| ProjectSchemas.ParseCreate | app/schemas/charity_project.py:43-54 | `CharityProjectCreate` never raises, and an accepted body gives all three fields. |
| ProjectSchemas.ParseUpdate | app/schemas/charity_project.py:36-40 | `CharityProjectUpdate` raises exactly when `full_amount` is given as an explicit null. |
| ProjectSchemas.NoForbiddenWhenDeclared | app/schemas/charity_project.py:19 | No forbidden-field error arises exactly when every key is a declared field. |
| ProjectSchemas.CreateAcceptsExactly | app/schemas/charity_project.py:43-54 | Create accepts exactly the bodies with the three declared fields: a name of 1 to 100 characters, a non-empty description and a positive amount. The values are kept, and it never raises. |
| ProjectSchemas.UpdateAcceptsExactly | app/schemas/charity_project.py:36-40 | Update accepts exactly the bodies of declared fields that are valid where given; an absent field is None. It raises exactly on an explicit null amount. |
| ProjectSchemas.ExtraFieldReported | app/schemas/charity_project.py:19 | A field the schema does not declare is reported as forbidden under either schema, unless the body raises. |
| ProjectSchemas.EmptyOrNonPositiveRefused | app/schemas/charity_project.py:21-33 | A null or empty name or description, or a non-positive amount, is never accepted. |
| DonationSchemas.DonationAmountPositive | app/schemas/donation.py:18-23 | Refuses a non-positive amount and returns a positive one unchanged. |
| DonationSchemas.DonationAmountField | app/schemas/donation.py:15 | The amount is required and is accepted exactly when it is a positive integer. |
| DonationSchemas.CommentField | app/schemas/donation.py:16 | The comment is optional and defaults to None. A null is None, and any string is kept. |
| DonationSchemas.ParseDonation | app/schemas/donation.py:7-23 | Validating a donation body never raises. |
| DonationSchemas.DonationAcceptsExactly | app/schemas/donation.py:15-23 | A body is accepted exactly when it gives a positive amount and a comment that is absent, null or a string. The amount and comment are kept. |
| DonationSchemas.DonationIgnoresExtraFields | app/schemas/donation.py:7-16 | Undeclared fields make no difference to the outcome. |
| DonationSchemas.ShortView | app/schemas/donation.py:33-46 | The short view exposes the amount, comment, id and creation date of the row. |
| DonationSchemas.FullView | app/schemas/donation.py:49-62 | The full view adds the owner and the funding columns, which equal the row's. |
| DonationSchemas.FullViewExtendsShort | app/schemas/donation.py:49-62 | Dropping the full view's extra fields gives the short view. |
| PasswordPolicy.Contains | app/core/user.py:79 | Python's `email in password`: a found e-mail is no longer than the password, and the empty e-mail is always found. |
| PasswordPolicy.ContainsIffOccurs | app/core/user.py:79 | The scan behind `email in password` finds the e-mail exactly when it occurs as a contiguous substring. |
| PasswordPolicy.ValidatePassword | app/core/user.py:60-82 | A password under 3 characters fails with the length reason, and one that contains the e-mail fails with the e-mail reason. A password is accepted exactly when it has at least 3 characters and does not contain the e-mail. |
| PasswordPolicy.LengthReportedBeforeEmail | app/core/user.py:75-82 | A short password that also contains the e-mail is reported for its length. |
| PasswordPolicy.EmptyEmailRejectsEverything | app/core/user.py:79-82 | The empty string occurs in every password, so with an empty e-mail no password passes. |

## Left out

- **HTTP routing, dependency injection and the CRUD layer.** These are app/api/endpoints/, app/api/routers.py and app/crud/. The model assumes that each creation is followed by one call of `Invest`.
- **The CRUD update's copy of fields.** Only its effect on `full_amount` is modelled, in `Validators.EditedFunding`.
- **The commit at line 41 and its atomicity, async execution and concurrent requests.** The pass is one sequential call that produces the new row state.
- **The clock.** It is a parameter, `now`. Within one pass, every call of the `fully_invested` hook receives the same `now`. The source reads `datetime.now()` on each call, so its timestamps can differ by microseconds.
- **Integer widths.** The `Integer` columns are unbounded integers in the model; 32-bit or 64-bit overflow of invested totals is not modelled.
- **Database-level checks.** The check constraints are stated on values (`SatisfiesChecks`, `Consistent`). The `String(100)` length is `Models.NameFitsColumn`: every stored name meets it (`Validators.Indexed`), and every name an accepted project body gives meets it (`ProjectSchemas.ParseProject`). The `unique` name is `Validators.Indexed`. How the database enforces these is not modelled, for example that SQLite does not enforce the `String(100)` length.
- **Donation ownership.** The `user_id` foreign key is carried as an integer; referential integrity is not modelled.
- **Pydantic coercion.** Lax-mode conversions are not modelled: numeric strings, floats and booleans to `int`. Neither are JSON values other than null, strings and integers, nor the wording of pydantic's error messages. Such values are reported as `WrongType`.
- **Response schemas.** `CharityProjectDB` (app/schemas/charity_project.py:57-72) is a plain record shape; it is not modelled.
- **Authentication.** The rest of app/core/user.py is not part of this model: JWT strategy, transport and user-manager wiring.
- **`UserManager.validate_password` inputs.** It receives the user's e-mail directly, not the `user` object.
- Investment.Inner: its contract states only shape (lengths, position, cursor bound). What the loop does is stated by the lemmas in `InvestmentProperties`, because an `ensures` repeating the recursion would add nothing.
- Investment.Outer: its contract states only that the tables keep their lengths, for the same reason.
- Investment.Advance: its contract states only that the tables keep their lengths, for the same reason.
- Investment.Run: its contract states only that the tables keep their lengths. Its properties are `FirstClosesIsOneTransfer`, `RunLeavesClosedRows`, `RunConservesMoney` and `NothingToMatchChangesNothing`.
- InvestmentSweep.SweepFrom: its contract states only that the tables keep their lengths. Its properties are the `SweepFrom…` lemmas.
- InvestmentSweep.Sweep: its contract states only that the tables keep their lengths. Its properties are the `Sweep…` lemmas.
- DonationSchemas.ParseDonation: its contract states only that it never raises. Acceptance is stated by `DonationAcceptsExactly` and `DonationIgnoresExtraFields`.

## Findings

| source | as written | input that shows it | evidently intended | confidence | as-written member | corrected member |
|---|---|---|---|---|---|---|
| app/services/investment.py:18-40 | `donations.first()` closes the result, so the break at lines 36-37 or 39-40 ends the pass after at most one transfer, and line 38 never fetches a second donation. | One unfunded project of 100 and two unfunded donations of 50. The pass moves 50 and leaves the project open beside an untouched open donation, so a second pass would move more. | Pair unfunded projects with unfunded donations, moving the smaller fresh remainder each time, until one side is used up. | not executed; follows from SQLAlchemy's documented `Result.first()` contract | InvestmentProperties.OnePassLeavesMatchablePair | InvestmentSweep.SweepLeavesNoMatchablePair |
