# CtrlWeb apartment and property management — a verified model of its core

This project models, in Dafny, the core of CtrlWeb, an apartment and property
management application. The application has two parts:

- An Express/Prisma back end. The model covers its property controller, its
  authentication controller and its error-handling middleware.
- A Next.js front end. The model covers the quotations approval page, the assets
  page, the filtered list pages (expenses, user management, invoices, amenity logs)
  and the navigation sidebar.

The back end's tables are in-memory state of classes:

- `Accounts.AccountStore` holds the user table, a map keyed by e-mail.
- `PropertyStore.PropertyTable` holds the property table (newest row first) and the
  lease table.

Each handler is a method. It returns one of three replies (`Http.Reply`):

- the success body it sends;
- the error body it sends itself;
- the error it throws (every handler rethrows what it does not answer itself).
  `ErrorHandling.HandleError` gives the response the error middleware sends for it,
  provided the framework forwards the error to that middleware (see "## Left out").

Each method's contract states the handler's checks in the handler's own order: schema
validation, authentication, the owner-or-manager guard, business rules. It also states
the new state of the table.

Each Prisma `where` that a handler builds is proved to select exactly the rows of an
independent access-scope predicate (`Properties.ListScope`, `Properties.ReadScope`,
`Properties.SearchScope`). Pagination is proved to place every selected row on
exactly one page.

Zod schemas become functions that list every violated rule, in field order.
Each such function is proved to return no issues exactly when the schema's
conditions hold.

The front-end pages are React state, modelled as classes:

- `Quotations.QuotationsPage`
- `Assets.AssetsPage`
- `Sidebar.SidebarState`

Their handlers are methods. Their derived values (filters, enablement of buttons,
highlighting) are functions with lemmas stating what they mean.

Some behaviours of the code that the model keeps:

- Out-of-range search pages and limits are rejected, not clamped. The search schema
  refuses `limit` above 100 with an issue.
- An administrator has no bypass on update, delete or status change. Those handlers
  require the caller to be the owner or the manager of the row, whatever the role.
- A property manager who creates a property becomes its manager. The `managerId` the
  manager supplies is stored as the owner.
- The controllers answer a validation failure with the raw Zod issues
  (`{ error: "Validation failed", details: error.errors }`). Only the middleware
  reshapes issues into `{ field, message }`.

## Model

| member | source | states |
|---|---|---|
| ErrorHandling.CreateError | backend/src/middleware/errorHandler.ts:11-16 | the error is operational, keeps its message, and carries the given status code or 500 |
| ErrorHandling.HandleError | backend/src/middleware/errorHandler.ts:18-94 | a stack is included exactly in development; details are sent only when truthy; the status is one of 400/401/404/409/500 unless the error is operational |
| ErrorHandling.PathTexts | backend/src/middleware/errorHandler.ts:43 | one text per path element, in order |
| ErrorHandling.FieldErrors | backend/src/middleware/errorHandler.ts:42-45 | one `{ field, message }` per Zod issue, in the same order |
| ErrorHandling.ZodErrorResponse | backend/src/middleware/errorHandler.ts:39-45 | a Zod error is a 400 "Validation error" whose details list every issue in order, with the field being the path joined by dots |
| ErrorHandling.UniqueViolationResponse | backend/src/middleware/errorHandler.ts:48-53 | P2002 is a 409 with "<targets> already exists"; the name "field" is used exactly when the target is missing or joins to the empty string |
| ErrorHandling.PrismaErrorResponse | backend/src/middleware/errorHandler.ts:54-66 | P2025 is a 404, P2003 a 400, any other code a 500 "Database error" whose message is disclosed only in development |
| ErrorHandling.OperationalErrorResponse | backend/src/middleware/errorHandler.ts:67-69 | an error from `createError` keeps its message and its status (500 when absent or 0) and has no details |
| ErrorHandling.NamedErrorResponse | backend/src/middleware/errorHandler.ts:70-84 | non-operational errors are classified by name (token errors 401, validation and upload errors 400); anything else is a generic 500 without details |
| ErrorHandling.OperationalBeforeNames | backend/src/middleware/errorHandler.ts:67-84 | the operational branch wins over the name checks |
| ErrorHandling.ProductionHidesMessages | backend/src/middleware/errorHandler.ts:18-94 | outside development, the response to any error other than an operational, `ValidationError` or `MulterError` one is the same whatever its message: no other message reaches the client |
| Validation.TextRule | backend/src/controllers/authController.ts:13-17 | no issue exactly when the string is absent and optional, or present and at least as long as the minimum; at most one issue |
| Validation.EnumRule | backend/src/controllers/propertyController.ts:16 | no issue exactly when the value is absent and optional, or one of the enum's names |
| Validation.NumberRule | backend/src/controllers/propertyController.ts:17-21 | no issue exactly when the number is absent and optional, or present and an integer (if required) within the bounds |
| Text.Lower | src/app/assets/page.tsx:81-83 | same length; every character is folded to lower case |
| Text.Contains | src/app/assets/page.tsx:81-83 | true exactly when some window of the text equals the search |
| Text.EmptyOccursEverywhere | src/app/users/page.tsx:59-60 | the empty search matches every string |
| Text.Join | backend/src/middleware/errorHandler.ts:51 | `parts.join(sep)`: no text for no parts, the one part alone, otherwise the parts with the separator between them (a specification function; `JoinEmpty` states its property) |
| Text.JoinEmpty | backend/src/middleware/errorHandler.ts:51 | a join with a separator is empty exactly when there is nothing to join, or only one empty string |
| Text.NatToString | backend/src/middleware/errorHandler.ts:43 | decimal digits without a leading zero |
| Seqs.KeepMembership | src/app/users/page.tsx:56-61 | `filter` keeps an element exactly when it is in the input and passes the test |
| Seqs.KeepIsSubsequence | src/app/users/page.tsx:56-61 | `filter` keeps the original order |
| Seqs.KeepAll | src/app/expenses/page.tsx:90-92 | a test that every element passes keeps the whole list |
| Seqs.KeepKeep | src/app/expenses/page.tsx:90-98 | filtering twice is filtering once by the conjunction |
| Seqs.KeepCongruent | src/app/expenses/page.tsx:90-98 | two tests that agree on the list keep the same elements |
| Seqs.ElementCount | src/app/assets/page.tsx:98-101 | a list has at least as many positions as distinct elements, and exactly as many when no element repeats |
| Seqs.FullWhenComplete | src/app/assets/page.tsx:100-102 | a duplicate-free list drawn from a pool has the pool's length exactly when it holds the whole pool |
| Accounts.RoleNamed | backend/src/controllers/authController.ts:18 | every role name of the schema denotes the role with that name |
| Accounts.HashVerify | backend/src/controllers/authController.ts:128 | a password verifies against its own hash; another password verifies exactly when it agrees on the first 72 characters, so among passwords of at most 72 characters only the same one does |
| Accounts.LongPasswordsCollide | backend/src/controllers/authController.ts:258 | two passwords that share their first 72 characters verify against each other's digests |
| Accounts.GenerateToken | backend/src/controllers/authController.ts:37-48 | a token with the user's id, e-mail and role exactly when a secret is configured; otherwise an operational 500 "JWT secret not configured" |
| Accounts.RegisterIssues | backend/src/controllers/authController.ts:12-19 | no issue exactly when the e-mail is valid, the password has 8 or more characters, both names are present and any role is a valid name |
| Accounts.LoginIssues | backend/src/controllers/authController.ts:21-24 | no issue exactly when the e-mail is valid and the password is non-empty |
| Accounts.ProfileIssues | backend/src/controllers/authController.ts:26-30 | no issue exactly when the names are absent or non-empty |
| Accounts.PasswordIssues | backend/src/controllers/authController.ts:32-35 | no issue exactly when the current password is non-empty and the new one has 8 or more characters |
| Accounts.NewUser | backend/src/controllers/authController.ts:65-78 | the new row has the e-mail and id; its password verifies; its role defaults to TENANT; it is active exactly when the column's default (a parameter) is |
| Accounts.Public | backend/src/controllers/authController.ts:138 | the public user keeps id, e-mail and role (the password is dropped) |
| Accounts.ApplyProfile | backend/src/controllers/authController.ts:202-206 | only names and phone change, to the given values; id, e-mail, password, role and activity stay |
| Accounts.AccountStore.FindById | backend/src/controllers/authController.ts:248-250 | the key of the row with that id, or none when no row has it |
| Accounts.AccountStore.Register | backend/src/controllers/authController.ts:51-111 | 400 with the issues, 409 for a taken e-mail, otherwise exactly one new row and a 201 with a token (or the thrown JWT error) |
| Accounts.AccountStore.Login | backend/src/controllers/authController.ts:113-157 | 400 with the issues; 401 "Invalid credentials" for an unknown, inactive or wrong-password account; otherwise the public user and a token for that account |
| Accounts.AccountStore.GetProfile | backend/src/controllers/authController.ts:159-192 | 401 without a caller, 404 without a row, otherwise the caller's own public row |
| Accounts.AccountStore.UpdateProfile | backend/src/controllers/authController.ts:194-235 | 401, then 400; a missing row is Prisma's P2025 thrown; otherwise only the caller's row changes, by `ApplyProfile` |
| Accounts.AccountStore.ChangePassword | backend/src/controllers/authController.ts:237-287 | 401, 400, 404, 400 for a wrong current password; otherwise exactly that row's password becomes the new hash |
| Accounts.AccountStore.ForgotPassword | backend/src/controllers/authController.ts:289-317 | 400 without an e-mail; otherwise the same acknowledgement whether or not the account exists |
| Accounts.RegisterThenLogin | backend/src/controllers/authController.ts:51-157 | a fresh registration succeeds; when accounts are active by default, login with the same password then succeeds with a token for the new account, and otherwise it is the generic 401 |
| Accounts.ChangePasswordThenLogin | backend/src/controllers/authController.ts:237-276 | after a password change, the new password logs in; the old one is refused with 401 unless it agrees with the new one on the first 72 characters, in which case it still logs in |
| Properties.TypeNamed | backend/src/controllers/propertyController.ts:16 | every type name of the schema denotes the type with that name |
| Properties.StatusNamed | backend/src/controllers/propertyController.ts:39 | every status name denotes the status with that name |
| Properties.StatusNameInjective | backend/src/controllers/propertyController.ts:465-471 | two statuses have the same name exactly when they are equal |
| Properties.ListScope | backend/src/controllers/propertyController.ts:50-70 | the rows `getProperties` may list: the caller's role scope, and the requested status unless the caller is a tenant (the specification `ListWhere` is proved against) |
| Properties.ReadScope | backend/src/controllers/propertyController.ts:126-133 | the row with that id, managed by a manager caller or owned by a landlord caller, otherwise unrestricted (the specification `ReadWhere` is proved against) |
| Properties.SearchScope | backend/src/controllers/propertyController.ts:432-476 | the search filters, the requested status unless the caller is a tenant, and the role scope (the specification `SearchWhere` is proved against) |
| Properties.ListWhere | backend/src/controllers/propertyController.ts:50-70 | the `where` matches exactly the rows in the list scope (tenant: AVAILABLE; manager: managed; landlord: owned; plus the requested status); Prisma accepts it exactly when the status is overridden or valid |
| Properties.ReadWhere | backend/src/controllers/propertyController.ts:126-133 | the `where` matches exactly the row with that id that a manager manages or a landlord owns (others are unrestricted) |
| Properties.ValidateSearch | backend/src/controllers/propertyController.ts:31-42 | accepted exactly when every rule holds, with page defaulting to 1 and limit to 10, in range, and the other values carried over; otherwise every issue |
| Properties.FilterWhere | backend/src/controllers/propertyController.ts:434-463 | the filter keys match exactly the rows that satisfy the caller's search filters; they set no identity or ownership key |
| Properties.FilterKeysMeaning | backend/src/controllers/propertyController.ts:435-441 | an empty city or state filter is equivalent to none |
| Properties.SearchWhere | backend/src/controllers/propertyController.ts:432-476 | the `where` matches exactly the rows in the search scope, the role clause narrowing the filters; a tenant's status is AVAILABLE |
| Properties.Skip | backend/src/controllers/propertyController.ts:430 | the offset is a multiple of the limit, and its quotient is the page minus one |
| Properties.PageCount | backend/src/controllers/propertyController.ts:514 | the smallest page count whose pages hold every row; zero rows give zero pages |
| Properties.Window | backend/src/controllers/propertyController.ts:479-482 | exactly `min(take, rows - skip)` rows (none past the end), which are the rows from the offset on, in order |
| Properties.EveryRowOnItsPage | backend/src/controllers/propertyController.ts:478-516 | every selected row is on exactly one existing page, at position `k % limit` of page `k / limit + 1` |
| Properties.InputIssuesMeaning | backend/src/controllers/propertyController.ts:9-29 | a body passes the create schema, or its partial update form, exactly when its present fields are valid and, for create, all required fields are present |
| Properties.AsInt | backend/src/controllers/propertyController.ts:17 | an integer-valued number as the same integer |
| Properties.AssignedOwner | backend/src/controllers/propertyController.ts:207-212 | the creator, unless a property manager supplied a non-empty `managerId`, which becomes the owner (its property is `CreatorKeepsAccess`) |
| Properties.AssignedManager | backend/src/controllers/propertyController.ts:217 | a property manager creator, otherwise the supplied `managerId` (its property is `CreatorKeepsAccess`) |
| Properties.CreatorKeepsAccess | backend/src/controllers/propertyController.ts:207-218 | the creator ends up as owner or manager; a non-manager creator is the owner and keeps the supplied manager; a manager creator is the manager |
| Properties.NewProperty | backend/src/controllers/propertyController.ts:214-219 | the new row has the fresh id, the default status and every given field: name, address, city, state, ZIP code, the named type, the bedrooms and bathrooms, the square footage when given, rent and deposit; country defaults to "US"; owner and manager are the assigned ones |
| Properties.ApplyInput | backend/src/controllers/propertyController.ts:285-287 | each field given in the body, `managerId` included, replaces the stored column; each absent field keeps its value; id, owner and status never change |
| Properties.ApplyInputLaws | backend/src/controllers/propertyController.ts:285-287 | an empty body changes nothing, and applying the same body twice equals applying it once |
| Properties.ApplyInputCompose | backend/src/controllers/propertyController.ts:285-287 | two updates in a row equal one update by the merged body, in which the later value of each field wins |
| Properties.ActiveLeaseCount | backend/src/controllers/propertyController.ts:353-358 | zero exactly when no lease of that property is ACTIVE |
| Properties.RemoveAtIsRemoveById | backend/src/controllers/propertyController.ts:367-369 | with unique ids, deleting the row found is removing exactly the rows with that id |
| PropertyStore.Select | backend/src/controllers/propertyController.ts:72-76 | the rows a `where` matches, in table order, never more than the table holds (`SelectExactly` and `SelectedRow` state what it selects) |
| PropertyStore.SelectExactly | backend/src/controllers/propertyController.ts:72-105 | a `where` equivalent to a scope selects exactly the scope's rows, in table order |
| PropertyStore.SelectedRow | backend/src/controllers/propertyController.ts:72-76 | a selected row is a row of the table within the scope |
| PropertyStore.PropertyTable.FindGuarded | backend/src/controllers/propertyController.ts:270-278 | the index of a row with that id that the user owns or manages, or none exactly when there is no such row |
| PropertyStore.PropertyTable.GetProperties | backend/src/controllers/propertyController.ts:45-120 | page `page` of exactly the rows in the list scope, with the total and the page count; an invalid status makes Prisma throw; a tenant sees only AVAILABLE rows |
| PropertyStore.PropertyTable.GetPropertyById | backend/src/controllers/propertyController.ts:122-195 | success exactly when a row is in the read scope (and then such a row); otherwise 404 "Property not found" |
| PropertyStore.PropertyTable.SearchProperties | backend/src/controllers/propertyController.ts:427-528 | with the query validated by the converting schema that `## Findings` names as intended (not the schema as written at lines 31-42): 400 "Invalid search parameters" with the issues, or the page of exactly the rows in the search scope with the parsed filters |
| PropertyStore.PropertyTable.CreateProperty | backend/src/controllers/propertyController.ts:197-256 | 400, then 401, otherwise exactly one new row in front with the assigned owner and manager, and a 201 |
| PropertyStore.PropertyTable.UpdateProperty | backend/src/controllers/propertyController.ts:258-324 | 400, 401, 404 "not found or access denied", otherwise only the row with that id changes, by the given fields |
| PropertyStore.PropertyTable.DeleteProperty | backend/src/controllers/propertyController.ts:326-377 | 401, 404, 400 with an active lease; otherwise exactly the row with that id is removed; ids stay unique; leases are untouched |
| PropertyStore.PropertyTable.UpdatePropertyStatus | backend/src/controllers/propertyController.ts:379-425 | 401, 400 "Invalid status", 404, otherwise only that row's status changes, to the named status |
| QueryString.DigitsOfNat | backend/src/controllers/propertyController.ts:40-41 | the digits of a natural number read back as that number |
| QueryString.NumberOfNat | backend/src/controllers/propertyController.ts:40-41 | `Number(String(n))` is `n` |
| QueryString.NumberAsWritten | backend/src/controllers/propertyController.ts:35 | `z.number()` on a query value gives an issue exactly when the key is present |
| QueryString.ValidateRawAsWritten | backend/src/controllers/propertyController.ts:31-42 | as written, a query passes only when it carries no numeric key at all, and then has page 1 and limit 10 |
| QueryString.SecondPageRefused | backend/src/controllers/propertyController.ts:429 | as written, `?page=2` is refused with "Expected number, received string" |
| QueryString.PagesRefusedAsWritten | backend/src/controllers/propertyController.ts:40-41 | as written, every query naming a page and a limit is refused |
| QueryString.NaNIssue | backend/src/controllers/propertyController.ts:35 | with coercion, a value gives an issue exactly when it is not a number, and that issue is the NaN one |
| QueryString.Coerced | backend/src/controllers/propertyController.ts:35 | with coercion, a present value becomes `Number(value)` |
| QueryString.CoerceQuery | backend/src/controllers/propertyController.ts:429 | accepted exactly when every numeric value is a number; otherwise only NaN issues |
| QueryString.ValidateRawSearch | backend/src/controllers/propertyController.ts:429 | an accepted query has page at least 1 and limit in 1..100; a refusal lists at least one issue; a value that is not a number is refused with only NaN issues |
| QueryString.CoercedPagesAccepted | backend/src/controllers/propertyController.ts:40-41 | with coercion, `?page=P&limit=L` is accepted exactly when P ≥ 1 and 1 ≤ L ≤ 100, and yields exactly P and L |
| Quotations.InitialQuotations | src/app/quotations/vendor/page.tsx:9-40 | three pending quotations numbered from 1, one above the approval threshold |
| Quotations.IsMC | src/app/quotations/vendor/page.tsx:64 | the current role is one of the five committee roles |
| Quotations.UploadVisible | src/app/quotations/vendor/page.tsx:114 | the Upload button is shown exactly to the estate manager and to committee members |
| Quotations.AgreeEnabled | src/app/quotations/vendor/page.tsx:260 | an enabled Agree button belongs to the current user's own committee role, not yet agreed |
| Quotations.ApproveEnabled | src/app/quotations/vendor/page.tsx:284 | the Approve button is enabled only after at least five agreements and with a reason |
| Quotations.NeedsApproval | src/app/quotations/vendor/page.tsx:67 | true exactly when some quotation's amount exceeds 5000 |
| Quotations.AllAgreed | src/app/quotations/vendor/page.tsx:70 | true exactly when every listed role is in the approvals |
| Quotations.CanApprove | src/app/quotations/vendor/page.tsx:70 | true exactly when all five MC roles have agreed |
| Quotations.WithApproval | src/app/quotations/vendor/page.tsx:102-106 | the role is recorded; nothing else is added; the earlier agreements stay in order |
| Quotations.WithApprovalKeepsDistinct | src/app/quotations/vendor/page.tsx:102-106 | agreeing never duplicates a role and grows the list by one only for a new role |
| Quotations.OneAgreementPerUser | src/app/quotations/vendor/page.tsx:260 | a user has at most one enabled Agree button, for an MC role, and none after using it |
| Quotations.CanApproveNeedsFive | src/app/quotations/vendor/page.tsx:284 | approval is possible only after at least five agreements |
| Quotations.ApproveAll | src/app/quotations/vendor/page.tsx:98 | every quotation becomes "Approved", with nothing else changed |
| Quotations.QuotationsPage.constructor | src/app/quotations/vendor/page.tsx:51-61 | the initial quotations, no agreement, no decision, no reason, the form closed; the invariant `Valid`, which every handler keeps, includes that some quotation needs approval, so the Agree and Approve buttons (shown only under `needsApproval`, line 247) are always on screen |
| Quotations.QuotationsPage.HandleUpload | src/app/quotations/vendor/page.tsx:73-90 | exactly one pending quotation is appended, numbered after the others and uploaded by the current user; the form closes |
| Quotations.QuotationsPage.HandleMCApproval | src/app/quotations/vendor/page.tsx:102-106 | the approvals become `WithApproval` of the old ones; they stay duplicate-free |
| Quotations.QuotationsPage.HandleApprove | src/app/quotations/vendor/page.tsx:92-99 | the decision records the day, the agreements and the reason; every quotation is approved |
| Quotations.QuotationsPage.SetShowUpload | src/app/quotations/vendor/page.tsx:117 | only the form's visibility changes |
| Quotations.QuotationsPage.SetReason | src/app/quotations/vendor/page.tsx:273 | only the reason changes |
| Assets.FilteredAssets | src/app/assets/page.tsx:79-84 | never more assets than the list holds (`FilteredAssetsMeaning` states which) |
| Assets.FilteredAssetsMeaning | src/app/assets/page.tsx:79-84 | an asset is kept exactly when its name, serial or category contains the search (ignoring case), in order; an empty search keeps all |
| Assets.RowActions | src/app/assets/page.tsx:181-208 | Repair is offered exactly for active assets, WhatsApp and "Awaiting Approval" exactly for assets under repair, only a label for disposed ones |
| Assets.MarkUnderRepair | src/app/assets/page.tsx:103-109 | only the asset with that id becomes under repair with repair approval; the others are unchanged |
| Assets.CountMeansEveryone | src/app/assets/page.tsx:100-102 | for a duplicate-free list of approval roles, the length test means every role has agreed |
| Assets.UnderRepairExactlyWhenAllAgreed | src/app/assets/page.tsx:94-114 | the agreement that completes the set of roles, and no earlier one, triggers the repair |
| Assets.AssetsPage.constructor | src/app/assets/page.tsx:73-76 | the initial assets, no search, no dialog, no approvals |
| Assets.AssetsPage.RequestRepair | src/app/assets/page.tsx:184 | the dialog opens for that asset; nothing else changes |
| Assets.AssetsPage.HandleApprove | src/app/assets/page.tsx:94-114 | the role is recorded once for that asset; at the full count that asset goes under repair and the dialog closes, otherwise assets and dialog stay |
| Assets.AssetsPage.CloseApproval | src/app/assets/page.tsx:244 | the dialog closes; nothing else changes |
| Assets.AssetsPage.SetSearch | src/app/assets/page.tsx:74 | only the search changes |
| Expenses.FilterByDate | src/app/expenses/page.tsx:76-79 | every date choice keeps every expense |
| Expenses.FilteredExpenses | src/app/expenses/page.tsx:90-99 | never more expenses than the list holds (`FilteredExpensesIsConjunction` states which are kept) |
| Expenses.FilteredExpensesIsConjunction | src/app/expenses/page.tsx:89-99 | the chain of filters equals one filter by block, type and search together; an expense is kept exactly when it passes all three, in order |
| UserDirectory.FilteredUsers | src/app/users/page.tsx:56-61 | never more users than the list holds (`FilteredUsersMeaning` states which are kept) |
| UserDirectory.FilteredUsersMeaning | src/app/users/page.tsx:56-61 | a user is kept exactly when the role filter and the search in name or e-mail match, in order; "All" with no search keeps everyone |
| Invoices.FilteredInvoices | src/app/invoices/page.tsx:87-93 | never more invoices than the list holds (`FilteredInvoicesMeaning` states which are kept) |
| Invoices.FilteredInvoicesMeaning | src/app/invoices/page.tsx:87-93 | an invoice is kept exactly when the status filter and the search in member, id or amenity match, in order; "All" with no search keeps all |
| AmenityLogs.FilteredLogs | src/app/amenities/logs/page.tsx:50-56 | never more logs than the list holds (`FilteredLogsMeaning` states which are kept) |
| AmenityLogs.FilteredLogsMeaning | src/app/amenities/logs/page.tsx:50-56 | a log is kept exactly when name, amenity, block or flat contains the search, in order; an empty search keeps all |
| Sidebar.IsActive | src/components/Sidebar.tsx:80-83 | a highlighted link is not a placeholder and its href is a prefix of the path (`ActiveLinksNest` and `AtMostOneActive` build on it) |
| Sidebar.ActiveLinksNest | src/components/Sidebar.tsx:80-83 | two highlighted links have nested hrefs |
| Sidebar.HrefsUnnested | src/components/Sidebar.tsx:8-23 | no top-level href is a prefix of another |
| Sidebar.AtMostOneActive | src/components/Sidebar.tsx:79-83 | on any path at most one top-level link is highlighted |
| Sidebar.SomeChildBelow | src/components/Sidebar.tsx:89 | true exactly when the path starts with some child's href |
| Sidebar.ActiveChildIsShown | src/components/Sidebar.tsx:87-121 | a highlighted child's group is always unfolded |
| Sidebar.IsDropdownOpen | src/components/Sidebar.tsx:87-89 | a group is unfolded exactly when it was clicked open or the path starts with one of its children's hrefs (`ActiveChildIsShown` builds on it) |
| Sidebar.IsChildActive | src/components/Sidebar.tsx:121 | a highlighted child's href is a prefix of the path, being the path itself (`ActiveChildIsShown` builds on it) |
| Sidebar.SidebarState.constructor | src/components/Sidebar.tsx:26-28 | expanded, nothing unfolded, settings closed |
| Sidebar.SidebarState.HandleDropdown | src/components/Sidebar.tsx:33-41 | Settings toggles the panel and clears the clicked group (`openDropdown`); a group button toggles that group and closes the settings; afterwards the settings flag and the clicked group are never both set (a group can still show unfolded because the path is below one of its children) |
| Sidebar.SidebarState.ToggleExpanded | src/components/Sidebar.tsx:61 | only the expansion flips |
| Sidebar.DropdownTwice | src/components/Sidebar.tsx:33-41 | two clicks on a group restore its state, folding any other open group |

## Left out

- Prisma's `include`, `select` and `_count` projections, and running the list query and the count concurrently (`Promise.all`), are not modelled. The model returns whole rows, and the count is the length of the selected rows.
- The property columns `description`, `amenities`, `petPolicy` and `smokingPolicy` are not modelled. They are optional strings that no rule reads.
- Foreign-key failures (P2003) when a property names an owner or manager that does not exist are not modelled. The classification of P2003 by the middleware is modelled.
- bcrypt's salt and cost and JWT's signing and expiry are abstract. A digest is an ideal one-way hash of the first 72 characters of the password (bcrypt reads at most 72 bytes), and a token is the triple of its claims.
- Accounts.HashVerify: bcrypt's 72-byte limit is counted in characters, which is exact for ASCII passwords only; a password with multi-byte UTF-8 characters reaches the limit sooner in the source.
- Accounts.IsEmail: a structural stand-in for Zod's e-mail pattern (one `@`, text on both sides, no space). It is not the full regular expression.
- The default status of a new property and the default `isActive` of a new user come from the database schema, which is not part of this model. `CreateProperty` and `Register` take them as parameters. Fresh ids and today's date are parameters too.
- Logging (`logger`) and the `NODE_ENV` environment variable are left out. Development mode is a parameter of `HandleError`.
- `resetPassword`, `logout`, `uploadImages` and `deleteImage` are not modelled. They are stubs that only answer a fixed message.
- Quotations.QuotationsPage.HandleUpload: the amount is taken as a number. The conversion of the form's text by `Number(...)` is not modelled.
- The upload form's text fields and file input are not modelled, and neither is the display of the decision. `handleLogout`, the dark-mode toggle and the WhatsApp `alert` are not modelled either, because they are browser effects.
- Assets.AssetsPage.HandleApprove: the list kept by the page is a value. The in-place `push` on the array shared with the previous state is not modelled.
- PropertyStore.PropertyTable.GetProperties: requires a page and a limit that are integers of at least 1. The handler does not validate them, and `Number(...)` of other query strings (NaN, fractions, zero) is not modelled.
- QueryString.JsNumber: covers only the decimal forms. Leading or trailing white space, exponents, hexadecimal, `Infinity` and a leading `+` are treated as not a number, although `Number(...)` accepts them.
- QueryString.ValidateRawSearch: when some value is not a number, only the NaN issues are reported. Zod would also report, in schema-key order, the other fields' issues: the `type` and `status` enum issues and the range issues.
- PropertyStore.PropertyTable.SearchProperties: modelled with the converting schema (`z.coerce.number()`) that the finding below names as intended. The schema as written at backend/src/controllers/propertyController.ts:31-42 refuses every numeric query value; that behaviour is `QueryString.ValidateRawAsWritten`.
- PropertyStore.PropertyTable.DeleteProperty: assumes the leases of the deleted property that are not ACTIVE stay in the lease table and do not block the delete. Their foreign key's `onDelete` rule is in the database schema, which is not part of this model: a cascade would remove them, and a restriction would make the delete throw P2003 (a 400).
- ErrorHandling.HandleError: assumes the framework forwards an error thrown by an async handler to the error middleware, as Express 5 does. The handlers rethrow with `throw error` and never call `next(error)`, and `server.ts` installs no async wrapper. Under Express 4 such a rejection never reaches `errorHandler`: the request gets no response and the rejection is unhandled. Every `Raised(...)` reply of the handlers depends on this assumption.
- ErrorHandling.HandleError: a P2002 error whose `meta.target` is a single string, not an array, makes `.join` throw inside the handler. The model takes the target as a list of strings, so that case is not modelled.
- Accounts.AccountStore.ForgotPassword: an `email` that is present and truthy but not a string is taken as a string. Query parameters given twice, which the query parser turns into arrays, are not modelled either: every raw query value is one string or absent.
- Numbers are exact reals. Floating-point rounding is not modelled.
- Case folding covers ASCII letters only. Unicode case folding is not modelled.
- The routes, `server.ts`, the seed script and the authentication middleware are not part of this model. The authenticated user is the `caller` parameter.

## Findings

| source | as written | input that shows it | evidently intended | confidence | as-written member | corrected member |
|---|---|---|---|---|---|---|
| backend/src/controllers/propertyController.ts:35-41 | `searchPropertiesSchema` applies `z.number()` to `req.query`, whose values are always strings, so every numeric key fails | `GET /properties/search?page=2` is refused with 400 "Expected number, received string" | numeric query values are converted first (`z.coerce.number()`), so `?page=2&limit=20` selects page 2 of 20 rows | not executed | QueryString.ValidateRawAsWritten, QueryString.SecondPageRefused | QueryString.ValidateRawSearch, QueryString.CoercedPagesAccepted |
