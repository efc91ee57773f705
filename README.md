# pfe-licence-api: a Dafny model of its services

This project models the service layer of a restaurant-ordering back end, a
NestJS application over a Prisma database. The layer has seven parts:

- the role table with its names, string values and weights;
- the user table and its operations;
- login, registration and the bearer-token gate that protects routes;
- discounts and their applicability table;
- the order pricing loop;
- the order lifecycle: creating an order, editing its lines while it is
  PENDING, and setting its status, payment status and count;
- restaurants: registration, owner and status gates, approval requests,
  and the approval state machine.

Each database table is a `map` field of a class (`UserTable`,
`DiscountStore`, `OrderStore`, `RestaurantStore`). Each service method is a
Dafny `method` on that class. Its `ensures` states the whole new state and
the answer, including every error path. NestJS exceptions become
`Err(NotFound)`, `Err(BadRequest)`, `Err(Unauthorized)`, `Err(Forbidden)` or
`Err(Conflict)`. Everything else that throws becomes `Err(InternalError)`:
a plain `Error`, a `TypeError` from reading a null record, and a database
error (updating a missing row, a foreign-key or unique-constraint
violation).

Pure logic is written as functions. The pricing loop is a `method` proved
against the function `CalculateTotal`. Lemmas relate that function to an
independent sum over the lines.

JWT signing and verification, bcrypt, and the class-validator e-mail and
phone checks are function-typed parameters. Money is `real`.

Files: `common.dfy` (shared types and JavaScript truthiness), `roles.dfy`,
`users.dfy`, `auth.dfy`, `auth_guard.dfy`, `discounts.dfy`, `pricing.dfy`,
`orders.dfy`, `restaurants.dfy`.

Where the code differs from what its design describes, the model follows the code:

- The line-editing operations look a line's price up under the line's
  own id, not its menu item's id.
- Adding items adds the recomputed total of all lines to the old total.
- Removing items subtracts the recomputed total of the remaining lines.
- A status update that is a no-op answers success even when the request's
  restaurant has since moved on, so a successful call does not always leave
  the request and its restaurant with the same status (`StaleRequestNoOp`).

## Model

| member | source | states |
|---|---|---|
| Roles.UserRoleInfoMap | src/roles/user-role.model.ts:14-31 | each entry's `role` is its key and every weight is at least 100 |
| Roles.WeightsFollowRank | src/roles/user-role.model.ts:14-31 | weights strictly increase CLIENT < RESTAURATEUR < DELIVERY_PERSON < ADMINISTRATOR, and distinct roles have distinct weights |
| Roles.TableWeights | src/roles/user-role.model.ts:15-30 | the weights are 100, 200, 300 and 1000 |
| Roles.RoleValueInjective | src/roles/user-role.model.ts:1-6 | distinct roles have distinct string values |
| Users.UserTable.UserIdByName | src/authentification/auth.service.ts:33-35 | a `findUnique` by username finds the one user with that name, or none exists |
| Users.UserTable.GetUserProfil | src/users/users.service.ts:27-40 | the user for a known id; NotFound exactly for an unknown id |
| Users.UserTable.CreateUser | src/users/users.service.ts:41-53 | Conflict exactly when another user has the username or the e-mail; a role with no role row is a database error; either way nothing is written; otherwise the user is added under a fresh id and nothing else changes |
| Users.UserTable.UpdateUser | src/users/users.service.ts:54-68 | NotFound exactly for an unknown id; a taken username or e-mail is a database error with nothing written; otherwise only the given fields change |
| Users.UserTable.DeleteUser | src/users/users.service.ts:69-80 | NotFound exactly for an unknown id; otherwise the user is removed and the answer is true |
| Users.UserTable.ChangePassword | src/users/users.service.ts:114-148 | NotFound for an unknown user, Unauthorized exactly when the current password does not match; only on success is the password replaced by the hash of the new one |
| Users.UserTable.UploadImage | src/users/users.service.ts:212-224 | an existing user's image URL is set; NotFound otherwise |
| Users.UserTable.DeleteImage | src/users/users.service.ts:226-238 | an existing user's image URL is cleared; NotFound otherwise |
| Auth.Login | src/authentification/auth.service.ts:31-46 | succeeds exactly when a user has the name and the password matches, answering the signed token; otherwise Unauthorized |
| Auth.ValidateToken | src/authentification/auth.service.ts:98-114 | an undecodable token throws; a name with no user is Unauthorized; with a non-zero minimum weight, Forbidden exactly when the user has no role or a lighter one; otherwise the user |
| Auth.GateAdmitsHigherRoles | src/authentification/auth.service.ts:108-113 | hypothetically: if the role rows carried the role table's weights and a route's minimum were role b's weight, the gate would admit exactly the users whose role ranks at or above b; neither holds in the deployed code (see Left out) |
| Auth.Register | src/authentification/auth.service.ts:48-70 | the new user gets the CLIENT role and the hash of the password, never the plain text; a missing CLIENT role row fails and a taken username or e-mail is Conflict, both with nothing written |
| Auth.UpdateUserRole | src/authentification/auth.service.ts:71-96 | fails exactly for an unknown user or an unknown role code, writing nothing; otherwise only the user's role changes |
| Auth.ResetPassword | src/authentification/auth.service.ts:144-172 | NotFound exactly when the token does not verify or names no user; otherwise only that user's password becomes the hash of the new one |
| AuthGuard.JoinSplit | src/authentification/auth.guard.ts:36-39 | splitting on single spaces loses nothing: joining the pieces gives the header back, and no piece holds a space |
| AuthGuard.SplitAtFirstSpace | src/authentification/auth.guard.ts:36-39 | the first space ends the first piece |
| AuthGuard.ExtractTokenFromHeader | src/authentification/auth.guard.ts:36-39 | a token comes only from a header whose first piece is "Bearer", and has no space in it |
| AuthGuard.BearerHeaderYieldsToken | src/authentification/auth.guard.ts:36-39 | "Bearer X" yields X; "Bearer" alone and a missing header yield nothing |
| AuthGuard.OtherSchemeYieldsNothing | src/authentification/auth.guard.ts:36-39 | any other scheme yields no token |
| AuthGuard.CanActivate | src/authentification/auth.guard.ts:19-34 | no token or an empty one is Unauthorized; token-check failures pass through with the request untouched; on success the user is stored on the request and the answer is true |
| Discounts.ParseType | src/restaurateur/discount/discount.service.ts:29-38 | PERCENTAGE and FIXED_AMOUNT are accepted; every other type, and a missing one, is refused |
| Discounts.ValidApplicableToIffAll | src/restaurateur/discount/discount.service.ts:137-145 | the list is valid exactly when every entry has a truthy menu item id, minimum quantity and amount at least 0, and a known customer type; the empty list is valid |
| Discounts.CheckRequest | src/restaurateur/discount/discount.service.ts:26-54 | both dates given with the start not before the end, or a refused type, is BadRequest; with both passed, a missing applicability list throws; an invalid entry is BadRequest; success exactly when all checks pass |
| Discounts.ApplicabilityReplaced | src/restaurateur/discount/discount.service.ts:110-135 | after the replacement, the discount's rows are exactly one per entry, in order, and every other discount's rows are unchanged |
| Discounts.DiscountStore.FindDiscountById | src/restaurateur/discount/discount.service.ts:102-108 | the discount for a known id, NotFound exactly for an unknown one |
| Discounts.DiscountStore.UpdateDiscountApplicableTo | src/restaurateur/discount/discount.service.ts:110-135 | the discount's old rows are deleted and one row is created per entry whose menu item exists, in list order; the call succeeds exactly when every entry names an existing menu item, and otherwise fails with the other rows still created |
| Discounts.LinkedAll | src/restaurateur/discount/discount.service.ts:120-134 | every entry gets its row exactly when every entry names an existing menu item |
| Discounts.LinkedMembers | src/restaurateur/discount/discount.service.ts:120-134 | only entries naming an existing menu item get a row, and each such row comes from the request |
| Discounts.DiscountStore.CreateDiscount | src/restaurateur/discount/discount.service.ts:20-55 | a failed check answers its error with nothing written; otherwise the discount is stored under a fresh id and linked to its entries; success exactly when every entry names an existing menu item, and otherwise a database error that leaves the discount and the rows created so far |
| Discounts.DiscountStore.UpdateDiscount | src/restaurateur/discount/discount.service.ts:57-91 | checks first, then NotFound exactly for an unknown id, both with nothing written; otherwise the given fields are written and the rows replaced; success, answering the record as read before the update, exactly when every entry names an existing menu item, and otherwise a database error that leaves those writes |
| Discounts.DiscountStore.DeleteDiscount | src/restaurateur/discount/discount.service.ts:93-96 | NotFound exactly for an unknown id; otherwise the discount is removed |
| Pricing.CalculateTotal | src/Client/client.service.ts:144-175 | the loop's result after each line; any failure is a thrown lookup error |
| Pricing.TotalIsSumOfLines | src/Client/client.service.ts:148-174 | the loop succeeds exactly when every line's key finds a menu item, and then returns the sum of effective unit price times quantity; no lines give 0 |
| Pricing.TotalOfAppend | src/Client/client.service.ts:148-174 | pricing two lists of lines together adds their totals |
| Pricing.InactiveDiscountsIgnored | src/Client/client.service.ts:161-171 | discounts with `isActive` false never change the price |
| Pricing.DiscountsCompound | src/Client/client.service.ts:161-171 | discounts apply one after the other in fetch order |
| Pricing.WindowNotConsulted | src/Client/client.service.ts:161-171 | a discount's start and end dates do not affect the price |
| Pricing.WorkedPrices | src/Client/client.service.ts:163-169 | 10 at 20% for 3 units gives 24; 10 less 3 fixed for 2 units gives 14; 10 less 15 fixed gives -5 (no clamping); an inactive 20% leaves 10 |
| Pricing.OneLine | src/Client/client.service.ts:148-174 | one line linked to one discount costs the discounted unit price times the quantity |
| Pricing.DiscountedUnitPrice | src/Client/client.service.ts:160-171 | the inner loop yields the price after all fetched discounts |
| Pricing.CalculateTotalPrice | src/Client/client.service.ts:144-175 | the loop computes exactly `CalculateTotal` of its inputs |
| Orders.RequestIdsCard | src/Client/client.service.ts:96-101 | a request names at most one id per item, and exactly one each when its ids are distinct |
| Orders.CountCheck | src/Client/client.service.ts:96-101 | the found-count check passes exactly when the requested ids are distinct and all exist, so duplicate or unknown ids are rejected |
| Orders.CreationPricingSucceeds | src/Client/client.service.ts:103-106 | once the check has passed, pricing the request cannot fail |
| Orders.CountAfterInsert | src/Client/client.service.ts:333-338 | a new order adds one to its user's count and to no other user's |
| Orders.OrderStore.CountUserOrders | src/Client/client.service.ts:333-338 | the count is at most the number of orders, and zero exactly when the user has none |
| Orders.OrderStore.CreateOrder | src/Client/client.service.ts:83-131 | NotFound for an unknown user; BadRequest exactly when the ids are not distinct existing menu items; otherwise a PENDING order with payment status "Pending", one line per item, and the price of the request as its total |
| Orders.CreatedOrderIsConsistent | src/Client/client.service.ts:103-129 | the total stored at creation is the total of the order's lines |
| Orders.OrderStore.UpdatePaymentStatus | src/Client/client.service.ts:133-143 | a missing order is a database error; otherwise only the payment status changes, with no status gate |
| Orders.OrderStore.UpdateOrderStatus | src/Client/client.service.ts:315-332 | NotFound exactly for a missing order; otherwise the status is set, with no transition check |
| Orders.OrderStore.EditGuard | src/Client/client.service.ts:193-200 | the line-editing operations go on exactly for an existing PENDING order: NotFound, then BadRequest |
| Orders.OrderStore.UpdateOrder | src/Client/client.service.ts:182-216 | the guard, with nothing written on failure; a failed recompute writes nothing; otherwise the given details and the recomputed total |
| Orders.OrderStore.AddItemsToOrder | src/Client/client.service.ts:218-267 | the guard and a foreign-key failure write nothing; otherwise one new line per item is appended, existing lines untouched, and the total becomes old plus the recomputed total of all lines |
| Orders.OrderStore.RemoveItemsFromOrder | src/Client/client.service.ts:269-314 | the guard writes nothing on failure; otherwise every line whose menu item is listed is deleted, and the total becomes old minus the recomputed total of the remaining lines |
| Orders.RemainingIsSubsequence | src/Client/client.service.ts:284-291 | every line left is an original line and none of them has a listed menu item |
| Orders.CatalogSumPartition | src/Client/client.service.ts:284-306 | the total of an order's lines is the total of those kept plus the total of those removed |
| Orders.IntendedTotal | src/Client/client.service.ts:201-204 | pricing the lines by their menu item succeeds exactly when every menu item exists, and is then the sum of catalogue price after discounts times quantity |
| Orders.CorrectedAddItems | src/Client/client.service.ts:234-259 | the lines are appended and the total of a consistent order stays the total of its lines |
| Orders.CorrectedRemoveItems | src/Client/client.service.ts:284-306 | the listed lines go and the total of a consistent order stays the total of its lines |
| Orders.AddItemsDoubleCounts | src/Client/client.service.ts:251-259 | adding a 5.0 item to a consistent 10.0 order writes 25.0, where 15.0 was meant |
| Orders.RemoveItemsKeepsRemovedPrice | src/Client/client.service.ts:298-306 | removing the 5.0 item from a consistent 15.0 order writes 5.0, where 10.0 was meant |
| Orders.RecomputeKeyedByLineId | src/Client/client.service.ts:201-204 | a line with id 5 for menu item 1 cannot be repriced as written, yet is worth 10.0 by its menu item |
| Restaurants.Decide | src/restaurateur/restaurateur.service.ts:246-301 | a write happens exactly for PENDING or REJECTED to APPROVED, PENDING to REJECTED, and APPROVED to BLOCKED; requesting the current status is a silent no-op; requesting PENDING and every other pair throws |
| Restaurants.StatusTransition | src/restaurateur/restaurateur.service.ts:234-309 | a missing request throws; a refused pair throws and writes nothing; a no-op answers the request unchanged; a write sets the request and then its restaurant, and fails after the request when the restaurant is gone |
| Restaurants.SuccessfulWriteSynchronizes | src/restaurateur/restaurateur.service.ts:252-259 | a successful write leaves the request and its restaurant with the requested status and touches no other record |
| Restaurants.StaleRequestUnblocks | src/restaurateur/restaurateur.service.ts:246-259 | approving an old REJECTED request succeeds and sets its restaurant to APPROVED even when that restaurant is BLOCKED |
| Restaurants.StaleRequestNoOp | src/restaurateur/restaurateur.service.ts:263-280 | rejecting an old REJECTED request succeeds while its restaurant stays APPROVED |
| Restaurants.RestaurantStore.Register | src/restaurateur/restaurateur.service.ts:34-61 | BadRequest for an invalid form and a failure for an unknown owner, writing nothing; otherwise a PENDING restaurant; the owner becomes RESTAURATEUR unless ADMINISTRATOR; an owner without a role fails after the restaurant is created |
| Restaurants.RestaurantStore.GetUserRestaurants | src/restaurateur/restaurateur.service.ts:89-114 | NotFound for an unknown user; exactly the APPROVED restaurants for an ADMINISTRATOR and the owned APPROVED ones for a RESTAURATEUR; BadRequest for any other role |
| Restaurants.RestaurantStore.SwitchRestaurant | src/restaurateur/restaurateur.service.ts:310-325 | the restaurant exactly when id, owner and APPROVED all match; NotFound otherwise |
| Restaurants.RestaurantStore.OwnerGate | src/restaurateur/restaurateur.service.ts:121-133 | NotFound for a missing restaurant, then Forbidden exactly for a non-owner |
| Restaurants.RestaurantStore.UpdateRestaurant | src/restaurateur/restaurateur.service.ts:115-141 | only the owner changes the details; status and owner are kept |
| Restaurants.RestaurantStore.DeleteRestaurant | src/restaurateur/restaurateur.service.ts:143-165 | only the owner removes the restaurant |
| Restaurants.RestaurantStore.SubmitRestaurantRequest | src/restaurateur/restaurateur.service.ts:197-225 | NotFound, then Unauthorized exactly for a non-owner; otherwise a new PENDING request and the restaurant back to PENDING, in step |
| Restaurants.RestaurantStore.UpdateRestaurantStatus | src/restaurateur/restaurateur.service.ts:234-309 | the answer and both tables are exactly those of `StatusTransition` |
| Restaurants.RestaurantStore.CreateMenu | src/restaurateur/restaurateur.service.ts:326-351 | NotFound, then BadRequest for a restaurant that is not APPROVED, then a database error exactly for an owner id with no user; no ownership check; otherwise a new menu |
| Restaurants.RestaurantStore.DeleteItemsOf | src/restaurateur/restaurateur.service.ts:368-373 | the loop deletes exactly the menu's items and keeps every other item as it was |
| Restaurants.RestaurantStore.DeleteMenu | src/restaurateur/restaurateur.service.ts:352-379 | NotFound, then BadRequest exactly when the menu belongs to another restaurant; otherwise the menu and exactly its items are removed |

## Left out

- Controllers, modules, bootstrap and seeding: routing and wiring only.
  Some controllers pass a service method the wrong arguments; the model
  starts at the service.
- The mail service, the event bus and the referral-code service: mail I/O,
  a publish-subscribe subject, and code generation from `Math.random` with
  an unbounded retry.
- The roles guard in src/roles/roles.guard.ts is not wired to any route.
- Restaurant search (client.service.ts:24-76), `getMenuById`,
  `getOrderDetails`, `getEntities`, `getRestaurantMenus`,
  `getPendingRestaurantRequests`, `updateMenu`, categories, menu-item
  CRUD and restaurant images. These are plain reads or CRUD the other
  operations do not depend on.
- `requestPasswordReset`, `forgetPassword` and `generateToken`: they only
  sign a token and send mail.
- `updateUserProfile` and `deleteUserProfile` run the same code as
  `updateUser` and `deleteUser` and share their members.
- users.service.ts `resetPassword` (179-205) is `Auth.ResetPassword` with a
  different token claim. The `verify` parameter stands for the claim lookup.
- JWT, bcrypt (and its salt) and the class-validator e-mail and phone
  checks are function parameters. The token expiry and the secrets are not
  modelled.
- Prices are exact `real`s, not IEEE doubles, so rounding is not modelled.
- Async execution and `Promise.all` in `updateDiscountApplicableTo` are
  modelled as sequential steps in list order. Every creation is started
  before any is awaited, so a foreign-key failure stops none of the others.
  A row-creation failure other than a missing menu item (a value of the
  wrong type in an entry) is not modelled.
- Discounts.DiscountStore.CreateDiscount, Discounts.DiscountStore.UpdateDiscount:
  the request body, `applicableTo` list included, is spread into the data of
  the discount write. Whether the database client accepts that depends on
  the schema, which is not part of this model. The model assumes the write
  of the discount's own fields succeeds; if the schema rejects the extra
  field, both operations would fail after validation with nothing written.
- The database schema is not part of this model:
  - the customer-type enumeration is a parameter;
  - order statuses other than PENDING are carried by name;
  - referential actions on delete are not modelled, so deleting a
    restaurant, discount or user leaves its dependants.
- Auth.GateAdmitsHigherRoles: states the gate only under a hypothesis
  the code does not meet. The seed script (prisma/seed.ts:10-54) stores each
  role's string value ('administrateur', 'client', ...) as the row's weight.
  Every guarded route passes `@MinRole(UserRole.X)`, also a string value
  (restaurateur.controller.ts:46-93, auth.controller.ts:51). So as written the
  gate at auth.service.ts:108-109 compares a string minimum with the stored
  weight. The weight column's type is in the schema, which is not part of
  this model, so what that comparison yields is not modelled;
  `Auth.ValidateToken` takes the minimum and the stored weights as integers.
  The role table's numeric weights are read only by the roles guard, which
  no route uses.
- Dates are instants; an unparseable date string is not modelled.
- Results of `findMany` (restaurant lists, menu items found at order
  creation) are sets or request-ordered lists; the database's row order is
  not modelled.
- Orders.OrderStore.UpdateOrder: a detail field set to null in the request
  body is not modelled; an absent field is kept, a present one is written.
- Restaurants.RestaurantStore.Register: the form's extra fields beyond the
  six of the form are not modelled. The form check (restaurateur.service.ts:38)
  runs class-validator on the request body. No validation pipe turns that
  body into a `RegisterRestaurantDto` instance, so which decorators run
  depends on the class-validator version: none, or a refusal of every body.
  The model assumes the DTO's decorators are checked (`ValidInfo`).

## Findings

| source | as written | input that shows it | evidently intended | confidence | as-written member | corrected member |
|---|---|---|---|---|---|---|
| src/Client/client.service.ts:251-259 | the new total is the old total plus the recomputed total of all lines, old ones included | an order with one 10.0 line gets a 5.0 item: 25.0 is written | the old total plus the price of the added lines, so a consistent order stays consistent (15.0) | high, not executed | Orders.AddItemsDoubleCounts | Orders.CorrectedAddItems |
| src/Client/client.service.ts:298-306 | the new total is the old total minus the recomputed total of the lines that remain, which is the price of what was removed | an order with lines at 10.0 and 5.0 loses the 5.0 line: 5.0 is written | the old total minus the price of the removed lines (10.0) | high, not executed | Orders.RemoveItemsKeepsRemovedPrice | Orders.CorrectedRemoveItems |
| src/Client/client.service.ts:201-204 | the recompute passes order-line records, so prices are looked up under the line's id | a line with id 5 for menu item 1 priced 10.0: the lookup finds nothing and the update throws | look the price up under the line's menu item id (10.0) | high, not executed | Orders.RecomputeKeyedByLineId | Orders.IntendedTotal |
