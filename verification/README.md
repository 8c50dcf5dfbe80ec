# Inventory client: session store, inventory store and navigation guard

A Dafny model of the logic an inventory-tracking web client keeps for
itself. Everything else is delegated to a hosted backend. The model covers
three pieces:

- **Navigation guard** (`Router`). This is the route table, plus the decision
  `router.beforeEach` takes before every navigation. It may first ask the
  session store for the session. Then it allows the navigation or redirects it
  to `login` or `home`.
- **Session store** (`AuthStore`). This holds the signed-in user, the `loading`
  flag and the last `error`. It joins the identity with the role from its
  profile row and derives `isAdmin`. Each action (`getSession`, `signIn`,
  `signUp`, `signOut`, `recoverPassword`) is a pure transition.
- **Inventory store** (`InventoryStore`, with `InventoryProperties`). This
  holds the local `items`, the `currentItem`, `loading`, `error` and the
  single notification slot. Next to them sits the remote `inventario` table.
  `addItem` and `updateItem` check the serial number before writing. Other
  behaviour modelled: prepending on add, the strict-equality filter on delete,
  index replacement on update, and stripping `id` and `created_at` from the
  update payload.

Every backend call is replaced by a value passed to the action:

- A `Reply<T>` (`Ok(data)` or `Err(message)`) stands for a call whose data
  the backend chooses. Examples: the rows `fetchItems` receives, the columns the
  backend generates on insert, and the session and the signed-in user of the
  auth calls.
- An `Outcome` (`Pass` or `Fail(message)`) stands for a call whose data is
  either derived from the table the model keeps or not used at all. Examples:
  the serial-number lookups, the select by id, the update and delete by id,
  and the password-reset request.

For most calls a returned error and a thrown one reach the same `catch` in
the source, so both are `Err`/`Fail`. There are two exceptions, each with a
reply type of its own:

- `signOut`: the store ignores the error the call returns and only reacts to
  a rejection (`SignOutReply`).
- The profile role lookup in `fetchUserProfile` (`ProfileReply`). A returned
  error keeps the bare identity. A rejection is not caught there and reaches
  the `catch` of `getSession` or `signIn`.

JavaScript objects are `map<string, Value>`, and a missing key reads as
`undefined`. Spreading and `delete` become map update and map difference.
Truthiness is modelled as in JavaScript. The `id` argument of an inventory
action is `IntId(n)` or `StrId(s)`. Local comparisons use the raw argument
(`===`/`!==`), while the backend receives `parseInt(id, 10)`. `parseInt` on a
number of the size row ids have gives the number back. On a string it is a parameter
(`parseString: string -> Option<int>`, where `None` means `NaN`). The mismatch
between the two id comparisons is therefore kept, not corrected.
`StringIdDeletesNothingLocally` exhibits it: a string id deletes the backend
row but no local item.

The model follows the code on these points:

- `addItem` and `updateItem` check only `numero_serie` for duplicates, never
  `numero_importacion` (`ImportNumberNotChecked`).
- A failed `signIn` keeps the current user rather than clearing it.
- `signOut` keeps the user when the call rejects.
- `updateItem` writes nothing locally when no local item matches.

## Model

| member | source | states |
|---|---|---|
| JsValues.Truthy | src/stores/inventory.js:42 | `undefined` and `null` are falsy, and a string is truthy iff it is non-empty, as the serial-number tests use it |
| Seqs.Filter | src/stores/inventory.js:109 | `filter` returns no more elements than it is given, each of them qualifying and taken from the input |
| Seqs.Any | src/router/index.js:78-79 | `some` is true exactly when some element satisfies the predicate |
| Seqs.FilterCounts | src/stores/inventory.js:109 | `filter` keeps every qualifying element as often as it occurs and nothing else |
| Seqs.FilterConcat | src/stores/inventory.js:109 | filtering distributes over concatenation, so kept elements stay in their original order |
| Seqs.FindIndex | src/stores/inventory.js:160 | `findIndex` yields the first index whose element qualifies, or none exactly when no element does |
| Backend.ParseInt | src/stores/inventory.js:85 | `parseInt(id, 10)` of a numeric id is that number |
| Backend.FilterNonEmpty | src/stores/inventory.js:50 | a lookup returns rows exactly when some table row satisfies its filter |
| Backend.WhereSerial | src/stores/inventory.js:43-46 | the serial lookup returns rows exactly when some row holds that serial number |
| Backend.WhereSerialElsewhere | src/stores/inventory.js:126-130 | the lookup returns rows exactly when a row other than `parseInt(id)` holds the serial number |
| Seqs.FilterHead | src/stores/inventory.js:82-85 | the first element `filter` keeps is the first qualifying element of its input |
| Backend.WhereId | src/stores/inventory.js:82-85 | select by id returns only table rows with that id, some row exactly when the table has one, and first the earliest such row |
| Backend.DeleteWhereId | src/stores/inventory.js:102-105 | the table keeps every row with another id, no row with that id, and gains no row |
| Backend.UpdateWhereId | src/stores/inventory.js:146-150 | rows with the id take the payload over their own fields; other rows and every column absent from the payload are unchanged |
| Router.RequiresAuth | src/router/index.js:78 | a target requires auth iff some matched record has `requiresAuth` |
| Router.RequiresAdmin | src/router/index.js:79 | a target requires admin iff some matched record has `requiresAdmin` |
| Router.GuardIsAdmin | src/router/index.js:75-76 | the guard counts someone as administrator only when a user is present |
| Router.IsAuthPage | src/router/index.js:89 | the target counts as an auth page iff its name is that of the login or the register route of the table |
| Router.IsAdminAgrees | src/router/index.js:75-76 | the guard's `isAdmin` equals the store's `isAdmin`, and an administrator is signed in |
| Router.Decide | src/router/index.js:81-94 | no user on a protected route gives login whatever the other flags; otherwise a non-admin on an admin route gives home; otherwise a signed-in user on login/register gives home; allow iff none of these holds |
| Router.AdminRoutesRequireAuth | src/router/index.js:21-48 | every route with `requiresAdmin` also has `requiresAuth` |
| Router.SignedOutNeverSentHome | src/router/index.js:81-87 | for any target from the table, a visitor with no user is never sent home, and goes to login iff the target requires auth |
| Router.LoginNamed | src/router/index.js:49-53 | the name `login` resolves to the login route record alone |
| Router.HomeNamed | src/router/index.js:15-20 | the name `home` resolves to the home route record alone |
| Router.LoginPageAllowsSignedOut | src/router/index.js:88-94 | the login page is allowed to a visitor with no user |
| Router.HomePageAllowsSignedIn | src/router/index.js:15-20 | the home page is allowed to every signed-in user |
| Router.RedirectTargetAllowed | src/router/index.js:81-94 | for every table target and user, the page the guard redirects to is itself allowed for the same user |
| Router.RedirectSettlesWithSameReplies | src/router/index.js:67-95 | the guard run again on the redirect target, whose session check gets the same replies as the first, allows it |
| Router.AdminRouteScenarios | src/router/index.js:21-48 | `/add` sends a signed-in non-admin home and a visitor to login; `/edit/:id` admits an administrator |
| Router.BeforeEach | src/router/index.js:67-95 | the session is fetched only when no user is loaded, and the decision is taken on the resulting user |
| Router.FirstNavigationChecksSession | src/router/index.js:71-83 | the first navigation from a fresh store runs the session check; with no session found, or a rejected profile lookup, a protected route leads to login |
| Router.SignedOutAdminRouteGoesToLogin | src/router/index.js:71-83 | after a sign-out, an admin route leads to login unless the session check finds a session |
| AuthStore.FetchUserProfile | src/stores/auth.js:10-25 | no identity gives none; a returned lookup error gives the identity unchanged; a rejected lookup escapes as an error to the caller; a found profile sets `role` and keeps every other field |
| AuthStore.GetSession | src/stores/auth.js:27-46 | an error clears the user and records the message; no session clears the user; a session stores the profile-joined user without touching `error`, unless the profile lookup rejects, which clears the user and records its message; loading ends false |
| AuthStore.SignIn | src/stores/auth.js:48-65 | success stores and returns the profile-joined user and clears the error; a failed sign-in or a rejected profile lookup returns nothing, keeps the user and records the message |
| AuthStore.SignUp | src/stores/auth.js:67-80 | the user never changes; it returns the created identity or nothing with the error recorded |
| AuthStore.SignOut | src/stores/auth.js:82-93 | a call that resolves clears the user whatever it reports; a rejection keeps the user and records the error |
| AuthStore.RecoverPassword | src/stores/auth.js:95-108 | the user never changes; the error is cleared or set to the failure's message |
| AuthStore.IsAdmin | src/stores/auth.js:110 | `isAdmin` holds only when a user is present (its definition is `user?.role === 'admin'`) |
| AuthStore.SignInAdmin | src/stores/auth.js:110 | after a successful sign-in the store reports an administrator iff the profile role (or, when the lookup returns an error, the identity's own role) is `admin`; a rejected lookup leaves the flag as it was |
| AuthStore.AdminFlagAcrossSignOutAndFailedSignIn | src/stores/auth.js:110 | nobody is an administrator after a resolved sign-out; a failed sign-in leaves the flag as it was |
| InventoryStore.SetNotification | src/stores/inventory.js:12-13 | the slot holds the message with the given kind, `success` by default; nothing else changes |
| InventoryStore.ExpireNotification | src/stores/inventory.js:14-16 | the timer empties the slot and changes nothing else |
| InventoryStore.NotificationSlot | src/stores/inventory.js:12-17 | a notification shows at once, is gone after its timer, and a later one replaces it |
| InventoryStore.FetchItems | src/stores/inventory.js:19-35 | success replaces `items` with the received rows; failure keeps `items` and records the error; loading ends false |
| InventoryStore.AddItem | src/stores/inventory.js:37-74 | a failed lookup or a taken truthy serial returns nothing with the list and table unchanged and an error notification; otherwise a failed insert does the same with the error set, and a successful one returns the stored row, puts it at `items[0]` with the old list as `items[1..]`, appends it to the table and shows success |
| InventoryStore.FetchItemById | src/stores/inventory.js:76-96 | the result equals the new `currentItem`, is the first table row with id `parseInt(id)`, and is absent exactly when no row has that id or the query fails |
| InventoryStore.WithoutId | src/stores/inventory.js:109 | exactly the items whose `id` is not `===` the raw argument survive, with their multiplicities |
| InventoryStore.WithoutIdConcat | src/stores/inventory.js:109 | dropping an id distributes over concatenation, so the survivors keep their original order |
| InventoryStore.DeleteItem | src/stores/inventory.js:98-117 | success returns true, leaves the local list as `WithoutId` of the old one (exactly the items whose `id` is not `===` the argument, in their order), and leaves the table as `DeleteWhereId` of the old one (every row but the `parseInt(id)` rows, and nothing added); failure returns false with both unchanged |
| InventoryStore.UpdatePayload | src/stores/inventory.js:140-143 | the payload has no `id` and no `created_at` and keeps every other field of the updates |
| InventoryStore.ReplaceFirst | src/stores/inventory.js:160-163 | the first item whose `id` is `===` the argument is replaced and the others stay; with no such item the list is unchanged; length is kept |
| InventoryStore.WriteBack | src/stores/inventory.js:158-163 | with no row returned the list is unchanged; otherwise it is `ReplaceFirst` with the first returned row, so only the first `===` entry changes |
| InventoryStore.WriteBackAsWritten | src/stores/inventory.js:158-163 | as written: the first `===` entry becomes `data[0]`, which is `undefined` when no row came back; every other entry stays; with no match nothing changes |
| InventoryStore.UndefinedWrittenBack | src/stores/inventory.js:158-163 | for every list with an item `===` the argument and no updated row, the write-back as written stores `undefined` |
| InventoryStore.UndefinedWrittenBackExample | src/stores/inventory.js:158-163 | the list `[{id: 7}]` with no updated row becomes `[undefined]` |
| InventoryStore.UpdateItem | src/stores/inventory.js:119-174 | a failed lookup or a truthy serial held by another row returns nothing with list and table unchanged and an error notification; otherwise the stripped payload is applied to the `parseInt(id)` rows, the first updated row is returned iff the table has one, and that same row replaces the first `===` local item (no returned row leaves the list alone); no stored row ever changes its `id` or `created_at` |
| InventoryProperties.AddThenDuplicateRefused | src/stores/inventory.js:41-53 | after adding an item with a truthy serial, a second item with that serial is refused with the duplicate notification and nothing changes |
| InventoryProperties.ImportNumberNotChecked | src/stores/inventory.js:41-64 | two items sharing an import number but with free, distinct serials are both inserted |
| InventoryProperties.AddThenDeleteRestores | src/stores/inventory.js:37-117 | deleting by its numeric id an item just added restores both the local list and the table |
| InventoryProperties.StringIdDeletesNothingLocally | src/stores/inventory.js:102-109 | a string id removes the parsed row from the table but no local item with a numeric id |

## Findings

| source | as written | input that shows it | evidently intended | confidence | as-written member | corrected member |
|---|---|---|---|---|---|---|
| src/stores/inventory.js:158-163 | `updatedItem` is `data[0]`. When the update touched no row this is `undefined`, and it is still stored at the matching local index | local items `[{id: 7}]`; the row with id 7 was removed from the table by another client; `updateItem(7, {...})` succeeds and the list becomes `[undefined]` | leave the local list alone when no row comes back | medium, not executed | InventoryStore.UndefinedWrittenBack | InventoryStore.WriteBack |

`InventoryStore.UpdateItem` uses the corrected `WriteBack`. When a row comes
back, it behaves exactly as the source does.

## Left out

- Router.RedirectSettlesWithSameReplies: only covers a second session check that gets the same replies as the first. If a session appears in between, the redirected navigation can itself be redirected, and the number of redirects is not bounded here.
- `src/main.js` (application bootstrap, styles, icons) holds no logic and is not part of this model.
- The 3000 ms timer of `setNotification` is the separate event `ExpireNotification`. The model has no clock, so it does not capture an earlier timer clearing a newer notification.
- Interleaving of concurrent actions, and the race between the serial check and the insert, are left out. Every action runs to completion on its own.
- The `loading` flag is only observed between actions, where it is always false. Its `true` value during a call is not modelled.
- `console` output and the view layer are left out, as is Vue/Pinia reactivity.
- The request `recoverPassword` sends is not modelled, including the redirect built from `window.location.origin`. Only its effect on `error` is.
- How `parseInt` reads a string is a parameter, not a definition.
- Backend query semantics beyond a row table are left out:
  - the `created_at` ordering of `fetchItems` (its rows come in the reply);
  - column defaults on insert (the stored row is the new item with the generated columns laid over it);
  - how PostgREST treats a `NaN` key. Here such a key equals no id. The backend may reject it instead, and a `Fail` outcome covers that.
- `null` and `undefined` are both `None` when they stand for "no object". For example, `fetchItemById` returns `undefined` rather than `null` when no row matches.
- Numbers are integers. Fractional numbers and `NaN` as a stored value are not modelled.
- InventoryStore.UpdateItem: uses the corrected write-back. When an update succeeds, returns no row and a local item matches, the source stores `undefined` at that item's index; the model keeps the item (see Findings and `WriteBackAsWritten`).
- Backend.ParseInt: states that a numeric id parses to itself for every integer. In JavaScript this holds only for safe integers. Above 2^53 numbers lose precision, and from 1e21 on `parseInt` reads the exponent form (`parseInt(1e21, 10)` is 1). Row ids stay far below this range.
- InventoryStore.FetchItems: does not state that the rows are newest first, because that order is the backend's.
