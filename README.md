# Care.xyz booking app — a Dafny model of its stateful logic

Care.xyz is a small Next.js app. Users book care services, list their
bookings, register, and get redirected to login on booking pages. This
project models the four pieces with real logic and proves what they promise:

- **Booking store** (`src/utils/storage.js`). This is one browser-storage slot, `'bookings'`,
  holding a JSON array. `saveBooking` reads it, appends a record stamped with
  `id` and `createdAt`, writes the array back, and returns the record. On any
  error it returns `null`. `loadBookings` returns whatever `JSON.parse` gives
  for the slot, or `[]` without a browser, for an absent or empty slot, and
  on a parse error. Its doc comment promises an array, but a slot holding
  `{}` comes back as an object.
  `Storage.LoadAsWritten` models `loadBookings` exactly as line 43 is
  written. The class `Storage.BookingStore` models the store with the
  documented `loadBookings`, which returns `[]` for a non-array too (see
  Findings). Its methods are proved against the specification functions
  `Storage.Save` and `Storage.Load`. The lemmas about those functions state
  the append, round-trip, error and id properties.
- **Cancel** (`src/app/my-bookings/page.jsx`). `handleCancel(id)` maps the
  page's in-memory list. It marks every entry whose `id` matches as
  "Cancelled", and a row offers the cancel button only while its status is not
  "Cancelled". `MyBookings.Cancel` is a function of the list alone and never
  sees the store, so cancelling cannot change what is persisted.
- **Registration** (`src/app/register/page.jsx`). This covers the password
  regex `/^(?=.*[a-z])(?=.*[A-Z]).{6,}$/`, the field update `handleChange`, and
  the accept/reject branch of `handleRegister`. JavaScript strings are UTF-16
  code units, so the regex is modelled on code units.
- **Route guard** (`middleware.js`). `isPrivateRoute` is a prefix test. A
  private path without a token is redirected to `/login`. The `matcher`
  config decides which paths the middleware runs on at all.

Objects are finite maps from property names to JSON values (`Json.Record`).
An object spread `{ ...b, k: v }` is therefore a map update, and "every other
field unchanged" is a statement about the map. The clock (`Date.now()`), the
ISO time string, whether the code runs in a browser, whether `setItem` throws,
and whether `getToken` finds a token are all inputs.

Three behaviours of the code worth knowing:
- An unparseable slot makes `saveBooking` return `null`. It is not read as an
  empty list.
- Nothing makes ids unique. Two saves in the same millisecond share an id (`Storage.SameClockSameId`).
- `loadBookings` as written returns a parsed value that is not an array as
  that value (`Storage.LoadAsWritten`). The class uses the corrected
  `Storage.Load` (see Findings).

Files: `wrappers.dfy` (Option), `json.dfy` (values and records),
`storage.dfy`, `my_bookings.dfy`, `register.dfy`, `middleware.dfy`.

## Model

| member | source | states |
|---|---|---|
| Storage.Stamp | src/utils/storage.js:20-24 | The new record has every field of `bookingData` and exactly the keys `id` and `createdAt` added. `id` equals the supplied clock value and `createdAt` the supplied ISO string, overriding caller-supplied values. |
| Storage.Save | src/utils/storage.js:17-32 | A save succeeds iff there is a browser, the write does not fail, and the slot is absent, empty or an array. On success the returned record is the stamped data, and the slot becomes the earlier records followed by that one record. On failure the result is `null` and the slot is unchanged. |
| Storage.Load | src/utils/storage.js:38-48 | Inside a browser, a slot holding an array loads as exactly its records. Every other case gives `[]`: no browser, an absent, empty, unparseable or non-array slot. |
| Storage.Parse | src/utils/storage.js:19 | Defines what `JSON.parse` makes of the slot's text, with `'[]'` standing in for a missing or empty item. An absent or empty slot gives `[]`, an array gives its records, a non-array gives that value, and unparseable text gives a syntax error. |
| Storage.LoadAsWritten | src/utils/storage.js:38-48 | Defines `loadBookings` exactly as written. It gives `[]` without a browser and on a parse error; otherwise it gives the parsed value, array or not. This is the as-written half of the Findings row. |
| Storage.BookingStore.SaveBooking | src/utils/storage.js:17-32 | The method's new slot and return value are those of `Save` applied to the old slot and the inputs. |
| Storage.BookingStore.LoadBookings | src/utils/storage.js:38-48 | Returns `Load` of the current slot. It has no modifies clause, so it cannot change the slot. |
| Storage.SaveIntoFreshSlot | src/utils/storage.js:19 | An absent or empty-string slot counts as `[]`. A successful save into it leaves a one-element array, the returned record. |
| Storage.SaveFailsWithoutDamage | src/utils/storage.js:18-31 | Each of these returns `null` and leaves the slot unchanged: an unparseable slot, a non-array slot, a failing write, or no browser. |
| Storage.SaveThenLoad | src/utils/storage.js:19-43 | Round trip: after a successful save, loading gives the earlier records, unchanged and in order, with the returned record appended last. |
| Storage.SaveAllAppends | src/utils/storage.js:19-26 | N successive successful saves append exactly the N stamped records, in order, after the records already stored. |
| Storage.StampedIds | src/utils/storage.js:22 | Each created record's `id` is the clock reading of its own save. |
| Storage.SavedIdsDistinctIff | src/utils/storage.js:22 | Saving N requests into an absent slot stores N records. Their ids are pairwise distinct iff the clock readings are, in both directions, so the code does not enforce uniqueness. |
| Storage.SameClockSameId | src/utils/storage.js:22 | Two saves with the same clock reading store two records with equal ids. |
| Storage.LoadAgreesWithAsWritten | src/utils/storage.js:38-48 | The written `loadBookings` and the documented one agree on every slot except a parsed non-array in a browser. There the written one returns the parsed value and the documented one returns `[]`. |
| Storage.LoadAsWrittenReturnsObject | src/utils/storage.js:43 | A slot holding `{}` is loaded by the written code as an object, not an array. |
| MyBookings.Cancel | src/app/my-bookings/page.jsx:15 | Cancelling keeps the list's length. |
| MyBookings.CancelEntry | src/app/my-bookings/page.jsx:15 | Defines one entry of the map: a matching entry becomes `{ ...b, status: "Cancelled" }`, and any other entry is returned as `b`. |
| MyBookings.CancelPointwise | src/app/my-bookings/page.jsx:15 | Every entry whose `id` matches ends with status "Cancelled" and all other fields unchanged, however many entries share the id. Every other entry is returned unchanged, at the same position. |
| MyBookings.CancelAbsentId | src/app/my-bookings/page.jsx:15 | Cancelling an id that no entry carries returns a list equal to the input. |
| MyBookings.CancelKeepsIds | src/app/my-bookings/page.jsx:15 | Cancelling never changes an entry's `id`. |
| MyBookings.CancelIdempotent | src/app/my-bookings/page.jsx:15 | Cancelling the same id twice gives the same list as cancelling it once. |
| MyBookings.CancelOffered | src/app/my-bookings/page.jsx:59 | Defines whether a row shows the cancel button: `booking.status !== "Cancelled"`, with a missing status counting as not "Cancelled". |
| MyBookings.CancelWithdrawsOffer | src/app/my-bookings/page.jsx:59 | After cancelling, no matching entry offers the cancel button. An entry that did not offer it before does not offer it afterwards. |
| MyBookings.CancelOfferedIff | src/app/my-bookings/page.jsx:59 | The cancel action is offered exactly when the status is missing or differs from "Cancelled". This unfolds `CancelOffered`; its partner property is `CancelWithdrawsOffer`. |
| Register.PasswordRegexTest | src/app/register/page.jsx:43 | Defines `passwordRegex.test` on code units: the two lookaheads from position 0, then `.{6,}` running to the end of input. |
| Register.PasswordRegexCharacterized | src/app/register/page.jsx:43 | The regex, read construct by construct (two lookaheads, then `.{6,}` to the end), accepts a string iff all of these hold: at least 6 code units, no line terminator, an ASCII lowercase letter and an ASCII uppercase letter. |
| Register.PasswordExtends | src/app/register/page.jsx:43 | Appending any code unit other than a line terminator to an accepted password keeps it accepted. |
| Register.PasswordExampleAccepted | src/app/register/page.jsx:38 | "Pass12" is accepted. |
| Register.PasswordExampleNoUpper | src/app/register/page.jsx:39 | "password" is rejected. |
| Register.PasswordExampleNoLower | src/app/register/page.jsx:40 | "PASSWORD" is rejected. |
| Register.PasswordExampleTooShort | src/app/register/page.jsx:41 | "Pass1" is rejected. |
| Register.PasswordCountsCodeUnits | src/app/register/page.jsx:43 | Length is counted in UTF-16 code units. A 4-character password of two letters and two astral-plane emoji is 6 units and is accepted. |
| Register.HandleChange | src/app/register/page.jsx:15-17 | `handleChange` sets the named field to the new value. Every other field is unchanged, and no field is dropped. |
| Register.ApplyChangesLastWins | src/app/register/page.jsx:16 | After any run of change events, each field of the form is still present. It holds the value of the last event naming it, or its initial value if no event named it. |
| Register.PasswordOf | src/app/register/page.jsx:45 | Defines `formData.password` as the regex sees it. A missing field is tested as the text "undefined". |
| Register.HandleRegister | src/app/register/page.jsx:45-55 | A password breaking the rule alerts the fixed message and returns early with no navigation. An accepted one navigates to "/". |
| Register.RegisterChecksLastPassword | src/app/register/page.jsx:7-55 | Starting from the initial empty form, the handler's outcome, once it runs, is navigation iff the password last typed (or "" if none) satisfies the rule. |
| Middleware.IsPrivateRoute | middleware.js:11-13 | Defines `isPrivateRoute`: the path starts with "/booking" or with "/my-bookings". |
| Middleware.MatchesPattern | middleware.js:23 | Defines the paths that one `base/:path*` pattern selects: `base` itself, or `base` followed by "/" and anything. |
| Middleware.Matched | middleware.js:23 | Defines the paths that `config.matcher` selects: those matching either of its two patterns. |
| Middleware.HandleRequest | middleware.js:11-19 | A private path without a token redirects to "/login". A request passes through iff the path is not private or a token is present. |
| Middleware.PrivateByPrefix | middleware.js:11-13 | Any path starting with "/booking" (including "/bookings" and "/booking/x") or with "/my-bookings" is private. |
| Middleware.PublicPaths | middleware.js:11-13 | "/", "/login", "/register" and "/service/1" are not private. |
| Middleware.MatchedIsPrivate | middleware.js:11-23 | Every path selected by the matcher patterns `/booking/:path*` and `/my-bookings/:path*` satisfies `isPrivateRoute`. |
| Middleware.Route | middleware.js:22-23 | A path the matcher does not select always passes through. |
| Middleware.RouteRedirectsIff | middleware.js:11-23 | With the matcher applied, a request is redirected to "/login" iff the matcher selects it and there is no token. Otherwise it passes through. |
| Middleware.BookingsPrivateButUnmatched | middleware.js:11-23 | "/bookings" is private by prefix, yet the matcher never runs the middleware on it, so it passes through without a token. |

## Findings

| source | as written | input that shows it | evidently intended | confidence | as-written member | corrected member |
|---|---|---|---|---|---|---|
| src/utils/storage.js:43 | `loadBookings` returns whatever `JSON.parse` yields, including a value that is not an array | slot text `{}` (or `null`, `5`): the result is an object (or `null`, a number), and the page's `bookings.map` then fails | return `[]` for a parsed non-array, as the function's doc comment (`@returns {Array}`, line 36) promises | medium, not executed | Storage.LoadAsWritten (shown by Storage.LoadAsWrittenReturnsObject) | Storage.Load (used by Storage.BookingStore.LoadBookings) |

## Left out

- Output (`console.error`, `console.log`, `alert`) and all JSX rendering. Only the decisions behind them are modelled.
- JSON text and its syntax. The slot is represented by what `JSON.parse` makes of it, and `JSON.stringify` followed by `JSON.parse` is taken to return the records unchanged.
- The key order of objects is not modelled: records are maps.
- Numbers are integers. Floating-point hours and costs, `NaN` and `undefined` values inside records are not represented.
- A stored array whose elements are not all objects is not represented.
- A `getItem` that throws while a `window` exists (storage blocked by the browser) is not modelled separately. Both operations end on their error path in that case, as with no browser.
- Strict equality `b.id === id` is modelled as value equality. For object or array ids, JavaScript compares references.
- Concurrent saves from two tabs (the lost update of the read-modify-write) are not modelled. Each save is one atomic step.
- React's state handling (`useState`, `useEffect` loading on mount, `setBookings`, `setFormData`) is not modelled. The model covers the values these are given.
- Form values are Dafny strings, so a lone surrogate typed into the password field is not representable. The password rule itself is stated on code units.
- `e.preventDefault()` cancels the browser's own form submission. The model takes that as given: `handleRegister`'s only effects are its alert and its navigation. The "Register logic here" placeholder and its `console.log` have no effect and are not modelled.
- Registration is modelled from the handler's entry. The browser's constraint validation is not modelled: every input is `required` and the email input is `type="email"` (src/app/register/page.jsx:60-76), so the browser never calls `handleRegister` while a field is empty or the email is malformed, whatever the password.
- `getToken` and JWT decoding are external library calls. Token presence is a boolean input.
- Middleware.MatchesPattern: admits any path that starts with `base/`, including empty segments. This is a superset of what the framework's pattern compiler selects, so `Middleware.MatchedIsPrivate` covers every path the framework matches. For the same reason, `Middleware.Route` and `Middleware.RouteRedirectsIff` also claim a redirect on paths the framework pattern does not select, such as "/booking//x" without a token. The pattern is read case-sensitively.
- The redirect target is modelled as the path "/login". The absolute URL built from `request.url` is not.
- The invoice route (`src/app/api/send-invoice/route.js`) sends mail over SMTP, which is network I/O. The booking page, the service pages, login, layout, not-found and the auth configuration only render or delegate, and `src/utils/data` is not part of this model.
