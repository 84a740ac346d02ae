# Eonite portal: a Dafny model of its client-side logic

The Eonite portal is a business portal for a packaging vendor and its clients. Most of
it is presentation over a hosted database and its authentication service. This project
models, in Dafny, the parts of the portal's code that make decisions:

- the helpers of `lib/utils.ts`: the three-state stock classifier and its colours, the
  order-status labels and colours, initials, and the normalisation of the site URL;
- the route guard of `middleware.ts`: sign-in pages, protected pages, and the staff-only
  admin area;
- the translation lookup and the saved-language rule of `lib/LanguageContext.tsx`;
- the two video-call notification components. Each is a class holding the list of rows;
  the bell also holds an unread counter;
- the admin layout: who is admitted, the menu figures, and how each menu badge renders;
- the video-call webhook, which turns events into notification rows;
- the light/dark theme: its state, its stored value and the document's `dark` class;
- the sign-up, update-password and sign-in pages: password checks and where each outcome
  leads.

Database queries, authentication calls and browser facilities are not modelled as code.
Their outcomes are parameters of the methods that use them:

- a query gives `QueryResult` (an error, or data that may be `null`);
- an update gives a success flag;
- a sign-in gives an optional error message;
- the session user is a presence flag, and the profile role an `Option<string>`;
- local storage is a `map<string, string>` field;
- the system colour-scheme preference is a boolean parameter.

Each React component that keeps state becomes a class. Its fields are the state its
handlers change, plus the navigation they request (`router.push`); the admin layout's
`admitted` stands for its `setUser`. Its methods are the handlers. An asynchronous handler is applied as
one atomic step; "## Left out" says what that does not capture.

Module layout, one file per module:

- Wrappers: `Option` and `QueryResult`.
- Strings: JavaScript's `split` with a one-character separator and its inverse `Join`
  (which builds dotted translation keys), `includes`, an ASCII `toUpperCase`, and `||` on
  strings.
- Roles: the `admin`/`designer` test shared by three files.
- PasswordRules: the check chain shared by two pages.
- Notifications: the row shapes of `types/daily.ts` and the list updates the two
  notification components apply.
- Utils, Middleware, Language, NotificationCenter, NotificationsWidget, AdminLayout,
  DailyWebhook, Theme, Signup, UpdatePassword, Login: one each per source file.

Facts the proofs establish:

- the admin low-stock counter counts exactly the rows the stock classifier calls critical
  or low, whenever every critical threshold is at most its alert threshold;
- a dotted key built from a path of segments translates to the string at the end of that
  path (`split` and `join` are proved inverse);
- the bell's unread counter never goes negative. Because the counter is adjusted rather
  than recounted, it can fall behind the rows: clicking a row that is already read still
  lowers it. `CounterFallsBehind` exhibits an unread row with the badge hidden.

## Model

| member | source | states |
|---|---|---|
| `Strings.Split` | lib/utils.ts:48 | `split` always gives at least one piece, and no piece contains the separator |
| `Strings.JoinSplit` | lib/LanguageContext.tsx:41 | joining the pieces of a split with the same separator gives back the original string |
| `Strings.SplitJoin` | lib/LanguageContext.tsx:41 | splitting a join of separator-free pieces gives back the pieces |
| `Strings.SplitConcat` | lib/utils.ts:48 | a separator splits a string into the pieces of its left side followed by those of its right side |
| `Strings.SplitPiece` | lib/utils.ts:48 | a string without separators splits into itself |
| `Strings.Join` | lib/LanguageContext.tsx:41 | the inverse of the key split, which builds dotted keys: the join starts with the first piece, puts the separator right after it when there are more, and has at least one character per separator |
| `Strings.Contains` | lib/utils.ts:120 | a prefix is an occurrence, and a string only contains substrings no longer than itself |
| `Strings.ContainsIffOccurs` | lib/utils.ts:120 | `includes` holds exactly when the substring occurs at some index, anywhere and not only at the start |
| `Strings.ContainsAppend` | lib/utils.ts:122 | appending text keeps an occurrence (so the trailing slash keeps "http") |
| `Strings.UpperChar` | lib/utils.ts:51 | ASCII upper-casing maps `a`..`z` to `A`..`Z` and leaves every other character alone |
| `Strings.Upper` | lib/utils.ts:51 | upper-casing keeps the length and works character by character |
| `Strings.OrElse` | lib/utils.ts:79 | JavaScript `v \|\| fallback`: a missing or empty string falls back, any other value is kept |
| `Utils.GetStockLevel` | lib/utils.ts:55-59 | critical iff quantity <= critical threshold; low iff critical < quantity <= alert; high iff quantity is above both thresholds |
| `Utils.LowUnreachableWhenInverted` | lib/utils.ts:55-59 | because the critical test runs first, a critical threshold above the alert threshold makes `low` unreachable |
| `Utils.NotHighIffAtMostAlert` | lib/utils.ts:55-59 | with critical <= alert, the level is not `high` exactly when quantity <= alert: the admin counter's test |
| `Utils.GetStockLevelColor` | lib/utils.ts:61-68 | the class list is a green one exactly for high, a yellow one exactly for low, and a red one exactly for critical |
| `Utils.StockLevelColorsDistinct` | lib/utils.ts:61-68 | the three levels get three different colour strings: green for high, yellow for low, red for critical |
| `Utils.Lookup` | lib/utils.ts:79 | indexing a record gives the stored value when the key is present and `undefined` otherwise |
| `Utils.GetOrderStatusColor` | lib/utils.ts:70-80 | a known status gets its table colour; any other string gets grey |
| `Utils.UnknownStatusColoredAsQuote` | lib/utils.ts:70-80 | an unknown status is coloured exactly like `quote` |
| `Utils.GetOrderStatusLabel` | lib/utils.ts:82-92 | a known status gets its table label; any other string is returned unchanged |
| `Utils.KnownStatusLabels` | lib/utils.ts:83-90 | the six statuses map to Quote, Confirmed, In Production, On Delivery, Delivered and Cancelled, each different from the status |
| `Utils.WordHeads` | lib/utils.ts:49-50 | the first characters of the words number at most the words: exactly as many when no word is empty, none when every word is empty |
| `Utils.FirstChar` | lib/utils.ts:49 | `word[0]` as written by `join`: the word's first character, or the empty string for an empty word |
| `Utils.WordHeadsConcat` | lib/utils.ts:49-50 | the heads of two word lists are the heads of each, in order |
| `Utils.GetInitials` | lib/utils.ts:46-53 | the initials are the first min(2, n) characters of the n upper-cased word heads |
| `Utils.InitialsOfEmpty` | lib/utils.ts:46-53 | the empty name has empty initials |
| `Utils.InitialsOfTwoWords` | lib/utils.ts:46-53 | "first rest" gives the upper-cased first letters of both words |
| `Utils.HeadsIgnoreRepeatedSpaces` | lib/utils.ts:48-50 | a doubled space adds only an empty word, which contributes no head |
| `Utils.InitialsIgnoreRepeatedSpaces` | lib/utils.ts:46-53 | a doubled space between words does not change the initials |
| `Utils.SiteUrlCandidate` | lib/utils.ts:114-117 | `??` picks the site variable if set (even when empty), else the deployment variable, else localhost |
| `Utils.NormalizeUrl` | lib/utils.ts:119-123 | the result contains "http" and ends with '/'; it starts with the input, or with `https://` and the input, and grows by at most the added scheme and slash; the slash is added only when missing, so an input with "http" and a trailing slash is kept as is, and one without "http" that ends in a slash gets only the scheme |
| `Utils.NormalizeIdempotent` | lib/utils.ts:119-123 | normalising twice is the same as normalising once |
| `Utils.HttpTestIsNotPrefixTest` | lib/utils.ts:120 | "myhttp.example.com" gets no scheme, only a slash: the test is a substring test |
| `Utils.GetUrl` | lib/utils.ts:113-124 | the site URL contains "http", ends with '/', is left unchanged by a second normalisation, and starts with the site variable (or `https://` and it) when that is set |
| `Utils.GetUrlFallbacks` | lib/utils.ts:113-124 | no variables give `http://localhost:3000/`; an empty site variable is kept and gives `https://` |
| `Roles.IsStaff` | middleware.ts:68 | a missing profile or role is never staff, and a client account is not staff |
| `Middleware.Guard` | middleware.ts:36-76 | passes through exactly when: on /login or /signup there is no user; elsewhere, protected paths have a user and /admin paths have a staff role. Redirects to /dashboard exactly for a user on a sign-in page or a non-staff user on /admin. Redirects to /login with `redirectTo` set to the path exactly for an anonymous visitor on a protected path |
| `Middleware.SignedInStaffOnLoginGoesToDashboard` | middleware.ts:36-42 | the sign-in test comes first: a signed-in admin on /login is sent to /dashboard, not to /admin |
| `Middleware.PrefixMatching` | middleware.ts:36 | matching is by prefix: /login-help counts as a sign-in page and /productsX as a protected page |
| `Middleware.OtherPathsPassThrough` | middleware.ts:76 | any other path passes through whatever the session |
| `Language.ParseSaved` | lib/LanguageContext.tsx:29-32 | a stored value is adopted exactly when it is "fr" or "en", as that language |
| `Language.ParseSavedCode` | lib/LanguageContext.tsx:28-38 | the value `setLanguage` stores is read back as the same language |
| `Language.Resolve` | lib/LanguageContext.tsx:44-50 | the walk of `t`: no keys leave the value as it is; a missing value or a string before a remaining key is a miss; a hit past the first key means the first value was an object |
| `Language.Translate` | lib/LanguageContext.tsx:40-53 | `t` returns the string the walk reaches, and returns something other than the key only when the walk reached that string |
| `Language.ResolveConcat` | lib/LanguageContext.tsx:44-50 | walking a path in two parts is walking the first part and then the second |
| `Language.ResolveMissEnds` | lib/LanguageContext.tsx:45-48 | once a segment has missed, the walk stays missed |
| `Language.FoundPath` | lib/LanguageContext.tsx:40-53 | a key whose dot-separated segments lead to a string translates to that string |
| `Language.MissReturnsKey` | lib/LanguageContext.tsx:44-48 | a segment missing from the object reached so far, or a string reached before the last segment, makes `t` return the key |
| `Language.SectionReturnsKey` | lib/LanguageContext.tsx:52 | a key that leads to an object rather than a string translates to itself |
| `Language.LanguageProvider.constructor` | lib/LanguageContext.tsx:25 | the language starts as French |
| `Language.LanguageProvider.LoadSaved` | lib/LanguageContext.tsx:28-33 | the mount effect adopts a valid stored language, otherwise keeps the current one, and writes nothing |
| `Language.LanguageProvider.SetLanguage` | lib/LanguageContext.tsx:35-38 | the language becomes the argument and its code is stored under `eonite-language` |
| `Language.LanguageProvider.T` | lib/LanguageContext.tsx:40-53 | the loop returns the translation of the key in the current language's tree only, or the key on any miss |
| `Notifications.CountUnread` | components/DailyNotifications.tsx:55 | the number of unread rows is at most the number of rows |
| `Notifications.CountUnreadZeroIff` | components/DailyNotifications.tsx:55 | no unread row exactly when every row is read |
| `Notifications.UnreadIds` | components/DailyNotifications.tsx:167 | one id per unread row, and an id is sent exactly when some unread row carries it |
| `Notifications.UnreadIdsConcat` | components/DailyNotifications.tsx:167 | the ids follow the rows' order: the ids of two lists are the ids of the first then those of the second |
| `Notifications.MarkRead` | components/DailyNotifications.tsx:160-162 | same length; rows with that id become read with all else kept; every other row unchanged |
| `Notifications.MarkAllRead` | components/DailyNotifications.tsx:181 | same length; every row becomes read and nothing else in it changes |
| `Notifications.ReplaceById` | components/DailyNotificationsWidget.tsx:38-40 | same length and order; each row with the new row's id is replaced by it, the others kept |
| `Notifications.MarkAllReadLeavesNoneUnread` | components/DailyNotifications.tsx:181-182 | after marking all read no row is unread, so the counter and the rows agree again |
| `Notifications.MarkReadCount` | components/DailyNotifications.tsx:160-163 | marking an id read removes from the unread count exactly the unread rows with that id |
| `Notifications.CountUnreadWithId` | components/DailyNotifications.tsx:160-163 | the unread rows with a given id are among the unread rows |
| `NotificationCenter.BadgeText` | components/DailyNotifications.tsx:195-197 | the badge is hidden when nothing is unread, reads "9+" above nine, and otherwise shows the one digit of the count |
| `NotificationCenter.NotificationCenterState.Badge` | components/DailyNotifications.tsx:195-197 | under the counter invariant the bell's badge is hidden exactly when the counter is 0, and reads "9+" above nine |
| `NotificationCenter.NotificationCenterState.constructor` | components/DailyNotifications.tsx:11-13 | the list starts empty and the counter at 0 |
| `NotificationCenter.NotificationCenterState.Load` | components/DailyNotifications.tsx:42-57 | an error changes nothing; otherwise the fetched rows (none for `null`) replace the list and the counter is their unread count |
| `NotificationCenter.NotificationCenterState.HandleNew` | components/DailyNotifications.tsx:59-62 | the row is prepended and the counter rises by exactly one, read or not |
| `NotificationCenter.NotificationCenterState.MarkAsRead` | components/DailyNotifications.tsx:149-164 | a failed update changes nothing; a successful one marks the rows with that id read and sets the counter to max(0, counter - 1) |
| `NotificationCenter.NotificationCenterState.MarkAllAsRead` | components/DailyNotifications.tsx:166-183 | the ids sent are the unread rows' ids; with none, or on failure, nothing changes; otherwise every row is read and the counter is 0 |
| `NotificationCenter.CounterFallsBehind` | components/DailyNotifications.tsx:160-163 | with two unread rows and one read row, clicking the read row and then one unread row hides the badge while one row is still unread |
| `NotificationsWidget.NotificationsWidgetState.constructor` | components/DailyNotificationsWidget.tsx:11-12 | the list starts empty and loading |
| `NotificationsWidget.NotificationsWidgetState.OnInsert` | components/DailyNotificationsWidget.tsx:26-28 | an INSERT prepends the new row and keeps the rest of the list |
| `NotificationsWidget.NotificationsWidgetState.OnUpdate` | components/DailyNotificationsWidget.tsx:37-41 | an UPDATE replaces the rows with that id in place |
| `NotificationsWidget.NotificationsWidgetState.Load` | components/DailyNotificationsWidget.tsx:50-65 | fetched rows (none for `null`) replace the list; a failed query keeps it; loading ends either way |
| `NotificationsWidget.NotificationsWidgetState.MarkAsRead` | components/DailyNotificationsWidget.tsx:67-77 | rows with that id become read before the backend answers and are never reverted; other rows are unchanged |
| `NotificationsWidget.ReplaceByReadRowCount` | components/DailyNotificationsWidget.tsx:37-41 | replacing rows with a read row never adds unread rows |
| `AdminLayout.LowStockCount` | components/AdminLayout.tsx:94 | the low-stock figure counts some of the rows, never more than all of them |
| `AdminLayout.NoLowStockIff` | components/AdminLayout.tsx:94 | the figure is 0 exactly when every row is strictly above its alert threshold: the bound is inclusive |
| `AdminLayout.LowStockCountMatchesStockLevels` | components/AdminLayout.tsx:94 | when every critical threshold is at most its alert threshold, the figure is the number of rows classified critical or low |
| `AdminLayout.UnreadSumConcat` | components/AdminLayout.tsx:95 | the unread sum over two groups of conversations is the sum of the two sums |
| `AdminLayout.UnreadSum` | components/AdminLayout.tsx:60 | with non-negative counts the sum is non-negative and at least each single conversation's count, a missing count read as 0 |
| `AdminLayout.UnreadSumAllMissing` | components/AdminLayout.tsx:60 | conversations that all lack a count give a sum of 0 |
| `AdminLayout.LengthOrZero` | components/AdminLayout.tsx:100-102 | the totals are the number of rows, or 0 when the data is `null` |
| `AdminLayout.ComputeStats` | components/AdminLayout.tsx:94-103 | the five figures are the inclusive low-stock count, the unread sum and the three row counts |
| `AdminLayout.AccessDecision` | components/AdminLayout.tsx:66-81 | no user goes to /login; a user who is not staff, or has no profile, goes to /dashboard; only staff are admitted |
| `AdminLayout.Badge` | components/AdminLayout.tsx:115 | a red badge's value is `null` unless its figure is positive, and then the figure |
| `AdminLayout.RenderBadge` | components/AdminLayout.tsx:164-168 | `badge && <span>` renders nothing for `null`, the bare text "0" for the number 0, and a pill with the figure for any other number |
| `AdminLayout.RedBadgeView` | components/AdminLayout.tsx:115 | a red badge never shows a bare "0": it is a pill exactly when its figure is positive, holding that figure |
| `AdminLayout.CountBadgeView` | components/AdminLayout.tsx:113 | a count badge is never hidden: a zero total shows a bare "0", a positive one a pill |
| `AdminLayout.IsActive` | components/AdminLayout.tsx:123 | a menu entry is active exactly when the path equals its link |
| `AdminLayout.SubpageIsNotActive` | components/AdminLayout.tsx:123 | no path that extends an entry's link, such as a page below it, makes the entry active |
| `AdminLayout.AdminLayoutState.constructor` | components/AdminLayout.tsx:23-29 | all figures start at 0 |
| `AdminLayout.AdminLayoutState.LoadUserAndStats` | components/AdminLayout.tsx:64-104 | a turned-away visitor is sent to /login or /dashboard and no stats are loaded; an admitted one gets the computed stats |
| `AdminLayout.AdminLayoutState.InventoryBadge` | components/AdminLayout.tsx:115 | the inventory entry shows the low-stock figure exactly when it is positive |
| `AdminLayout.AdminLayoutState.MessagesBadge` | components/AdminLayout.tsx:118 | the messages entry shows the unread figure exactly when it is positive |
| `AdminLayout.AdminLayoutState.OrdersBadge` | components/AdminLayout.tsx:113 | the orders entry always shows its total: a bare "0" when there are none, else a pill with the total |
| `AdminLayout.AdminLayoutState.ClientsBadge` | components/AdminLayout.tsx:114 | the clients entry always shows its total: a bare "0" when there are none, else a pill with the total |
| `AdminLayout.AdminLayoutState.ProductsBadge` | components/AdminLayout.tsx:117 | the products entry always shows its total: a bare "0" when there are none, else a pill with the total |
| `AdminLayout.AdminLayoutState.LoadUnreadCount` | components/AdminLayout.tsx:58-62 | only the unread figure changes, to the new sum |
| `DailyWebhook.ParticipantJoinedRow` | app/api/webhooks/daily/route.ts:48-55 | a participant_joined row with the payload's room and session id, the payload as event data, unread, and the user name or "Unknown Participant" when it is missing or empty |
| `DailyWebhook.MeetingEndedRow` | app/api/webhooks/daily/route.ts:72-79 | a meeting_ended row with the room, no participant name or id, the payload as event data, unread |
| `DailyWebhook.RowFor` | app/api/webhooks/daily/route.ts:25-33 | "participant.joined" and "meeting.ended" build their rows; any other type builds none |
| `DailyWebhook.Post` | app/api/webhooks/daily/route.ts:17-43 | a body that does not parse, or a failed insert, is answered 500 "Internal server error"; everything else, unknown types included, 200 with success |
| `DailyWebhook.UnknownEventAcknowledged` | app/api/webhooks/daily/route.ts:29-35 | an unknown event inserts nothing and is answered 200 |
| `Theme.ParseSaved` | lib/ThemeContext.tsx:26-27 | a stored value counts exactly when it is "light" or "dark", as that theme |
| `Theme.ParseSavedName` | lib/ThemeContext.tsx:52-56 | the value `setTheme` stores is read back as the same theme |
| `Theme.Toggled` | lib/ThemeContext.tsx:59 | toggling always changes the theme |
| `Theme.ToggleTwice` | lib/ThemeContext.tsx:58-61 | toggling twice gives back the original theme |
| `Theme.MountTheme` | lib/ThemeContext.tsx:25-41 | a valid stored theme wins; otherwise dark exactly when the system prefers dark |
| `Theme.ThemeProvider.constructor` | lib/ThemeContext.tsx:17-22 | light on the server; on the client, dark exactly when the document has the `dark` class |
| `Theme.ThemeProvider.ApplyTheme` | lib/ThemeContext.tsx:43-50 | the document has the `dark` class exactly when the theme applied is dark |
| `Theme.ThemeProvider.SetTheme` | lib/ThemeContext.tsx:52-56 | the theme becomes the argument, is stored under `eonite-theme`, and the class follows it |
| `Theme.ThemeProvider.ToggleTheme` | lib/ThemeContext.tsx:58-61 | the theme flips and the new one is stored |
| `Theme.ThemeProvider.Mount` | lib/ThemeContext.tsx:25-41 | the mount effect adopts the mount-time theme, stores nothing, and leaves the class alone when the theme did not change |
| `Theme.ToggleTwiceRestores` | lib/ThemeContext.tsx:58-61 | two toggles restore the theme and leave it stored |
| `PasswordRules.ValidatePassword` | app/signup/page.tsx:38-48 | the mismatch message exactly when the two entries differ; the length message exactly when they match and have fewer than 6 characters; accepted exactly otherwise |
| `PasswordRules.MismatchBeforeLength` | app/update-password/page.tsx:29-39 | a mismatch of two short passwords reports the mismatch |
| `PasswordRules.LengthBoundary` | app/update-password/page.tsx:35-39 | six characters pass; five give the length message |
| `Signup.ParseField` | app/signup/page.tsx:87-92 | an input name picks the field of the same name |
| `Signup.ParseFieldName` | app/signup/page.tsx:22-29 | every field is found again under its own name |
| `Signup.SignupForm.With` | app/signup/page.tsx:88-91 | the named field takes the new value and every other field keeps its value |
| `Signup.SignupPage.constructor` | app/signup/page.tsx:22-31 | all fields empty, not loading, no error |
| `Signup.SignupPage.HandleChange` | app/signup/page.tsx:87-92 | only the field named by the input changes |
| `Signup.SignupPage.HandleSignup` | app/signup/page.tsx:33-85 | the error is cleared first; a failed check shows its message, stops loading and makes no sign-up call; a failed call shows its message without navigation; success goes to /verify-email |
| `UpdatePassword.UpdatePasswordPage.constructor` | app/update-password/page.tsx:18-22 | empty entries, not loading, no error, no success |
| `UpdatePassword.UpdatePasswordPage.HandleUpdate` | app/update-password/page.tsx:24-55 | a failed check or a failed update shows its message and stops loading; success sets `success`, keeps `loading` set and schedules /dashboard |
| `Login.RedirectTarget` | app/login/page.tsx:20 | a missing or empty `redirectTo` parameter gives /dashboard; any other value is kept |
| `Login.PostLoginTarget` | app/login/page.tsx:58-62 | admin or designer goes to /admin/dashboard; any other role, or no profile, to `redirectTo` verbatim |
| `Login.LoginPage.constructor` | app/login/page.tsx:20-26 | the page takes its redirect target from the query parameter |
| `Login.LoginPage.HandleLogin` | app/login/page.tsx:28-65 | the error is cleared first; a sign-in error shows its message and stops loading; no user stops loading; otherwise the role picks the page to open |

## Left out

- The cart, discount and order-composition engine, and order-number allocation: their source is not part of this model, so they are not modelled.
- All database and authentication calls, real-time channels and `router.refresh()`: they are external. Their outcomes are method parameters.
- The cookie synchronisation of `middleware.ts` and its path matcher: the framework interprets them.
- `calculateTTC` / `calculateHT`: floating-point arithmetic.
- `formatCurrency`, `formatDate`, `formatDateTime`: locale formatting by `Intl`.
- `cn`: a wrapper over two styling libraries.
- `debounce`: timers and a mutable closure.
- The notification sound, the toast element and their timers in `components/DailyNotifications.tsx`. The panel's open/closed toggle is left out too: it is presentation only.
- The pages' markup, and the presentation-only components (`ClientHeader`, `ChatInput`, `MessageBubble`, `LanguageToggle`, the verify-email and forgot-password pages).
- The profile update that the sign-up page makes after a successful sign-up: it does not change the page's state.
- JavaScript-only quirks of the lookups:
  - inherited object properties such as `constructor` in the status tables;
  - JSON values other than strings and objects in the translation files;
  - non-ASCII upper-casing;
  - string length counted in UTF-16 code units rather than characters.
- The contents of the two translation files are not part of this model. They are parameters of the language provider.
- `Middleware.Guard`: the query string of a redirect is a map, so repeated parameter names are not modelled.
- `Signup.SignupPage.HandleChange`: an input whose name is not one of the six fields would add a new property to the form state. The model keeps only the six fields.
- `DailyWebhook.Post`: `None` stands for the bodies that throw before dispatch: invalid JSON and JSON `null`. A JSON primitive such as `5` has no `type` and is answered 200 like an unknown event; the model represents it as `Some` with an unknown `eventType`. A parsed object whose payload lacks required fields is not modelled.
- `NotificationCenter.NotificationCenterState.MarkAllAsRead`, `NotificationCenter.NotificationCenterState.MarkAsRead`, `AdminLayout.AdminLayoutState.LoadUserAndStats`, `AdminLayout.AdminLayoutState.LoadUnreadCount`, `NotificationsWidget.NotificationsWidgetState.Load`, and the page handlers: each asynchronous handler is one atomic step, so events that land while a request is pending are not modelled. Two effects of that go unmodelled:
  - `markAllAsRead` collects its ids before the update and afterwards marks every row of the then-current list read and sets the counter to 0 (`components/DailyNotifications.tsx:167`, `:181-182`). A row inserted meanwhile (`:61-62`) then shows as read and uncounted, though the database never marked it.
  - The wholesale `setStats` of `loadUserAndStats` (`components/AdminLayout.tsx:97`) can overwrite a fresher unread figure written by `loadUnreadCount` (`:61`).
- JavaScript numbers are modelled as unbounded integers: stock quantities, alert thresholds, `unread_count` and the totals. Fractional and NaN values are not represented: the model assumes these columns (typed `number` in `types/database.types.ts`) hold whole numbers.
