# Telegram shop bot: the bookkeeping core, in Dafny

This project models the synchronous core of a Telegram shop bot written in
JavaScript (Node.js), and proves properties about it. The core sits between
incoming chat events and the transport and backend calls:

- **admission control** (`utils/rateLimiter.js`): per-user sliding windows
  of timestamps for commands and text (`userRequests`) and for button taps
  (`userCallbacks`). A duplicate suppressor stores `<id>_<type>_last`
  stamps. A sweep prunes entries older than five minutes.
- **session store** (`utils/sharedState.js`): a session per user with a
  30-minute time-to-live. Sessions expire lazily on read and in bulk in
  the sweep. There is a shallow-merge update.
- **mutation guard** (`utils/messageHandler.js`): a set of pending keys
  locks each `chatId_messageId` edit target. Texts are truncated. An
  edit-class failure falls back to sending a new message, and a transient
  send failure is retried once. A `chatId → messageId` cache is kept in
  insertion order.
- **workflow dispatcher** (`handlers/callbacks.js`, `handlers/messages.js`):
  - a button tap passes the tap limit and a per-tap lock;
  - its callback data is decoded into a trigger;
  - the trigger's step reads the session, calls the backend, and rewrites
    or clears the session.
  - A text message passes the message limit and a two-second cooldown and
    is then routed on the session's step: quantity entry, custom amount
    entry, or a menu hint.
- **keyboards** (`utils/keyboards.js`): the encoders of the callback data
  the dispatcher decodes, and the 64-byte repair `validateAndFixKeyboard`.
- **small pure helpers**:
  - `utils/helpers.js` and `utils/validation.js`;
  - the query, body and envelope logic of `services/shopService.js`.

## Layout and modelling choices

| file | module | models |
|---|---|---|
| js.dfy | `Js` | JavaScript values the core relies on: `Option` for `undefined`, `IntOrNaN` for `parseInt` results, `RealOrNaN` for parsed amounts, truthiness |
| text.dfy | `Text` | the string built-ins used: `startsWith`, `endsWith`, `includes`, `split`/`join`, `trim`, `toLowerCase`/`toUpperCase`, `parseInt`, integer rendering, `Buffer.byteLength` |
| helpers.dfy | `Helpers` | `utils/helpers.js` |
| validation.dfy | `Validation` | `utils/validation.js` |
| sessions.dfy | `Sessions` | the session record and the shallow merge of `updateUserState` |
| shared_state.dfy | `SharedState` | `utils/sharedState.js`; class `SessionStore` |
| rate_limiter.dfy | `RateLimiting` | `utils/rateLimiter.js`; class `RateLimiter` |
| message_handler.dfy | `MessageHandling` | `utils/messageHandler.js`; class `MessageHandler` |
| keyboards.dfy | `Keyboards` | `utils/keyboards.js` |
| shop_service.dfy | `ShopService` | `services/shopService.js` with HTTP abstracted |
| callback_data.dfy | `CallbackData` | the decoding chain of `handlers/callbacks.js` |
| callbacks.dfy | `Callbacks` | the `callback_query` handler and its helpers |
| messages.dfy | `Messages` | the `message` handler |
| workflow.dfy | `Workflow` | the purchase conversation across several handlers |

**Time and external inputs**
- The clock is a parameter `now`.
- Every backend answer is an input:
  - the HTTP outcome of a service call is `HttpResult`, either a response body or an error with code, status and data;
  - the wallet, currency and deposit envelopes are plain datatypes.
- The transport is an input `Transport` that holds the outcome of the first call and of the retry or fallback: `Ok(id)` or `Err(message)`.

**Identifiers and text**
- User, chat and message ids are integers, and `0` stands for a falsy id.
- A missing username is `""`.
- Strings are sequences of UTF-16 code units from the Basic Multilingual Plane.
- Letter case is mapped for ASCII only.

**Stateful singletons and loops**
- The singletons that the source updates in place are classes whose fields are maps, sets and sequences:
  - the rate limiter;
  - the session store;
  - the message handler's pending set and cache.
- Their operations are methods that state the whole new state.
- Loops over map entries become `while` loops with invariants:
  - the session sweep;
  - the two rate-limiter sweeps;
  - the nested `forEach` of `validateAndFixKeyboard`;
  - the year and state keyboard builders.
- The wallet transaction text is also built by a loop.

**Handler steps**
- Each trigger's step is a pure function. It returns three things:
  - the backend requests made, with their arguments;
  - the session write: keep, replace or clear;
  - the screens shown, in order.
- `Callbacks.HandleCallback` and `Messages.HandleMessage` thread those results through the three objects in the source's order:
  - the rate limit first;
  - then the lock (taps) or the cooldown (text);
  - then the session read, and finally the write.

**Behaviour kept as the code has it**
- `isDuplicateRequest` stores the new stamp only when the request is not a duplicate. A duplicate leaves the earlier stamp in place (`utils/rateLimiter.js:66-71`).
- Showing the session-expired notice leaves the stored session as it is (`handlers/callbacks.js:468-476`).
- The year, state and checkout taps check for the presence of a session field (`baseId` or `filters`), never for its `step`. `Callbacks.StepIsNotConsulted` states this.
- The custom-amount step `entering_custom_amount` is checked for (`handlers/messages.js:51`), but no code in the core sets it. No transition into it is invented.

## Model

| member | source | states |
|---|---|---|
| Helpers.ParseCallbackDataParts | utils/helpers.js:56-62 | the action never contains `_`; when the input contains `_`, action + `_` + value is the input again; otherwise the action is the whole input and the value is empty |
| Helpers.CeilDiv | utils/helpers.js:66 | the page count is the ceiling of items over page size: (q-1)·b < a ≤ q·b |
| Helpers.PaginationBounds | utils/helpers.js:65-77 | totalPages is the ceiling; start = page·per; a page never holds more than `per` items and ends by the last item; a page starting before the end is non-empty; hasPrev iff page > 0; hasNext iff page + 1 < totalPages |
| Helpers.LastPageHoldsLastItem | utils/helpers.js:65-77 | the last page has no next page, starts before the last item and ends exactly at it |
| Helpers.EscapeMarkdown | utils/helpers.js:29-31 | the escaped text is empty iff the input is, and never starts with a special character |
| Helpers.EscapeRoundTrip | utils/helpers.js:29-31 | removing the backslash before each special character recovers the input, so escaping loses nothing |
| Helpers.EscapeLength | utils/helpers.js:29-31 | the escaped length is the input length plus the number of special characters |
| Helpers.EscapePlain | utils/helpers.js:29-31 | text without special characters is left unchanged |
| Validation.ValidateDepositAmount | utils/validation.js:5-21 | valid iff the number is not NaN and 1 ≤ n ≤ 10000, and then the amount is n; NaN, below 1 and above 10000 each give their own message, checked in that order |
| Validation.DepositMessages | utils/validation.js:12-18 | the two range messages name the limits $1 and $10000 of utils/constants.js |
| Validation.DepositAgreesWithValidateAmount | utils/helpers.js:23-26 | `validateDepositAmount` accepts exactly the numbers `validateAmount` accepts that are at least 1; the numbers only `validateAmount` accepts lie below 1 |
| Validation.RemoveAngles | utils/validation.js:34-36 | no `<` or `>` is left; the result is no longer than the input and uses only its characters; text without brackets is unchanged |
| Validation.RemoveAnglesCounts | utils/validation.js:35 | every character other than `<` and `>` occurs in the result as often as in the input |
| Validation.RemoveAnglesConcat | utils/validation.js:35 | cleaning a concatenation concatenates the cleaned parts, so the kept characters keep their order |
| Validation.RemoveAnglesSingle | utils/validation.js:35 | a single character is dropped iff it is `<` or `>` |
| Validation.ValidateSearchQuery | utils/validation.js:24-37 | valid iff present, not blank after trimming, and at most 100 characters before trimming; absent or blank queries and long queries get their own errors; a valid result is the input with its brackets removed and then trimmed, so it holds no bracket, is no longer than the input and has no leading or trailing white space |
| Validation.CleanedQuery | utils/validation.js:35 | a cleaned and trimmed query holds no bracket, is no longer than the raw query, and has no white space at either end |
| Validation.AngleOnlyQueryBecomesEmpty | utils/validation.js:24-37 | a non-empty query made only of `<` and `>` passes both checks and yields the empty query |
| Validation.AnglesOnlyRemoved | utils/validation.js:35 | a text of brackets only is removed entirely |
| Validation.CallbackDataRoundTrip | utils/validation.js:40-51 | valid iff present and non-empty; the "Empty callback data" result never occurs; a valid action has no `_` and action and params joined by `_` give the input back |
| Validation.UserIdPositive | utils/validation.js:54-56 | valid iff the value is a number greater than 0; NaN is rejected |
| Validation.ProductIdOfRendered | utils/validation.js:59-62 | the decimal rendering of an integer is a valid product id iff the integer is positive |
| Validation.ProductIdIgnoresSuffix | utils/validation.js:59-62 | digits followed by text that does not start with a digit are valid iff their value is positive |
| Sessions.Merge | utils/sharedState.js:85-87 | each of the seven fields is the update's when the update has it, else the current session's |
| Sessions.MergeIdentity | utils/sharedState.js:85-87 | merging with the empty session changes nothing, on either side |
| Sessions.MergeAssociative | utils/sharedState.js:85-87 | two updates in a row equal one update by their merge |
| Sessions.MergeDisjointCommutes | utils/sharedState.js:85-87 | updates touching disjoint fields can be applied in either order |
| SharedState.ReadResult | utils/sharedState.js:25-47 | a read yields a session iff the id is truthy, a session is stored, and the stamp is not more than 30 minutes old; the session yielded is the stored one |
| SharedState.ExpiredIds | utils/sharedState.js:132-153 | exactly the stamped ids whose age exceeds the time-to-live |
| SharedState.SweepCount | utils/sharedState.js:132-153 | when both maps share their keys, a sweep keeps exactly the keys that have not expired, so the number of stored sessions drops by the number of expired ones |
| SharedState.ExpiredStillCounted | utils/sharedState.js:109-116 | an expired session that no read has touched reads as absent, but it is still stored and counted until a sweep removes it |
| SharedState.SurvivingStep | utils/sharedState.js:136-142 | one loop step of the sweep removes the visited id from the survivors iff it has expired |
| SharedState.SessionStore.constructor | utils/sharedState.js:2-3 | the store starts with no sessions and no stamps |
| SharedState.SessionStore.SetUserState | utils/sharedState.js:6-23 | true iff the id is truthy, and then the session and the stamp `now` are stored for that id alone; otherwise nothing changes; the active count grows by one exactly for a new user |
| SharedState.SessionStore.ClearUserState | utils/sharedState.js:49-65 | true iff the id is truthy; exactly that id's session and stamp are removed, and every other user is unchanged; the active count drops by one exactly when the user was stored |
| SharedState.SessionStore.GetUserState | utils/sharedState.js:25-47 | the result is `ReadResult`; an expired entry is removed from both maps as a side effect, and anything else is left unchanged |
| SharedState.SessionStore.UpdateUserState | utils/sharedState.js:78-92 | for a truthy id, stores the shallow merge of the update over the live session, where an absent or expired one counts as empty, and stamps it `now`; otherwise nothing changes |
| SharedState.SessionStore.HasUserState | utils/sharedState.js:95-106 | true iff a live session exists; it has the same expiry side effect as a read |
| SharedState.SessionStore.ActiveUserCount | utils/sharedState.js:109-116 | counts every stored session, including expired ones not yet swept, and in a consistent store equals the number of stamps; how writes, clears and the sweep change it is stated on those methods |
| SharedState.SessionStore.CleanupExpiredStates | utils/sharedState.js:132-153 | removes exactly the entries older than the time-to-live, returns how many, and keeps every fresh entry unchanged; the active count drops by exactly the number returned |
| SharedState.SessionStore.ClearAllStates | utils/sharedState.js:156-166 | empties both maps and returns the number of sessions there were |
| SharedState.SetThenGet | utils/sharedState.js:237-245 | a session set and read again within 30 minutes is returned unchanged |
| SharedState.ExpiryBoundary | utils/sharedState.js:34 | a session exactly 30 minutes old is still read; one millisecond later it is gone |
| RateLimiting.KeepRecent | utils/rateLimiter.js:21 | keeps exactly the stamps younger than the window, each as often as it occurs, and never grows |
| RateLimiting.KeepRecentConcat | utils/rateLimiter.js:21 | filtering a concatenation concatenates the filtered parts, so order and repetitions are kept |
| RateLimiting.KeepRecentSingle | utils/rateLimiter.js:21 | a single stamp is kept iff it is younger than the window |
| RateLimiting.KeepRecentCount | utils/rateLimiter.js:21 | the filtered window's length is the number of young stamps, counted one by one from the front |
| RateLimiting.LatestRecent | utils/rateLimiter.js:88-91 | the young stamp at the highest position, or 0 when every stamp is old |
| RateLimiting.KeepRecentLast | utils/rateLimiter.js:88-91 | the last entry of the filtered window, or 0, is that latest young stamp |
| RateLimiting.KeepRecentLater | utils/rateLimiter.js:21 | pruning at one time and again at a later time equals pruning once at the later time |
| RateLimiting.KeepRecentAppendNow | utils/rateLimiter.js:21-30 | a stamp appended at `now` survives a prune at `now` |
| RateLimiting.KeepRecentAll | utils/rateLimiter.js:21 | a window whose stamps are all young is kept whole |
| RateLimiting.Admit | utils/rateLimiter.js:10-32 | a call is refused iff the pruned window already holds `max` or more stamps |
| RateLimiting.RejectedConsumesNothing | utils/rateLimiter.js:21-27 | a refused call stores the pruned window and appends nothing |
| RateLimiting.AdmittedAppendsNow | utils/rateLimiter.js:21-31 | an admitted call stores the pruned window plus exactly `now`, and at most `max` stamps |
| RateLimiting.WindowBounded | utils/rateLimiter.js:21-31 | a window of at most `max` stamps stays within `max` after one call |
| RateLimiting.ExactWindowAgePruned | utils/rateLimiter.js:21 | a stamp exactly one window old is pruned, so a limit of one admits again |
| RateLimiting.SlidingWindowBound | utils/rateLimiter.js:10-32 | after any sequence of calls in time order, the stored window is the admitted calls of the last window, and there are at most `max` of them |
| RateLimiting.BurstFillsWindow | utils/rateLimiter.js:10-32 | when all calls fall within one window, the first `max` are admitted and the stored window is exactly those |
| RateLimiting.TwentyFirstTapRefused | handlers/callbacks.js:19-22 | the 21st tap within 60 seconds is refused |
| RateLimiting.UserKey | utils/rateLimiter.js:12 | a window key never ends in `_last`, so it never collides with a duplicate stamp |
| RateLimiting.DupKey | utils/rateLimiter.js:62-64 | a duplicate-stamp key always ends in `_last` |
| RateLimiting.StatusOf | utils/rateLimiter.js:76-95 | the counts are the numbers of request and tap stamps younger than 60 s; the last activity is the larger of the two latest young stamps, 0 when there are none; so the counts are within the windows and the last activity is a stored stamp or 0 |
| RateLimiting.StatusAfterAdmission | utils/rateLimiter.js:76-95 | right after an admitted request, the status shows at least one recent request and a last activity of at least `now` |
| RateLimiting.SweptRequests | utils/rateLimiter.js:112-130 | a `_last` entry survives iff it is at most five minutes old, and survives unchanged; a window survives iff some stamp in it is younger than five minutes, and then holds exactly those stamps (`KeepRecent`); no keys are added |
| RateLimiting.SweptCallbacks | utils/rateLimiter.js:132-141 | a tap window survives iff some stamp in it is younger than five minutes, and then holds exactly those stamps (`KeepRecent`); no keys are added |
| RateLimiting.RateLimiter.constructor | utils/rateLimiter.js:3-7 | both maps start empty |
| RateLimiting.RateLimiter.IsRateLimited | utils/rateLimiter.js:10-32 | the answer and the stored window are those of `Admit` on the user's request window; the tap windows are untouched |
| RateLimiting.RateLimiter.IsCallbackRateLimited | utils/rateLimiter.js:35-57 | the answer and the stored window are those of `Admit` on the user's tap window; the request windows are untouched |
| RateLimiting.RateLimiter.IsDuplicateRequest | utils/rateLimiter.js:60-73 | a duplicate iff a truthy last stamp exists and is less than `minInterval` old; a duplicate leaves the stamp as it was, anything else stores `now`; the tap windows are untouched |
| RateLimiting.RateLimiter.UserStatus | utils/rateLimiter.js:76-95 | for the user's two stored windows: the number of request stamps and of tap stamps younger than 60 s, and the larger of the two latest young stamps; it changes nothing |
| RateLimiting.RateLimiter.ResetUserLimits | utils/rateLimiter.js:98-103 | removes both of the user's windows, and keeps every `_last` entry unchanged |
| RateLimiting.RateLimiter.Cleanup | utils/rateLimiter.js:106-147 | the sweep leaves exactly `SweptRequests` and `SweptCallbacks` of the old maps: stale `_last` stamps and windows left empty are deleted, and every other window is cut to its stamps younger than five minutes |
| RateLimiting.RateLimiter.SweepRequests | utils/rateLimiter.js:112-130 | the request map becomes `SweptRequests` of the old one, so fresh `_last` stamps stay, stale ones go, and each window is cut to its young stamps or deleted when none is left; the tap map is untouched |
| RateLimiting.RateLimiter.SweepCallbacks | utils/rateLimiter.js:132-141 | the tap map becomes `SweptCallbacks` of the old one, so each tap window is cut to its young stamps or deleted when none is left; the request map is untouched |
| RateLimiting.RateLimiter.GetStats | utils/rateLimiter.js:150-162 | active users are the distinct window keys of both maps, excluding `_last` keys; this is at most the two sizes together; the entry totals are the map sizes |
| MessageHandling.TruncateBounds | utils/messageHandler.js:24-26 | text of at most 4096 characters is unchanged; longer text becomes its first 4090 characters and `...`, 4093 in total; the result never exceeds 4096 |
| MessageHandling.TruncateIdempotent | utils/messageHandler.js:24-26 | truncating twice is truncating once |
| MessageHandling.EditErrorIgnoresCase | utils/messageHandler.js:69-81 | the classification ignores the letter case of the error message |
| MessageHandling.PhrasesAreEditErrors | utils/messageHandler.js:69-81 | each of the five listed phrases is itself classified as an edit error |
| MessageHandling.FourthPhraseRedundant | utils/messageHandler.js:74 | any message matching the fourth phrase already matches the first |
| MessageHandling.LongerPhraseRedundant | utils/messageHandler.js:69-81 | a message that contains a phrase with a prefix also contains the phrase itself |
| MessageHandling.FloodControlIsTransient | utils/messageHandler.js:108 | Telegram's `retry after N` rejection is retried |
| MessageHandling.Keys | utils/messageHandler.js:7 | the cache's keys, one per entry, in insertion order |
| MessageHandling.CacheSetKeys | utils/messageHandler.js:52 | setting an existing chat keeps the key order; setting a new chat appends its key |
| MessageHandling.CacheSetDistinct | utils/messageHandler.js:52 | setting keeps the keys distinct |
| MessageHandling.CacheSetGet | utils/messageHandler.js:52 | after setting, the chat's entry is the new id and every other chat's entry is unchanged |
| MessageHandling.CacheSetNew | utils/messageHandler.js:52 | a new chat's entry goes at the end |
| MessageHandling.CacheGetIn | utils/messageHandler.js:196-198 | a lookup finds an id iff the chat is cached, and the id found is paired with that chat in the cache |
| MessageHandling.CacheGetFinds | utils/messageHandler.js:196-198 | with distinct keys, a lookup returns an id exactly when the cache pairs that id with the chat |
| MessageHandling.EditProtocol | utils/messageHandler.js:11-66 | a pending target is skipped with no call; otherwise the edit is made with the truncated text; exactly an edit-class failure adds one send of the same text; a successful edit replies with the edited message and leaves the cache alone; the cache changes exactly when the fallback send succeeds, and then holds the delivered message's id, which is also the reply; a failed fallback rethrows its own error; any other failure of the edit is rethrown |
| MessageHandling.SendProtocol | utils/messageHandler.js:94-124 | every call sends the truncated text; a second call happens iff the first failed with `retry after` or `timeout`, matched case-sensitively; a delivered message is cached, and only a delivered one; the outcome is a delivery or a rethrow |
| MessageHandling.BackOptions | utils/messageHandler.js:160-166 | `shop` and `help` select their back keyboards; anything else selects back-to-main |
| MessageHandling.AnswerCallback | utils/messageHandler.js:84-91 | answers the given query, with an empty text when none is given |
| MessageHandling.MessageHandler.constructor | utils/messageHandler.js:5-8 | no pending keys and an empty cache |
| MessageHandling.MessageHandler.CachedMessageId | utils/messageHandler.js:196-198 | an id comes back iff the chat is cached, and it is the id the cache holds for that chat; in a consistent handler that id is the only one |
| MessageHandling.MessageHandler.SafeEditMessage | utils/messageHandler.js:11-66 | the reply, the calls and the cache follow `EditProtocol`; afterwards the pending set equals the one before, on every exit path |
| MessageHandling.MessageHandler.SafeSendMessage | utils/messageHandler.js:94-124 | the reply, the calls and the cache follow `SendProtocol`; the pending set is unchanged |
| MessageHandling.MessageHandler.GoToMainMenu | utils/messageHandler.js:127-141 | shows the welcome text with the main menu, editing when a message id is given and sending otherwise |
| MessageHandling.MessageHandler.GoToShop | utils/messageHandler.js:144-156 | shows the shop text, editing when a message id is given and sending otherwise |
| MessageHandling.MessageHandler.ShowError | utils/messageHandler.js:159-179 | shows the error with the keyboard `BackOptions` picks, editing when a message id is given and sending otherwise |
| MessageHandling.MessageHandler.ShowLoading | utils/messageHandler.js:182-188 | shows the loading text, editing when a message id is given and sending otherwise |
| MessageHandling.MessageHandler.CleanupPendingEdits | utils/messageHandler.js:201-214 | empties the pending set; a cache of more than 100 entries keeps its last 50 in insertion order, and a smaller one is unchanged |
| Keyboards.HelpMenu | utils/keyboards.js:46-55 | three rows: the support link, the channel link, and back to main |
| Keyboards.FixDataShort | utils/keyboards.js:11-23 | data of at most 64 UTF-8 bytes is left unchanged |
| Keyboards.FixDataLongAscii | utils/keyboards.js:16-19 | longer ASCII data becomes its first 60 characters and `_trunc`, which is 66 characters and 66 bytes, so still over the limit |
| Keyboards.FixDataIdempotent | utils/keyboards.js:11-23 | repairing twice is repairing once, for data within the limit or at least 60 characters long |
| Keyboards.FixMarkupShape | utils/keyboards.js:4-29 | for a keyboard of callback buttons, the rows and their lengths are kept, every label is kept, and each button's data is repaired on its own |
| Keyboards.ValidateAndFixKeyboard | utils/keyboards.js:4-29 | the in-place loop yields `FixMarkup`: the repaired keyboard, or nothing when a button has no callback data and `Buffer.byteLength` would throw |
| Keyboards.CategoriesKeyboard | utils/keyboards.js:81-112 | no categories give the two-row fallback; otherwise one row `category_i` per category and then back to main |
| Keyboards.StateRows | utils/keyboards.js:126-132 | the states are cut into rows of five, with any remainder last, and each button is `state_XX` of its state |
| Keyboards.CreateStateFilterKeyboard | utils/keyboards.js:115-143 | ten rows of five `state_XX` buttons for the 50 states in order, then skip-state and back-to-shop |
| Keyboards.YearRanges | utils/keyboards.js:149-155 | the k-th button starts at first + 5k, and the buttons cover exactly the starts up to `last` |
| Keyboards.RowsOfTwo | utils/keyboards.js:158-165 | buttons in order, two per row, with any odd one alone in the last row |
| Keyboards.CreateYearRangeKeyboard | utils/keyboards.js:145-176 | five rows of two year ranges starting 1965, 1970, …, 2010, then skip-year and back-to-categories |
| Keyboards.YearRangesTile | utils/keyboards.js:149-155 | each range spans at most five years; consecutive ranges meet without gap or overlap; the last ends at 2011 |
| Keyboards.QuantityKeyboard | utils/keyboards.js:179-188 | an inert row captioned `📦 Available: ` and the available quantity, then back to shop |
| Keyboards.QuantityCaptionReadsBack | utils/keyboards.js:183 | the caption starts with `📦 Available: `, and the rest parses back to the available quantity |
| Keyboards.CheckoutKeyboard | utils/keyboards.js:191-228 | one row: confirm carries `confirm_checkout_q` when that fits 64 bytes, else `checkout_q`; cancel goes to the shop |
| Keyboards.CurrencyList | utils/keyboards.js:236-242 | the list comes from the first shape present: `data.selectedCurrencies`, then a bare array, then `selectedCurrencies` |
| Keyboards.CryptoKeyboard | utils/keyboards.js:230-307 | an empty list gives the fallback; otherwise one crypto button per currency in order, then back to main |
| Keyboards.CryptoKeyboardRepairs | utils/keyboards.js:4-29 | the repair never fails on the currency keyboard; it keeps one row per currency with its label, repairs only the data of each, and keeps the no-currency notice |
| Keyboards.CryptoDataWithinLimit | utils/keyboards.js:286-293 | for an ASCII code, the crypto data never exceeds 64 bytes after the 60-character cut |
| Keyboards.UsdtTrc20Button | utils/keyboards.js:267-271 | `usdttrc20`, in any letter case, is labelled `USDT (TRC20)` and carries `crypto_usdt_trc20` |
| Keyboards.UsdtTrc20Data | utils/keyboards.js:268-271 | the code `usdt_trc20` encodes as `crypto_usdt_trc20` |
| Keyboards.AmountKeyboard | utils/keyboards.js:310-345 | four rows of three amounts, a row of two, then back to the crypto list |
| Keyboards.AmountKeyboardButtons | utils/keyboards.js:313-337 | read row by row, the amount buttons are `amount_<code>_<n>` for 20, 30, …, 500 in order |
| Keyboards.ProductList | utils/keyboards.js:383-406 | no products give the fallback; otherwise the first ten products, one per row, as `product_<id>`, then back to shop |
| ShopService.ResponseMessage | services/shopService.js:29 | a response message, when present, is non-empty, because `\|\|` skips an empty one |
| ShopService.GetCategories | services/shopService.js:6-34 | success iff the backend answered; success passes the `bases` list on; failure gives an empty list, the response message or the default text, and the status |
| ShopService.BuildProductQuery | services/shopService.js:40-56 | always the username and `isBot = yes`; each of the seven text filters is copied iff it is truthy; `dob` and `dobMax` are set, as decimal strings, iff both years are truthy |
| ShopService.GetProducts | services/shopService.js:37-86 | success iff the backend answered; the quantity is the count, or 0 when the count is falsy; the list is `products`, else `data`, else empty; failure gives quantity 0, no products, the message or the default text, and the status |
| ShopService.CheckoutErrorMessage | services/shopService.js:141-153 | never empty; a connection failure wins; with no response the error's own message, else `Checkout failed` |
| ShopService.CheckoutErrorPriority | services/shopService.js:141-153 | in order: 404, then the response's `message` field or `Server error`, then string data, then the error message, then `Checkout failed` |
| ShopService.Checkout | services/shopService.js:89-161 | success iff the backend answered with both a file name and a path, and then the download link is the path; a response missing either gives the missing-file error; a failure gives the classified message |
| CallbackData.DecodeCryptoPrefix | handlers/callbacks.js:204-205 | `crypto_…` decodes to its first `_`-separated part after the prefix |
| CallbackData.DecodeAmountPrefix | handlers/callbacks.js:220-223 | `amount_…` decodes to parts 1 and 2 of the split |
| CallbackData.DecodeCategoryPrefix | handlers/callbacks.js:238-239 | `category_…` decodes to `parseInt` of part 1 |
| CallbackData.DecodeYearRangePrefix | handlers/callbacks.js:287-307 | `year_range_…` decodes to `parseInt` of parts 2 and 3 |
| CallbackData.DecodeStatePrefix | handlers/callbacks.js:353-354 | `state_…` decodes to part 1 |
| CallbackData.DecodeConfirmCheckoutPrefix | handlers/callbacks.js:405-407 | `confirm_checkout_…` decodes to `parseInt` of part 2 |
| CallbackData.DecodeCheckoutPrefix | handlers/callbacks.js:408-411 | `checkout_…` decodes to `parseInt` of part 1 |
| CallbackData.FormattedPart | handlers/callbacks.js:239 | a rendered integer is a single split part, and `parseInt` reads it back |
| CallbackData.CategoryRoundTrip | handlers/callbacks.js:238-239 | the data of the i-th category button decodes to index i |
| CallbackData.YearRangeRoundTrip | handlers/callbacks.js:287-307 | `year_range_Y_E` decodes to Y and E |
| CallbackData.YearButtonRoundTrip | utils/keyboards.js:149-155 | every year button carries callback data, which decodes to its start year and end year |
| CallbackData.StateRoundTrip | handlers/callbacks.js:353-354 | `state_XX` decodes to XX for any code without `_` |
| CallbackData.StateCodePlain | utils/keyboards.js:116-124 | no code of the state keyboard contains `_` |
| CallbackData.StatesRoundTrip | utils/keyboards.js:126-130 | every button of the state keyboard decodes to its state |
| CallbackData.ConfirmCheckoutRoundTrip | handlers/callbacks.js:405-407 | `confirm_checkout_q` decodes to q |
| CallbackData.ConfirmCheckoutDecodesCorrected | handlers/callbacks.js:405-407 | the corrected decoder, too, reads `confirm_checkout_q` as q |
| CallbackData.CheckoutRoundTrip | handlers/callbacks.js:408-411 | `checkout_q` decodes to q |
| CallbackData.CheckoutButtonRoundTrip | utils/keyboards.js:191-228 | whichever form the confirm button takes, it decodes to the quantity |
| CallbackData.CryptoDataShort | utils/keyboards.js:289-293 | a code of at most 53 characters is never cut |
| CallbackData.CryptoRoundTrip | handlers/callbacks.js:204-205 | a crypto button for a code without `_` decodes to that code |
| CallbackData.AmountRoundTrip | handlers/callbacks.js:220-223 | an amount button for a code without `_` decodes to that code and the amount's text |
| CallbackData.CryptoMisreadsUnderscore | handlers/callbacks.js:205 | a crypto button for `a_b` decodes to `a` alone |
| CallbackData.UsdtTrc20CryptoMisread | handlers/callbacks.js:205 | the `USDT (TRC20)` button decodes to the code `usdt` |
| CallbackData.UsdtTrc20AmountMisread | handlers/callbacks.js:221-223 | an amount button for `usdt_trc20` decodes to code `usdt` and amount `trc20` |
| CallbackData.CryptoRoundTripCorrected | handlers/callbacks.js:204-205 | with the code read in full, every crypto button that is not cut decodes to its code |
| CallbackData.AmountRoundTripCorrected | handlers/callbacks.js:220-223 | with the code read in full, every amount button decodes to its code and amount |
| CallbackData.CorrectedAgreesOnPlainCrypto | handlers/callbacks.js:204-205 | on crypto buttons whose code has no `_`, the corrected decoder agrees with the original |
| CallbackData.CorrectedAgreesOnPlainAmount | handlers/callbacks.js:220-223 | on amount buttons whose code has no `_`, the corrected decoder agrees with the original |
| Callbacks.CategoryStep | handlers/callbacks.js:238-284 | always fetches the categories; writes iff the backend listed categories and the index names one, and then replaces the session with step `selecting_year`, that category's id and the index; an unlisted index or a failure leaves the session alone |
| Callbacks.YearStep | handlers/callbacks.js:287-350 | no request; writes iff the session has a truthy `baseId`, otherwise only the expired notice; the written session has step `selecting_state`, the base, and filters of the base and the years, or of the base alone for skip |
| Callbacks.ProductSearch | handlers/callbacks.js:479-539 | searches with exactly the given filters; writes iff the search succeeded with a non-zero quantity, and then sets step `entering_quantity`, the filters and the quantity, and shows it; a failed search shows its error with a way back to the shop, and a count of zero shows the no-products notice |
| Callbacks.CheckoutStep | handlers/callbacks.js:542-564 | sends the body of username, quantity and filters; clears the session iff the checkout succeeded; a failure keeps the session and shows the error |
| Callbacks.BuildTransactionText | handlers/callbacks.js:84-98 | the loop's text is the transaction summary `TransactionText` |
| Callbacks.UpperKeepsLineBreaks | handlers/callbacks.js:90 | upper-casing adds no line break |
| Callbacks.TransactionLineBreaks | handlers/callbacks.js:90 | a transaction whose fields hold no line break takes exactly one line |
| Callbacks.TransactionLinesBreaks | handlers/callbacks.js:87-91 | a list of such transactions takes one line each |
| Callbacks.FramedLineBreaks | handlers/callbacks.js:86 | the header's line-break count |
| Callbacks.HeaderBreaks | handlers/callbacks.js:86 | the header holds three line breaks |
| Callbacks.MoreBreaks | handlers/callbacks.js:94 | the trailer holds one line break |
| Callbacks.ListedTransactions | handlers/callbacks.js:84-98 | a non-empty history lists at most five transactions, one line each, plus one trailer line iff there are more than five |
| Callbacks.LineEndsWithBreak | handlers/callbacks.js:90 | each transaction line ends with a line break |
| Callbacks.MoreEndsWithMore | handlers/callbacks.js:94 | the trailer ends in ` more` |
| Callbacks.ManyEndWithMore | handlers/callbacks.js:93-95 | with more than five transactions, the text ends with the trailer naming total − 5 |
| Callbacks.FewEndWithBreak | handlers/callbacks.js:84-98 | with at most five transactions, the text ends with a line break and no trailer |
| Callbacks.MoreTransactions | handlers/callbacks.js:84-98 | the text ends in ` more` iff there are more than five transactions |
| Callbacks.WalletStep | handlers/callbacks.js:62-113 | never writes the session; no username gives only the username error; otherwise the wallet is fetched and its balance and history are shown, or, when the fetch fails, its error with a way back to the main menu |
| Callbacks.ShopStep | handlers/callbacks.js:115-156 | never writes; no username gives the username error; otherwise the categories are fetched and two screens are shown |
| Callbacks.DepositStep | handlers/callbacks.js:158-199 | never writes; no username gives the username error; otherwise the currencies are fetched and two screens are shown |
| Callbacks.CryptoStep | handlers/callbacks.js:204-218 | no request and no write; one screen |
| Callbacks.DepositFlow | handlers/callbacks.js:640-688 | never writes; requests a deposit of the tapped amount and code with the description `Deposit via Telegram Bot - $<amount>`; shows loading and then one result |
| Callbacks.TapStep | handlers/callbacks.js:38-438 | only category taps and session-reading taps write; only checkout clears; state, skip-state and checkout taps without session filters, and year taps without a base, show only the expired notice |
| Callbacks.StepIsNotConsulted | handlers/callbacks.js:287-433 | changing the session's `step` never changes what a tap does |
| Callbacks.Trc20TapOffersUsdtAmounts | handlers/callbacks.js:204-218 | tapping the `USDT (TRC20)` button shows the amount step of `usdt`; the corrected decoder would show the one of `usdt_trc20` |
| Callbacks.StateTapSearches | handlers/callbacks.js:353-377 | a state tap on a session with filters searches with those filters plus the state |
| Callbacks.CallbackKeyIsNotEditKey | handlers/callbacks.js:25-32 | a tap's lock key has at least two `_` and an edit key exactly one, so the lock never blocks the tap's own edits |
| Callbacks.Dispatch | handlers/callbacks.js:38-438 | decodes the tap as the source does (`CallbackData.Decode`), reads the session only for the triggers that read it (expiring it if stale), runs `TapStep`, and applies exactly its write to the store |
| Callbacks.HandleCallback | handlers/callbacks.js:11-466 | the tap limit (20 per 60 s) is checked first on the tap window only; a refused tap is answered "slow down" and changes neither the pending set nor the session; a pending tap key is answered and dropped; otherwise the tap is decoded as the source does and dispatched, and the pending set is restored |
| Messages.CheckoutKeyboardRepairs | handlers/messages.js:95-98 | the checkout keyboard always survives `validateAndFixKeyboard` |
| Messages.QuantityStep | handlers/messages.js:65-124 | no request and one reply; writes iff the parsed quantity is a number between 1 and the available quantity; a non-number or non-positive quantity and a too-large one get their own reply with no write; acceptance sets step `confirming_checkout` with the filters, the available quantity and q, and shows the summary with the repaired checkout keyboard |
| Messages.QuantityConfirmsSameQuantity | handlers/messages.js:95-112 | the confirm button sent after an accepted quantity decodes to that same quantity under either decoder, when its data fits 64 bytes |
| Messages.RepairedConfirmButton | utils/keyboards.js:191-228 | a confirm data within 64 bytes survives the repair unchanged |
| Messages.AmountStep | handlers/messages.js:127-229 | writes iff the amount passes the three checks; the first failed check picks the reply and nothing is written; acceptance stores step `selecting_crypto_custom` with the amount, fetches currencies, and sends then edits the loading message; the edited screen shows the fetch error with a way back to deposit, or, when the currencies arrive, the amount text and the repaired currency keyboard |
| Messages.CustomAmountOffersCurrencies | handlers/messages.js:195-204 | once the currencies arrive, an accepted amount always reaches the currency screen: it names the typed amount and offers the repaired currency keyboard, one button per currency |
| Messages.CustomAmountStricterThanValidator | handlers/messages.js:131-171 | every accepted custom amount also passes `validateDepositAmount`, but $5 passes that and is refused here |
| Messages.Route | handlers/messages.js:39-61 | the quantity step handles `entering_quantity`, the amount step handles `entering_custom_amount`, and anything else gets the menu hint with no write |
| Messages.OnlyInputStepsWrite | handlers/messages.js:39-61 | a text message writes only when the session is at one of the two input steps, and never clears it |
| Messages.Respond | handlers/messages.js:39-61 | reads the session (expiring it if stale), routes the text, and applies exactly the routed write |
| Messages.HandleMessage | handlers/messages.js:9-62 | commands and non-text messages are ignored with no bookkeeping; otherwise the 15-per-minute limit runs first, and a refusal changes only the request window; the two-second cooldown runs second, so a dropped duplicate has still consumed quota; only an answered message reads or writes the session |
| Workflow.CategoryButtonDecodes | utils/keyboards.js:97 | both decoders read the i-th category button as index i |
| Workflow.YearButtonDecodes | utils/keyboards.js:153 | both decoders read each year button as its start and end year |
| Workflow.StateButtonDecodes | utils/keyboards.js:129 | both decoders read each state button as its state |
| Workflow.CategoryButtonWrites | handlers/callbacks.js:238-267 | tapping the i-th listed category starts the year step for that category |
| Workflow.YearButtonWrites | handlers/callbacks.js:287-313 | tapping a year button after a category stores the base and that year range |
| Workflow.StateButtonSearches | handlers/callbacks.js:353-377 | tapping a state button after a year button searches with base, years and state, and stores the found quantity |
| Workflow.FiltersAccumulate | handlers/callbacks.js:238-399 | category, then year, then state tap: the session reaches the quantity step holding the category's base, the button's years, the state and the quantity found |
| Workflow.ConfirmTapChecksOut | handlers/callbacks.js:402-433 | a checkout tap on the confirmation session checks out the session's filters with the tapped quantity, and clears the session iff the checkout succeeds |
| Workflow.QuantityThenCheckout | handlers/messages.js:65-112 | an accepted quantity is confirmed by a button whose tap checks out exactly that quantity with the collected filters |
| Workflow.CheckoutNeedsFilters | handlers/callbacks.js:415-419 | a session without filters, like the one the category step writes, cannot check out |
| Text.JoinSplit | utils/helpers.js:57-60 | joining `split` parts with the separator gives the string back |
| Text.SplitNoSep | utils/validation.js:45 | a string without the separator splits into itself |
| Text.ParseIntToString | handlers/callbacks.js:239 | `parseInt` reads back every rendered integer |
| Text.ParseIntDigitsPrefix | utils/validation.js:60 | `parseInt` reads the leading digit run and ignores what follows |
| Text.TrimIsSlice | handlers/messages.js:22 | `trim` returns a slice of its input that drops only white space and has none at either end |
| Text.Utf8Length | utils/keyboards.js:11 | a string's UTF-8 byte count is between its length and four times its length |

## Left out

- bot.js, config/config.js, handlers/commands.js, services/userService.js, services/paymentService.js, utils/messages.js and utils/constants.js are not part of this model. Their backend envelopes arrive as inputs, and the constants the core uses are written out.
- Time: `Date.now()` is the parameter `now`.
- Timers: the `setInterval` sweeps are explicit methods.
- Side effects: `console` logging, the `sleep`/`delay` helpers and the retry back-off delay are not modelled.
- Concurrency: each handler runs as one atomic step, with no interleaving at `await` points. Under this assumption a tap only finds its key pending when it was already in the set beforehand.
- The screens a step returns are values. They are not passed through `MessageHandler`; its edit, send, fallback and cache protocol is modelled and proved separately in `MessageHandling`.
- Exceptions:
  - the only thrown error modelled is the keyboard repair failing on a button without callback data;
  - handler `catch` branches that react to a failed edit or send are not modelled (handlers/callbacks.js:441-461 and the inner `catch` blocks);
  - neither is the quantity handler's `catch` branch (handlers/messages.js:113-123).
- Failed sends: a failed loading message in the custom-amount flow (its `message_id` would be undefined) is not modelled. The edit of the loading message is returned as an output.
- Checkout downloads: the file download, `sendDocument` and the KB size formatting after a checkout are not modelled (handlers/callbacks.js:566-626). `PurchaseScreen` stands for that screen.
- Number rendering:
  - `toLocaleDateString` is not modelled; transaction dates arrive rendered;
  - amounts, balances and prices arrive as text;
  - `parseFloat` is not modelled; the parsed custom amount and its rendering arrive with the message;
  - JavaScript's number formatting of non-integers is not modelled.
- Integers are unbounded. JavaScript numbers lose precision above 2^53, which is not modelled.
- `parseInt` is modelled as optional white space, an optional sign, then the longest run of decimal digits, else NaN. The `0x` prefix of unradixed `parseInt` is not modelled.
- Strings and case: letter case is mapped for ASCII only, and strings are taken to be made of Basic Multilingual Plane code units. `Buffer.byteLength` therefore counts at most three bytes per unit, and surrogate pairs are not modelled.
- `Keyboards.ValidateAndFixKeyboard` works on the keyboard as a value and returns the repaired copy. The source mutates the caller's object in place; aliasing of that object is not modelled.
- The static pages are screen constructors:
  - main menu, help and how-it-works texts;
  - the static keyboards `mainMenu`, `shopMenu`, `depositMenu`, `yearFilter` and the back-to-* keyboards beyond the ones the core uses.
- Diagnostics are not modelled:
  - `getAllStates`, `getStateAge`, the sessions' `getStats`, `debugModule` and the self-test output (utils/sharedState.js);
  - `logActivity` and `process.memoryUsage` in `getStats` (utils/rateLimiter.js);
  - `getDebugInfo` (utils/messageHandler.js).
- `formatCurrency`, `formatDate`, `log`, `cleanOldLogs` and `validateTelegramUser` in utils/helpers.js are not modelled: they are formatting, file-system code, or not used by the core.
- Helpers.PaginationBounds: requires a page size above zero. The source divides by it and gives `Infinity` or `NaN` for zero, which the model does not represent.
- Messages.QuantityConfirmsSameQuantity: requires the `confirm_checkout_q` data to fit 64 bytes. A number rendering longer than 47 digits is beyond JavaScript's number range anyway.
- Callbacks.CategoryStep: a listed category is taken to have an `_id`, which becomes `baseId`.
- Callbacks.ShopStep, Callbacks.DepositStep and Callbacks.CryptoStep state the requests, the writes and the number of screens, not the screens' full contents.

## Findings

| source | as written | input that shows it | evidently intended | confidence | as-written member | corrected member |
|---|---|---|---|---|---|---|
| handlers/callbacks.js:205 | the crypto code is `data.split("_")[1]`, the first `_`-separated part after `crypto_` | the `USDT (TRC20)` button, whose data utils/keyboards.js:267-271 writes as `crypto_usdt_trc20`, is read as code `usdt` | the currency code is everything after `crypto_`, so every button decodes to the code it was built from | high (not executed) | CallbackData.UsdtTrc20CryptoMisread | CallbackData.CryptoRoundTripCorrected |
| handlers/callbacks.js:221-223 | the code is `parts[1]` and the amount `parts[2]` | `amount_usdt_trc20_20`, the data `createAmountKeyboard("usdt_trc20")` gives, is read as code `usdt` and amount `trc20`; the defect is latent, since line 205 only ever hands the keyboard the code already cut at `_`, and it surfaces once line 205 is fixed | the code is everything between `amount_` and the last part, and the amount is the last part | medium, latent (not executed) | CallbackData.UsdtTrc20AmountMisread | CallbackData.AmountRoundTripCorrected |

The dispatcher (`Callbacks.Dispatch`, `Callbacks.HandleCallback`) decodes
with `CallbackData.Decode`, as the source does. The corrected decoder
`CallbackData.DecodeCorrected` differs from it only on `crypto_` and
`amount_` data. The two agree on every button whose code contains no `_`
(`CallbackData.CorrectedAgreesOnPlainCrypto`,
`CallbackData.CorrectedAgreesOnPlainAmount`) and on the purchase-flow
buttons (`Workflow.CategoryButtonDecodes`, `Workflow.YearButtonDecodes`,
`Workflow.StateButtonDecodes`, `Messages.QuantityConfirmsSameQuantity`).
`Callbacks.Trc20TapOffersUsdtAmounts` shows the first finding's effect on
the conversation.
