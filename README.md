# Price-watch subscription registry and price check

This project models the core of a Telegram bot that watches marketplace
prices for its users. The bot keeps one process-wide registry, the
`subscriptions` dictionary, which maps a user id to a list of records
`{query, price, url}`:

- `/subscribe <query>` rejects an empty query with a usage hint. Otherwise it
  creates the user's list if the user has none yet, then appends a record with
  the placeholder price 70000 and the placeholder link `https://example.com`.
  Nothing is deduplicated.
- "my subscriptions" answers "no subscriptions" when the user has no list or
  an empty one. Otherwise it lists every record's query and price, in order.
- The periodic price check walks every user in key order, then every record
  of that user's list in order. For each record it looks up a current price;
  the program's stub is `price * 0.88`. The drop rule is
  `current <= price * 0.9`, so a fall of exactly 10% is notified, as the
  `/subscribe` confirmation ("10% or more") says. The greeting and the search
  reply promise a fall of "more than 10%", which the code does not follow.
  When the rule fires, the check sends one message carrying the record's old
  price and the current price, and then stores the current price in the
  record.

The files:

- `price_watch.dfy`, module `PriceWatch`, holds the model itself.
  - The datatypes for records, messages and replies.
  - The constants 70000, `https://example.com`, 0.88 and 0.9.
  - The value-level definitions of what each operation computes: `Subscribed`,
    `Enrolled`, `Listing`, `Updated`, `SweepList` and `SweepAll`.
  - The class `Registry`, which holds the registry as the program keeps it.
    `users` is the dictionary's key (insertion) order, `subs` is the
    dictionary, and `outbox` is every message sent so far. Its methods
    `Subscribe`, `CheckUserWith` (the inner loop over one user's list),
    `CheckPricesWith` (the outer loop, for any price source) and `CheckPrices`
    (the program's check with the stub) update these fields in place. Each is
    proved to leave exactly the state the value-level definitions describe.
- `price_watch_properties.dfy`, module `PriceWatchProperties`, holds the
  properties of those definitions. It covers subscribing and listing, the
  check with any price source, the check with the stub (including what
  repeated checks do), and a small client of the class.

Prices are exact reals, so `0.88` and `0.9` are the fractions 88/100 and
9/10. A price source is any function from a record to a price; the program's
stub is the instance `StubPrice`.

The code sends the message first and writes the new price back afterwards,
and the model keeps that order. Subscriptions are never deduplicated, the
first price of a record is the placeholder 70000, and there is no way to
remove a subscription; the model does the same.

## Model

| member | source | states |
|---|---|---|
| `PriceWatch.NewSub` | main.py:70 | A new record holds the query, the placeholder price 70000 and the placeholder link `https://example.com`. |
| `PriceWatch.IsDrop` | main.py:101 | The drop rule `current <= price * 0.9` holds exactly when the price has fallen by a tenth of the reference price or more, a fall of exactly 10% included. For a non-negative reference it never lets a price rise through. |
| `PriceWatch.StubPrice` | main.py:100 | The stubbed current price is the stored price less 12%. It lies between 0 and the stored price for a non-negative price, and below it for a positive one. |
| `PriceWatch.NoticeOf` | main.py:101-108 | A checked record gives at most one message, and gives one exactly when the drop rule holds. The message carries the user, the query, the link, the price before the update and the current price. |
| `PriceWatch.Registry.constructor` | main.py:15 | The program starts with an empty registry: no keys, no lists, no messages sent. |
| `PriceWatch.Subscribed` | main.py:66-70 | After a subscription the registry's keys are the old keys plus the user. The user's list is the old list (empty for a new user) with one more record at the end, `{query, 70000, "https://example.com"}`. Every other user's list is unchanged. |
| `PriceWatch.Enrolled` | main.py:67-68 | A user seen for the first time is added once, as the last key. A user already present leaves the key order unchanged. |
| `PriceWatch.Registry.Subscribe` | main.py:59-71 | An empty argument answers with the usage hint and leaves the registry unchanged. Otherwise the reply confirms the query and the new state is the one `Subscribed` and `Enrolled` describe. The key order keeps listing every key exactly once. |
| `PriceWatch.Listing` | main.py:73-80 | The answer is "no subscriptions" exactly when the user's list, taken as empty for a missing key, is empty. Otherwise it has one line per record, in list order, each with that record's query and price. |
| `PriceWatch.Updated` | main.py:101-109 | A checked record keeps its query and link. When the current price passes the drop rule, its price becomes the current price. Otherwise the record is unchanged. |
| `PriceWatch.SweepList` | main.py:98-109 | Checking one list keeps its length and updates record k by `Updated` with record k's own current price. It sends no more messages than the list has records. |
| `PriceWatch.SweepAll` | main.py:97-109 | Checking the registry keeps exactly the same set of keys. |
| `PriceWatch.SweepAllAt` | main.py:97-109 | After checking `users`, each of their lists is that list checked on its own, and any other user's list is untouched. |
| `PriceWatch.Registry.CheckUserWith` | main.py:98-109 | The inner loop leaves the user's list as `SweepList` describes. It appends that list's messages to the outbox, in record order, and changes no other user's list and not the key order. |
| `PriceWatch.Registry.CheckPricesWith` | main.py:96-109 | For any price source, the nested loops leave the key order unchanged and the registry as `SweepAll` describes. The outbox grows by the messages of the whole check, user after user in key order. |
| `PriceWatch.Registry.CheckPrices` | main.py:96-109 | The same, for the program's stub `price * 0.88`. |
| `PriceWatchProperties.SubscribeTwiceKeepsBoth` | main.py:67-70 | Subscribing twice to the same query adds two equal records after the old list, with no deduplication. |
| `PriceWatchProperties.ListingAfterSubscribe` | main.py:67-80 | After a subscription the user's listing is never "no subscriptions". It is the earlier lines followed by the new query at price 70000. |
| `PriceWatchProperties.SentIff` | main.py:100-108 | A list's check sends a message exactly for the records whose current price passes the drop rule. Each message carries the user, the query, the price before the update ("Было"), the current price and the link. |
| `PriceWatchProperties.SweepListAppend` | main.py:98-109 | Checking a list in two pieces gives the same records and messages as checking it at once: those of the first piece, then those of the second. |
| `PriceWatchProperties.SweepListSingle` | main.py:98-109 | Checking one record sends exactly `NoticeOf`'s message for it and stores `Updated`'s record. With `SweepListAppend`, the messages of any list are one per dropping record, in list order, equal records included. |
| `PriceWatchProperties.SweepAllSentIff` | main.py:97-108 | A message belongs to the whole check exactly when it belongs to the check of some user's list. |
| `PriceWatchProperties.SweepAllSentFrom` | main.py:97-108 | Every message of a whole check is a message of the list of some user in the key order. |
| `PriceWatchProperties.SweepAllSentTo` | main.py:97-108 | Every message of the list of a user in the key order is sent by the whole check. |
| `PriceWatchProperties.SweepKeepsShape` | main.py:97-109 | A check keeps the keys, every list's length, and every record's query and link. A swept record's price is the current price if it passed the drop rule and its old price if not. |
| `PriceWatchProperties.SilentWithoutDrop` | main.py:101 | A list where no record passes the drop rule sends no message. |
| `PriceWatchProperties.SecondSweepSilent` | main.py:101-109 | The stored price is reset to the notified price. So when a price source depends only on the query and gives positive prices, a second check sends nothing. |
| `PriceWatchProperties.StubDropIff` | main.py:100-101 | The stub's price `price * 0.88` passes the drop rule exactly when the stored price is not negative. |
| `PriceWatchProperties.StubSweepList` | main.py:98-109 | For a list with non-negative prices, the stubbed check sends exactly one message per record, in list order, with the old price and `price * 0.88`. It multiplies every price by 0.88, so every positive price strictly drops and no price becomes negative. |
| `PriceWatchProperties.StubSweepAll` | main.py:97-109 | For a registry with non-negative prices, the program's check sends exactly one message per record in the registry, users in key order and records in list order, each with that record's old price. |
| `PriceWatchProperties.SubscribedKeepsNonNegative` | main.py:67-70 | Subscribing keeps every price non-negative. With the empty start and `StubKeepsNonNegative`, the hypothesis of `StubSweepAll` holds in every registry the program builds. |
| `PriceWatchProperties.StubKeepsNonNegative` | main.py:100-109 | The program's check keeps every price non-negative. |
| `PriceWatchProperties.DiscountedBounds` | main.py:100 | Multiplying a non-negative price by 0.88 any number of times keeps it between 0 and the original. At least one multiplication makes a positive price strictly smaller. |
| `PriceWatchProperties.StubChecksPrices` | main.py:100-109 | After n stubbed checks every record keeps its query and link, its price is the original times 0.88 to the n, and no price is negative. |
| `PriceWatchProperties.StubNeverSettles` | main.py:96-112 | The check after any number of earlier checks, run every 5 hours, notifies every record again. Its old price is the original times 0.88 to the n, which is below the original once n > 0, for a positive original price. A zero price stays 0. |

## Left out

- The chat interface: greeting, search prompt, result and sale listings, message texts, Markdown and keyboards (main.py:19-55, 84-92). The search and sale results are fixed literals that are only rendered.
- Handler dispatch: the chat library passes a message to the first registered handler whose filter matches. The catch-all search handler (main.py:38) is registered before `subscribe` (main.py:59), and its filter also matches `/subscribe …`, so as registered `subscribe` would not be reached. The model takes `subscribe` as called, and does not model the dispatch order.
- Parsing of `/subscribe` arguments by the chat library: the query is a parameter, and only the empty string is rejected, as `if not query` does.
- Message delivery through `bot.send_message`: a message is one entry appended to `outbox`. A delivery error, which in the program would end the check early with an exception, is not modelled.
- The `int(...)` truncation of the current price in the message text: a message carries the exact price.
- Floating point: prices are exact reals, so the rounding of `* 0.88` and `* 0.9` in binary floating point is not modelled.
- The 5-hour scheduler job and the event loop (main.py:111-118): each check is one atomic sweep. The program suspends at each `await` inside the check. A subscription arriving meanwhile could extend the list being walked, or fail the walk when it adds a new key. That interleaving is not modelled.
- The aliasing of records: each record is a fresh dictionary created by `subscribe` and is reachable only from its list, so records are values here and the write-back replaces the record in its list.
- `CheckUserWith`: the program runs the inner loop inline in `check_prices`. The model gives it its own method so that its proof stays small. The nested loops and their order are the same.
