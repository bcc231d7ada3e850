# WMTB ledger core in Dafny

WMTB is a small personal-finance ledger. The user types free text such as
"lunch 15000". A Flask backend classifies it by keywords and stores it. A
React Native client then shows the balance, a "days until broke" forecast, a
7-day cash-flow chart, a chat-style transaction log and a list of toggleable
automation rules.

This project models the pure logic inside those pieces as Dafny functions
over immutable datatypes:

- `Ledger` (`ledger.dfy`): the shared transaction record. Its type is one of
  `income`, `expense` or `transfer`. The table's CHECK constraint also lets a
  NULL type through; such a row takes the `transfer` branches everywhere
  modelled here, so it is represented as a transfer.
- `Text` (`text.dfy`): whitespace stripping over a chosen whitespace class,
  ASCII lower-casing and Python-style substring search.
- `Forecast` (`forecast.dfy`, from `Dashboard.js`): the days-until-broke
  forecast, the 7 chart buckets, and the recent-transactions card.
- `Conversation` (`conversation.dfy`, from `MessageTab.js`): rebuilding the
  chat from the transaction list, and the optimistic `handleSend` state
  machine. The send is split at its `await` into `BeginSend` and
  `CompleteSend`.
- `Classifier` (`classifier.dfy`, from `parser.py`): the type and category
  keyword tests and the record `parse` assembles.
- `Balance` (`balance.dfy`, from `database.py`): the balance fold, plus its
  local-mode and query-error answers.
- `Rules` (`rules.dfy`, from `RulesTab.js`): the initial rules and `toggleRule`.

Money is an exact integer number of shillings. Timestamps are integer
milliseconds. A missing, `null` or unparseable `created_at` is `None`. The chart treats
all three alike: the client reads `null` as the epoch, far outside the
window, and the other two as an invalid date, which every comparison
rejects. The chat renders a real time for `null` and "Invalid Date" for the
others; the model's `formatTime(None)` stands for both. The clock
("now"), locale rendering of times and amounts, and the `Date.now()` values
inside optimistic ids are all parameters. So are the regex-based amount
extraction and description clean-up.

The chart's sign rule (`Forecast.ChartDelta`) and the backend's loop step
(`Balance.Apply`) are written separately. `Forecast.BucketsSumToWindowFold`
proves they agree: the seven buckets sum to the backend fold over the
in-window transactions.

Some details of the code that a reader might not expect, all modelled as
written:

- The user text falls back to `description` whenever `raw_text` is falsy, so
  an empty string falls back too, not only a missing value.
- The system acknowledgement reads `"✅ " + category + ": TZS " + amount`,
  with the `TZS` prefix.
- A `transfer` row is not counted as spending by the forecast. It is still
  subtracted by the chart and by the backend balance.
- The chat rebuild reverses the backend's newest-first list, so position 0,
  the head of the message list, holds the oldest transaction. The list is
  drawn inverted, so position 0 is at the bottom of the screen, next to the
  input, and the newest transaction is at the top. A send puts its bubbles
  at position 0, the reply before the user's text, next to that oldest
  pair, until a refresh moves the transaction to the far end of the list
  (`Conversation.OptimisticBubbleBesideLastListed`).
- The forecast averages over the first 7 list positions, not over 7
  calendar days.
- "paid for" is listed as an expense phrase, but any text containing it is
  classified income, because the income word "paid" is tested first.

## Model

| member | source | states |
|---|---|---|
| Text.Strip | backend/parser.py:18 | the stripped text is a slice of the input that neither starts nor ends with whitespace, everything cut away is whitespace, and it is empty exactly when the input is all whitespace |
| Text.Lower | backend/parser.py:73 | lower-casing keeps the length and leaves no upper-case ASCII letter |
| Text.AnyContains | backend/parser.py:64 | `any(word in text ...)` holds exactly when some listed word occurs in the text |
| Text.StripIsContained | frontend/components/MessageTab.js:57 | the trimmed text occurs inside the original input |
| Text.ContainsAt | backend/parser.py:64 | the substring test holds exactly when the word starts some suffix of the text |
| Classifier.DetermineType | backend/parser.py:60-70 | the type is income if and only if an income word occurs; otherwise it is expense, and it is never anything else |
| Classifier.Normalize | backend/parser.py:18 | the result is exactly the slice of the lower-cased input between its leading and trailing whitespace; it has no upper-case letter and no whitespace at either end, and is empty exactly when the input is all whitespace |
| Classifier.PaidForMeansIncome | backend/parser.py:61-65 | any text containing the expense phrase "paid for" is classified income, because "paid" is tested first |
| Classifier.FirstMatch | backend/parser.py:75-79 | the table scan finds the first entry, in table order, with a matching keyword, and finds none exactly when no entry matches |
| Classifier.DetermineCategory | backend/parser.py:72-79 | the category is "other" exactly when no keyword occurs in the lower-cased text; otherwise it is the first category in table order with a keyword that occurs |
| Classifier.LunchIsFood | backend/parser.py:6-14 | a text containing "lunch" is food whatever else it contains, because food comes first in the table |
| Classifier.CategoryIgnoresCase | backend/parser.py:72-73 | texts equal up to case get the same category, and lower-casing before the call changes nothing |
| Classifier.Parse | backend/parser.py:16-38 | the record keeps the original text as raw text; amount, type and category come from the lower-cased, stripped text, so the type is exactly what the type test gives there: income when an income word occurs and expense otherwise, never transfer; the description comes from the original text |
| Classifier.LunchReceivedIsFoodIncome | backend/parser.py:24-27 | a text mentioning both "lunch" and "received" parses as an income in the food category |
| Classifier.ParseIgnoresCase | backend/parser.py:18-27 | the parsed type and category do not depend on letter case |
| Balance.GetUserBalance | backend/database.py:106-128 | local mode answers 100000; a failed query, or a returned row whose amount is NULL, answers 0; otherwise the loop returns the income total minus the total of every other type |
| Balance.Apply | backend/database.py:119-123 | an income row raises the running balance by its amount; an expense or a transfer row lowers it by its amount |
| Balance.Fold | backend/database.py:118-125 | the loop, run from 0 over the rows in order, ends at the income total minus the total of every other type |
| Balance.FoldEmpty | backend/database.py:118 | no rows fold to 0 |
| Balance.FoldSingle | backend/database.py:119-123 | one income row adds its amount; one row of any other type, transfer included, subtracts it |
| Balance.FoldAppend | backend/database.py:119-123 | the fold of a concatenation is the sum of the folds |
| Balance.FoldPermutation | backend/database.py:119-125 | rows in any order give the same balance |
| Balance.LocalFixtureFold | backend/database.py:133-136 | the local-mode fixture folds to 35000, which differs from the 100000 that local mode reports |
| Forecast.DaysUntilBroke | frontend/components/Dashboard.js:10-23 | fewer than 7 items give the not-enough-data sentinel; a non-positive expense total over the first 7 positions gives the infinity sentinel; otherwise the answer n is the floor of 7B/E, characterised by n*E <= 7B < (n+1)*E |
| Forecast.ExpenseTotal | frontend/components/Dashboard.js:14-16 | only expense items are summed: a list without expenses totals 0, and non-negative amounts give a non-negative total |
| Forecast.OnlyFirstSevenCount | frontend/components/Dashboard.js:13 | appending items after the seventh does not change the forecast |
| Forecast.ExpenseTotalUpdate | frontend/components/Dashboard.js:14-16 | replacing one item changes the spend total by exactly the change in that item's expense contribution |
| Forecast.NonExpenseItemsIgnored | frontend/components/Dashboard.js:14-16 | an income or transfer item can be replaced by any other non-expense item, whatever its amount, without changing the forecast |
| Forecast.SignFollowsBalance | frontend/components/Dashboard.js:18-22 | the day count is not clamped: it is negative exactly when the balance is negative |
| Forecast.SevenDayScenario | frontend/components/Dashboard.js:10-23 | seven expenses of 7000 against a balance of 21000 forecast 3 days |
| Forecast.DaysAgo | frontend/components/Dashboard.js:36 | the elapsed day count d is the floor of the elapsed milliseconds over one day: d*86400000 <= now - t < (d+1)*86400000; a missing timestamp gives none |
| Forecast.Bucket | frontend/components/Dashboard.js:36-38 | a transaction gets a bucket exactly when it was created between 0 and 7 days ago; the bucket index is 6 minus its elapsed day count |
| Forecast.ChartDelta | frontend/components/Dashboard.js:38 | an item adds to its bucket what one backend loop step would add to a zero balance: plus its amount for income, minus it otherwise |
| Forecast.ChartAmounts | frontend/components/Dashboard.js:33-40 | the series has 7 entries; entry i is the signed total of exactly the transactions in bucket i; the series total equals the backend fold over the in-window transactions |
| Forecast.AllBucketsStep | frontend/components/Dashboard.js:37-38 | one more transaction moves the sum of all buckets by its signed amount if it is in the window, and not at all otherwise |
| Forecast.BucketsSumToWindowFold | frontend/components/Dashboard.js:38 | the chart's sign rule and the backend balance loop agree: the bucket totals sum to the fold over the in-window rows |
| Forecast.UnusedBucketIsZero | frontend/components/Dashboard.js:33 | a bucket that no transaction lands in is 0 |
| Forecast.OutOfWindowIgnored | frontend/components/Dashboard.js:37 | future-dated items, items 7 or more days old and items without a timestamp change no bucket |
| Forecast.InWindowLandsInOneBucket | frontend/components/Dashboard.js:37-38 | an in-window item changes only bucket 6 - daysAgo, by +amount for income and -amount otherwise |
| Forecast.RecentList | frontend/components/Dashboard.js:93-103 | the card shows the first min(5, n) items in order, each labelled '+' exactly for income and '-' otherwise, followed by "TZS " and the rendered amount |
| Conversation.UserText | frontend/components/MessageTab.js:25 | the user text is raw_text when it is present and non-empty, else the description |
| Conversation.SystemText | frontend/components/MessageTab.js:31 | the acknowledgement is a check mark and a space, the category, ": TZS ", then the rendered amount at the end |
| Conversation.UserEntry | frontend/components/MessageTab.js:37-42 | the user bubble has id "{id}-user", the user text, the user flag set, and the rendered creation time |
| Conversation.SystemEntry | frontend/components/MessageTab.js:43-48 | the system bubble has id "{id}-system", the acknowledgement text, the user flag clear, and the same time as the user bubble |
| Conversation.JsTrim | frontend/components/MessageTab.js:55-57 | the trimmed text is the slice between the leading and the trailing whitespace, with no whitespace at either end, and empty exactly when the input is all whitespace |
| Conversation.Pairs | frontend/components/MessageTab.js:35-49 | before reversal, transaction k yields the user entry at 2k and the system entry at 2k+1 |
| Conversation.Reverse | frontend/components/MessageTab.js:51 | reversal keeps the length and puts element n-1-i at position i |
| Conversation.Reconcile | frontend/components/MessageTab.js:22-52 | n transactions yield 2n messages; position 2k holds the system entry and 2k+1 the user entry of the k-th transaction from the end |
| Conversation.ReconcilePairShape | frontend/components/MessageTab.js:23-48 | each pair shares one timestamp; the user entry has isUser true, the user text and id "{id}-user"; the system entry has isUser false, the category and amount text and id "{id}-system" |
| Conversation.ReconcileEnds | frontend/components/MessageTab.js:51 | the first message is the system entry of the last transaction in the list, which is the oldest since the backend lists newest first; the last message is the user entry of the first |
| Conversation.ReconciledIdAt | frontend/components/MessageTab.js:37-48 | the id at position i is the id of transaction n-1-i/2 with "-system" at even positions and "-user" at odd ones |
| Conversation.MessageIdsDiffer | frontend/components/MessageTab.js:38-44 | when transaction ids are distinct, the ids "{id}-user" and "{id}-system" at any two different positions of the rebuilt list differ |
| Conversation.ReconciledIdsDiffer | frontend/components/MessageTab.js:38-44 | with distinct transaction ids, any two positions carry different message ids |
| Conversation.ReconciledIdsDistinct | frontend/components/MessageTab.js:38-44 | with distinct transaction ids, all message ids in the rebuilt list are pairwise distinct |
| Conversation.BeginSend | frontend/components/MessageTab.js:54-72 | a blank input or a send in progress changes nothing and submits nothing; otherwise the submitted text is exactly the trimmed input (non-blank, found in the input), the input is cleared, the flag is raised, and one user message with that text goes in at position 0, before the old list |
| Conversation.OptimisticBubbleBesideLastListed | frontend/components/MessageTab.js:51-71 | a send right after a rebuild puts the user bubble at position 0, directly before the system entry of the last-listed, that is oldest, transaction |
| Conversation.CompleteSend | frontend/components/MessageTab.js:74-103 | exactly one non-user message goes in at position 0, holding the reply text or the fixed error text; the flag drops; the rest of the list is kept after it |
| Conversation.Refresh | frontend/components/MessageTab.js:51 | a refresh replaces the whole list, optimistic messages included, with exactly the conversation rebuilt from the transactions, and leaves the input and the flag alone |
| Conversation.SendRoundTrip | frontend/components/MessageTab.js:54-104 | a full send puts the reply or error at position 0, then the user's trimmed text, then the old list, clears the input and lowers the flag |
| Conversation.NoDoubleSubmit | frontend/components/MessageTab.js:55 | once the component has re-rendered with the flag raised, a second press changes nothing |
| Conversation.RefreshSupersedesOptimistic | frontend/components/MessageTab.js:22-52 | after a send, a refresh leaves exactly the conversation rebuilt from the transactions, with no optimistic message left |
| Rules.ToggleRule | frontend/components/RulesTab.js:44-48 | length, order, ids, names, descriptions and icons are kept; a rule's switch flips exactly when its id is the toggled one |
| Rules.ToggleAbsentId | frontend/components/RulesTab.js:45-47 | toggling an id no rule has leaves the list unchanged |
| Rules.ToggleTwice | frontend/components/RulesTab.js:45-47 | toggling the same id twice restores the list |
| Rules.ToggleCommutes | frontend/components/RulesTab.js:44-48 | toggles of two ids commute |
| Rules.InitialRulesShape | frontend/components/RulesTab.js:6-42 | the initial list has five rules with ids 1 to 5, and only rule 3 is off |

## Left out

- Forecast.DaysUntilBroke: computed exactly as the floor of 7B/E. The client divides in double-precision floating point, which can round a quotient just below an integer differently. Fractional balances are not modelled either.
- Forecast.ChartAmounts: uses one "now" for all items. The client calls `new Date()` again for each transaction.
- Forecast.DaysAgo: takes the creation instant as given. Parsing the `created_at` string is not modelled; the client reads an ISO string without an offset as local time.
- The weekday labels under the chart (`toLocaleDateString`) are not modelled. They are locale formatting, computed apart from the buckets.
- Locale rendering of times and amounts (`toLocaleTimeString`, `toLocaleString`) is a function parameter.
- The `Date.now()` values inside optimistic message ids are string parameters.
- Conversation.NoDoubleSubmit: holds only once React has re-rendered with the raised flag. `handleSend` reads `isProcessing` and `message` from the render that created it, so a second tap handled before that re-render still sees the flag down and the old text, and submits the same text again.
- Rules.ToggleCommutes: holds for toggles applied one after another. `toggleRule` passes `rules.map(...)` from the render that created it, not an updater function, so two toggles handled before a re-render both start from the same list and the first is lost.
- A NULL amount on the client is not modelled. JavaScript arithmetic would read it as 0 in the forecast and the chart, but `amount.toLocaleString()` in the recent list and the chat would throw.
- Concurrency is not modelled: overlapping fetches and sends, and when React runs effects. `isProcessing` is only the boolean guard. Between `BeginSend` and `CompleteSend`, the only interleaving modelled is a refresh (`Conversation.Refresh`).
- Classifier.Normalize: lower-cases ASCII letters only. Python's `str.lower` also maps other scripts.
- Amount extraction and description clean-up in the parser (`_extract_amount`, `_clean_description`) are function parameters. They rely on Python regular expressions, `float()` and `str.capitalize`.
- Balance.GetUserBalance: returns integers. The source returns the floats 100000.0 and 0.0, and sums DECIMAL(12,2) amounts.
- The database client is left out: credential loading, the SQL schema text, `add_transaction`, and the ordered, limited transactions query. Only the local-mode fixture of `get_recent_transactions` is modelled.
- The network layer and navigation in `frontend/App.js`, and the Flask routes and reply formatting in `backend/app.py`, are not part of this model.
- All rendering and styling are left out.
