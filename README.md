# nowmeow subscription-and-bonus ledger, in Dafny

nowmeow is a Telegram bot that sells VPN (VLESS) subscriptions and runs a
referral scheme paid in "meow-coins". Under the Telegram glue there is a
small ledger, and this project models it:

- **Period and expiry arithmetic.** Period symbols (`day3`, `month1`,
  `month3`, `month6`, `year1`) map to calendar durations. A first
  subscription expires at now + duration. A renewal extends from the later
  of the old expiry and now. The module also holds the Russian plural-form
  selector and the remaining-time classifier. Calendar addition is written
  out on an explicit civil-date record, on the Moscow wall clock (UTC+3),
  with end-of-month clamping like `relativedelta`.
- **The two database tables.** `users` and `referrals` are classes whose
  rows are a map keyed by `tg_id`, plus a scan order. INSERT, UPDATE and
  upsert are methods. SELECT queries are functions of the table's contents.
- **Subscription create and renew.** The panel HTTP POST is a boolean
  oracle. Local writes happen before the POST, and a rejected POST does not
  undo them. The trial grant is modelled too.
- **The payment session.** The per-chat `PAYMENT_STATE` dictionary has the
  states none, choose-bonus-amount and waiting-payment. The session holds
  the split of a plan price between coins and money. A payment confirmation
  debits the coins and grants the subscription; a failed payment drops the
  session.
- **Referral flows.** These are the `/start` code decision tree, the
  active-referred-users filter, the monthly referrer accrual and the
  renewal-reminder window.

Everything outside the program is a parameter:

- the clock (`now`, in milliseconds since the Unix epoch);
- generated ids, the random port and the panel address;
- Telegram message ids (None when sending failed);
- the panel's answer (`panelOk`);
- failing database calls (`raised`, `queryFails`, `lookupFails`, `failing`).

Messages, keyboards, photos and logging are not modelled.

Files: `wrappers.dfy` (Option, Result, failure kinds), `text.dfy` (digit
strings, `str(n)`, `join`), `calendar.dfy`, `const_bot.dfy`,
`timestamp.dfy`, `tables.dfy` (distinct scan orders), `user_db.dfy`,
`referrals_db.dfy`, `api_client.dfy`, `user_middleware.dfy`,
`referrals_middleware.dfy`, `tasks.dfy`, `bonus_payment.dfy`,
`payments.dfy`, `referral_handlers.dfy`, `subscriptions.dfy`.

Where the documentation and the code disagree, the model follows the code:

- `update_client` stores the new expiry before it calls the panel, and keeps
  it when the panel rejects the call.
- `ensure_referral_record` checks that the referrer has a `referrals` row,
  not a `users` row, and it writes nothing.

## Model

| member | source | states |
|---|---|---|
| Timestamp.StrToRelativedelta | utils/timestamp.py:14-29 | a duration exactly for the five period symbols, None (the ValueError) for every other string; every duration is non-zero |
| Timestamp.CatalogueUsesPeriods | const/const_bot.py:29-46 | every plan payload and the trial's `day3` are accepted symbols: `day3` is 3 days, `year1` is 1 year |
| Timestamp.TrialLastsThreeDays | utils/timestamp.py:68-74 | `set_date("day3")` is exactly now + 3 × 86400000 ms |
| Timestamp.AddDuration | utils/timestamp.py:68-74 | adding a non-zero duration gives a strictly later instant; a days-only duration adds whole days |
| Timestamp.SetDate | utils/timestamp.py:68-74 | defined exactly for valid periods, and then strictly later than now |
| Timestamp.UpdateDate | utils/timestamp.py:76-85 | with an old expiry at or before now it equals `set_date` from now, otherwise `set_date` from the old expiry; either way it is later than both |
| Timestamp.WordFormIndex | utils/timestamp.py:87-100 | singular form iff the last digit is 1 and the last two digits are not 11; the 2-4 form iff the last digit is 2..4 outside 12..14; otherwise the plural |
| Timestamp.WordFormPeriodic | utils/timestamp.py:87-100 | the form depends only on `abs(n) % 100`: the same for n and -n, and for n and n + 100 |
| Timestamp.Components | utils/timestamp.py:113-128 | one part per positive component in the order years, months, days, hours: each part sits at the index given by the positive components before it, and starts with its number |
| Timestamp.CalculateTimeDifference | utils/timestamp.py:102-136 | EXPIRED iff expiry < now; LESS_THAN_HOUR iff not expired and no positive component; otherwise the parts joined by ", " |
| Timestamp.SingleComponentPhrase | utils/timestamp.py:113-136 | "2 часа", "21 день", and no component giving LESS_THAN_HOUR, even at expiry == now |
| Timestamp.ReminderBounds | utils/timestamp.py:38-45 | the window is (now + 23 h, now + 24 h): one hour wide, ending a day from now |
| Calendar.FromLocalMs | utils/timestamp.py:68-74 | converting a wall-clock instant to a civil date gives a valid date that converts back to the same instant |
| Calendar.ShiftMonths | utils/timestamp.py:68-74 | `relativedelta(years, months)` gives a valid date exactly 12·years + months months later, same time of day; the day of month is kept when the target month has it and is clamped to that month's last day otherwise |
| Calendar.ShiftMonthsLater | utils/timestamp.py:68-74 | shifting by at least one month is strictly later; shifting by nothing changes nothing |
| Calendar.EndOfMonthClamps | utils/timestamp.py:68-74 | 31 Jan + 1 month is 28 Feb (29 Feb in a leap year); 29 Feb + 1 year is 28 Feb |
| Const.CatalogueConstants | const/const_bot.py:14-57 | prices 14900/39000/74900/129000 kopecks, whole roubles, each above the 60-rouble minimum; both bonuses 20; EXPIRED ≠ LESS_THAN_HOUR |
| Text.DecimalRoundTrip | database/referrals.py:21-28 | `int(str(n)) == n`, so a code written as a user's id is read back as that id |
| UserDb.WithDate | database/user.py:75-89 | the date update changes only the date of that row, no other row, and adds or removes no key |
| UserDb.WithTrialDate | database/user.py:24-38 | the trial-date update changes only the trial date of that row and nothing else |
| UserDb.UsersTable.constructor | database/user.py:8-21 | the table starts empty |
| UserDb.UsersTable.InsertUser | database/user.py:8-21 | inserted iff the key is new; the row holds the seven fields and a null trial date; a duplicate changes nothing |
| UserDb.UsersTable.InsertTrialDate | database/user.py:24-38 | the new rows are `WithTrialDate` of the old ones |
| UserDb.UsersTable.UpdateUserDate | database/user.py:75-89 | the new rows are `WithDate` of the old ones |
| UserDb.SelectUser | database/user.py:56-71 | None iff there is no row, otherwise the row |
| UserDb.SelectUserExists | database/user.py:93-105 | true iff `select_user` finds a row |
| UserDb.SelectUserDate | database/user.py:125-137 | None iff there is no row, otherwise its expiry |
| UserDb.SelectTrialDate | database/user.py:41-53 | a value iff the row exists and its trial date is set |
| UserDb.SelectUserVlessProfile | database/user.py:109-121 | None iff there is no row, otherwise its profile |
| UserDb.SelectAllUsers | database/user.py:141-153 | one entry per scanned key, each the stored row, and every row appears |
| UserDb.UpdateThenSelectDate | database/user.py:75-137 | after a date update the date query returns the new date for that user and the old answer for every other; trial dates are untouched |
| ReferralDb.Upserted | database/referrals.py:72-90 | a new key gets the referrer and the default balance; an existing key keeps its balance and gets the new referrer; other rows are unchanged |
| ReferralDb.Credited | database/referrals.py:145-155 | the balance grows by the (possibly negative) amount; a missing row is a no-op; other rows are unchanged |
| ReferralDb.ReferralsTable.constructor | database/referrals.py:93-103 | the table starts empty |
| ReferralDb.ReferralsTable.InsertUpdateReferrer | database/referrals.py:72-90 | the rows become `Upserted`; a new key is appended to the scan order |
| ReferralDb.ReferralsTable.InsertUserReferrals | database/referrals.py:93-103 | inserted iff the key is new, with no referrer and balance 0; a duplicate changes nothing |
| ReferralDb.ReferralsTable.UpdateBalance | database/referrals.py:145-155 | the rows become `Credited` by the amount |
| ReferralDb.GetBalance | database/referrals.py:107-120 | the stored balance, 0 for a missing row |
| ReferralDb.SelectUserExists | database/referrals.py:179-191 | true iff there is a row; without one the balance reads 0 |
| ReferralDb.EnsureReferralRecord | database/referrals.py:9-69 | accepted only for a digit string naming another user that has a row and was not referred by this user |
| ReferralDb.EnsureReferralRecordComplete | database/referrals.py:9-69 | conversely, a user id's decimal code meeting those rules is accepted, and so is any digit string (leading zeros included) whose value meets them: acceptance is exactly the rules |
| ReferralDb.LeadingZeroCodeAccepted | database/referrals.py:21-28 | "07" is accepted as user 7's code, since `int("07")` is 7 |
| ReferralDb.SelfReferralRejected | database/referrals.py:25-28 | a user's own id is never accepted |
| ReferralDb.ReciprocalRejected | database/referrals.py:47-58 | if a was referred by b, b cannot use a's code |
| ReferralDb.NonDigitCodeRejected | database/referrals.py:21-23 | "", "12a" and "-5" are rejected whatever the table holds |
| ReferralDb.ApprovedUpsertKeepsNoShortCycles | database/referrals.py:9-90 | linking a user to an accepted referrer keeps the table free of self-referrals and reciprocal pairs |
| ReferralDb.ThreeCycleAccepted | database/referrals.py:47-58 | the check looks one step back only: 1←2←3 still lets 1 take 3's code |
| ReferralDb.SelectUsersByReferrer | database/referrals.py:124-141 | exactly the scanned keys whose referrer matches, without repeats |
| ReferralDb.ReferrerColumnComplete | database/referrals.py:159-175 | a value appears in the referrer column iff some row names it |
| ReferralDb.SelectAllReferralsWithEveryUser | database/referrals.py:159-175 | one group per distinct non-null referrer, holding exactly its non-empty list of referred users |
| ApiClient.VlessProfile | api/client.py:36-44 | the profile starts with `vless://<uuid>@<ip>:` and ends with the fixed parameters, `#` and the username |
| ApiClient.AddClient | api/client.py:18-76 | invalid period: error, no write; existing key: error, no write; otherwise the row (expiry `set_date`, login date now, null trial) is written first, then the profile or, on panel rejection, an error with the row kept |
| ApiClient.UpdateClient | api/client.py:80-122 | true iff the row exists, the period is valid and the panel accepts; the new expiry `update_date(old, period)` is stored whenever row and period exist, even if the panel then rejects |
| ApiClient.RenewalExtends | api/client.py:95-101 | a stored renewal is later than the old expiry and than now, and changes nothing else in the row |
| UserMiddleware.ActiveFilter | middleware/user.py:21-34 | keeps exactly the rows with expiry after now, never more than were given |
| UserMiddleware.SelectAllActiveUsers | middleware/user.py:21-34 | the loop returns the active filter of all users |
| UserMiddleware.KeepActive | middleware/user.py:25-31 | the filtering loop keeps exactly the rows the filter keeps, in order |
| UserMiddleware.ActiveUsersExactly | middleware/user.py:21-34 | each user's row is listed as active iff its expiry is after now |
| UserMiddleware.CreateOrUpdateUser | middleware/user.py:62-73 | an existing user is renewed and gets None whatever the renewal's result; an absent user gets exactly the row `add_client` writes, added after every other row, which is unchanged, and gets the profile or the creation's error |
| UserMiddleware.SendVless | middleware/user.py:77-89 | the stored profile, or the fixed "not in the system" text |
| UserMiddleware.ComfortText | middleware/user.py:119-136 | no row: the source raises (None); expired: the fixed expired text; no positive component: the fixed under-an-hour text; otherwise the phrase |
| UserMiddleware.InsertTrialDate | middleware/user.py:139-148 | stamps `now` as that user's trial date and changes nothing else |
| ReferralsMiddleware.Swallow | middleware/referrals.py:10-17 | a wrapper returns None iff the wrapped call raised, otherwise its value |
| ReferralsMiddleware.UpdateBalance | middleware/referrals.py:91-98 | a raising update writes nothing and does not propagate; otherwise the balance is credited |
| ReferralsMiddleware.InsertUserReferrals | middleware/referrals.py:20-27 | a raising or duplicate insert leaves the table as it was; otherwise a referrer-less row is added |
| ReferralsMiddleware.InsertUpdateReferrer | middleware/referrals.py:40-47 | None iff the upsert raised (then nothing changed), otherwise true with the rows upserted and a new key appended to the scan order |
| ReferralsMiddleware.ActiveFilter | middleware/referrals.py:65-74 | keeps exactly the referred users whose lookup succeeds and whose expiry is set, non-zero and after now |
| ReferralsMiddleware.SelectActiveUsersByReferrer | middleware/referrals.py:60-78 | None iff the referred-users query fails; otherwise the active filter, in order, over that referrer's users |
| Tasks.EligibleCount | bot/tasks.py:89-108 | never more than the referred users, and 0 iff none of them counts for a bonus |
| Tasks.CountEligible | bot/tasks.py:89-108 | the inner loop counts exactly `EligibleCount` |
| Tasks.GraceBoundary | bot/tasks.py:104-105 | an expiry exactly three days after the trial date does not count; one millisecond more does |
| Tasks.FreshTrialDoesNotCount | bot/tasks.py:62-105 | a user whose only subscription is a trial started at a non-zero time never counts for a bonus |
| Tasks.Credits | bot/tasks.py:111-119 | at most one credit per group, each positive and a multiple of the bonus |
| Tasks.ApplyCreditsBalance | bot/tasks.py:111-114 | applying credits keeps the keys and referrers and adds to each balance exactly what was credited to it |
| Tasks.CreditToAbsent | bot/tasks.py:80-114 | a referrer without a group is credited nothing |
| Tasks.CreditToReferrer | bot/tasks.py:80-114 | each group's referrer is credited once: 20 × its eligible users |
| Tasks.CreditToAppend | bot/tasks.py:111-114 | credits of a run extended by one credit split into the old credits plus that one |
| Tasks.MonthlyBonusClosedForm | bot/tasks.py:65-124 | after a complete run, every row's balance is its old balance plus 20 × its eligible referred users; referrers and keys are unchanged |
| Tasks.TotalCountsEveryEligibleUser | bot/tasks.py:77-119 | `total_bonuses_given` is 20 × the eligible users over all groups |
| Tasks.CreditsStep | bot/tasks.py:111-119 | visiting one more group adds one credit at the end exactly when it has eligible users |
| Tasks.CreditGroup | bot/tasks.py:86-119 | one group: no eligible users, no write; a raising write changes nothing and ends the run; otherwise the balance and total grow by the group's credit |
| Tasks.CreditGroups | bot/tasks.py:80-124 | after the loop the table holds the credits of the groups visited; a run stopped by a raising write keeps the earlier credits |
| Tasks.MonthlyReferralBonus | bot/tasks.py:65-124 | the run over the non-null-referrer grouping, as `CreditGroups` states it |
| Tasks.ReminderFilter | bot/tasks.py:48-55 | keeps exactly the rows whose expiry is in (now + 23 h, now + 24 h] |
| Tasks.ReminderRecipients | bot/tasks.py:48-55 | one pass sends to the reminder filter of all users |
| Tasks.KeepDue | bot/tasks.py:51-55 | the loop keeps exactly the rows the reminder filter keeps, in order |
| Tasks.ReminderReachesExactlyTheWindow | bot/tasks.py:48-55 | every user is reminded iff its expiry is in the window |
| BonusPayment.FreshSession | bot/handlers/bonus_payment.py:32-41 | state none, bonus 0, price, title and payload of the plan, no message ids |
| BonusPayment.ValidateBonus | bot/handlers/bonus_payment.py:170-182 | more than the balance is rejected first; then less than 60 roubles left to pay |
| BonusPayment.MaxBonusIsTight | bot/handlers/bonus_payment.py:104-108 | the advisory maximum `min(price//100 − 60, balance)` is exact: a bonus is accepted iff it does not exceed it |
| BonusPayment.InvoiceAmount | bot/handlers/bonus_payment.py:207-208 | `max(price − 100·bonus, 0)`: never negative, and exact when the bonus fits |
| BonusPayment.AcceptedLeavesMinimum | bot/handlers/bonus_payment.py:170-208 | an accepted bonus leaves at least 6000 kopecks to pay, and coins plus money make up the price |
| BonusPayment.OneMonthPlanBonusLimit | bot/handlers/bonus_payment.py:170-182 | on the 149-rouble plan, 89 coins are accepted (6000 kopecks left); 90 are below the minimum |
| BonusPayment.PaymentState.constructor | const/const_bot.py:56 | `PAYMENT_STATE` starts empty |
| BonusPayment.PaymentState.InPaymentProcess | bot/handlers/bonus_payment.py:120-128 | true iff the chat has a session in a state other than none |
| BonusPayment.PaymentState.PromptPaymentMethod | bot/handlers/bonus_payment.py:15-65 | a fresh session replaces whatever the chat had, with the prompt's message id |
| BonusPayment.PaymentState.SendInvoiceWithBonus | bot/handlers/bonus_payment.py:193-237 | the invoice asks for the money part of the price, described by the bonus used; the session keeps the new invoice id and no prompt id |
| BonusPayment.PaymentState.CallbackChoosePaymentMethod | bot/handlers/bonus_payment.py:69-118 | no session: nothing; pay_full: waiting-payment with bonus 0 and a full-price invoice; pay_bonus: choose-bonus-amount and the advisory maximum |
| BonusPayment.PaymentState.BonusInputHandler | bot/handlers/bonus_payment.py:120-188 | only a chat choosing a bonus or waiting for payment reaches the handler (`in_payment_process`), any other changes nothing; then non-digit text, or any text while waiting for payment, drops the session; a rejected amount leaves it unchanged; an accepted one is stored, waiting-payment, and invoiced |
| BonusPayment.PaymentState.Pop | bot/handlers/payments.py:120 | the chat's session is removed and no other |
| BonusPayment.IssuedInvoiceCoversPrice | bot/handlers/bonus_payment.py:184-208 | a session holding a bonus always invoices at least 60 roubles, and coins plus money make up the price |
| Payments.GiveSubscription | bot/handlers/payments.py:169-234 | an existing user is renewed and the grant succeeds; an absent user gets exactly the new row, with every other row unchanged, and the profile, or the creation's error (an unknown period writes nothing) |
| Payments.SuccessfulPayment | bot/handlers/payments.py:72-128 | no session: an error with the session, both tables and both scan orders unchanged; otherwise the bonus (if any) is debited through the swallowing wrapper, so a failing debit keeps the coins, then the subscription granted (a renewal or exactly the new row, no other row touched); the session is dropped only after a successful grant, a failed grant keeps the debit; the reported amount is `total_amount // 100` |
| Payments.SuccessfulPaymentCorrected | bot/handlers/payments.py:87-120 | the same, with a missing session read as a full-price payment, so the paid subscription is granted |
| Payments.UnsuccessfulPayment | bot/handlers/payments.py:133-165 | the session is removed and no balance is touched |
| Payments.AcceptedBonusDebit | bot/handlers/payments.py:100-110 | a bonus accepted by `bonus_input_handler` belongs to a chat with a referrals row, so the later debit is never a no-op; it takes exactly the bonus and leaves that balance non-negative; coins plus money equal the plan price |
| ReferralHandlers.StartDecision | bot/handlers/referrals.py:121-198 | a registered user: no writes; a plain insert only without a referrals row; link and credit iff the code is accepted and no referrer was applied; relink, with no credit, when the code is accepted and a referrer was applied; a missing or rejected code gives a plain insert without a referrals row and no writes with one; the referrer is the code's value |
| ReferralHandlers.ReferralsStart | bot/handlers/referrals.py:121-198 | the handler takes the decision above and writes exactly its effect; the scan order is kept unless a new user's row is written, which is appended |
| ReferralHandlers.InserUserReferrals | bot/handlers/referrals.py:201-208 | a referrer-less row only for a user without one, appended to the scan order; otherwise rows and order unchanged |
| ReferralHandlers.StartKeepsNoShortCycles | bot/handlers/referrals.py:143-178 | no `/start` creates a self-referral or a reciprocal pair |
| ReferralHandlers.FirstUseCreditOnce | bot/handlers/referrals.py:151-166 | after a first-use credit the user has a referrer and 20 more coins, and no later `/start` credits again |
| ReferralHandlers.ReferralsStartAsWritten | bot/handlers/referrals.py:127-134 | the handler as written fails on every call |
| ReferralHandlers.AsWrittenLosesReferral | bot/handlers/referrals.py:127-166 | for a new user following a valid link, the handler as written fails while the decision links and credits 20 coins |
| ReferralHandlers.ReferralBonusFigure | bot/handlers/referrals.py:71-79 | 20 × the number of active referred users; a failed query counts as 0 |
| ReferralHandlers.ShownFigureCoversMonthlyCredit | bot/handlers/referrals.py:71-79 | the users the monthly run pays for are never more than the active users the info screen counts |
| Subscriptions.GetTrial | bot/handlers/subscriptions.py:21-54 | a user with a row is refused with no writes; otherwise exactly the three-day row `add_client` writes is added, no other row changes, and if the panel accepts the trial date is stamped and the profile returned, so on the trial alone the user never counts for the referrer's bonus |
| Subscriptions.SubscriptionButtons | bot/handlers/subscriptions.py:59-92 | the trial button iff the user has no row; the four plans always, in catalogue order; then the main-menu button |
| Subscriptions.HandleSubCallback | bot/handlers/subscriptions.py:96-112 | `sub_trial` goes to the trial; `sub_<payload>` goes to that plan's payment prompt; anything else is ignored |
| Subscriptions.MenuButtonsAreRouted | bot/handlers/subscriptions.py:72-112 | every menu button except the main-menu one is routed, and a plan button leads to a payload the expiry arithmetic accepts |

## Left out

- Telegram transport: sending, editing and deleting messages; keyboards, photos, parse modes and random message texts. A message id is a parameter. Deleting a message is modelled only as clearing the stored id.
- `/start` in bot/handlers/start.py nulls the two message ids of an existing session. The model treats this as "session unchanged".
- Panel login, database login and connection plumbing (`login_3x`, `login_db`, database/connection.py, middleware/connection.py). Their failures are not modelled.
- The JSON bodies of the panel POSTs and the panel's HTTP API. The POST is the oracle `panelOk`.
- Random UUIDs, sub ids and ports. They are parameters.
- Scheduling, sleeping and the asyncio loop of `reminder_task` and the monthly job. Only one pass over the data is modelled.
- Floating-point timestamp conversions (`timestamp()*1000`, `/1000`). Instants are integer milliseconds.
- pytz, and Moscow's historical offset changes. Moscow time is the fixed offset UTC+3.
- The (years, months, days, hours) decomposition inside `relativedelta(expiry, now)`. It is an input of `Timestamp.CalculateTimeDifference`.
- Only dates from 1970 on are representable in the calendar.
- The receipt JSON and its float formatting (utils/json_fun.py).
- `str.isdigit` accepts Unicode digits. `Text.IsDigits` accepts only ASCII '0'..'9'.
- Database errors inside the handlers and in `add_client`'s insert, other than a duplicate key. The wrappers of middleware/referrals.py do model them, with explicit failure flags; `successful_payment`'s debit goes through such a wrapper.
- ReferralsMiddleware.Swallow: one generic definition stands for the four query wrappers that only forward a value or None: `ensure_referral_record`, `select_user_exists`, `select_users_by_referrer` and `get_balance` (middleware/referrals.py lines 10-17, 30-37, 50-57 and 81-88).
- UserMiddleware.ComfortText: a missing row returns None rather than raising. The classifier's integer sentinels and phrases are compared as in the source, not re-parsed.
- The literals in middleware/user.py are stored as UTF-8 text read back as Mac Roman. The model uses the intended Cyrillic text.
- The `meow_coins_balance` column default is not in the code: `insert_user_referrals` and the upsert insert no balance. The model assumes the schema defaults it to 0 (`ReferralDb.INITIAL_BALANCE`), so a first link leaves exactly the 20-coin first-use credit.
- SQL scan order is unspecified. The model fixes it to insertion order, which is what `order` records.
- Tasks.MonthlyReferralBonus: a failing write is modelled as a set of referrers whose update raises. Errors in reading the grouping or the user dates are not modelled.
- The middleware's `get_user_exists_in_user`, `select_user_date` and `select_trial_date` forward to the database functions. They are used through `UserDb` directly.
- Concurrency: handlers run one at a time. Interleavings of async handlers over `PAYMENT_STATE` are not modelled.
- Admin, support, profile and instructions handlers have no ledger state and are not modelled.
- tests/test_referrals.py is not part of this model. It calls functions with signatures the code no longer has.

## Findings

| source | as written | input that shows it | evidently intended | confidence | as-written member | corrected member |
|---|---|---|---|---|---|---|
| bot/handlers/referrals.py:131 | `referrals_start` calls `middleware.referrals.get_refferer`, which middleware/referrals.py does not define. Every call raises AttributeError before any write, so no `/start` ever links a referrer or pays the first-use bonus. | a new chat 8, referrals row 7 with no referrer, message `/start 7` | `code_applied` is "this user's referrals row names a referrer"; the user is linked to 7 and credited 20 coins | high, not executed | ReferralHandlers.ReferralsStartAsWritten | ReferralHandlers.StartDecision |
| bot/handlers/payments.py:88-94 | `invoice_msg_id` and `bonus_input` are assigned only when the chat has a session. Without one, `if invoice_msg_id` raises UnboundLocalError, the handler re-raises, and a customer whose payment went through gets no subscription. | a paid invoice for a chat with no `PAYMENT_STATE` entry, e.g. after a bot restart or after the session was dropped while the invoice was open | a payment without a session is treated as full price (no coins), and the payload's subscription is still granted | medium, not executed | Payments.SuccessfulPayment | Payments.SuccessfulPaymentCorrected |
