# Rifas Cuba lottery bot: ledger and conversation model

Rifas Cuba is a Telegram bot for placing bets on the Florida, Georgia and New York lotteries. Players
pay in USD or CUP, and each user has three balances: USD, CUP and a USD bonus, plus an optional
referrer. The bot walks every user through small conversations: choose a lottery and bet type, then
send the bet; deposit with a photo of the payment; withdraw to an account; transfer USD to another
user. The administrator approves or rejects deposits and withdrawals and maintains the payment
methods, the exchange rate and the default prices.

This project models the part of the bot that decides money and state, in five modules:

- `Common` (`common.dfy`): `Option`, standing for Python's `None` and for a missing key.
- `Text` (`text.dfy`): the pieces of Python string handling the handlers use, over ASCII. These are
  `lower`, `strip`, `split()`, `in`, `split(sep)[0]`, `isdigit` and `int(...)`, plus the decimal
  numeral of a natural number.
- `Money` (`money.dfy`): the money arithmetic.
  - Reading amounts: `parse_amount` for deposit captions, `parse_bet_and_cost` for bet texts, and
    `float(...)` on plain decimal literals.
  - Rounding and conversion: Python's `round` to cents, `cup_to_usd`, the 5% referral commission
    and the bonus-first split of a USD cost.
  - The Georgia betting hours.
- `Ledger` (`ledger.dfy`): the database as in-memory tables. These are the users, the transactions,
  the bet log, the deposit and withdrawal methods, and the two configuration rows.
  - Pure functions say what each database helper does to a table: registering a user, crediting a
    balance delta, the bet debit and the referral payment.
  - The class `Store` holds the tables and changes them in place, one method per helper.
- `Bot` (`bot.dfy`): the conversation state machine. `user_states` becomes a map from user id to a
  `Session`, the pending action with its payload. Every handler is a method of the class `Bot`.
  - A handler that reads text (a number, an id, a caption) is split in two. An outer method decodes
    the text the way the source does, within the limits listed under "Left out". An inner method
    acts on the decoded value. The two share one
    predicate that states the new state (`BetPlacement`, `DepositProof`, `WithdrawalRequested`,
    `TransferMade`, ...), with the error, retry and success branches of the source.
  - Every method keeps the invariant `Bot.Valid`:
    - the store is well formed;
    - nobody is their own referrer;
    - only the administrator is in an admin flow;
    - nobody is about to transfer to themselves;
    - a user awaiting a deposit proof or withdrawal details names an active method.

Balances are not kept non-negative in general. `parse_amount` reads `-5 usd` as minus five dollars,
and approving such a deposit lowers the balance. So the lemmas that say a bet, a transfer or a
withdrawal never overdraws (`BetKeepsSolvent`, `TransferKeepsSolvent`, `WithdrawalKeepsSolvent`)
take balances that are not negative as a precondition. Nothing keeps that as an invariant.

A `bet_placed` message from the web app pays the referrer a commission on the cost the web app
reports. It debits nothing from the bettor, and the model does the same
(`bit_rifas_cuba.py:1132-1140`).

Amounts are integers in cents, because every amount the bot stores is rounded to two decimals. The
exchange rate is also in cents: the default 110 CUP per USD is `11000`.

`handle_web_app_data` and the web-app variant of the deposit-proof step exist only in
`bit_rifas_cuba.py`. The catch-all `fallback_handler` exists only in `bit_rifas_production.py`:
`Bot.hasFallback` says whether it is registered. Everything else is the same in both files, and the
table below cites the production file for it.

## Model

| member | source | states |
|---|---|---|
| Text.WordsAreRuns | bit_rifas_production.py:295 | every word `split()` returns is non-empty and holds no whitespace |
| Text.WordsJoin | bit_rifas_production.py:295 | a space-free text, one space and any text split into the words of the first followed by the words of the second |
| Text.WordsOfTwo | bit_rifas_production.py:295 | two words joined by one space split back into exactly those two words |
| Text.Lower | bit_rifas_production.py:182 | `lower()` keeps the length, turns each of `A`..`Z` into its own lower-case letter and changes no other character |
| Text.CommaToDot | bit_rifas_production.py:182 | `replace(",", ".")` keeps the length and changes exactly the commas, into dots |
| Text.Strip | bit_rifas_production.py:182 | `strip()` leaves no whitespace at either end |
| Text.StripIsSlice | bit_rifas_production.py:182 | `strip()` keeps one contiguous part of the text |
| Text.TrimStartSpaces | bit_rifas_production.py:182 | what `strip()` removes in front is whitespace only |
| Text.TrimEndSpaces | bit_rifas_production.py:182 | what `strip()` removes at the end is whitespace only |
| Text.StripIdempotent | bit_rifas_production.py:187 | stripping a stripped text changes nothing, so `float(x.strip())` reads what `float(x)` reads |
| Text.FirstOccurrence | bit_rifas_production.py:186 | the first index at or after the start where the pattern occurs, and no earlier one; none when it never occurs |
| Text.BeforeFirst | bit_rifas_production.py:187 | `split(sep)[0]` is the prefix before the first occurrence of the separator, or the whole text when there is none |
| Text.AfterFirst | bit_rifas_production.py:603 | the part after the first separator is the rest of the text after the prefix and the separator; empty when there is no separator |
| Text.SplitFirstJoins | bit_rifas_production.py:603 | when the separator occurs, the part before its first occurrence, the separator and the part after it join back into the text |
| Text.NatToStringRoundTrip | bit_rifas_production.py:692 | reading the decimal numeral of `n` digit by digit gives `n` back |
| Text.ParseIntOfNumeral | bit_rifas_production.py:299 | `int(str(n)) == n` for every natural `n` |
| Text.ParseInt | bit_rifas_production.py:299 | `int(s)` succeeds exactly when the stripped text is digits with at most one leading `+` or `-`, and `None` stands for the `ValueError` otherwise; the value is that of the digits, negated after `-` |
| Text.ParseIntOfDigits | bit_rifas_production.py:692 | `int(t)` of an all-digit `t` (what `isdigit` accepts) is its value |
| Money.RoundDiv | bit_rifas_production.py:68-70 | the quotient is within half a divisor of the exact one, as rounding to the nearest cent requires |
| Money.FormatCentsParses | bit_rifas_production.py:175-179 | an amount written with two decimals reads back as the same number of cents |
| Money.NumeralCents | bit_rifas_production.py:208 | a whole numeral reads as 100 cents per unit |
| Money.DecimalValue | bit_rifas_production.py:208 | `float("<d>.<e>")` is `d` units plus the first two fraction digits, rounded on the third |
| Money.DecimalCentsOfNumeral | bit_rifas_production.py:187-193 | `float(str(n))` and `float("-" + str(n))` are `n` and `-n` units |
| Money.DecimalCentsNeedsDigit | bit_rifas_production.py:187-193 | `float` of a text without a digit raises |
| Money.CaptionNormalised | bit_rifas_production.py:182 | the normalised caption is lower case, has no comma and no whitespace at either end |
| Money.ParseAmount | bit_rifas_production.py:181-197 | the caption never yields both a USD and a CUP amount; a CUP amount only when there is no `usd` and there is a `cup`; never a CUP amount when `usd` occurs (the amounts themselves are stated by the lemmas below) |
| Money.ParseAmountRoundTrip | bit_rifas_production.py:181-197 | `"<x> usd"`, `"<x> cup"` and a bare `"<x>"`, with `x` written to two decimals, read back as `(x, 0)`, `(0, x)` and `(x, 0)` |
| Money.ParseAmountFirstUsd | bit_rifas_production.py:186-188 | a number followed by ` usd` deposits that number in USD, whatever follows it, another `usd` or `cup` amount included |
| Money.ParseAmountCup | bit_rifas_production.py:189-191 | a number followed by ` cup` deposits that number in CUP |
| Money.ParseAmountBare | bit_rifas_production.py:192-194 | a number with no currency name deposits that number in USD |
| Money.ParseAmountWholeNumbers | bit_rifas_production.py:181-197 | `<n> usd`, `<n> cup` and `<n>` deposit `n` units of USD, CUP and USD; `-<n> usd` deposits minus `n` USD |
| Money.ParseAmountWithoutDigits | bit_rifas_production.py:195-196 | a caption without a digit deposits nothing: the failed `float` is swallowed and (0, 0) returned |
| Money.ExampleTenUsd | bit_rifas_production.py:181-197 | `10 usd` deposits 10 USD |
| Money.ExampleFiveHundredCup | bit_rifas_production.py:181-197 | `500 cup` deposits 500 CUP |
| Money.ExampleSeven | bit_rifas_production.py:181-197 | `7` deposits 7 USD |
| Money.ExampleMinusFiveUsd | bit_rifas_production.py:181-197 | `-5 usd` deposits minus 5 USD |
| Money.ParseBetCost | bit_rifas_production.py:199-218 | ok exactly when a cost is non-zero; when the lower-cased text has a match, the cost is exactly the last match's number in its currency (not ok when that number is 0); without a match, exactly the bet type's default price (not ok when both parts are 0); an unknown type without a match is not ok |
| Money.LastPriceWins | bit_rifas_production.py:199-211 | whatever comes before it (as long as its last character cannot continue a number), a bet text ending in `<d>[.<e>]`, any run of whitespace and `usd` or `cup` costs exactly `float("<d>.<e>")` of that currency, rounded to cents, or is refused when that is 0 |
| Money.ScanReaches | bit_rifas_production.py:204 | the `findall` scan, resumed after every match, reaches a match that nothing before it can run into |
| Money.TagEndsBefore | bit_rifas_production.py:203 | a match that starts before a digit preceded by a non-number character ends by that digit |
| Money.TagAtShape | bit_rifas_production.py:203 | a match starts at a digit and ends with the name of its currency |
| Money.LastTagIsMatch | bit_rifas_production.py:204-205 | `matches[-1]` is one of the matches the scan finds |
| Money.TagOfPrice | bit_rifas_production.py:203 | `<d>[.<e>]`, whitespace and a currency name form one match, worth that number in cents |
| Money.TrailingTagIsLast | bit_rifas_production.py:204-205 | a match that runs to the end of the text, after a character that cannot continue a number, is the last match |
| Money.PriceIsLast | bit_rifas_production.py:204-205 | the last match of a text that ends in a price is that price |
| Money.LastPriceExample | bit_rifas_production.py:367 | the bot's own example `12 con 1 usd, 34 con 2 usd` costs 2 USD |
| Money.MixedPriceExample | bit_rifas_production.py:368 | the bot's own example `7*1.5usd, 23*2cup` costs 2 CUP, the price stated last |
| Money.FractionPriceExample | bit_rifas_production.py:368 | `7*1.5usd` costs 1.50 USD: a fraction, and no space before the currency |
| Money.CupToUsd | bit_rifas_production.py:167-169 | the CUP amount divided by the rate, rounded to the cent; 0 when the rate is 0 |
| Money.Commission | bit_rifas_production.py:418-420 | 5% of the USD cost rounded to the cent; nothing for a bet without a USD cost; never negative |
| Money.BonusFirst | bit_rifas_production.py:410-411 | `min(bonus, cost)` comes from the bonus and the rest from `usd`; the two parts add up to the cost |
| Money.GeorgiaClosedHours | bit_rifas_production.py:330-336 | `GeorgiaOpen` refuses bets between the three windows 09:00-12:00, 14:00-18:30 and 20:00-23:00 and before or after all of them; each of the six ends is open, and one microsecond outside each end is closed |
| Ledger.NewUser | bit_rifas_production.py:54-61 | a new user has zero balances and no referrer, and is named `Jugador` when no first name is given |
| Ledger.Account | bit_rifas_production.py:50-63 | a known user's row, or a fresh row with zero balances and no referrer |
| Ledger.Register | bit_rifas_production.py:50-63 | `get_user`: a known id leaves the table unchanged; an unknown one adds exactly that id with a fresh row |
| Ledger.Credit | bit_rifas_production.py:65-71 | `update_user_balance`: the id is registered if new and its three balances move by the delta |
| Ledger.CreditKeepsOthers | bit_rifas_production.py:65-71 | crediting one user leaves every other user's row unchanged |
| Ledger.CreditInverse | bit_rifas_production.py:661 | crediting a delta and then its negation gives back the original table, with the id registered |
| Ledger.CreditsCombine | bit_rifas_production.py:65-71 | two credits to one user are one credit of their sum |
| Ledger.CreditsCommute | bit_rifas_production.py:717-718 | credits to two different users can be made in either order |
| Ledger.TransferConserves | bit_rifas_production.py:717-718 | debiting one user and crediting another by the same amount keeps their USD sum and every other row |
| Ledger.RegisterKeepsNoSelfReferral | bit_rifas_production.py:50-63 | registering a user keeps the rule that nobody is their own referrer |
| Ledger.CreditKeepsNoSelfReferral | bit_rifas_production.py:65-71 | crediting a balance keeps that rule too |
| Ledger.CreditAfterLookup | bit_rifas_production.py:406-411 | a balance update after `get_user` is the same as the update alone |
| Ledger.BetDebit | bit_rifas_production.py:401-413 | refused exactly when the funds do not cover the cost; a USD cost takes bonus first, then `usd`, and lowers `usd + bonus` by exactly the cost, leaving CUP alone; a bet without a USD cost takes CUP only |
| Ledger.BetDebitSolvent | bit_rifas_production.py:405-413 | an accepted debit never drives a balance that was not negative below zero |
| Ledger.PayReferrer | bit_rifas_production.py:418-421 | without a referrer, or with a zero commission, nothing changes; otherwise the referrer's USD rises by the commission |
| Ledger.WithStatus | bit_rifas_production.py:155-159 | only the status changes, and the admin message too when a non-empty one is given |
| Ledger.FindMethod | bit_rifas_production.py:466-467 | the method with that id, found only when it is active |
| Ledger.FindMethodGrows | bit_rifas_production.py:106-109 | adding methods keeps every method that could be found before |
| Ledger.Store.constructor | bit_rifas_production.py:50-163 | an empty database whose next transaction id is 1 |
| Ledger.Store.GetUser | bit_rifas_production.py:50-63 | returns and stores the user's row, creating it if new |
| Ledger.Store.UpdateUserBalance | bit_rifas_production.py:65-71 | the users table becomes the credited table |
| Ledger.Store.SetRef | bit_rifas_production.py:306 | sets the referrer of a known user only |
| Ledger.Store.CreateTransaction | bit_rifas_production.py:139-153 | inserts a `pending` row under a fresh id and returns that id |
| Ledger.Store.UpdateTransactionStatus | bit_rifas_production.py:155-159 | a known transaction gets the new status (and message); an unknown id changes nothing |
| Ledger.Store.SetProofFileId | bit_rifas_cuba.py:544 | sets the proof photo of a known transaction |
| Ledger.Store.SetProofUrl | bit_rifas_cuba.py:1072 | sets the proof URL of a known transaction |
| Ledger.Store.AddBet | bit_rifas_production.py:123-133 | appends the bet to the log |
| Ledger.Store.AddDepositMethod | bit_rifas_production.py:106-109 | appends an active deposit method, found under the next id |
| Ledger.Store.AddWithdrawMethod | bit_rifas_production.py:118-121 | appends an active withdrawal method, found under the next id |
| Ledger.Store.ExchangeRate | bit_rifas_production.py:73-77 | the stored rate, or 110 CUP per USD when there is no config row |
| Ledger.Store.SetExchangeRate | bit_rifas_production.py:79-80 | replaces the stored rate, and does nothing when there is no config row |
| Ledger.Store.PlayPrices | bit_rifas_production.py:82-92 | the stored prices, or 70 CUP / 0.20 USD for each of the four bet types |
| Ledger.Store.SetPlayPrice | bit_rifas_production.py:94-97 | replaces that bet type's price only, and does nothing when there is no config row |
| Bot.SessionFitsGrows | bit_rifas_production.py:106-121 | new payment methods never break a session's promise |
| Bot.ReferralArg | bit_rifas_production.py:295-303 | there is a referrer exactly when the second word reads as an integer other than zero and the user's own id, and it is that integer |
| Bot.InviteLinkIsStart | bit_rifas_production.py:291 | the invitation link `/start <id>` is the `start` command |
| Bot.InviteLinkRefers | bit_rifas_production.py:295-303 | `/start <id>` from any other user makes `id` the referrer |
| Bot.Started | bit_rifas_production.py:304-306 | after `start`, the user is registered, every other row is unchanged, and the user's referrer is the one given only when they had none |
| Bot.IdFieldOfNumeral | bit_rifas_production.py:465 | `int(data.split("_")[k])` (`IdField`) of the id the bot writes on its buttons (`dep_<id>`, `approve_dep_<id>`, ...) reads back as the same id |
| Bot.Bot.constructor | bit_rifas_production.py:286-287 | the bot starts with no pending action and an empty database |
| Bot.Bot.CmdStart | bit_rifas_production.py:291-312 | the users table becomes exactly `Started` with the referrer read from the command |
| Bot.Bot.MyMoney | bit_rifas_production.py:434-439 | shows the user's row, registering the user if new |
| Bot.Bot.LotterySelected | bit_rifas_production.py:324-351 | a play starts exactly when the lottery is not Georgia or Georgia is open; otherwise nothing changes |
| Bot.Bot.BetTypeSelected | bit_rifas_production.py:353-391 | the user awaits a bet of that type in the lottery chosen before, or Florida |
| Bot.Bot.HandleBet | bit_rifas_production.py:393-432 | the stripped text is priced with the stored prices (the defaults when there is no config row) and placed exactly as `BetPlacement` states |
| Bot.Bot.PlaceBet | bit_rifas_production.py:399-432 | an unreadable bet, or one the funds do not cover, records nothing, moves no balance and keeps `awaiting_bet`; otherwise it charges the debit, records the bet, pays the referrer and ends the action |
| Bot.Bot.BetKeepsSolvent | bit_rifas_production.py:405-421 | a placed bet leaves a bettor whose balances were not negative with no negative balance |
| Bot.Bot.DepositMethodSelected | bit_rifas_production.py:460-480 | an active method id makes the next photo its proof; an unknown or unreadable id changes nothing |
| Bot.Bot.HandleDepositPhoto | bit_rifas_cuba.py:524-573 | the caption is read with `parse_amount` and the proof recorded as `RecordDepositProof` states |
| Bot.Bot.RecordDepositProof | bit_rifas_cuba.py:526-573 | outside the two proof actions, or with a zero amount, nothing changes; otherwise a pending deposit is inserted (the web-app variant updates its transaction's photo instead) and the action ends |
| Bot.Bot.HandleDepositReview | bit_rifas_cuba.py:576-615 | reads the transaction id from the button and reviews it as `ReviewDeposit` states |
| Bot.Bot.ReviewDeposit | bit_rifas_cuba.py:578-609 | a non-admin or an unknown id changes nothing; approval credits the amounts plus the bonus when either amount is positive; rejection credits nothing; the status is set either way, whatever it was |
| Bot.Bot.ApprovedDepositCredits | bit_rifas_cuba.py:547-598 | a proof followed by an approval credits the user exactly the caption's amounts and the bonus, and marks the deposit approved |
| Bot.Bot.WithdrawMenu | bit_rifas_production.py:557-574 | the method menu is offered exactly when the user has at least 1 USD and an active method exists |
| Bot.Bot.WithdrawMethodSelected | bit_rifas_production.py:576-594 | an active method id makes the next message the account details; anything else changes nothing |
| Bot.Bot.HandleWithdrawDetails | bit_rifas_production.py:596-639 | without a `\|` nothing changes and the action stays; otherwise the request is made exactly as `WithdrawalRequested` states, with the details `Cuenta: <account>, Confirm: <confirm>` (`WithdrawDetails`) |
| Bot.Bot.RequestWithdrawal | bit_rifas_production.py:604-639 | under 1 USD only the action ends; otherwise the whole USD balance goes into escrow, leaving 0, and a pending withdrawal of it is recorded |
| Bot.Bot.WithdrawalKeepsSolvent | bit_rifas_production.py:604-612 | a user whose balances were not negative has no negative balance after the request |
| Bot.Bot.HandleWithdrawReview | bit_rifas_production.py:641-672 | reads the transaction id from the button and reviews it as `ReviewWithdrawal` states |
| Bot.Bot.ReviewWithdrawal | bit_rifas_production.py:643-666 | a non-admin or an unknown id changes nothing; rejection refunds the USD amount and approval moves nothing; the status and note are set either way |
| Bot.Bot.RejectedWithdrawalRefunds | bit_rifas_production.py:607-661 | a withdrawal request followed by a rejection gives back exactly the escrowed balance |
| Bot.Bot.ReviewNote | bit_rifas_production.py:666 | the note `Revisado por admin: <status>` is never empty, so it always replaces the old message |
| Bot.Bot.TransferSelected | bit_rifas_production.py:674-683 | the user awaits the transfer target |
| Bot.Bot.HandleTransferTarget | bit_rifas_production.py:685-697 | an all-digit id other than the user's own moves on to the amount for that id; anything else keeps the action |
| Bot.Bot.HandleTransferAmount | bit_rifas_production.py:699-733 | reads the amount as a decimal (`,` as `.`) and sends it exactly as `TransferMade` states |
| Bot.Bot.SendTransfer | bit_rifas_production.py:703-733 | a non-positive or unreadable amount keeps the action; too little USD only ends it; otherwise the amount moves to the target, the USD sum of the two is unchanged, and a pending transfer is recorded |
| Bot.Bot.TransferKeepsSolvent | bit_rifas_production.py:703-718 | a sender and a target whose balances were not negative have no negative balance after the transfer |
| Bot.Bot.AdminAddMethodSelected | bit_rifas_production.py:796-816 | only the administrator starts describing a new method |
| Bot.Bot.AdminSetRateSelected | bit_rifas_production.py:818-828 | only the administrator starts setting the rate |
| Bot.Bot.AdminPriceSelected | bit_rifas_production.py:844-855 | only the administrator starts setting the price of the bet type after `adm_price_` |
| Bot.Bot.PriceArg | bit_rifas_production.py:937-941 | a price exactly when the first two words read as decimals and neither is negative, and then it is those two numbers |
| Bot.Bot.HandleAdminFlows | bit_rifas_production.py:880-949 | each admin action takes its own step (`MethodDraftStep`, `RateSet` or `PriceSet`), which writes only that action's table |
| Bot.Bot.AddMethodStep | bit_rifas_production.py:885-922 | name, then card, then confirmation; the third step stores an active method in its own table and ends the action |
| Bot.Bot.SetRateStep | bit_rifas_production.py:923-933 | a positive rate is stored and the action ends; anything else keeps the action |
| Bot.Bot.SetPriceStep | bit_rifas_production.py:934-949 | a valid price replaces that bet type's entry and the action ends; anything else keeps the action |
| Bot.Bot.Fallback | bit_rifas_production.py:951-961 | `/balance` in any case registers the user; nothing else changes anything |
| Bot.Bot.HandleText | bit_rifas_production.py:291-961 | the `start` command leaves the pending actions alone and changes only the users, to `Started`; a message a pending action takes has exactly that action's effect and leaves every other table alone; any other message changes only the users, and those only for a fallback `/balance` |
| Bot.Bot.HandlePending | bit_rifas_production.py:393-949 | for each of the seven pending actions, the effect its handler states, with every table that handler does not write unchanged |
| Bot.Bot.HandleWebAppData | bit_rifas_cuba.py:1050-1144 | a deposit request sets its transaction's proof URL; a placed bet with a USD cost registers the user and pays the referrer; nothing else changes anything |

## Left out

- Telegram I/O is not modelled. This covers messages, edits, photos sent to the administrator, keyboards and callback answers. So are the callbacks that only display something: `main`, `play`, `recharge`, `my_bets`, `referrals`, `how_to_play`, `admin_panel`, `adm_set_price` and `adm_view`. The `/admin` reply of the fallback handler is left out for the same reason.
- The Supabase client is replaced by in-memory tables. The stored procedures the web app calls, and the web app's own HTML and JavaScript, are not part of this model.
- The Flask routes, the webhook, the polling thread and `app.py` are not part of this model.
- `format_money` and every other display string are left out. `format_money` is modelled only for its side effect, which is registering the user.
- The lost update that concurrent `update_user_balance` calls can cause, because the model is sequential.
- Money.DecimalCents: a literal is rounded to cents when it is read, while the source keeps the float and rounds only when it stores a balance or a transaction. A sub-cent amount (a 0.001 USD transfer, say) is therefore 0 in the model and refused. `inf`, `nan` and exponent notation are not read.
- Money.RoundDiv: rounds halves upward. Python's `round` works on binary floats and rounds exact halves to even.
- Text: ASCII only. Unicode digits and whitespace, which `isdigit`, `int` and `split` also accept, are not.
- Money.GeorgiaOpen: the time of day is an input in microseconds since midnight, not in minutes. `datetime.time` carries microseconds, so 12:00:00.5 is already outside the morning window in the source too. Reading the clock and the time zone is left out.
- Bot.Bot.HandleWebAppData: JSON decoding and the `int`/`float` conversions of its fields are left out. `WebAppData` holds the decoded result, and `Malformed` stands for data that fails to decode or convert, so that nothing changes. The withdrawal and transfer requests only send messages, so they change nothing either way.
- Bot.Bot.RecordDepositProof: follows `bit_rifas_cuba.py`, which accepts both proof actions. The production handler accepts only `awaiting_deposit_proof`. No code in either file ever sets `awaiting_deposit_proof_webapp`, so the two agree on every reachable state.
- Ledger.Store.AddBet: the `activa` status that `add_bet` stores is dropped, because nothing reads it.
- Both reviews are modelled as written. They never look at the transaction's status or kind. Approving a deposit twice credits it twice, and the deposit buttons can review a withdrawal.
- Money.ParseAmount: its own contract says only which of the two amounts can be non-zero. The amounts are stated by `ParseAmountFirstUsd`, `ParseAmountCup`, `ParseAmountBare`, `ParseAmountRoundTrip`, `ParseAmountWholeNumbers`, `ParseAmountWithoutDigits` and the examples, for captions of those shapes, not for every caption.
- Text.ParseInt: Python's `int`, like `float`, also accepts `_` between digits (`1_000`). The model reads such text as unreadable, and `Money.DecimalCents` does the same.
- A failed Telegram send raises and ends the handler part-way. In `handle_bet` the referrer's message (`bit_rifas_production.py:422`) comes before the action is cleared (line 432). In `handle_deposit_review` the user's message (lines 539-544) comes before the status is set (line 549). The model treats every send as successful, so its handlers always run to the end.
