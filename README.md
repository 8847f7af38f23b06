# Restaurant order lines, modelled in Dafny

This models the order flow of a small restaurant web application in `app.py`:

- Waiters put items in a table's cart (`Carrinho`).
- They send the cart to the kitchen as one batch (`comanda_id`). Drinks and desserts go straight to `Entregue`; everything else goes to `Pendente`.
- The kitchen moves a batch through `Preparando` and `Pronto`, and the waiter or the kitchen marks it `Entregue`.
- The cashier closes the table (`Pago`). The discount and the service charge are split evenly over the table's open lines.

Around that state machine sit the read-side views:

- the polling signatures the screens compare to decide whether to reload;
- the list of tables with something ready;
- the kitchen's tickets grouped by batch;
- the admin's open bills and the day's receipts;
- the waiter's table dropdown, prefilled customer name and menu ordering.

Modules:

- `Orders` (`orders.dfy`): the `Pedido` row as the datatype `Line` and the statuses. It also holds each update as a pure specification: `Apply` of an `Op` over the lines, `Cancelled`, `Closed`. The lemmas state what each update changes and what it leaves alone.
- `Store` (`store.dfy`): class `Restaurant`. It holds the `Pedido` table (`lines`) and `Configuracao.taxa_servico` (`servicePercent`) as fields. Every state-changing handler is a method with the handler's loop, proved to leave exactly the state the `Orders` specification describes. The class invariant is distinct ids and "a line has a batch exactly when it has left the cart".
- `Polling` (`polling.dfy`): the JSON endpoints. The signatures are built from the counts with `NatText` and `Join`, and proved to parse back to those counts.
- `Kitchen` (`kitchen.dfy`): the `cozinha` tickets.
- `Admin` (`admin.dfy`): the open bills (`mesas_abertas`) and the receipts of paid lines (`historico_pagamentos`) with the day's totals.
- `Waiter` (`waiter.dfy`): the `index` view's dropdown, current customer and menu.
- `Grouping` (`grouping.dfy`): the "dictionary filled in a loop, keyed by first appearance" pattern that `cozinha`, `admin` and `index` all use. `Grouped` is the specification and `GroupBy` the loop.
- `Text` (`text.dfy`): decimal text of naturals, `split`/`join`, and substring search (`'Bebidas' in categoria`).

Modelling choices:

- Money is `real`.
- The clock is a parameter: `now` for `datetime.now()`, `batch` for `int(time.time())`.
- A new line's id is one more than the largest id in use, which is SQLite's rowid rule.
- Queries without `order_by` return lines in insertion order.
- Views that read an ordered or DISTINCT query take the query's rows as input. `Kitchen.IsKitchenQuery`, `Admin.IsReceiptQuery` and `Waiter.IsActiveQuery` say which row sequences are such a result.

Where the code does something one might not expect, the model follows the code:

- `cancelar_item` deletes a line of any status, paid lines included (app.py:149-157).
- `marcar_pronto` and `finalizar_entrega` rewrite every line of the batch, including drinks already `Entregue` and lines already `Pago`. They move those lines backwards (`Orders.BatchUpdatesRewritePaid`).
- The receipt key `comanda_id if comanda_id else "pg_<id>"` treats a batch id of 0 like no batch (`Admin.KeyOf`).
- A receipt reads its discount and service charge from its first line, which holds only that line's share (see Findings).

## Model

| member | source | states |
|---|---|---|
| Store.Restaurant.constructor | app.py:17-19 | a new database has no order lines and a 10% service charge |
| Store.Restaurant.AddItem | app.py:110-128 | appends exactly one line, `NewLine`: in the cart, no batch, category defaulting to "Geral", a fresh id above every id in use; old lines unchanged; invariant kept |
| Orders.AddSpec | app.py:118-126 | the new line is Carrinho, has no batch, has the form's table, price and category (or "Geral"), and its id exceeds every existing id; adding it keeps ids distinct and the batch rule |
| Orders.MaxId | app.py:29 | the next id is above every id in use: MaxId bounds every id and is one of them (or 0 on an empty table) |
| Store.Restaurant.SendToKitchen | app.py:130-147 | the loop leaves exactly `Apply(Send(table, batch, now), old lines)`, and an empty cart changes nothing |
| Orders.SendSpec | app.py:132-144 | each cart line of the table gets the shared batch id and time, and becomes Entregue if its category contains "Bebidas" or "Sobremesas", else Pendente; every other line is unchanged; no cart line is left at the table |
| Orders.SendEmptyCart | app.py:133 | with no cart line at the table, sending changes nothing |
| Text.ContainsAt | app.py:141 | `sub in s` holds exactly when `sub` occurs at some position of `s` |
| Store.Restaurant.CancelItem | app.py:149-157 | the new table is `Cancelled(old lines, id)`, and `found` holds exactly when some line had that id |
| Orders.CancelSpec | app.py:151-155 | the line with the id is gone, every other line is kept, the length drops by one when the id existed, and an unknown id changes nothing |
| Orders.CancelKeepsValid | app.py:154 | deleting keeps ids distinct and the batch rule, and removes only lines that were there, whatever their status |
| Orders.IndexOfId | app.py:151 | `query.get(id)`: the position of the first line with that id, or past the end when none |
| Store.Restaurant.WaiterConfirm | app.py:159-164 | the loop leaves exactly `Apply(Confirm(table), old lines)` |
| Orders.ConfirmSpec | app.py:161-162 | the table's Pronto lines become Entregue, nothing else changes, and no Pronto line is left at the table |
| Store.Restaurant.StartPreparing | app.py:179-184 | the loop leaves exactly `Apply(StartPrep(batch), old lines)` |
| Orders.StartPrepSpec | app.py:181-182 | only the batch's Pendente lines become Preparando; all else, including other lines of the batch, is unchanged; no Pendente line of the batch remains |
| Store.Restaurant.MarkBatchReady | app.py:186-191 | the loop leaves exactly `Apply(MarkReady(batch), old lines)` |
| Orders.MarkReadySpec | app.py:188-189 | every line of the batch becomes Pronto whatever its status, and lines of other batches are untouched |
| Store.Restaurant.FinalizeDelivery | app.py:193-198 | the loop leaves exactly `Apply(Finalize(batch), old lines)` |
| Orders.FinalizeSpec | app.py:195-196 | every line of the batch becomes Entregue whatever its status, and lines of other batches are untouched |
| Orders.BatchUpdatesRewritePaid | app.py:186-198 | marking ready and finalizing overwrite every line of the batch, and move a Pago line backwards |
| Orders.ForwardOnly | app.py:130-184 | sending, confirming and starting preparation never move a line backwards along Carrinho, Pendente, Preparando, Pronto, Entregue, Pago |
| Orders.ApplyKeepsRows | app.py:135-197 | no batch update changes a line's id, product, category, price, table, customer or note; each keeps ids distinct and the batch rule |
| Store.Restaurant.OpenTotals | app.py:334-342 | returns the number of the table's open lines and their summed price, changing nothing |
| Store.Restaurant.PayOpenLines | app.py:345-350 | the loop leaves exactly `Apply(Close(...), old lines)` with the given shares |
| Store.Restaurant.CloseTable | app.py:326-353 | the new table is `Closed(old lines, table, payment, discount or 0, opt-in, the stored percentage, now)` |
| Orders.CloseSpec | app.py:334-350 | with no open line nothing changes; otherwise each open line of the table becomes Pago with the payment method, the time, discount/n and charge/n, and every other line is unchanged |
| Orders.CloseSharesSumBack | app.py:338-350 | the n discount shares add back to the discount, and the n charge shares add back to subtotal × percent/100 (or 0 without opt-in) |
| Orders.CloseShareTotals | app.py:345-350 | the shares written on the open lines add up to n times the given shares |
| Orders.EqualSharesAddBack | app.py:349-350 | k equal shares of x add back up to x |
| Orders.ClosedLeavesNothingOpen | app.py:345-346 | after closing, the table has no open line |
| Store.Restaurant.SetServicePercent | app.py:249-253 | stores the new percentage and leaves the lines alone |
| Polling.TableStatus | app.py:201-208 | the table's signature parses back to its Pendente, Preparando, Pronto and Entregue counts, and `tem_pronto` holds exactly when the table has a Pronto line |
| Polling.KitchenCheck | app.py:216-222 | the kitchen signature parses back to the global Pendente, Preparando and Pronto counts, and `som_alert` holds exactly when some line is Pendente |
| Polling.AdminStats | app.py:224-243 | the admin signature's counts parse back to the four global counts, and it carries the summed price of the open lines |
| Polling.FingerprintRoundTrip | app.py:207 | splitting a signature on "-" and reading the numbers gives back the counts |
| Polling.FingerprintInjective | app.py:207 | two equal signatures come from equal counts, so a changed count always changes the signature |
| Polling.SendCounts | app.py:139-144 | sending a cart raises the Pendente plus Entregue count, at the table and overall, by the number of cart lines |
| Polling.SendIsVisible | app.py:234-241 | sending a non-empty cart changes both the table's and the admin's signature, even when every item skips the kitchen |
| Polling.ReadyTables | app.py:210-214 | lists each table once, and a table is listed exactly when it has a Pronto line |
| Polling.ReadyTablesAgree | app.py:208 | a table is listed as ready exactly when its own status reports `tem_pronto` |
| Orders.CountZeroIff | app.py:203-206 | a status count is 0 exactly when no line in scope has that status |
| Text.NatText | app.py:207 | the decimal text of a count is non-empty and all digits |
| Text.ParseNatText | app.py:207 | reading back the decimal text of n gives n |
| Text.NatTextInjective | app.py:207 | different counts have different texts |
| Text.SplitJoin | app.py:207 | joining pieces without "-" and splitting on "-" gives the pieces back |
| Text.Split | app.py:207 | splitting gives at least one piece |
| Kitchen.KitchenLines | app.py:171 | selects exactly the lines that are Pendente, Preparando or Pronto |
| Kitchen.Tickets | app.py:172-177 | one ticket per distinct batch of the rows |
| Kitchen.TicketsPerBatch | app.py:174-175 | no two tickets share a batch, and every row's batch has a ticket |
| Kitchen.TicketsItems | app.py:176 | a ticket's items are exactly the rows of its batch, in query order, and never empty |
| Kitchen.TicketsHeaders | app.py:175 | a ticket's table, customer, time and status are those of its batch's first row |
| Kitchen.TicketsOrder | app.py:171-177 | tickets come in the order their batches first appear, so on rows sorted by time their times never go back |
| Kitchen.KitchenLineOnItsTicket | app.py:171-176 | every Pendente, Preparando or Pronto line is on the ticket of its batch and on no other |
| Kitchen.KitchenTickets | app.py:172-177 | the loop builds exactly `Tickets(rows)` |
| Grouping.GroupBy | app.py:172-176 | the dictionary-filling loop builds exactly `Grouped(items, key)` |
| Grouping.GroupedDistinct | app.py:174 | the dictionary holds each key once |
| Grouping.GroupedKeys | app.py:174 | every item's key has an entry, and every entry's key is some item's |
| Grouping.GroupedMembers | app.py:176 | an entry's members are exactly the items with its key, in order, headed by the first |
| Grouping.GroupedCovers | app.py:172-176 | every item is in some entry, and the entries hold nothing but items |
| Grouping.GroupedHeads | app.py:175 | an entry's header is the first item with its key |
| Grouping.GroupedOrder | app.py:177 | entries come in the order their keys first appear |
| Grouping.GroupedTotal | app.py:283 | the entries' member totals add up to the total over all items |
| Grouping.FilterMembers | app.py:176 | the items with key k are exactly the items whose key is k |
| Admin.OpenLines | app.py:279 | selects exactly the Pendente, Preparando, Pronto and Entregue lines |
| Admin.Bills | app.py:280-288 | one bill per table with open lines |
| Admin.OpenTables | app.py:280-288 | the two loops build exactly `Bills(lines, percent)` |
| Admin.BillsDistinct | app.py:282 | no table has two bills |
| Admin.BillsTables | app.py:279-282 | a table has a bill exactly when it has an open line |
| Admin.BillsAmounts | app.py:283-288 | a bill holds the table's open lines, its subtotal equals what closing charges as subtotal, its suggested charge equals the charge closing with opt-in splits, and its estimate is their sum |
| Admin.BillsCustomer | app.py:282 | a bill's customer is the one on the table's first open line |
| Admin.BillsAddUp | app.py:283 | the open bills add up to the open total in the admin signature |
| Admin.OpenLinesOfTable | app.py:283 | a table's open lines add up to `Subtotal`, the sum closing uses |
| Admin.PaidBetween | app.py:296-300 | selects exactly the Pago lines stamped within the day's bounds |
| Admin.ReceiptsCoverTheDay | app.py:296-315 | on a result of the receipt query, every line on a receipt was paid within the day, and every line paid within the day is on a receipt |
| Admin.Receipts | app.py:302-322 | one receipt per receipt key of the paid lines |
| Admin.ReceiptsPerKey | app.py:306-315 | keys are distinct; a receipt's items are exactly the lines with its key; header, discount, charge and payment method come from its first line |
| Admin.UnbatchedLineAlone | app.py:307 | a paid line without a batch, or with batch 0, has a receipt of its own |
| Admin.Tally | app.py:317-322 | one receipt per bucket, built by the given receipt function; the loop's running sums are the receipts' net-of-charge total (`faturamento_bruto`) and charge total (`faturamento_taxa`) |
| Admin.DailyReport | app.py:302-324 | the report as the program computes it: the receipts are `Receipts(rows)` (shares from each first line); `total_taxa` is the receipts' charges, and `total_dia` is every paid price plus the receipts' charges less the receipts' discounts |
| Admin.ReceiptsAddUp | app.py:310-320 | the receipts' subtotals add up to every paid price, and their net totals to those prices less the discounts the receipts show |
| Admin.CorrectedDailyReport | app.py:302-324 | the report with corrected receipts: `total_taxa` is every charge share on the paid lines, and `total_dia` is every paid price plus every charge share less every discount share |
| Admin.DayShowsOneShare | app.py:306-324 | on the two-line example, the day's total as written is 21.00 with 1.00 of charge, while the lines record 22.00 and 2.00 |
| Admin.ReceiptShowsOneShare | app.py:306-321 | with two lines in one batch and 10% opted in, the table pays 2.00 of charge but the receipt shows 1.00 and a total of 21.00 |
| Admin.CorrectedReceiptsAddUp | app.py:306-321 | with each receipt summing its lines' shares, the day's discounts and charges equal every share recorded on the paid lines |
| Admin.CorrectedAgreesOnOneLine | app.py:306-321 | on a receipt of a single line, the corrected receipt and the as-written one are the same |
| Waiter.ActivePairs | app.py:71 | each (table, name) pair of an unpaid line, once |
| Waiter.ActiveQueryTables | app.py:71 | on a result of the DISTINCT query, a table appears in the pairs exactly when it has an unpaid line |
| Waiter.PreferredNameSpec | app.py:75-80 | the dropdown name is the last non-empty name paired with the table, and non-empty when the table has any non-empty name |
| Waiter.PreferredNameAbsent | app.py:76-77 | a table not yet seen has no preferred name |
| Waiter.CollectNames | app.py:74-80 | after the loop, the dictionary's keys are the tables seen, once each, each mapped to its preferred name |
| Waiter.SortTables | app.py:84 | `sorted` of distinct tables: strictly increasing, the same tables |
| Waiter.ActiveTables | app.py:74-85 | one row per table of an unpaid line, in increasing table order, each with its preferred name |
| Waiter.LatestUnpaid | app.py:88 | none exactly when the table has no unpaid line; otherwise an unpaid line of the table with the highest id |
| Waiter.CurrentCustomerSpec | app.py:88-89 | the prefilled name is the customer of the table's unpaid line with the highest id, or "" when there is none |
| Waiter.PreferenceNoRepeats | app.py:100 | the preference list names each category once |
| Waiter.CategoryRank | app.py:100-102 | a category's place in the preference list, or the list's length when absent |
| Waiter.Pop | app.py:101-102 | one turn moves the p-th preferred category, when present, to the ordered part |
| Waiter.OrderCategories | app.py:99-103 | the ordered menu is a permutation of the groups, preferred categories come first in preference order, and the others keep their first-seen order |
| Waiter.Menu | app.py:92-103 | the menu is the products grouped by category, ordered as above |

## Left out

- Flask routing, form and query-string parsing, `render_template`, `redirect` and `jsonify`. Each handler takes its inputs as parameters.
- The database session and `commit`. Each handler is one atomic update of `Restaurant`.
- The startup seeding of products (app.py:47-61). The constructor starts with the seeded 10% service charge.
- Product create, edit and delete, the admin password and the debug server start (app.py:14, 255-274, 355-362). These are plain record CRUD with no rule to state.
- The clocks. `int(time.time())` is the `batch` parameter and `datetime.now()` the `now` parameter. `enviar_cozinha` reads `datetime.now()` once per cart line (app.py:137); the model stamps every line of the batch with the one `now` of the send.
- `strftime` and `strptime`. `PaidBetween` takes the day's bounds as stamps.
- The sorting of the kitchen query (`order_by(data_hora)`, oldest first) and of the receipt query (`order_by(data_hora.desc())`, newest first). Those views take the query's rows in order; `Kitchen.IsKitchenQuery` and `Admin.IsReceiptQuery` describe them.
- `index`'s `carrinho` and `ativos` queries (app.py:105-106). They only feed the template.
- SQL `DISTINCT` returns rows in an order the database chooses. `Waiter.ActivePairs` and `Polling.ReadyTables` take first-seen order.
- IEEE floating point. Prices and shares are exact reals, so `desconto/n` added n times is exactly `desconto`.
- Polling.AdminStats: the open total goes into the signature as Python's float text. The model returns it beside the counts as a real, so the round trip is stated for the counts only.
- A NULL `cliente_nome` or `desconto_aplicado` is modelled as its column default ("" and 0.0).
- `Configuracao.query.first()` returning no row. The seeding always creates one.

## Findings

| source | as written | input that shows it | evidently intended | confidence | as-written member | corrected member |
|---|---|---|---|---|---|---|
| app.py:306-321 | a receipt's `desconto` and `taxa` are read from the first line of the batch, but fechar_conta_post (app.py:349-350) stores only that line's 1/n share on each line; `total_final` and `faturamento_taxa` therefore count one share per receipt | table 3 with two delivered 10.00 lines in batch 7, closed with the 10% charge: 2.00 is charged, but the receipt shows a charge of 1.00 and a total of 21.00 instead of 22.00 | a receipt shows the discount and charge recorded on all of its lines | not executed | Admin.DayShowsOneShare | Admin.CorrectedDailyReport |

`Admin.Receipts`, `Admin.ReceiptOf` and `Admin.DailyReport` keep the report as written; `Admin.ReceiptShowsOneShare` and `Admin.DayShowsOneShare` exhibit the missing shares on one receipt and on the day's totals. `Admin.CorrectedDailyReport` builds the corrected receipts (`Admin.CorrectedReceiptOf`), so its day totals count every share that closing a table recorded (`Admin.CorrectedReceiptsAddUp`).
