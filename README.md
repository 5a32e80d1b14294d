# Personal-finance ledger of a Telegram bot, in Dafny

`bot.py` is a chat bot that keeps a small personal ledger for each
Telegram user. Two SQLite tables hold its state. `users` maps a Telegram
id to a username and the time the user was first seen. `transactions`
holds one row per income ("receita") or expense ("gasto"), with an
AUTOINCREMENT id, the owner's Telegram id, an amount, a description and a
timestamp. The commands `/receita <valor> [descrição]` and
`/gasto <valor> [descrição]` append a row. `/apagar <id>` deletes one of
the caller's rows. The listing and statement commands show rows newest
first, and the balance is the caller's income minus their expenses.

This project models that ledger core:

- `Wrappers` (`wrappers.dfy`): the `Option` and `Result` types.
- `PyText` (`pytext.dfy`): the parts of Python's text handling that the
  commands rely on. It covers `str.split(maxsplit=k)` with Python's
  whitespace set and `int()` on an ASCII numeral (sign, `_` between
  digits, and the whitespace `int()` skips around it). It also covers
  `f"{n}"` for integers.
- `Rows` (`rows.dfy`): the transaction row and the queries over the
  table. It models `list_transactions` (owner filter,
  `ORDER BY date DESC`, `LIMIT`), `get_transactions_since` and
  `get_balance`. It also models the filter of `delete_transaction`'s
  `DELETE ... WHERE id=? AND telegram_id=?`.
- `Store` (`store.dfy`): the database as a class `Ledger` whose fields the
  store functions update in place. It holds the user table as a map and
  the transaction table as a sequence. It also keeps the AUTOINCREMENT
  counter and, as a ghost, the set of ids ever issued.
- `Format` (`format.dfy`): `format_transactions`, the text shown by
  `/listar` and the statement commands.
- `Commands` (`commands.dfy`): the argument parsing and replies of
  `/receita`, `/gasto` and `/apagar`. It also has a worked client of those
  commands that records, refuses and deletes entries and tracks the
  balance.

Timestamps are `datetime.now().isoformat()` strings in the source: naive
local wall-clock times. `isoformat()` leaves out the microseconds when
they are zero. The shorter string is then a prefix of the longer ones for
the same second and sorts first, so the text still orders as the times
do. The model uses a `nat` (`Date`) in their place. The clock (`datetime.now()`) is a `now` parameter.
`float()` is a parameter `parseFloat: string -> Option<real>`.
The renderers `strftime("%d/%m %H:%M")` and `:.2f` are parameters
`showDate` and `showMoney`.

## Model

| member | source | states |
|---|---|---|
| Store.Ledger.constructor | bot.py:35-54 | a new database has no users and no transactions, and the id counter starts at 1 |
| Store.Registered | bot.py:56-64 | after registering, the id is present. No other key is added and existing users keep their record. A new user gets the given username and `now` as first-seen time |
| Store.RegisterIdempotent | bot.py:59-63 | registering the same id twice, with any username or time, leaves the table as after the first time |
| Store.Ledger.RegisterUser | bot.py:56-64 | the user table becomes `Registered` of the old one. It is unchanged when the id was already present. Transactions and the id counter are untouched |
| Store.Ledger.AddTransaction | bot.py:66-74 | exactly one row is appended, holding the given fields and `now`. Its id was never issued before, is larger than every id issued before, and is returned. Users are untouched and the ledger invariant (ids increasing, all issued) is kept |
| Store.DeleteRemovesAtMostOne | bot.py:79-83 | on a table with increasing ids, the delete filter removes a row exactly when one has that id and that owner. It removes at most one row, keeps ids increasing, and returns the table unchanged when nothing matches |
| Store.Ledger.DeleteTransaction | bot.py:76-83 | returns true exactly when a row with that id and that owner existed. The new table is the old one without that row and one row shorter; on false nothing changes. Rows of other owners stay, users and the counter are untouched |
| Rows.Select | bot.py:88 | a `WHERE` filter keeps exactly the rows that satisfy its condition and never adds a row |
| Rows.SelectKeepsAll | bot.py:80 | a filter keeps every row (same length) exactly when every row satisfies its condition |
| Rows.SelectSelect | bot.py:97-99 | filtering by a stronger condition after a weaker one is the same as filtering by the stronger one alone |
| Rows.SortByDate | bot.py:88 | `ORDER BY date DESC` yields dates in non-increasing order and a permutation of its input |
| Rows.Limit | bot.py:88 | `LIMIT n` keeps a prefix of length `n`, or all rows when `n` is negative or at least the row count |
| Rows.ListTransactions | bot.py:85-92 | every listed row is in the table and belongs to the user. The rows are newest first and form a sub-multiset of the user's rows. Their number is the user's row count capped by the limit (default 100; a negative limit means none) |
| Rows.ListOmitsOnlyOlder | bot.py:88 | a row of the user that the listing leaves out is no newer than any listed row |
| Rows.AddedRowIsListed | bot.py:66-92 | a row just added is listed for its owner when the cap has not been reached |
| Rows.TransactionsSince | bot.py:104-111 | a row is returned exactly when it is in the table, belongs to the user and is dated at or after `since`. The result is newest first and holds each matching row exactly as often as the table does |
| Rows.Balance | bot.py:94-102 | `get_balance`: the sum of the user's income rows minus the sum of their expense rows. Its meaning is pinned down by `Rows.BalanceIsNet`, `Rows.BalanceAfterAdd`, `Rows.BalanceOfOwnRows` and `Rows.BalanceAfterDelete` |
| Rows.BalanceIsNet | bot.py:94-102 | the balance (sum of the user's income rows minus the sum of their expense rows) equals a running sum that adds each income row and subtracts each expense row of the user |
| Rows.BalanceAfterAdd | bot.py:66-102 | appending a row moves the owner's balance by `+amount` for income and `-amount` for an expense. Other users' balances and rows of any other type leave it unchanged |
| Rows.BalanceOfOwnRows | bot.py:94-102 | the balance depends only on the user's own rows, and it is 0 when the user has none |
| Rows.WithoutNoMatch | bot.py:79-83 | when no row has that id and owner, the delete filter leaves the table as it was |
| Rows.WithoutRemovesOne | bot.py:79 | with unique ids, deleting the matching row at position `i` gives the table with exactly that row cut out |
| Rows.WithoutKeepsOtherOwners | bot.py:79 | a delete by one user leaves every other user's rows as they were |
| Rows.BalanceAfterDelete | bot.py:76-102 | deleting a row moves each user's balance back by that row's effect |
| Format.KindLabel | bot.py:124 | the label is the income label exactly when the type is "receita", and the expense label exactly otherwise |
| Format.FormatLine | bot.py:125 | the f-string line of one row: `Format.LineShape` proves that it starts with the row's id followed by ". " and ends with its description |
| Format.LineShape | bot.py:125 | a row's line starts with its id followed by ". " and ends with its description |
| Format.JoinLines | bot.py:126 | `"\n".join`: `Format.SplitJoinLines` proves that splitting the result at newlines gives the lines back |
| Format.FormatLines | bot.py:116-125 | one line per row, in row order, each rendering that row |
| Format.FormatTransactions | bot.py:113-126 | no rows give "Nenhuma transação encontrada."; otherwise the text is the rows' lines joined by newlines |
| Format.SplitJoinLines | bot.py:126 | when no line holds a newline, splitting the joined text at newlines gives the lines back |
| Format.OneLinePerRow | bot.py:113-126 | when descriptions and rendered dates and amounts hold no newline, the formatted text has exactly one line per row, and line `k` is row `k`'s line |
| PyText.Split | bot.py:161 | `split(maxsplit=k)` yields at most `k+1` non-empty parts, none starting with whitespace. Every part before the `k`-th holds no whitespace |
| PyText.SplitBlank | bot.py:161-164 | a text of whitespace only splits into no parts |
| PyText.SplitWord | bot.py:161 | leading whitespace, a word and the rest split into that word followed by the split of the rest |
| PyText.SplitRest | bot.py:202 | with no splits left, the part is the rest with its leading whitespace removed |
| PyText.IntToString | bot.py:125 | `f"{n}"` is non-empty digits with a leading `-` exactly for negative `n`, and no surrounding whitespace |
| PyText.NatToStringValue | bot.py:125 | the decimal digits of `n` read back as `n` |
| PyText.ParseInt | bot.py:207 | `int()` on a string: `PyText.ParseIntOfString` proves that it reads back any `f"{n}"` inside the whitespace it skips. `PyText.IntRefusesSeparator` proves that it refuses a numeral followed by U+001C to U+001F |
| PyText.ParseIntOfString | bot.py:207 | `int()` of a decimal numeral surrounded by the whitespace `int()` skips gives back the number |
| PyText.IntRefusesSeparator | bot.py:207 | a numeral followed by one of U+001C to U+001F makes `int()` fail, although `str.isspace` holds for those characters |
| Commands.TypeOf | bot.py:171-186 | `/receita` records type "receita" and `/gasto` records type "gasto" |
| Commands.ParseEntry | bot.py:161-170 | parsing `/receita` or `/gasto` arguments: an accepted entry's description is never empty and does not start with whitespace. `Commands.EntryWithDescription`, `Commands.EntryWithoutDescription` and `Commands.EntryMissingAmount` pin down its result |
| Commands.EntryWithDescription | bot.py:161-170 | a command word, an amount and free text parse to that amount, and the description is the free text after the amount |
| Commands.EntryWithoutDescription | bot.py:170 | with no text after the amount the description is "Receita" or "Gasto" |
| Commands.EntryMissingAmount | bot.py:161-164 | a command with no argument is a usage error |
| Commands.IdOfString | bot.py:202-207 | `/apagar` followed by a decimal id parses to that id |
| Commands.ParseId | bot.py:202-207 | parsing the `/apagar` argument: `Commands.IdOfString`, `Commands.IdWithSeparator` and `Commands.IdMissing` pin down its result |
| Commands.IdWithSeparator | bot.py:202-209 | `/apagar` followed by an id and one of U+001C to U+001F is refused as an invalid id |
| Commands.IdMissing | bot.py:202-205 | `/apagar` with no argument is a usage error |
| Commands.RecordCommand | bot.py:159-187 | a usage or invalid-amount error replies with the matching message and changes nothing. A valid command appends exactly one row of the command's type, amount and description, and replies with the new id and amount |
| Commands.DeleteCommand | bot.py:200-215 | a usage or invalid-id error replies with the matching message and changes nothing. Otherwise the caller's row with that id is removed, and the reply says "removida" exactly when it existed |

## Left out

- The Telegram wiring (`bot.reply_to`, the polling loop), the Gemini
  question answering (`handle_text`), `cmd_start`, `cmd_ajuda` and the
  configuration read from the environment are not part of this model.
  They are I/O around the ledger.
- `cmd_saldo`, `cmd_listar` and `cmd_extrato_dia/semana/mes` only call a
  modelled query and the formatter. The start of each statement window
  (midnight today, seven days ago, the first of the month) needs the
  calendar, so `since` is a parameter.
- Connections, commits and storage errors are left out. Each store
  function is modelled as one atomic step that always succeeds.
- `float()` is a parameter. Its accepted forms (`1e3`, `nan`, `inf`,
  `1_000.5`) and rounding are not modelled, and amounts are exact reals.
  SUM over REAL columns is therefore exact here, not IEEE double.
- `:.2f` and `strftime("%d/%m %H:%M")` are the parameters `showMoney` and
  `showDate`. The fallback to the raw date string when `fromisoformat`
  fails is inside `showDate`.
- ISO timestamps are `nat` dates. The tie order among rows with the same
  date is SQLite's choice. It is not modelled: the listing is promised
  newest first and a permutation, nothing more.
- Rows returned by the queries keep the owner field. The source's
  `SELECT` omits that column.
- `int()` also accepts non-ASCII Unicode digits. `PyText.ParseInt` accepts
  ASCII digits only.
- SQLite's 64-bit integer limits are not modelled. This covers the
  AUTOINCREMENT counter reaching its maximum, and an `/apagar` id too large
  to bind. Ids and Telegram ids are unbounded integers.
- `Store.Ledger.AddTransaction`: the counter is a field of the ledger, not
  SQLite's `sqlite_sequence` table.

## Behaviour of `bot.py` worth noting

- `/receita` and `/gasto` accept any amount that `float()` parses, zero
  and negative amounts included. They do not check that the amount is
  positive.
- `/receita` and `/gasto` do not register the user first. A row's owner
  need not be in the user table. Only `/start` and the free-text handler
  register users.
- A malformed amount or id gets its own message ("Valor inválido. …" /
  "ID inválido."), separate from the usage text. The default descriptions
  are "Receita" and "Gasto".
- Listings are ordered by date, newest first. Rows with equal dates come
  in no promised order.
