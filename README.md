# News feed archiver: aggregator and Postgres sink

The archiver reads news items from a Kafka topic and stores them in the
Postgres table `feed`. This project models its core in Dafny and proves
properties of it. The core has two parts.

- **The aggregator loop** (`internal/pkg/app/app.go`). It is a `select`
  over the item channel and a ticker.
  - An item marked `Changed` becomes one `UpdateByMD5` call at once.
  - Every other item is appended to an in-memory buffer. When the buffer
    holds 50 items, it goes to `InsertBatch` and is emptied.
  - A tick flushes a non-empty buffer.
  - When the channel closes, a non-empty buffer is flushed once and the
    loop returns.
  - A failed call is only logged. The buffer is emptied either way.
- **The sink** (`internal/service/db/db.go`).
  - `InsertBatch` deduplicates the batch by `link`; the last item wins.
    It lists the surviving items, then builds one multi-row
    `INSERT … VALUES ($1, …, $10), ($11, …) ON CONFLICT (link) DO UPDATE`
    statement. The statement comes with a flat argument list.
  - `Insert` is a batch of one.
  - `UpdateByMD5` rewrites six columns of the row whose `md5` matches.

Modules:

- `Feed` (`feed.dfy`): the item record carried on the channel.
- `SqlText` and `SqlTextProofs` (`sql_text.dfy`): the text of the INSERT
  statement as `InsertBatch` builds it, down to its whitespace. It also has
  a reader that lists the `$n` placeholders in a statement text, with the
  proof that the statement for `n` rows numbers its placeholders `1..10n`
  in order.
- `Db` (`db.dfy`): the `feed` table as a map from `link` to row. It gives
  the effect of each statement on that table, and the three loops of
  `InsertBatch` as methods proved against those effects. The class `DB`
  holds the table and the three public operations, each of which keeps
  `link` unique.
- `App` (`app.dfy`): the loop's step as a pure function on (buffer, calls
  made, drained), and its run over a sequence of events. The class
  `Aggregator` holds the buffer and the `DB` and performs the calls. `Step`
  dispatches to one handler per case of the `select`. The handlers and
  `Start` are proved against that function.
- `Seqs` (`seqs.dfy`): a few generic facts about concatenating and slicing
  sequences.

How things outside the core are represented:

- The channel and the ticker become a sequence of events `Received(item)`,
  `Tick` and `Closed`. Any interleaving the `select` can produce is such a
  sequence.
- Postgres is the map-valued table. Whether the store accepts a statement
  is a boolean parameter (`execOk`, `sinkOk`). Connection failures,
  timeouts and other server errors are outside the model, so that boolean
  stands for all of them.

## Model

| member | source | states |
|---|---|---|
| App.Turn | internal/pkg/app/app.go:45-80 | One turn of the `select`: once the loop has returned it changes nothing; the loop returns exactly on `Closed`; the calls made are only ever extended, by at most one call per turn. |
| App.Run | internal/pkg/app/app.go:44-81 | The loop over a sequence of events: a returned loop stays as it is; the calls made are only extended, by at most one call per event. |
| App.Answers | internal/pkg/app/app.go:46-79 | The store's answers the loop receives: one per call it makes, and all acceptances when the store accepts every call. |
| App.TurnConserves | internal/pkg/app/app.go:45-80 | One turn moves each received item exactly once. A new record goes to the end of the buffer or into the batch flushed that turn. A changed item goes into exactly one update call. |
| App.RunKeepsInv | internal/pkg/app/app.go:44-81 | From any state meeting the invariant, the loop keeps it: the buffer holds fewer than 50 items, all unchanged ones. A drained loop holds none. Every batch sent is non-empty, at most 50 long, and free of changed items. |
| App.RunConserves | internal/pkg/app/app.go:46-79 | Over any run, the flushed batches followed by the buffer equal the earlier batches and buffer followed by the new records consumed, in arrival order. The update calls made equal the changed items consumed, in order. |
| App.RunDrains | internal/pkg/app/app.go:47-55 | The loop ends exactly when the stream contains a close. |
| App.EndOfStreamFlushesAll | internal/pkg/app/app.go:47-55 | Once the channel closes, every new record received was sent to exactly one batch insert, in order. Every changed item was sent to exactly one update, and the buffer is empty. |
| App.ClosedFlushesOnce | internal/pkg/app/app.go:47-55 | Close flushes a non-empty buffer exactly once, makes no call for an empty one, and the loop makes no call after it. |
| App.Accumulate | internal/pkg/app/app.go:62-64 | While the buffer stays under 50, new records are only appended and no call is made. |
| App.QuietInterval | internal/pkg/app/app.go:72-79 | From an empty buffer, fewer than 50 new records followed by a tick produce exactly one batch insert holding exactly those records. With no records the tick makes no call. |
| App.SizeTrigger | internal/pkg/app/app.go:63-70 | From an empty buffer, the 50th new record flushes all 50 in one batch and empties the buffer. |
| App.Aggregator.Step | internal/pkg/app/app.go:45-80 | One turn on the object: the buffer and drained flag follow `Turn`, whether or not the store accepted the call. The table changes exactly as the call made this turn would change it. |
| App.Aggregator.OnClosed | internal/pkg/app/app.go:47-55 | The close case of the turn, with the same contract as `Step` for `Closed`. |
| App.Aggregator.OnChanged | internal/pkg/app/app.go:57-61 | A changed item makes exactly one update call. The buffer is untouched. |
| App.Aggregator.OnFresh | internal/pkg/app/app.go:62-71 | A new record is appended to the buffer. The buffer is flushed whole at 50. |
| App.Aggregator.OnTick | internal/pkg/app/app.go:72-79 | A tick flushes a non-empty buffer and makes no call for an empty one. |
| App.Aggregator.Flush | internal/pkg/app/app.go:65-69 | The buffer goes to `InsertBatch` as one call and is emptied, whatever the store answers. The table changes by that call's effect. |
| App.Aggregator.Update | internal/pkg/app/app.go:58-61 | One `UpdateByMD5` call, whose error is ignored. The table changes by that call's effect. |
| App.Aggregator.Start | internal/pkg/app/app.go:39-82 | The loop reads events until close. Its final state is the run of the events, the events it took in are those up to the first close, the answers it recorded are the given answers to the calls it made, and the table is the effect of those calls with those answers. |
| Db.LastByLink | internal/service/db/db.go:96-99 | The map the dedup loop fills keeps every item under its own link. |
| Db.Dedup | internal/service/db/db.go:96-99 | The dedup loop yields, for each link in the batch, the last item carrying it. |
| Db.DedupKeepsLast | internal/service/db/db.go:96-99 | The deduplicated map has exactly the batch's links as keys. Each entry carries its own link and is the last item in the batch with that link. |
| Db.Enumerate | internal/service/db/db.go:102-105 | The listing loop produces every item of the map exactly once, with no duplicate link. |
| Db.EnumerationDedup | internal/service/db/db.go:102-105 | Deduplicating a listing of the map gives back the map itself. |
| Db.BuildInsert | internal/service/db/db.go:112-131 | The statement-building loop produces exactly the INSERT text for n rows, with its trailing comma dropped and the conflict clause appended. It also produces exactly the flat argument list, ten per item in column order. |
| SqlText.StripTrailingComma | internal/service/db/db.go:117-124 | Dropping the last character of the comma-terminated tuples gives the comma-separated VALUES list. |
| SqlText.DecimalRoundTrip | internal/service/db/db.go:119-120 | The decimal rendering of a placeholder number reads back as that number. |
| SqlTextProofs.InsertQueryNumbering | internal/service/db/db.go:112-131 | The placeholders of the statement for n rows are exactly `$1, $2, …, $10n`, in order. The fixed text has no `$` of its own. |
| Db.RowArgs | internal/service/db/db.go:122 | An item's ten arguments bind to the row it becomes: pub date, md5, source name, `parsed = false`, then the text columns. |
| Db.ArgsLayout | internal/service/db/db.go:117-123 | The argument list has 10n entries. Entries `10i+1..10i+10` are the arguments of item i, the ones tuple i's placeholders name. |
| Db.ArgsDecode | internal/service/db/db.go:113-122 | Binding the argument list ten by ten gives one new row per listed item, in order. |
| Db.UpsertRows | internal/service/db/db.go:125-131 | Executing the rows of the INSERT one by one never removes a row, and changes a stored row only in title, description, full_text and category. |
| Db.ExecInsert | internal/service/db/db.go:125-133 | Executing the INSERT fails only for arguments that do not fit the placeholders or for a link repeated within the statement. When it succeeds, no stored row is removed and stored rows change only in the four conflict columns. |
| Db.UpsertEffect | internal/service/db/db.go:125-131 | A link not yet stored gets a new row. A stored link keeps every column except title, description, full_text and category, which take the new values. Links outside the batch keep their rows. |
| Db.InsertStatementEffect | internal/service/db/db.go:90-138 | Executing the built statement with the built arguments succeeds. Its effect is the upsert of the deduplicated batch, whatever order the listing loop chose. |
| Db.BatchEffect | internal/service/db/db.go:90-131 | After a batch insert the links are the old links plus the batch's links. Rows whose link is not in the batch are unchanged, and stored rows change only in the four conflict columns. |
| Db.BatchEffectSpec | internal/service/db/db.go:90-131 | The batch insert stated against the input items. Links outside the batch are untouched. For each link in the batch, the last item with that link is inserted as an unparsed row, or refreshes the four conflict columns of the stored row. |
| Db.BatchIdempotent | internal/service/db/db.go:125-131 | Inserting the same batch twice leaves the table as inserting it once. |
| Db.BatchKeyedByLink | internal/service/db/db.go:125-131 | The batch insert keeps `link` unique. |
| Db.SingleInsert | internal/service/db/db.go:50-52 | `Insert` of one item is the upsert of that item's new row. |
| Db.DuplicateInBatchScenario | internal/service/db/db.go:96-99 | A batch A, A', B over new links stores two rows: A' (the later one) and B. |
| Db.UpdateEffect | internal/service/db/db.go:54-59 | The update fails only by breaking the uniqueness of `link`, and never for want of a matching row. When it succeeds, every row whose md5 differs is untouched. |
| Db.UpdateEffectSpec | internal/service/db/db.go:54-59 | If no row has the md5, the table is unchanged and it is not an error. The update fails exactly when several rows match, or when the new link belongs to a row that does not match. Otherwise the matched row leaves its old link: the links become the old ones minus the matched row's plus the item's. The matched row is rewritten in its six columns under its new link, and every other row is untouched. |
| Db.UpdateIdempotent | internal/service/db/db.go:54-59 | Repeating a successful update changes nothing more. |
| Db.DB.InsertBatch | internal/service/db/db.go:90-138 | `link` stays unique. An empty batch succeeds with no write. Otherwise the call succeeds exactly when the store accepts the statement, and the table becomes the batch effect. On failure the table is unchanged. |
| Db.DB.Insert | internal/service/db/db.go:50-52 | `link` stays unique. Succeeds exactly when the store accepts. The table becomes the upsert of the item's row; on failure it is unchanged. |
| Db.DB.UpdateByMD5 | internal/service/db/db.go:54-64 | `link` stays unique. Succeeds exactly when the store accepts and the update is well defined. The table becomes the update's effect; otherwise it is unchanged. |

## Left out

- The Kafka consumer (`internal/service/kafka/kafka.go`), `cmd/archive/main.go`, `App.New` and `db.New`. They are wiring and I/O. The channel is modelled as a sequence of events, and `Closed` stands for the channel closing.
- `UpdateByMD5Batch` (`internal/service/db/db.go:66-88`) is not called by the loop. Its statement has seven placeholders whatever the number of items, so it is not a batch update.
- The goroutine, the `WaitGroup`, the context cancellation and the real ticker with its 10-second period are left out. Only the order of events matters to the model. The channel's capacity of 50 and the buffer's initial capacity of 100 are capacities only, and change no result.
- Logging of errors is left out. The model keeps only the fact that an error changes neither the buffer nor the loop.
- Postgres itself is left out. Connection loss, type errors and server limits are all folded into the `execOk`/`sinkOk` boolean. The model keeps the statement-level errors that follow from the data: a conflict target hit twice in one INSERT, and a link made non-unique by an UPDATE. `InsertBatch` never reaches the first one, because of its dedup.
- Db.ExecInsert is not a general model of SQL. From the statement text it reads only the `$n` numbering. It binds the arguments by position, ten to a row, in the column order fixed in `Db.DecodeRow`. It does not read the column list of the INSERT, nor check the width of each tuple against the text. Its proofs concern only the statement `InsertBatch` builds.
- The order in which `InsertBatch` lists the deduplicated items comes from Go's map iteration, which is unspecified. `Db.Enumerate` picks any order, and every property holds for all of them.
- The item's fields are modelled as strings: `internal/model/kafka` is not part of this model. The publication date is therefore an opaque value, passed through unchanged.
- After the channel closes, the Go loop returns with its slice still holding the flushed items. The model sets the buffer to empty at that point, since nothing reads it again.
- Db.DB.UpdateByMD5: a statement that matches no row is not an error, as the code returns `Exec`'s error only. The model follows the code.
