# sky-insights ingestion core, modelled in Dafny

The ingestion front door of sky-insights reads a firehose of social-media commit events.
It extracts a normalised record for every "create post" event and relays the record to a
Kafka topic through an outbox. The outbox is two SQLite databases, `transient.db` and
`failed.db`. A record is committed to the transient table before it is sent. After the
broker acknowledges it, the record is removed from that table; if the send fails, the
record is moved to the failed table. Further down the pipeline, a Flink job splits the
text of each post into hashtags.

This project models that core and proves properties about it:

- `json.dfy`: the decoded documents. An object keeps its members in dictionary iteration order.
- `field_extractor.dfy`: `PostProducer.find_keys`, as a class holding the `found` dictionary
  and a recursive search whose two loops append to it. It is proved against a pre-order
  specification function (`Occurrences`) and an order-free reference predicate (`StoredUnder`).
- `normalize.dfy`: the filter of `start` and the construction of `post_dict`, including the
  cases in which the code raises `IndexError` instead of skipping a document.
- `store.dfy`: what `add_event`, `remove_event` and `move_to_failed` do to the two tables
  under every storage failure the code can meet.
- `async_logger.dfy` and `sync_logger.dfy`: the two copies of `HybridMessageLogger`. Each is a
  class with its two connection handles and its two tables. Their methods are proved to
  follow the functions of `store.dfy`.
- `delivery.dfy`: the loop of `start` and `send_message`, as a `PostProducer` class that is
  proved to follow a function of the stream (`Run`). The lemmas beside it state the outbox
  guarantees:
  - no committed record is ever lost: it is acknowledged, or it is still in one of the
    two tables with its payload;
  - every send is preceded by the commit of the same key.
- `hashtags.dfy`: `extract_hashtags` and the `str.split()` it relies on.

Outside inputs become parameters:

- An `Env` value per message gives the key `uuid4` generates, whether the broker
  acknowledges the send, and where storage fails.
- `encode` stands for `json.dumps(...).encode('utf-8')`.
- The stream is a sequence of decoded messages, in which `None` is a frame
  `parse_response` could not decode.

Three consequences of the code shape what the model does:

- An undecodable frame stops the stream. `parse_response`
  (websocket_client/scripts/bluesky_web_socket_client_handler.py:25-29) turns such a frame
  into `None`. `find_keys` returns only empty lists for it, and the unguarded
  `extracted_values["kind"][0]` on line 50 of websocket_client/scripts/post_producer.py
  raises `IndexError`. The single `except` on line 82 sits outside the `async for` loop,
  so the exception ends the stream (`Delivery.UndecodableEndsStream`). The same happens to
  any document without a `kind`, to a `commit` without an `operation`, and to a created
  post with no creation time.
- A failing `add_event` (line 72) raises to the same `except`, so it ends the whole loop
  and does not just drop the one document.
- The two loops of `recursive_search` are the methods `FieldExtractor.KeySearch.SearchMembers`
  and `FieldExtractor.KeySearch.SearchItems`, so that each loop carries its own invariant.

## Model

| member | source | states |
|---|---|---|
| `FieldExtractor.FindKeys` | websocket_client/scripts/post_producer.py:85-109 | the result has exactly the target keys; each maps to every value stored under it, in pre-order, and a key found nowhere maps to the empty list |
| `FieldExtractor.KeySearch.constructor` | websocket_client/scripts/post_producer.py:95 | `found` starts with one empty list per target key |
| `FieldExtractor.KeySearch.RecursiveSearch` | websocket_client/scripts/post_producer.py:97-106 | appends to each key's list exactly the occurrences inside `current`, in walk order, and keeps the key set |
| `FieldExtractor.KeySearch.SearchMembers` | websocket_client/scripts/post_producer.py:99-103 | the dictionary loop: a matching member's own value first, then what lies inside it, member by member |
| `FieldExtractor.KeySearch.SearchItems` | websocket_client/scripts/post_producer.py:105-106 | the list loop: what each item holds, in index order |
| `FieldExtractor.Extracted` | websocket_client/scripts/post_producer.py:95 | one entry for each target key and no other |
| `FieldExtractor.OccurrencesExact` | websocket_client/scripts/post_producer.py:97-106 | a value is collected under a key iff it is stored under that key at some depth |
| `FieldExtractor.AbsentKeyFindsNothing` | websocket_client/scripts/post_producer.py:108-109 | a key's list is empty iff the key is stored nowhere in the document |
| `FieldExtractor.NestedMatchesCollected` | websocket_client/scripts/post_producer.py:100-103 | a match does not stop the descent: keys nested inside a matched value are collected too |
| `FieldExtractor.StoredUnderTransitive` | websocket_client/scripts/post_producer.py:103 | what is stored under a key inside a value stored under that key is stored in the document |
| `FieldExtractor.ScalarFindsNothing` | websocket_client/scripts/post_producer.py:97-108 | a scalar or `None` document gives an empty list for every target key |
| `Normalize.Admit` | websocket_client/scripts/post_producer.py:50-66 | `IndexError` iff the `kind` list is empty, or `kind` is "commit" and the `operation` list is empty, or a create has no `created_at` and no `createdAt`; kept iff first `kind` is "commit", first `operation` is "create" and a creation time exists; every other field is its first match unless that is missing or the empty string |
| `Normalize.ClassifyAccepts` | websocket_client/scripts/post_producer.py:48-50 | a document is kept iff its first `kind` is "commit", its first `operation` is "create" and it stores some creation time |
| `Normalize.CreatedAtFallback` | websocket_client/scripts/post_producer.py:52-55 | with no `created_at` anywhere, the record takes the first `createdAt` |
| `Normalize.NoKindRaises` | websocket_client/scripts/post_producer.py:50 | a document with no `kind` raises `IndexError` rather than being skipped |
| `Normalize.NonCreateRejected` | websocket_client/scripts/post_producer.py:50 | any document whose first `kind` is "commit" and whose first `operation` is something other than "create", such as "delete", is skipped without error |
| `Normalize.FirstUsable` | websocket_client/scripts/post_producer.py:58-65 | a field is its first match, and `None` when the list is empty or the first match is the empty string |
| `Normalize.Classify` | websocket_client/scripts/post_producer.py:48-55 | in terms of the document's occurrences: `IndexError` iff no `kind` is found, or the first `kind` is "commit" and no `operation` is found, or a create has no `created_at` and no `createdAt`; kept iff the first `kind` is "commit", the first `operation` is "create" and a creation time is found |
| `Store.AddEvent` | websocket_client/scripts/hybrid_message_logger.py:53-73 | an upsert of the key into the transient table; a write failure changes nothing; a failure of the row count after the commit is reported although the row is stored; the failed table and other keys are untouched |
| `Store.RemoveEvent` | websocket_client/scripts/hybrid_message_logger.py:75-85 | the key is gone from the transient table, or nothing changed and the failure is reported; other keys are untouched |
| `Store.MoveToFailed` | websocket_client/scripts/hybrid_message_logger.py:87-112 | a transient record is never lost: it stays in the transient table or lands in the failed table with its payload; a full move leaves it only in the failed table; an exception escapes exactly when the delete fails on a present key, leaving the record in both tables; read and write failures are swallowed |
| `Store.Connection.constructor` | websocket_client/scripts/hybrid_message_logger.py:22-23 | a connection is open on the path it was given |
| `Store.Connection.Close` | websocket_client/scripts/hybrid_message_logger.py:119 | the connection is closed |
| `AsyncLogger.HybridMessageLogger.constructor` | websocket_client/scripts/hybrid_message_logger.py:9-11 | both handles are `None` |
| `AsyncLogger.HybridMessageLogger.Initialize` | websocket_client/scripts/hybrid_message_logger.py:13-27 | closes open handles, then opens fresh connections to the two paths; the stored rows are unchanged |
| `AsyncLogger.HybridMessageLogger.Close` | websocket_client/scripts/hybrid_message_logger.py:114-124 | every open handle is closed and set to `None` |
| `AsyncLogger.HybridMessageLogger.AddEvent` | websocket_client/scripts/hybrid_message_logger.py:53-73 | follows `Store.AddEvent`; with no connection it raises and changes nothing |
| `AsyncLogger.HybridMessageLogger.RemoveEvent` | websocket_client/scripts/hybrid_message_logger.py:75-85 | follows `Store.RemoveEvent`; with no connection it raises and changes nothing |
| `AsyncLogger.HybridMessageLogger.MoveToFailed` | websocket_client/scripts/hybrid_message_logger.py:87-112 | follows `Store.MoveToFailed` on open handles; a `None` handle raises past the `sqlite3.Error` handler |
| `SyncLogger.HybridMessageLogger.constructor` | websocket_client/hybrid_message_logger.py:10-12 | both handles are `None` |
| `SyncLogger.HybridMessageLogger.Initialize` | websocket_client/hybrid_message_logger.py:14-24 | opens fresh connections to the two paths without calling `close` on the ones it replaces; the stored rows are unchanged |
| `SyncLogger.HybridMessageLogger.Close` | websocket_client/hybrid_message_logger.py:89-96 | every open handle is closed and set to `None` |
| `SyncLogger.HybridMessageLogger.AddEvent` | websocket_client/hybrid_message_logger.py:45-56 | follows `Store.AddEvent` with no row count: a failure is always at the write |
| `SyncLogger.HybridMessageLogger.RemoveEvent` | websocket_client/hybrid_message_logger.py:58-66 | follows `Store.RemoveEvent`; with no connection it raises and changes nothing |
| `SyncLogger.HybridMessageLogger.MoveToFailed` | websocket_client/hybrid_message_logger.py:68-87 | follows `Store.MoveToFailed` on open handles; a `None` handle raises past the handler |
| `Delivery.SendOutcome` | websocket_client/scripts/post_producer.py:111-138 | an acknowledged send is on the topic and its row is removed unless the removal fails; an unacknowledged one stays in a table and is moved to the failed table when the move succeeds; cleanup errors never escape; other keys are untouched |
| `Delivery.Handle` | websocket_client/scripts/post_producer.py:48-79 | a skipped document changes nothing; an `IndexError` changes nothing and ends the stream; a kept one is persisted and sent |
| `Delivery.Persist` | websocket_client/scripts/post_producer.py:68-79 | the record is committed under the fresh key before anything is sent; a failing `add_event` ends the stream with nothing sent; only the fresh key's rows change; only its message is added to the topic |
| `Delivery.HandleNoneLost` | websocket_client/scripts/post_producer.py:48-79 | one message keeps every committed record acknowledged or retained |
| `Delivery.PersistNoneLost` | websocket_client/scripts/post_producer.py:68-79 | persisting and sending a record with a fresh key loses no record |
| `Delivery.Run` | websocket_client/scripts/post_producer.py:30-83 | the loop only appends: the steps and topic before it are a prefix of those after it |
| `Delivery.RunNoneLost` | websocket_client/scripts/post_producer.py:30-83 | over any stretch of the stream, with fresh keys, every committed record is acknowledged or still in a table with its payload, whatever the broker and storage do |
| `Delivery.HandleWriteBeforeSend` | websocket_client/scripts/post_producer.py:48-79 | one message keeps every send right after the commit of its key |
| `Delivery.PersistWriteBeforeSend` | websocket_client/scripts/post_producer.py:72-79 | the send of a record follows the commit of its key |
| `Delivery.RunWriteBeforeSend` | websocket_client/scripts/post_producer.py:30-83 | over any stretch of the stream, nothing is sent before its record is committed |
| `Delivery.DeliveredLeavesNoRow` | websocket_client/scripts/post_producer.py:115-129 | an acknowledged send whose cleanup succeeds leaves no row under its key and puts the record on the topic |
| `Delivery.FailedSendQuarantined` | websocket_client/scripts/post_producer.py:131-138 | a failed send keeps the record in a table, and in the failed table only when the move succeeds |
| `Delivery.UndecodableEndsStream` | websocket_client/scripts/post_producer.py:30-83 | an undecodable message ends the stream with nothing done |
| `Delivery.PostProducer.constructor` | websocket_client/scripts/post_producer.py:11-15 | nothing sent and nothing done yet |
| `Delivery.PostProducer.Initialize` | websocket_client/scripts/post_producer.py:17-27 | opens the logger, then the state follows `Run` over the stream |
| `Delivery.PostProducer.Start` | websocket_client/scripts/post_producer.py:30-83 | the loop leaves tables, topic and steps as `Run` says, stopping at the first exception |
| `Delivery.PostProducer.HandleMessage` | websocket_client/scripts/post_producer.py:36-79 | one pass of the loop body does what `Handle` says, and reports whether it raised |
| `Delivery.PostProducer.SendMessage` | websocket_client/scripts/post_producer.py:111-138 | the state follows `SendOutcome` |
| `Hashtags.ExtractHashtags` | analysis/src/job/post_aggregation_job.py:76-84 | `None` text gives no rows; every row is a whitespace-free token of the text starting with `#` and carries `created_at` unchanged |
| `Hashtags.HashtagPositions` | analysis/src/job/post_aggregation_job.py:82-84 | the rows are the tokens at exactly the positions holding a hashtag, in increasing order, duplicates kept |
| `Hashtags.NoHashNoRows` | analysis/src/job/post_aggregation_job.py:82-83 | text without `#` gives no rows |
| `Hashtags.Split` | analysis/src/job/post_aggregation_job.py:82 | no empty token, and at most one token per character of the text |
| `Hashtags.Rows` | analysis/src/job/post_aggregation_job.py:82-84 | at most one row per token; every row is a token of the list that starts with `#`, paired with `created_at` |
| `Hashtags.SplitSingleRun` | analysis/src/job/post_aggregation_job.py:82 | a text without whitespace is a single token: `split()` never cuts inside a run, not even at a `#` |
| `Hashtags.SplitSeparated` | analysis/src/job/post_aggregation_job.py:82 | a run of whitespace after a token cuts exactly there: the token comes first, then the split of the rest |
| `Hashtags.SplitSkipsSpace` | analysis/src/job/post_aggregation_job.py:82 | a leading whitespace character contributes no token |
| `Hashtags.SplitSkipsSpaces` | analysis/src/job/post_aggregation_job.py:82 | a leading run of whitespace contributes no token |
| `Hashtags.SplitTokens` | analysis/src/job/post_aggregation_job.py:82 | `str.split()` never yields an empty token or one holding whitespace |
| `Hashtags.SplitKeepsText` | analysis/src/job/post_aggregation_job.py:82 | the tokens laid end to end are the text without its whitespace |
| `Hashtags.SplitJoin` | analysis/src/job/post_aggregation_job.py:82 | splitting undoes joining tokens with single spaces |

## Left out

- WebSocket transport (`BlueSkyWebSocketClientHandler`, `client.py`, the collection service client). The stream is a finite sequence of decoded messages, with `None` for a frame that failed to decode. Connection loss, which ends the real stream, is not modelled.
- Kafka: `AIOKafkaProducer`, its start and its serialisers. A publish is the `acked` choice in `Env`, and the topic holds only acknowledged messages. Offsets and broker-side duplicates are not modelled.
- SQLite mechanics: cursors, `CREATE TABLE`, `ensure_directories` and the debug row count. A table is a map, and a commit is the moment the map changes. An exception between an execute and its commit is modelled as changing nothing. Statements left uncommitted in an open transaction, which a later commit on the same connection would flush, are not modelled.
- SyncLogger.HybridMessageLogger.Initialize: the connections it replaces are never closed by the code. CPython's reference counting releases them once nothing refers to them, which the model does not capture, so in the model they stay open.
- AsyncLogger.HybridMessageLogger.Initialize, SyncLogger.HybridMessageLogger.Initialize: opening a connection or creating a table is taken to succeed. A failure there, which would propagate out of `initialize`, is not modelled.
- Key generation: `uuid.uuid4()` is the `key` in `Env`. The lemmas assume fresh, pairwise distinct keys (`FreshKeys`).
- Serialisation: `json.dumps` and `.encode('utf-8')` are an opaque function `encode` from record to bytes. The Kafka value serialiser is not modelled.
- Concurrency: every `await` runs to completion before the next statement, so the model is sequential.
- `print` logging everywhere, and `PostProducer.close`, which only stops the Kafka producer.
- JSON numbers are integers: floats and their comparison with strings play no part in the filter. Duplicate object keys, which `json.loads` collapses to the last one, are not modelled; an object is its member list.
- The Flink job around `extract_hashtags` (table environment, SQL windows, sinks) is not modelled. `created_at` is carried as an opaque value of any type.
