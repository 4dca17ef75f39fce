# Merchant webhook job queue, modelled in Dafny

This project models the core of a WhatsApp merchant webhook service. Merchants
send voice notes. The webhook stores each note in blob storage and enqueues a
transcription job. Workers claim jobs one at a time and finish them as DONE or
FAILED. A merchant-memory ledger collects what the workers derive.

Modules:

- `MerchantDb` (`merchant_db.dfy`) models `db_merchant.py`. The class `Store`
  holds three tables as `seq` fields: `merchants`, `jobs` (the
  `transcription_jobs` table) and `memory` (the `merchant_memory` table).
  Each source function is one atomic method step. Every method states the new
  contents of every table and the id counters it leaves alone, and it
  preserves `Valid()` (the logical clock only moves forward and is not
  stated):
  - phones are unique, as the schema's unique constraint demands;
  - ids are unique;
  - `created_at` follows insertion order;
  - no job ever returned by a claim is PENDING again.
  
  The ghost field `claimed` records every job id the claim has handed out.
  The claim's contract says the returned id was not in `claimed` before. So no
  job is returned twice across any sequence of calls.
- `Webhook` (`webhook.dfy`) models the route in `app_merchant.py`.
  - `Classify` is the pure decision: ignore the request, a non-voice message,
    or a voice note.
  - `Outcome` gives the calls the handler makes for each collaborator outcome.
  - `HandleWebhook` runs that decision against a `Store`. Its `kwargs`
    parameter is the set of keywords passed to `create_transcription_job`.
    With the keywords the source passes, the call never binds and no job is
    created, as `HandlerAsWritten` states. With the callee's own keywords it
    is the corrected handler `Handler`, and an uploaded note is enqueued.
- `Text` (`text.dfy`) defines Python's `str.startswith` and `str.replace`.
  The phone is `sender.replace("whatsapp:", "")`, which removes every
  occurrence of the prefix, not only the leading one.
- `Wrappers` (`wrappers.dfy`) defines `Option`.

Time and ids are modelled as follows:

- `NOW()` and the `created_at` default are one logical clock, `clock`. It
  ticks on every write.
- `uuid.uuid4()` is a token counter, so a new job id is never already in the
  table.
- The serial ids of `merchants` and `merchant_memory` are counters.

Two behaviours of the code that the model keeps:

- **No status guard on finishing.** `mark_job_done` and `mark_job_failed`
  (db_merchant.py:115-138) update by id alone. In the model, a PENDING, DONE
  or FAILED job can also be set to DONE or FAILED, not only a PROCESSING one.
  No operation ever sets a job back to PENDING (`JobsEvolve`).
- **The error reply can escape.** The `send_whatsapp` call inside `except`
  (app_merchant.py:65-68) is not guarded. If it raises, the exception leaves
  the handler. The model makes this the `errorRaises` outcome, with response
  `Propagated`. With `errorRaises == false`, every path returns `("", 204)`.

## Model

| member | source | states |
|---|---|---|
| `MerchantDb.FindBy` | db_merchant.py:29-56 | a lookup by phone or by id returns a row of the table that matches the key, and None exactly when no row matches |
| `MerchantDb.FindOrCreate` | db_merchant.py:27-47 | returns a row with the phone; a known phone returns the existing row and leaves the table unchanged; an unknown phone appends exactly one new row with the next serial id |
| `MerchantDb.FindOrCreateKeepsUnique` | db_merchant.py:38-47 | find-or-create keeps phones unique and grows the table by at most one row |
| `MerchantDb.UniquePhoneRow` | db_merchant.py:29-36 | with unique phones, the lookup by phone returns the one row carrying it |
| `MerchantDb.FindOrCreateIdempotent` | db_merchant.py:27-47 | resolving the same phone twice returns the same row, and the second call inserts nothing |
| `MerchantDb.Store.GetOrCreateMerchantByPhone` | db_merchant.py:27-47 | the store's directory goes to the find-or-create result; a new row's id is not used before; afterwards the phone finds exactly the returned row; jobs and ledger are unchanged |
| `MerchantDb.Store.GetMerchantById` | db_merchant.py:50-56 | returns a row with that id exactly when one exists, and changes nothing |
| `MerchantDb.Store.CreateTranscriptionJob` | db_merchant.py:63-76 | appends exactly one PENDING job with a fresh id, the given merchant and path, and returns that id; earlier jobs, merchants and ledger are unchanged; the PENDING count rises by one |
| `MerchantDb.PendingCountAppend` | db_merchant.py:67-73 | appending a PENDING row raises the PENDING count by one |
| `MerchantDb.QueueAppend` | db_merchant.py:67-73 | an enqueued row keeps ids unique, creation order and the claimed-never-pending invariant |
| `MerchantDb.OldestPending` | db_merchant.py:86-96 | None exactly when no job is PENDING; otherwise a PENDING row whose `created_at` is least among PENDING rows |
| `MerchantDb.OldestIsFirst` | db_merchant.py:88-92 | when `created_at` follows insertion order, the oldest PENDING job has no PENDING job before it (FIFO) |
| `MerchantDb.PendingCountZero` | db_merchant.py:96-99 | the PENDING count is zero exactly when no row is PENDING |
| `MerchantDb.PendingCountDrop` | db_merchant.py:101-110 | turning one PENDING row into a non-PENDING row lowers the count by exactly one |
| `MerchantDb.Apply` | db_merchant.py:104-106 | the SET clause changes only status, error and `updated_at`; it sets PROCESSING, DONE or FAILED as the clause names, never PENDING; FAILED records the error |
| `MerchantDb.UpdateWhere` | db_merchant.py:102-109 | an update by id changes every row carrying the id as the SET clause says and leaves every other row as it was |
| `MerchantDb.UpdateWhereAt` | db_merchant.py:102-109 | with unique ids, the update by id changes exactly the one row with that id |
| `MerchantDb.QueueClaim` | db_merchant.py:101-110 | a claimed PENDING job was never claimed before, and the claim keeps the queue invariants |
| `MerchantDb.ClaimStep` | db_merchant.py:101-110 | the claiming update changes only the claimed row, lowers the PENDING count by one and keeps the queue invariants |
| `MerchantDb.SingleJobClaimedOnce` | db_merchant.py:86-112 | with exactly one PENDING job, the claim takes it and the next claim finds nothing |
| `MerchantDb.Store.FetchNextPendingJob` | db_merchant.py:79-112 | with no PENDING job, returns None and changes nothing; otherwise returns id, merchant and path of the oldest PENDING job, which becomes PROCESSING with no other row changed; the PENDING count drops by one; the id was never returned before |
| `MerchantDb.UpdateWhereAbsent` | db_merchant.py:115-138 | an update with an unknown id leaves the table unchanged |
| `MerchantDb.UpdateWhereIdempotent` | db_merchant.py:115-138 | repeating the same update leaves the same table as one update, up to `updated_at` |
| `MerchantDb.FinalizeCount` | db_merchant.py:115-138 | finishing a job never raises the PENDING count |
| `MerchantDb.QueueUpdate` | db_merchant.py:115-138 | an update by id never turns a row back to PENDING, removes none, and keeps the queue invariants |
| `MerchantDb.Store.MarkJobDone` | db_merchant.py:115-125 | every row with that id becomes DONE whatever its status was; an unknown id changes nothing; other rows, merchants and ledger are unchanged |
| `MerchantDb.Store.MarkJobFailed` | db_merchant.py:128-138 | every row with that id becomes FAILED with the error recorded; an unknown id changes nothing; other rows, merchants and ledger are unchanged |
| `MerchantDb.LedgerAppend` | db_merchant.py:152-160 | appending a row with the next serial id keeps ledger ids increasing |
| `MerchantDb.Store.SaveMerchantMemory` | db_merchant.py:145-160 | appends exactly one ledger row with a new id; `source` defaults to "voice" and `contact_id` to None; existing rows and the other tables are unchanged |
| `MerchantDb.DirectoryInsert` | db_merchant.py:38-47 | inserting a new phone with the next serial id keeps phones and ids unique |
| `Text.ReplaceAbsent` | app_merchant.py:32 | a string without the pattern comes back unchanged |
| `Text.ReplaceLeading` | app_merchant.py:32 | a leading occurrence is replaced, and the scan resumes after it |
| `Text.StripPrefix` | app_merchant.py:32 | "whatsapp:" + p gives p when p does not contain the prefix |
| `Webhook.Classify` | app_merchant.py:24-40 | a missing sender, or one not starting with "whatsapp:", is ignored; otherwise the phone is the sender with the prefix removed; a voice note needs a non-empty media URL and a content type starting "audio/"; a missing content type is never audio |
| `Webhook.NoPrefixInNumber` | app_merchant.py:32 | a number made of '+' and digits never contains "whatsapp:" |
| `Webhook.PrefixedSenderPhone` | app_merchant.py:29-32 | a sender "whatsapp:" + p, where p does not itself contain "whatsapp:", is accepted with phone p |
| `Webhook.EnqueueCallBinding` | app_merchant.py:50-56 | the keywords the webhook passes do not bind to `create_transcription_job(merchant_id, gcs_path)`; the callee's own keywords do |
| `Webhook.Outcome` | app_merchant.py:40-75 | upload only for voice notes; enqueue only after a successful upload and a binding call; the acknowledgment is sent only after both; any exception adds the apology as the last send, and without an enqueue the apology is the only send; non-voice requests send nothing; the response is `("", 204)` unless the apology send itself raises |
| `Webhook.HandlerAsWritten` | app_merchant.py:41-68 | as written, no voice note is ever enqueued, and each voice note gets only the apology |
| `Webhook.Handler` | app_merchant.py:41-68 | with the call bound as the callee declares it, an uploaded voice note is enqueued under its path and acknowledged with 204; a failed upload enqueues nothing and sends the apology |
| `Webhook.VoiceNoteScenario` | app_merchant.py:24-70 | a voice note from "whatsapp:+911234567890" is audio for "+911234567890"; as written it gets only the apology; the intended call enqueues it and acknowledges it |
| `Webhook.HandleWebhook` | app_merchant.py:21-75 | an ignored request leaves every table, id counter and the clock unchanged; every accepted sender resolves its merchant by find-or-create; the upload, sends and response match `Outcome` for the keywords passed to the enqueue call; a job is appended (PENDING, fresh id, the merchant's id, the uploaded path) exactly when `Outcome` enqueues, and otherwise the jobs are unchanged |

## Left out

- Connections (`get_conn`, `DATABASE_URL`) are left out. The tables are in memory, and each source function is one atomic step.
- `MerchantDb.Store.GetOrCreateMerchantByPhone`: the SELECT and the INSERT (db_merchant.py:29-46) are one atomic step. The race between two concurrent first messages from the same phone is not captured: both find no row, and the second INSERT violates the unique phone constraint. The exception that then escapes the webhook is not captured either, because the call at app_merchant.py:35 is outside the try.
- `FOR UPDATE SKIP LOCKED` and concurrent workers are left out. Claims are sequential, so "distinct jobs to concurrent workers" is stated as "no job is claimed twice in any sequence of calls".
- Database failures are left out, including a store outage during merchant resolution, which would escape the handler.
- Ties on `created_at` are not modelled. The logical clock gives every row a distinct `created_at`, so `OldestPending` breaking a tie toward the earlier row never matters.
- The `updated_at` column starts as None in the model. The schema that sets its default is not part of this model.
- The foreign keys from jobs and ledger rows to `merchants` are not checked. The schema that declares them is not part of this model.
- Flask routing, `request.values` parsing and `app.run` are left out. The form fields are optional strings.
- `utils.upload_twilio_media_to_gcs` and `utils.send_whatsapp` are not part of this model. Each call is represented by its outcome.
- The `traceback` printing is left out.
- The exact reply texts are left out. They are the two messages `AudioReceived` and `AudioProblem`.
- The worker loop, which is not in these files, is left out. Only the store operations it would call are modelled.
- Python's `str.replace` with an empty pattern is not modelled. The handler only uses "whatsapp:".

## Findings

| source | as written | input that shows it | evidently intended | confidence | as-written member | corrected member |
|---|---|---|---|---|---|---|
| app_merchant.py:50-56 | `create_transcription_job` is called with the keywords `job_id`, `phone` and `status` (with value "pending", where the table uses 'PENDING'). Its signature at db_merchant.py:63 accepts only `merchant_id` and `gcs_path`. The call raises TypeError before any insert, so every voice note takes the `except` branch: no job is created and the sender gets the apology. | From "whatsapp:+911234567890", MediaUrl0 "http://x/a.ogg", MediaContentType0 "audio/ogg", and a successful upload | the note is enqueued as a PENDING job and the "audio received" reply is sent | not executed | `Webhook.HandlerAsWritten` | `Webhook.Handler` |
