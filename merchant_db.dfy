/**
 The merchant directory, the transcription job queue and the merchant-memory
 ledger of db_merchant.py, as an in-memory store with three tables.

 Each source function becomes one atomic step on the `seq` fields of the
 `Store` class. The database's `NOW()` and the `created_at` column default
 are one logical clock that ticks on every write; `uuid.uuid4()` is a token
 counter, so a new job id is never already in the table; the `SERIAL` ids of
 `merchants` and `merchant_memory` are counters as well.
 */
module MerchantDb {
  import opened Wrappers

  datatype Status = Pending | Processing | Done | Failed

  /** A row of `merchants`. */
  datatype Merchant = Merchant(id: nat, phone: string, createdAt: nat)

  /** A row of `transcription_jobs`; `id` stands for the uuid4 text token. */
  datatype Job = Job(id: nat, merchantId: nat, gcsPath: string, status: Status,
                     error: Option<string>, createdAt: nat, updatedAt: Option<nat>)

  /** The three columns the claim query selects and hands to the worker. */
  datatype ClaimedJob = ClaimedJob(id: nat, merchantId: nat, gcsPath: string)

  /** A row of `merchant_memory`. */
  datatype MemoryRow = MemoryRow(id: nat, merchantId: nat, contactId: Option<nat>,
                                 source: string, content: string, createdAt: nat)

  /** The SET clause of one of the three UPDATE statements on `transcription_jobs`. */
  datatype Change = ToProcessing | ToDone | ToFailed(error: string)

  /** Result of the find-or-create on `merchants`: the row returned and the table after. */
  datatype Resolution = Resolution(merchant: Merchant, table: seq<Merchant>)

  // ---------------------------------------------------------------------------
  // Merchant directory
  // ---------------------------------------------------------------------------

  /** The WHERE clause of a lookup in `merchants`: by phone or by id. */
  datatype Key = ByPhone(phone: string) | ById(id: nat)

  predicate Matches(m: Merchant, key: Key)
  {
    match key
    case ByPhone(phone) => m.phone == phone
    case ById(id) => m.id == id
  }

  /** `SELECT * FROM merchants WHERE <key>`, first row. */
  function FindBy(ms: seq<Merchant>, key: Key): (r: Option<Merchant>)
    ensures r.Some? ==> r.value in ms && Matches(r.value, key)
    ensures r.None? <==> forall m :: m in ms ==> !Matches(m, key)
  {
    if ms == [] then None
    else if Matches(ms[0], key) then Some(ms[0])
    else FindBy(ms[1..], key)
  }

  /** The unique constraint on `merchants.phone`. */
  ghost predicate PhonesUnique(ms: seq<Merchant>)
  {
    forall i, j :: 0 <= i < j < |ms| ==> ms[i].phone != ms[j].phone
  }

  ghost predicate MerchantIdsBelow(ms: seq<Merchant>, bound: nat)
  {
    forall i :: 0 <= i < |ms| ==> ms[i].id < bound
  }

  ghost predicate MerchantIdsUnique(ms: seq<Merchant>)
  {
    forall i, j :: 0 <= i < j < |ms| ==> ms[i].id != ms[j].id
  }

  /**
   The find-or-create of `get_or_create_merchant_by_phone`: the existing row
   when the phone is known, otherwise one new row with the next serial id.
   */
  function FindOrCreate(ms: seq<Merchant>, phone: string, nextId: nat, now: nat): (r: Resolution)
    ensures r.merchant.phone == phone && r.merchant in r.table
    ensures FindBy(ms, ByPhone(phone)).Some? ==> r.table == ms && r.merchant == FindBy(ms, ByPhone(phone)).value
    ensures FindBy(ms, ByPhone(phone)).None? ==>
              r.table == ms + [r.merchant] && r.merchant == Merchant(nextId, phone, now)
  {
    match FindBy(ms, ByPhone(phone))
    case Some(m) => Resolution(m, ms)
    case None => Resolution(Merchant(nextId, phone, now), ms + [Merchant(nextId, phone, now)])
  }

  /** Find-or-create keeps phones unique and grows the table by at most one row. */
  lemma FindOrCreateKeepsUnique(ms: seq<Merchant>, phone: string, nextId: nat, now: nat)
    requires PhonesUnique(ms)
    ensures PhonesUnique(FindOrCreate(ms, phone, nextId, now).table)
    ensures |ms| <= |FindOrCreate(ms, phone, nextId, now).table| <= |ms| + 1
  {
    var r := FindOrCreate(ms, phone, nextId, now);
    if FindBy(ms, ByPhone(phone)).None? {
      forall i | 0 <= i < |ms| ensures r.table[i].phone != phone {
        assert ms[i] in ms;
      }
    }
  }

  /** In a table with unique phones, the row with a given phone is determined by it. */
  lemma {:induction false} UniquePhoneRow(ms: seq<Merchant>, m: Merchant, phone: string)
    requires PhonesUnique(ms) && m in ms && m.phone == phone
    ensures FindBy(ms, ByPhone(phone)) == Some(m)
  {
    var r := FindBy(ms, ByPhone(phone));
    var i :| 0 <= i < |ms| && ms[i] == m;
    var j :| 0 <= j < |ms| && ms[j] == r.value;
    assert ms[i].phone == ms[j].phone;
  }

  /**
   Resolving the same phone twice returns the same merchant row and the
   second call inserts nothing.
   */
  lemma FindOrCreateIdempotent(ms: seq<Merchant>, phone: string, n1: nat, t1: nat, n2: nat, t2: nat)
    requires PhonesUnique(ms)
    ensures var r1 := FindOrCreate(ms, phone, n1, t1);
            FindOrCreate(r1.table, phone, n2, t2) == r1
  {
    var r1 := FindOrCreate(ms, phone, n1, t1);
    FindOrCreateKeepsUnique(ms, phone, n1, t1);
    UniquePhoneRow(r1.table, r1.merchant, phone);
  }

  // ---------------------------------------------------------------------------
  // Transcription job queue
  // ---------------------------------------------------------------------------

  /** One row after a SET clause; only status, error and updated_at change. */
  function Apply(j: Job, c: Change, now: nat): (r: Job)
    ensures r.id == j.id && r.merchantId == j.merchantId && r.gcsPath == j.gcsPath
    ensures r.createdAt == j.createdAt && r.updatedAt == Some(now)
    ensures r.status != Pending
    ensures c.ToProcessing? ==> r.status == Processing
    ensures c.ToDone? ==> r.status == Done
    ensures c.ToFailed? ==> r.status == Failed && r.error == Some(c.error)
    ensures !c.ToFailed? ==> r.error == j.error
  {
    match c
    case ToProcessing => j.(status := Processing, updatedAt := Some(now))
    case ToDone => j.(status := Done, updatedAt := Some(now))
    case ToFailed(e) => j.(status := Failed, error := Some(e), updatedAt := Some(now))
  }

  /** `UPDATE transcription_jobs SET ... WHERE id = %s`: every row with that id, no other row. */
  function UpdateWhere(js: seq<Job>, id: nat, c: Change, now: nat): (r: seq<Job>)
    ensures |r| == |js|
    ensures forall i :: 0 <= i < |js| && js[i].id == id ==> r[i] == Apply(js[i], c, now)
    ensures forall i :: 0 <= i < |js| && js[i].id != id ==> r[i] == js[i]
  {
    seq(|js|, i requires 0 <= i < |js| => if js[i].id == id then Apply(js[i], c, now) else js[i])
  }

  ghost predicate JobIdsUnique(js: seq<Job>)
  {
    forall i, j :: 0 <= i < j < |js| ==> js[i].id != js[j].id
  }

  /** `created_at` follows insertion order, so FIFO by `created_at` is FIFO by enqueue. */
  ghost predicate CreatedInOrder(js: seq<Job>)
  {
    forall i, j :: 0 <= i < j < |js| ==> js[i].createdAt < js[j].createdAt
  }

  /** With unique ids, the UPDATE by id touches exactly the one row carrying it. */
  lemma UpdateWhereAt(js: seq<Job>, k: nat, c: Change, now: nat)
    requires JobIdsUnique(js) && k < |js|
    ensures UpdateWhere(js, js[k].id, c, now) == js[k := Apply(js[k], c, now)]
  {
    var r := UpdateWhere(js, js[k].id, c, now);
    forall i | 0 <= i < |js| ensures r[i] == js[k := Apply(js[k], c, now)][i] {
      if i < k { assert js[i].id != js[k].id; }
      if k < i { assert js[k].id != js[i].id; }
    }
  }

  /** An id not in the table: the UPDATE leaves the table as it was. */
  lemma UpdateWhereAbsent(js: seq<Job>, id: nat, c: Change, now: nat)
    requires forall i :: 0 <= i < |js| ==> js[i].id != id
    ensures UpdateWhere(js, id, c, now) == js
  {
  }

  /** Repeating the same UPDATE gives the table a single UPDATE gives (up to `updated_at`). */
  lemma UpdateWhereIdempotent(js: seq<Job>, id: nat, c: Change, t1: nat, t2: nat)
    ensures UpdateWhere(UpdateWhere(js, id, c, t1), id, c, t2) == UpdateWhere(js, id, c, t2)
  {
    var once := UpdateWhere(js, id, c, t1);
    var twice := UpdateWhere(once, id, c, t2);
    forall i | 0 <= i < |js| ensures twice[i] == UpdateWhere(js, id, c, t2)[i] {
      if js[i].id == id {
        assert once[i] == Apply(js[i], c, t1);
      }
    }
  }

  /** Number of PENDING rows. */
  function PendingCount(js: seq<Job>): (n: nat)
    ensures n <= |js|
  {
    if js == [] then 0 else (if js[0].status == Pending then 1 else 0) + PendingCount(js[1..])
  }

  /** No PENDING row exactly when the count of PENDING rows is zero. */
  lemma {:induction false} PendingCountZero(js: seq<Job>)
    ensures PendingCount(js) == 0 <==> forall i :: 0 <= i < |js| ==> js[i].status != Pending
  {
    if js != [] {
      PendingCountZero(js[1..]);
      if PendingCount(js) == 0 {
        forall i | 0 <= i < |js| ensures js[i].status != Pending {
          if i > 0 { assert js[i] == js[1..][i - 1]; }
        }
      }
    }
  }

  /** Replacing one PENDING row by a non-PENDING row lowers the count by exactly one. */
  lemma {:induction false} PendingCountDrop(js: seq<Job>, k: nat, j: Job)
    requires k < |js| && js[k].status == Pending && j.status != Pending
    ensures PendingCount(js[k := j]) == PendingCount(js) - 1
  {
    if k > 0 {
      assert js[k := j][1..] == js[1..][k - 1 := j];
      PendingCountDrop(js[1..], k - 1, j);
    }
  }

  /**
   `SELECT ... WHERE status = 'PENDING' ORDER BY created_at LIMIT 1`: the
   position of a PENDING row with the least `created_at` (ties go to the
   earlier row), or None when no row is PENDING.
   */
  function OldestPending(js: seq<Job>): (r: Option<nat>)
    ensures r.None? <==> forall i :: 0 <= i < |js| ==> js[i].status != Pending
    ensures r.Some? ==> r.value < |js| && js[r.value].status == Pending
    ensures r.Some? ==> forall i :: 0 <= i < |js| && js[i].status == Pending ==>
                                    js[r.value].createdAt <= js[i].createdAt
  {
    if js == [] then None
    else
      var rest := OldestPending(js[1..]);
      if js[0].status != Pending then
        (if rest.Some? then Some(rest.value + 1) else None)
      else if rest.Some? && js[rest.value + 1].createdAt < js[0].createdAt then Some(rest.value + 1)
      else Some(0)
  }

  /** FIFO: when `created_at` follows insertion order, the claimed row is the first PENDING row. */
  lemma OldestIsFirst(js: seq<Job>)
    requires CreatedInOrder(js) && OldestPending(js).Some?
    ensures forall i :: 0 <= i < OldestPending(js).value ==> js[i].status != Pending
  {
    var k := OldestPending(js).value;
    forall i | 0 <= i < k ensures js[i].status != Pending {
      assert js[i].createdAt < js[k].createdAt;
    }
  }

  /**
   With exactly one PENDING job, a claim takes it and the next claim finds
   nothing: two successive claims never both receive a job.
   */
  lemma {:induction false} SingleJobClaimedOnce(js: seq<Job>, now: nat)
    requires PendingCount(js) == 1
    ensures OldestPending(js).Some?
    ensures var k := OldestPending(js).value;
            OldestPending(js[k := Apply(js[k], ToProcessing, now)]).None?
  {
    PendingCountZero(js);
    var k := OldestPending(js).value;
    PendingCountDrop(js, k, Apply(js[k], ToProcessing, now));
    PendingCountZero(js[k := Apply(js[k], ToProcessing, now)]);
  }

  /** No row that had left PENDING is PENDING again, rows keep their identity, none is removed. */
  ghost predicate JobsEvolve(before: seq<Job>, after: seq<Job>)
  {
    && |before| <= |after|
    && forall i :: 0 <= i < |before| ==>
         && after[i].id == before[i].id
         && after[i].merchantId == before[i].merchantId
         && after[i].gcsPath == before[i].gcsPath
         && after[i].createdAt == before[i].createdAt
         && (before[i].status != Pending ==> after[i].status != Pending)
  }

  // ---------------------------------------------------------------------------
  // Table invariants
  // ---------------------------------------------------------------------------

  /** `merchants`: unique phone, unique serial id below the next one, rows older than now. */
  ghost predicate DirectoryValid(ms: seq<Merchant>, nextId: nat, clock: nat)
  {
    && PhonesUnique(ms)
    && MerchantIdsUnique(ms)
    && MerchantIdsBelow(ms, nextId)
    && (forall i :: 0 <= i < |ms| ==> ms[i].createdAt < clock)
  }

  /**
   `transcription_jobs`: unique ids below the next token, `created_at` in
   insertion order and older than now, and no job ever claimed is PENDING.
   */
  ghost predicate QueueValid(js: seq<Job>, nextToken: nat, clock: nat, claimed: set<nat>)
  {
    && JobIdsUnique(js)
    && CreatedInOrder(js)
    && (forall i :: 0 <= i < |js| ==> js[i].id < nextToken && js[i].createdAt < clock)
    && (forall id :: id in claimed ==> id < nextToken)
    && (forall i :: 0 <= i < |js| && js[i].id in claimed ==> js[i].status != Pending)
  }

  /** `merchant_memory`: serial ids increasing in insertion order, rows older than now. */
  ghost predicate LedgerValid(mem: seq<MemoryRow>, nextId: nat, clock: nat)
  {
    && (forall i :: 0 <= i < |mem| ==> mem[i].id < nextId && mem[i].createdAt < clock)
    && (forall i, j :: 0 <= i < j < |mem| ==> mem[i].id < mem[j].id)
  }

  lemma DirectoryLater(ms: seq<Merchant>, nextId: nat, clock: nat, later: nat)
    requires DirectoryValid(ms, nextId, clock) && clock <= later
    ensures DirectoryValid(ms, nextId, later)
  {
  }

  lemma LedgerLater(mem: seq<MemoryRow>, nextId: nat, clock: nat, later: nat)
    requires LedgerValid(mem, nextId, clock) && clock <= later
    ensures LedgerValid(mem, nextId, later)
  {
  }

  lemma QueueLater(js: seq<Job>, nextToken: nat, clock: nat, claimed: set<nat>, later: nat)
    requires QueueValid(js, nextToken, clock, claimed) && clock <= later
    ensures QueueValid(js, nextToken, later, claimed)
  {
  }

  /** Inserting a merchant with a new phone and the next serial id keeps the directory valid. */
  lemma DirectoryInsert(ms: seq<Merchant>, nextId: nat, clock: nat, phone: string)
    requires DirectoryValid(ms, nextId, clock)
    requires forall m :: m in ms ==> m.phone != phone
    ensures DirectoryValid(ms + [Merchant(nextId, phone, clock)], nextId + 1, clock + 1)
  {
    var ms' := ms + [Merchant(nextId, phone, clock)];
    forall i, j | 0 <= i < j < |ms'| ensures ms'[i].phone != ms'[j].phone && ms'[i].id != ms'[j].id {
      if j == |ms| {
        assert ms[i] in ms;
      }
    }
  }

  /** Enqueueing a PENDING row stamped now with the next token keeps the queue valid. */
  lemma QueueAppend(js: seq<Job>, nextToken: nat, clock: nat, claimed: set<nat>, row: Job)
    requires QueueValid(js, nextToken, clock, claimed)
    requires row.id == nextToken && row.createdAt == clock
    ensures QueueValid(js + [row], nextToken + 1, clock + 1, claimed)
    ensures JobsEvolve(js, js + [row])
  {
  }

  /** A status UPDATE never returns a row to PENDING, so it keeps the queue valid. */
  lemma QueueUpdate(js: seq<Job>, nextToken: nat, clock: nat, claimed: set<nat>, id: nat, c: Change)
    requires QueueValid(js, nextToken, clock, claimed)
    ensures QueueValid(UpdateWhere(js, id, c, clock), nextToken, clock + 1, claimed)
    ensures JobsEvolve(js, UpdateWhere(js, id, c, clock))
  {
    var r := UpdateWhere(js, id, c, clock);
    forall i | 0 <= i < |js|
      ensures r[i].id == js[i].id && r[i].createdAt == js[i].createdAt
      ensures r[i].merchantId == js[i].merchantId && r[i].gcsPath == js[i].gcsPath
      ensures r[i].status == Pending ==> r[i] == js[i]
    {
    }
  }

  /** Claiming a PENDING row: its id was never claimed before, and the queue stays valid. */
  lemma QueueClaim(js: seq<Job>, nextToken: nat, clock: nat, claimed: set<nat>, k: nat)
    requires QueueValid(js, nextToken, clock, claimed) && k < |js| && js[k].status == Pending
    ensures js[k].id !in claimed
    ensures QueueValid(js[k := Apply(js[k], ToProcessing, clock)], nextToken, clock + 1, claimed + {js[k].id})
    ensures JobsEvolve(js, js[k := Apply(js[k], ToProcessing, clock)])
  {
    var js' := js[k := Apply(js[k], ToProcessing, clock)];
    forall i | 0 <= i < |js'| && js'[i].id in claimed + {js[k].id} ensures js'[i].status != Pending {
      if i != k {
        assert js[i].id != js[k].id by {
          if i < k { assert js[i].id != js[k].id; } else { assert js[k].id != js[i].id; }
        }
      }
    }
  }

  /** Everything the claiming UPDATE does to a valid queue, for a PENDING row `k`. */
  lemma ClaimStep(js: seq<Job>, nextToken: nat, clock: nat, claimed: set<nat>, k: nat)
    requires QueueValid(js, nextToken, clock, claimed) && k < |js| && js[k].status == Pending
    ensures js[k].id !in claimed
    ensures UpdateWhere(js, js[k].id, ToProcessing, clock) == js[k := Apply(js[k], ToProcessing, clock)]
    ensures QueueValid(UpdateWhere(js, js[k].id, ToProcessing, clock), nextToken, clock + 1, claimed + {js[k].id})
    ensures JobsEvolve(js, UpdateWhere(js, js[k].id, ToProcessing, clock))
    ensures PendingCount(UpdateWhere(js, js[k].id, ToProcessing, clock)) == PendingCount(js) - 1
  {
    UpdateWhereAt(js, k, ToProcessing, clock);
    PendingCountDrop(js, k, Apply(js[k], ToProcessing, clock));
    QueueClaim(js, nextToken, clock, claimed, k);
  }

  lemma LedgerAppend(mem: seq<MemoryRow>, nextId: nat, clock: nat, row: MemoryRow)
    requires LedgerValid(mem, nextId, clock) && row.id == nextId && row.createdAt == clock
    ensures LedgerValid(mem + [row], nextId + 1, clock + 1)
  {
  }

  // ---------------------------------------------------------------------------
  // The store
  // ---------------------------------------------------------------------------

  class Store {
    var merchants: seq<Merchant>
    var jobs: seq<Job>
    var memory: seq<MemoryRow>
    /** The logical `NOW()`. */
    var clock: nat
    /** Next value of the `merchants.id` serial. */
    var nextMerchantId: nat
    /** Next value of the `merchant_memory.id` serial. */
    var nextMemoryId: nat
    /** Source of fresh `uuid.uuid4()` job ids. */
    var nextJobToken: nat
    /** Ids of every job `FetchNextPendingJob` has ever returned. */
    ghost var claimed: set<nat>

    ghost predicate Valid()
      reads this
    {
      && DirectoryValid(merchants, nextMerchantId, clock)
      && QueueValid(jobs, nextJobToken, clock, claimed)
      && LedgerValid(memory, nextMemoryId, clock)
    }

    /** A fresh database: three empty tables. */
    constructor ()
      ensures Valid()
      ensures merchants == [] && jobs == [] && memory == [] && claimed == {}
    {
      merchants, jobs, memory := [], [], [];
      clock, nextMerchantId, nextMemoryId, nextJobToken := 0, 1, 1, 0;
      claimed := {};
    }

    /** `get_or_create_merchant_by_phone` */
    method GetOrCreateMerchantByPhone(phone: string) returns (m: Merchant)
      requires Valid()
      modifies this
      ensures Valid()
      ensures FindOrCreate(old(merchants), phone, old(nextMerchantId), old(clock)) == Resolution(m, merchants)
      ensures old(FindBy(merchants, ByPhone(phone))).Some? ==> m == old(FindBy(merchants, ByPhone(phone))).value
      ensures old(FindBy(merchants, ByPhone(phone))).None? ==>
                merchants == old(merchants) + [m] && m.phone == phone &&
                forall i :: 0 <= i < |old(merchants)| ==> old(merchants)[i].id != m.id
      ensures FindBy(merchants, ByPhone(phone)) == Some(m)
      ensures jobs == old(jobs) && memory == old(memory) && claimed == old(claimed)
      ensures nextJobToken == old(nextJobToken) && nextMemoryId == old(nextMemoryId)
    {
      var found := FindBy(merchants, ByPhone(phone));
      if found.Some? {
        m := found.value;
      } else {
        m := Merchant(nextMerchantId, phone, clock);
        DirectoryInsert(merchants, nextMerchantId, clock, phone);
        QueueLater(jobs, nextJobToken, clock, claimed, clock + 1);
        LedgerLater(memory, nextMemoryId, clock, clock + 1);
        merchants := merchants + [m];
        nextMerchantId := nextMerchantId + 1;
        clock := clock + 1;
      }
      UniquePhoneRow(merchants, m, phone);
    }

    /** `get_merchant_by_id`: reads the table, changes nothing. */
    method GetMerchantById(id: nat) returns (r: Option<Merchant>)
      ensures r.Some? <==> exists i :: 0 <= i < |merchants| && merchants[i].id == id
      ensures r.Some? ==> r.value in merchants && r.value.id == id
    {
      r := FindBy(merchants, ById(id));
      if r.Some? {
        var i :| 0 <= i < |merchants| && merchants[i] == r.value;
      } else {
        assert forall i :: 0 <= i < |merchants| ==> !Matches(merchants[i], ById(id));
      }
    }

    /** `create_transcription_job`: one new PENDING row with a fresh id. */
    method CreateTranscriptionJob(merchantId: nat, gcsPath: string) returns (jobId: nat)
      requires Valid()
      modifies this
      ensures Valid()
      ensures forall i :: 0 <= i < |old(jobs)| ==> old(jobs)[i].id != jobId
      ensures jobs == old(jobs) + [Job(jobId, merchantId, gcsPath, Pending, None, old(clock), None)]
      ensures PendingCount(jobs) == PendingCount(old(jobs)) + 1
      ensures merchants == old(merchants) && memory == old(memory) && claimed == old(claimed)
      ensures nextMerchantId == old(nextMerchantId) && nextMemoryId == old(nextMemoryId)
      ensures JobsEvolve(old(jobs), jobs)
    {
      jobId := nextJobToken;
      var row := Job(jobId, merchantId, gcsPath, Pending, None, clock, None);
      PendingCountAppend(jobs, row);
      QueueAppend(jobs, nextJobToken, clock, claimed, row);
      DirectoryLater(merchants, nextMerchantId, clock, clock + 1);
      LedgerLater(memory, nextMemoryId, clock, clock + 1);
      jobs := jobs + [row];
      nextJobToken := nextJobToken + 1;
      clock := clock + 1;
    }

    /**
     `fetch_next_pending_job`: claims the oldest PENDING job, marks it
     PROCESSING and returns its id, merchant and storage path.
     */
    method FetchNextPendingJob() returns (r: Option<ClaimedJob>)
      requires Valid()
      modifies this
      ensures Valid()
      ensures r.None? <==> forall i :: 0 <= i < |old(jobs)| ==> old(jobs)[i].status != Pending
      ensures OldestPending(old(jobs)).None? ==> r.None? && jobs == old(jobs) && claimed == old(claimed)
      ensures OldestPending(old(jobs)).Some? ==>
                var k := OldestPending(old(jobs)).value;
                && r == Some(ClaimedJob(old(jobs)[k].id, old(jobs)[k].merchantId, old(jobs)[k].gcsPath))
                && jobs == old(jobs)[k := Apply(old(jobs)[k], ToProcessing, old(clock))]
                && (forall i :: 0 <= i < k ==> old(jobs)[i].status != Pending)
      ensures r.Some? ==> PendingCount(jobs) == PendingCount(old(jobs)) - 1
      ensures r.Some? ==> r.value.id !in old(claimed) && claimed == old(claimed) + {r.value.id}
      ensures merchants == old(merchants) && memory == old(memory)
      ensures nextMerchantId == old(nextMerchantId) && nextMemoryId == old(nextMemoryId) && nextJobToken == old(nextJobToken)
      ensures JobsEvolve(old(jobs), jobs)
    {
      var k := OldestPending(jobs);
      if k.None? {
        return None;
      }
      var row := jobs[k.value];
      OldestIsFirst(jobs);
      ClaimStep(jobs, nextJobToken, clock, claimed, k.value);
      DirectoryLater(merchants, nextMerchantId, clock, clock + 1);
      LedgerLater(memory, nextMemoryId, clock, clock + 1);
      jobs := UpdateWhere(jobs, row.id, ToProcessing, clock);
      claimed := claimed + {row.id};
      clock := clock + 1;
      r := Some(ClaimedJob(row.id, row.merchantId, row.gcsPath));
    }

    /** `mark_job_done`: every row with that id becomes DONE, whatever its status was. */
    method MarkJobDone(jobId: nat)
      requires Valid()
      modifies this
      ensures Valid()
      ensures jobs == UpdateWhere(old(jobs), jobId, ToDone, old(clock))
      ensures (forall i :: 0 <= i < |jobs| ==> old(jobs)[i].id != jobId) ==> jobs == old(jobs)
      ensures forall i :: 0 <= i < |jobs| && jobs[i].id == jobId ==> jobs[i].status == Done
      ensures PendingCount(jobs) <= PendingCount(old(jobs))
      ensures merchants == old(merchants) && memory == old(memory) && claimed == old(claimed)
      ensures nextMerchantId == old(nextMerchantId) && nextMemoryId == old(nextMemoryId) && nextJobToken == old(nextJobToken)
      ensures JobsEvolve(old(jobs), jobs)
    {
      FinalizeCount(jobs, jobId, ToDone, clock);
      QueueUpdate(jobs, nextJobToken, clock, claimed, jobId, ToDone);
      DirectoryLater(merchants, nextMerchantId, clock, clock + 1);
      LedgerLater(memory, nextMemoryId, clock, clock + 1);
      jobs := UpdateWhere(jobs, jobId, ToDone, clock);
      clock := clock + 1;
    }

    /** `mark_job_failed`: every row with that id becomes FAILED with the error recorded. */
    method MarkJobFailed(jobId: nat, error: string)
      requires Valid()
      modifies this
      ensures Valid()
      ensures jobs == UpdateWhere(old(jobs), jobId, ToFailed(error), old(clock))
      ensures (forall i :: 0 <= i < |jobs| ==> old(jobs)[i].id != jobId) ==> jobs == old(jobs)
      ensures forall i :: 0 <= i < |jobs| && jobs[i].id == jobId ==>
                jobs[i].status == Failed && jobs[i].error == Some(error)
      ensures PendingCount(jobs) <= PendingCount(old(jobs))
      ensures merchants == old(merchants) && memory == old(memory) && claimed == old(claimed)
      ensures nextMerchantId == old(nextMerchantId) && nextMemoryId == old(nextMemoryId) && nextJobToken == old(nextJobToken)
      ensures JobsEvolve(old(jobs), jobs)
    {
      FinalizeCount(jobs, jobId, ToFailed(error), clock);
      QueueUpdate(jobs, nextJobToken, clock, claimed, jobId, ToFailed(error));
      DirectoryLater(merchants, nextMerchantId, clock, clock + 1);
      LedgerLater(memory, nextMemoryId, clock, clock + 1);
      jobs := UpdateWhere(jobs, jobId, ToFailed(error), clock);
      clock := clock + 1;
    }

    /** `save_merchant_memory`: appends one ledger row; existing rows are untouched. */
    method SaveMerchantMemory(merchantId: nat, content: string, source: string := "voice",
                              contactId: Option<nat> := None)
      requires Valid()
      modifies this
      ensures Valid()
      ensures memory == old(memory) + [MemoryRow(old(nextMemoryId), merchantId, contactId, source, content, old(clock))]
      ensures forall i :: 0 <= i < |old(memory)| ==> old(memory)[i].id != memory[|memory| - 1].id
      ensures merchants == old(merchants) && jobs == old(jobs) && claimed == old(claimed)
      ensures nextMerchantId == old(nextMerchantId) && nextJobToken == old(nextJobToken)
    {
      var row := MemoryRow(nextMemoryId, merchantId, contactId, source, content, clock);
      LedgerAppend(memory, nextMemoryId, clock, row);
      DirectoryLater(merchants, nextMerchantId, clock, clock + 1);
      QueueLater(jobs, nextJobToken, clock, claimed, clock + 1);
      memory := memory + [row];
      nextMemoryId := nextMemoryId + 1;
      clock := clock + 1;
    }
  }

  /** Appending a PENDING row raises the count by one. */
  lemma {:induction false} PendingCountAppend(js: seq<Job>, j: Job)
    requires j.status == Pending
    ensures PendingCount(js + [j]) == PendingCount(js) + 1
  {
    if js != [] {
      assert (js + [j])[1..] == js[1..] + [j];
      PendingCountAppend(js[1..], j);
    }
  }

  /** A finalizing UPDATE never raises the number of PENDING rows. */
  lemma {:induction false} FinalizeCount(js: seq<Job>, id: nat, c: Change, now: nat)
    ensures PendingCount(UpdateWhere(js, id, c, now)) <= PendingCount(js)
  {
    if js != [] {
      assert UpdateWhere(js, id, c, now)[1..] == UpdateWhere(js[1..], id, c, now);
      FinalizeCount(js[1..], id, c, now);
    }
  }
}
