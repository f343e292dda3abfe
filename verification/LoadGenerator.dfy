/** The simulator's fixed run: which jobs it submits, for any ticks, and how batches are cut. */
module LoadGenerator {
  import opened Common

  datatype LogRequest = LogRequest(applicationName: string, level: string, message: string, timestamp: string,
        traceId: string)

  datatype Kind = Single | Batch

  datatype Job = Job(kind: Kind, logs: seq<LogRequest>)

  datatype Mode = ModeSingle | ModeBatch | ModeMixed | ModeUnknown

  /** A configured run: log `i` of the generator is `next(i)`, `single(i)` is the random choice of the mixed
      mode for it, and `accepts(k)` says whether the job channel takes submission `k` before the context ends. */
  datatype Load = Load(mode: Mode, batchSize: nat, target: int, next: nat -> LogRequest, single: nat -> bool,
                       accepts: nat -> bool)

  /** What the loop receives: the end of the context, or a tick with the number of logs expected by then. */
  datatype Tick = ContextDone | TickAt(expected: int)

  datatype Ending = NothingToDo | Completed | LastBatchRefused | Refused | Cancelled | StillRunning

  function Logs(next: nat -> LogRequest, n: nat): (r: seq<LogRequest>)
    ensures |r| == n && forall i: nat | i < n :: r[i] == next(i)
  {
    seq(n, i requires 0 <= i < n => next(i))
  }

  function Flatten(jobs: seq<Job>): seq<LogRequest> {
    if jobs == [] then [] else Flatten(jobs[..|jobs| - 1]) + jobs[|jobs| - 1].logs
  }

  lemma FlattenNext(jobs: seq<Job>, job: Job)
    ensures Flatten(jobs + [job]) == Flatten(jobs) + job.logs
  {
    assert (jobs + [job])[..|jobs|] == jobs;
  }

  // ------------------------------------------------------------ chunks

  /** A text cut into chunks of `size`, the last one possibly shorter. */
  function Chunks(logs: seq<LogRequest>, size: nat): seq<seq<LogRequest>>
    requires size >= 1
    decreases |logs|
  {
    if logs == [] then []
    else if |logs| <= size then [logs]
    else [logs[..size]] + Chunks(logs[size..], size)
  }

  function Concat(chunks: seq<seq<LogRequest>>): seq<LogRequest> {
    if chunks == [] then [] else chunks[0] + Concat(chunks[1..])
  }

  function CeilDiv(n: nat, size: nat): nat
    requires size >= 1
  {
    (n + size - 1) / size
  }

  lemma CeilDivStep(n: nat, size: nat)
    requires size >= 1 && n >= size
    ensures CeilDiv(n, size) == 1 + CeilDiv(n - size, size)
  {
    var q, r := (n - 1) / size, (n - 1) % size;
    DivisionAxiom(n - 1, size);
    assert (q + 1) * size == q * size + size;
    DivisionIsUnique(n + size - 1, size, q + 1, r);
    DivisionIsUnique(n - 1, size, q, r);
  }

  lemma MulAtLeast(d: int, size: int)
    requires d >= 1 && size >= 0
    ensures d * size >= size
  {
    assert d * size == (d - 1) * size + size;
  }

  /** A multiple of `size` strictly between `-size` and `size` is zero. */
  lemma SmallMultiple(d: int, size: int)
    requires size >= 1 && -size < d * size < size
    ensures d == 0
  {
    if d >= 1 {
      MulAtLeast(d, size);
    } else if d <= -1 {
      assert (-d) * size == -(d * size);
      MulAtLeast(-d, size);
    }
  }

  lemma DivisionIsUnique(a: int, size: nat, q: int, r: int)
    requires size >= 1 && a == q * size + r && 0 <= r < size
    ensures a / size == q && a % size == r
  {
    var q', r' := a / size, a % size;
    DivisionAxiom(a, size);
    assert (q' - q) * size == q' * size - q * size;
    SmallMultiple(q' - q, size);
  }

  lemma DivisionAxiom(a: int, size: nat)
    requires size >= 1
    ensures a == (a / size) * size + a % size && 0 <= a % size < size
  {
  }

  /** Cutting loses nothing, makes the fewest chunks possible, and only the last one can be short. */
  lemma {:induction false} ChunksAreACut(logs: seq<LogRequest>, size: nat)
    requires size >= 1
    ensures Concat(Chunks(logs, size)) == logs
    ensures |Chunks(logs, size)| == CeilDiv(|logs|, size)
    ensures forall i | 0 <= i < |Chunks(logs, size)| ::
              var c := Chunks(logs, size)[i]; 1 <= |c| <= size && (i + 1 < |Chunks(logs, size)| ==> |c| == size)
    decreases |logs|
  {
    hide CeilDiv;
    if logs == [] {
      CeilDivSmall(0, size);
    } else if |logs| <= size {
      CeilDivSmall(|logs|, size);
      assert Concat([logs]) == logs + Concat([logs][1..]);
    } else {
      var rest := Chunks(logs[size..], size);
      ChunksAreACut(logs[size..], size);
      CeilDivStep(|logs|, size);
      assert ([logs[..size]] + rest)[1..] == rest;
    }
  }

  lemma CeilDivSmall(n: nat, size: nat)
    requires size >= 1 && n <= size
    ensures CeilDiv(n, size) == if n == 0 then 0 else 1
  {
    if n == 0 {
      DivisionIsUnique(size - 1, size, 0, size - 1);
    } else {
      DivisionIsUnique(n + size - 1, size, 1, n - 1);
    }
  }

  /** Full batch jobs, one after the other. */
  ghost predicate FullBatches(jobs: seq<Job>, size: nat) {
    forall j | j in jobs :: j.kind == Batch && |j.logs| == size
  }

  function Payloads(jobs: seq<Job>): (r: seq<seq<LogRequest>>)
    ensures |r| == |jobs| && forall i | 0 <= i < |jobs| :: r[i] == jobs[i].logs
  {
    seq(|jobs|, i requires 0 <= i < |jobs| => jobs[i].logs)
  }

  /** Full batches followed by a shorter rest are exactly the chunks of what they hold. */
  lemma {:induction false} FullBatchesAreChunks(jobs: seq<Job>, rest: seq<LogRequest>, size: nat)
    requires size >= 1 && FullBatches(jobs, size) && |rest| < size
    ensures Chunks(Flatten(jobs) + rest, size) == Payloads(jobs) + (if rest == [] then [] else [rest])
    decreases |jobs|
  {
    hide Chunks, Flatten;
    if jobs == [] {
      ShortChunks(rest, size);
      assert [] + rest == rest;
    } else {
      var first, tail := jobs[0], jobs[1..];
      assert first in jobs && forall j | j in tail :: j in jobs;
      FlattenFirst(jobs);
      FullBatchesAreChunks(tail, rest, size);
      assert Flatten(jobs) + rest == first.logs + (Flatten(tail) + rest);
      FirstChunk(first.logs, Flatten(tail) + rest, size);
      assert Payloads(jobs) == [first.logs] + Payloads(tail);
    }
  }

  lemma ShortChunks(rest: seq<LogRequest>, size: nat)
    requires size >= 1 && |rest| < size
    ensures Chunks(rest, size) == if rest == [] then [] else [rest]
    ensures Flatten([]) == []
  {
  }

  lemma FirstChunk(first: seq<LogRequest>, rest: seq<LogRequest>, size: nat)
    requires size >= 1 && |first| == size
    ensures Chunks(first + rest, size) == [first] + Chunks(rest, size)
  {
    assert (first + rest)[..size] == first && (first + rest)[size..] == rest;
    if rest == [] {
      assert first + rest == first;
    }
  }

  lemma {:induction false} FlattenFirst(jobs: seq<Job>)
    requires jobs != []
    ensures Flatten(jobs) == jobs[0].logs + Flatten(jobs[1..])
  {
    if |jobs| > 1 {
      var front := jobs[..|jobs| - 1];
      FlattenFirst(front);
      assert front[0] == jobs[0] && jobs[1..][..|jobs| - 2] == front[1..];
      assert jobs[1..][|jobs| - 2] == jobs[|jobs| - 1];
    } else {
      assert jobs[..0] == [] && jobs[1..] == [];
      assert Flatten([]) == [];
    }
  }

  // ------------------------------------------------------------ the run

  function KindOf(load: Load, i: nat): Kind {
    if load.mode.ModeSingle? || load.single(i) then Single else Batch
  }

  /** The jobs submitted and the logs buffered once `n` logs were dispatched. */
  ghost predicate InStep(load: Load, jobs: seq<Job>, buffer: seq<LogRequest>, n: nat) {
    && Flatten(jobs) + buffer == Logs(load.next, n)
    && (forall k: nat | k < |jobs| :: load.accepts(k))
    && match load.mode
       case ModeBatch => FullBatches(jobs, load.batchSize) && |buffer| < load.batchSize
       case ModeUnknown => n == 0
       case _ => buffer == [] && |jobs| == n && forall i: nat | i < n :: jobs[i] == Job(KindOf(load, i), [load.next(i)])
  }

  /** `submitJob`: the channel takes the job, unless the context ends first. */
  method SubmitJob(load: Load, jobs: seq<Job>, job: Job) returns (ok: bool, jobs': seq<Job>)
    ensures ok == load.accepts(|jobs|) && jobs' == if ok then jobs + [job] else jobs
  {
    ok := load.accepts(|jobs|);
    jobs' := if ok then jobs + [job] else jobs;
  }

  lemma NextLog(load: Load, n: nat)
    ensures Logs(load.next, n + 1) == Logs(load.next, n) + [load.next(n)]
  {
  }

  lemma OneJobNext(load: Load, n: nat, jobs: seq<Job>, buffer: seq<LogRequest>, job: Job)
    requires InStep(load, jobs, buffer, n) && (load.mode.ModeSingle? || load.mode.ModeMixed?)
    requires job == Job(KindOf(load, n), [load.next(n)]) && load.accepts(|jobs|)
    ensures InStep(load, jobs + [job], buffer, n + 1)
  {
    hide Flatten, KindOf;
    NextLog(load, n);
    FlattenNext(jobs, job);
  }

  lemma BufferNext(load: Load, n: nat, jobs: seq<Job>, buffer: seq<LogRequest>)
    requires InStep(load, jobs, buffer, n) && load.mode.ModeBatch? && |buffer| + 1 < load.batchSize
    ensures InStep(load, jobs, buffer + [load.next(n)], n + 1)
  {
    hide Flatten, FullBatches;
    NextLog(load, n);
    assert Flatten(jobs) + (buffer + [load.next(n)]) == Flatten(jobs) + buffer + [load.next(n)];
  }

  lemma BatchNext(load: Load, n: nat, jobs: seq<Job>, buffer: seq<LogRequest>)
    requires InStep(load, jobs, buffer, n) && load.mode.ModeBatch? && |buffer| + 1 == load.batchSize && load.accepts(|jobs|)
    ensures InStep(load, jobs + [Job(Batch, buffer + [load.next(n)])], [], n + 1)
  {
    hide Flatten;
    NextLog(load, n);
    FlattenNext(jobs, Job(Batch, buffer + [load.next(n)]));
    assert Flatten(jobs) + (buffer + [load.next(n)]) == Flatten(jobs) + buffer + [load.next(n)];
  }

  /** Dispatch log `n`: the next state is in step, or the one submission due was refused. */
  method DispatchLog(load: Load, n: nat, jobs: seq<Job>, buffer: seq<LogRequest>)
    returns (ok: bool, jobs': seq<Job>, buffer': seq<LogRequest>)
    requires load.batchSize >= 1 && InStep(load, jobs, buffer, n)
    ensures ok ==> InStep(load, jobs', buffer', n + 1)
    ensures !ok ==> jobs' == jobs && (load.mode.ModeUnknown? || !load.accepts(|jobs|))
    ensures !ok && !load.mode.ModeUnknown? ==>
              |Flatten(jobs)| + (if load.mode.ModeBatch? then load.batchSize else 1) == n + 1
  {
    hide InStep, Flatten, FullBatches;
    InStepMeans(load, jobs, buffer, n);
    var record := load.next(n);
    jobs', buffer' := jobs, buffer;
    match load.mode
    case ModeSingle =>
      ok, jobs' := SubmitJob(load, jobs, Job(Single, [record]));
      if ok {
        OneJobNext(load, n, jobs, buffer, Job(Single, [record]));
      }
    case ModeBatch =>
      buffer' := buffer + [record];
      if |buffer'| < load.batchSize {
        BufferNext(load, n, jobs, buffer);
        return true, jobs', buffer';
      }
      var batch := buffer';
      buffer' := [];
      ok, jobs' := SubmitJob(load, jobs, Job(Batch, batch));
      if ok {
        BatchNext(load, n, jobs, buffer);
      }
    case ModeMixed =>
      var kind := if load.single(n) then Single else Batch;
      ok, jobs' := SubmitJob(load, jobs, Job(kind, [record]));
      if ok {
        OneJobNext(load, n, jobs, buffer, Job(kind, [record]));
      }
    case ModeUnknown =>
      ok := false;
  }

  /** The tick asks for exactly `n` logs, up to the target. */
  predicate Reaches(load: Load, t: Tick, n: nat) {
    t.TickAt? && n == if t.expected > load.target then load.target else t.expected
  }

  /** At every end, whatever the ticks: nothing is generated beyond the target, what is generated is planned,
      and the submitted jobs hold a prefix of the generated logs, in order.
      A run that completes has submitted everything: one job per log, or in batch mode exactly the chunks of
      the target logs. A refused submission loses at most the batch it was refused for; when that is the
      last batch, planned still says target. */
  method RunServerFixed(load: Load, ticks: seq<Tick>)
    returns (jobs: seq<Job>, buffer: seq<LogRequest>, generated: nat, planned: nat, ending: Ending)
    requires load.batchSize >= 1
    ensures planned == generated && generated <= if load.target > 0 then load.target else 0
    ensures forall k: nat | k < |jobs| :: load.accepts(k)
    ensures ending.NothingToDo? <==> load.target <= 0
    ensures ending.NothingToDo? || ending.Cancelled? || ending.StillRunning? ==> InStep(load, jobs, buffer, generated)
    ensures ending.Completed? ==> generated == load.target && Flatten(jobs) == Logs(load.next, generated)
    ensures ending.Completed? && !load.mode.ModeBatch? ==>
              |jobs| == generated && forall i: nat | i < generated ::
                jobs[i] == Job(if load.mode.ModeSingle? || load.single(i) then Single else Batch, [load.next(i)])
    ensures ending.StillRunning? ==>
              generated < load.target && forall t | t in ticks :: t.TickAt? && t.expected <= generated
    ensures ending.Cancelled? ==> generated < load.target && ContextDone in ticks
    ensures ending.Completed? || ending.LastBatchRefused? ==>
              exists t | t in ticks :: t.TickAt? && t.expected >= load.target
    ensures !ending.Refused? ==> generated == 0 || exists t | t in ticks ::
              t.TickAt? && generated == if t.expected > load.target then load.target else t.expected
    ensures ending.Completed? && load.mode.ModeBatch? ==>
              Payloads(jobs) == Chunks(Logs(load.next, generated), load.batchSize)
              && |jobs| == CeilDiv(generated, load.batchSize) && forall j | j in jobs :: j.kind == Batch
    ensures ending.LastBatchRefused? ==>
              && generated == load.target && load.mode.ModeBatch? && !load.accepts(|jobs|)
              && Flatten(jobs) == Logs(load.next, generated - generated % load.batchSize) && generated % load.batchSize > 0
    ensures ending.Refused? ==>
              && generated < load.target && Flatten(jobs) <= Logs(load.next, generated)
              && (load.mode.ModeUnknown? || !load.accepts(|jobs|))
              && (!load.mode.ModeUnknown? ==>
                    generated + 1 - |Flatten(jobs)| == if load.mode.ModeBatch? then load.batchSize else 1)
  {
    hide InStep, Chunks, CeilDiv, Flatten, FullBatches, Payloads;
    jobs, buffer, generated, planned := [], [], 0, 0;
    NothingDispatched(load);
    if load.target <= 0 {
      ending := NothingToDo;
      InStepMeans(load, jobs, buffer, generated);
      return;
    }
    var t := 0;
    while generated < load.target && t < |ticks|
      invariant t <= |ticks| && planned == generated <= load.target
      invariant InStep(load, jobs, buffer, generated)
      invariant forall k | 0 <= k < t :: ticks[k].TickAt? && (ticks[k].expected <= generated || generated == load.target)
      invariant generated == 0 || exists k | 0 <= k < t :: Reaches(load, ticks[k], generated)
    {
      InStepMeans(load, jobs, buffer, generated);
      if ticks[t].ContextDone? {
        ending := Cancelled;
        return;
      }
      var expected := ticks[t].expected;
      t := t + 1;
      if expected > load.target {
        expected := load.target;
      }
      var due := expected - generated;
      if due <= 0 {
        continue;
      }
      var generatedThisTick := 0;
      for i := 0 to due
        invariant generatedThisTick == i && generated == planned + i && planned == expected - due
        invariant InStep(load, jobs, buffer, generated)
      {
        var ok, jobs', buffer' := DispatchLog(load, generated, jobs, buffer);
        InStepMeans(load, jobs, buffer, generated);
        jobs, buffer := jobs', buffer';
        if !ok {
          planned := planned + generatedThisTick;
          ending := Refused;
          return;
        }
        generated := generated + 1;
        generatedThisTick := generatedThisTick + 1;
      }
      planned := planned + generatedThisTick;
      assert Reaches(load, ticks[t - 1], generated);
    }
    assert forall k | 0 <= k < |ticks| :: ticks[k] in ticks;
    InStepMeans(load, jobs, buffer, generated);
    if generated < load.target {
      ending := StillRunning;
      return;
    }
    ending := Completed;
    if load.mode.ModeBatch? {
      var ok;
      ok, jobs, buffer := FlushBatch(load, jobs, buffer, generated);
      ending := if ok then Completed else LastBatchRefused;
    }
  }

  /** The forced flush at the end of a batch run. */
  method FlushBatch(load: Load, jobs: seq<Job>, buffer: seq<LogRequest>, n: nat)
    returns (ok: bool, jobs': seq<Job>, buffer': seq<LogRequest>)
    requires load.batchSize >= 1 && load.mode.ModeBatch? && InStep(load, jobs, buffer, n)
    ensures forall k: nat | k < |jobs'| :: load.accepts(k)
    ensures ok ==>
              && Flatten(jobs') == Logs(load.next, n) && Payloads(jobs') == Chunks(Logs(load.next, n), load.batchSize)
              && |jobs'| == CeilDiv(n, load.batchSize) && forall j | j in jobs' :: j.kind == Batch
    ensures !ok ==>
              && jobs' == jobs && !load.accepts(|jobs|) && n % load.batchSize > 0
              && Flatten(jobs) == Logs(load.next, n - n % load.batchSize)
  {
    hide InStep, KindOf, Chunks, CeilDiv, Flatten;
    InStepMeans(load, jobs, buffer, n);
    FullBatchesAreChunks(jobs, buffer, load.batchSize);
    ChunksAreACut(Logs(load.next, n), load.batchSize);
    if |buffer| == 0 {
      return true, jobs, buffer;
    }
    var job := Job(Batch, buffer);
    FlattenNext(jobs, job);
    BufferIsTheRemainder(jobs, buffer, load.batchSize);
    ok, jobs' := SubmitJob(load, jobs, job);
    buffer' := [];
    if ok {
      assert Payloads(jobs') == Payloads(jobs) + [buffer];
    } else {
      assert Flatten(jobs) == Logs(load.next, n - |buffer|);
    }
  }

  lemma NothingDispatched(load: Load)
    requires load.batchSize >= 1
    ensures InStep(load, [], [], 0)
  {
  }

  lemma InStepMeans(load: Load, jobs: seq<Job>, buffer: seq<LogRequest>, n: nat)
    requires InStep(load, jobs, buffer, n)
    ensures Flatten(jobs) + buffer == Logs(load.next, n)
    ensures forall k: nat | k < |jobs| :: load.accepts(k)
    ensures load.mode.ModeBatch? ==> FullBatches(jobs, load.batchSize) && |buffer| < load.batchSize
    ensures load.mode.ModeUnknown? ==> n == 0
    ensures load.mode.ModeSingle? || load.mode.ModeMixed? ==>
              buffer == [] && |jobs| == n && forall i: nat | i < n :: jobs[i] == Job(KindOf(load, i), [load.next(i)])
  {
    assert Flatten(jobs) <= Flatten(jobs) + buffer;
  }

  lemma {:induction false} BufferIsTheRemainder(jobs: seq<Job>, buffer: seq<LogRequest>, size: nat)
    requires size >= 1 && FullBatches(jobs, size) && |buffer| < size
    ensures |Flatten(jobs) + buffer| % size == |buffer|
  {
    LengthOfFull(jobs, size);
    DivisionIsUnique(|Flatten(jobs) + buffer|, size, |jobs|, |buffer|);
  }

  lemma {:induction false} LengthOfFull(jobs: seq<Job>, size: nat)
    requires FullBatches(jobs, size)
    ensures |Flatten(jobs)| == |jobs| * size
  {
    if jobs != [] {
      var front := jobs[..|jobs| - 1];
      assert jobs[|jobs| - 1] in jobs && forall j | j in front :: j in jobs;
      LengthOfFull(front, size);
      assert |jobs| * size == |front| * size + size by { MulNext(|front|, size); }
    }
  }

  lemma MulNext(n: nat, size: nat)
    ensures (n + 1) * size == n * size + size
  {
  }

  /** `submitBatches`: the chunks of the logs in order, up to the first refused one. */
  method SubmitBatches(load: Load, logs: seq<LogRequest>) returns (jobs: seq<Job>)
    requires load.batchSize >= 1
    ensures |jobs| <= |Chunks(logs, load.batchSize)| && Payloads(jobs) == Chunks(logs, load.batchSize)[..|jobs|]
    ensures |jobs| < |Chunks(logs, load.batchSize)| ==> !load.accepts(|jobs|)
    ensures forall j | j in jobs :: j.kind == Batch
  {
    hide Chunks;
    jobs := [];
    var start := 0;
    ghost var chunks := Chunks(logs, load.batchSize);
    while start < |logs|
      invariant start <= |logs| && |jobs| <= |chunks|
      invariant Payloads(jobs) == chunks[..|jobs|] && chunks[|jobs|..] == Chunks(logs[start..], load.batchSize)
      invariant forall j | j in jobs :: j.kind == Batch
    {
      var end := if start + load.batchSize < |logs| then start + load.batchSize else |logs|;
      var batch := logs[start..end];
      NextChunk(logs, load.batchSize, start, end);
      var ok, jobs' := SubmitJob(load, jobs, Job(Batch, batch));
      if !ok {
        return;
      }
      jobs := jobs';
      start := end;
    }
    NoChunks(logs, load.batchSize);
  }

  lemma NextChunk(logs: seq<LogRequest>, size: nat, start: nat, end: nat)
    requires size >= 1 && start < |logs| && end == if start + size < |logs| then start + size else |logs|
    ensures Chunks(logs[start..], size) == [logs[start..end]] + Chunks(logs[end..], size)
  {
    if start + size < |logs| {
      assert logs[start..][..size] == logs[start..end] && logs[start..][size..] == logs[end..];
    } else {
      assert logs[start..] == logs[start..end] && logs[end..] == [];
    }
  }

  lemma NoChunks(logs: seq<LogRequest>, size: nat)
    requires size >= 1
    ensures Chunks(logs[|logs|..], size) == []
  {
  }

  /** One HTTP attempt: its result, and whether the context has ended after it, or ends during the backoff. */
  datatype Attempt = Attempt(ok: bool, cancelledAfter: bool, cancelledWaiting: bool)

  /** `sendWithRetry`: how many requests were sent, and whether the last one succeeded. It stops at the first
      success, and gives up early only when there is no backoff or the context ended. */
  method SendWithRetry(retryCount: nat, backoff: nat, attempts: nat -> Attempt) returns (sent: nat, ok: bool)
    ensures 1 <= sent <= retryCount + 1
    ensures ok == attempts(sent - 1).ok && forall i: nat | i < sent - 1 :: !attempts(i).ok
    ensures !ok && sent <= retryCount ==>
              backoff == 0 || attempts(sent - 1).cancelledAfter || attempts(sent - 1).cancelledWaiting
    ensures sent > 1 ==> backoff != 0
    ensures forall i: nat | i < sent - 1 :: !attempts(i).cancelledAfter && !attempts(i).cancelledWaiting
  {
    ok := false;
    sent := 0;
    while sent <= retryCount
      invariant sent <= retryCount && !ok
      invariant sent > 0 ==> backoff != 0
      invariant forall i: nat | i < sent :: !attempts(i).ok
      invariant forall i: nat | i < sent :: !attempts(i).cancelledAfter && !attempts(i).cancelledWaiting
      decreases retryCount - sent
    {
      var attempt := sent;
      var result := attempts(attempt);
      sent := sent + 1;
      assert attempts(sent - 1) == result;
      if result.ok {
        return sent, true;
      }
      if attempt == retryCount || result.cancelledAfter || backoff == 0 {
        return sent, false;
      }
      if result.cancelledWaiting {
        return sent, false;
      }
    }
  }
}
