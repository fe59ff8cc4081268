/**
 The data path of internal/runner/runner.go end to end: any number of workers put, multipart-put,
 copy, delete and get objects of one bucket, in any interleaving and with any failures. When does
 every stored object match the hash in its metadata?
 */
module Integrity {
  import opened Basics
  import opened Streams
  import opened Readers
  import opened Store
  import opened Strings
  import Generator
  import Metadata
  import KeyGen
  import Cleanup
  import P = MultipartProtocol
  import R = Reassembly
  import Schedules
  import I = Interleavings
  import Multipart

  datatype Config = Config(
    library: Generator.Library,
    generator: Generator.Generator,
    keygen: KeyGen.KeyGenerator,
    tag: string,
    partSize: nat,
    maxParts: nat,
    maxRetries: int,
    workers: nat)

  /** What a worker is in the middle of: the key, size and hash of its object, the reader it retries from, and the attempts left. */
  datatype Job =
    | Idle
    | Putting(key: string, size: nat, hash: string, body: Cursor, left: int)
    | MultipartPutting(key: string, size: nat, hash: string, body: Cursor, left: int)

  datatype World = World(objects: Objects, jobs: seq<Job>)

  /** Sequence numbers n stand for the keys they expand to. */
  datatype Action =
    | StartPut(w: nat, n: nat, size: nat, multipart: bool, chunks: seq<nat>) // GenerateAndHash reads in chunks
    | PutAttempt(w: nat, probes: seq<Op>, chunks: seq<nat>, applied: bool)   // one PutObject, applied or not
    | MultipartAttempt(w: nat, acts: seq<P.Action>, end: P.State, applied: bool)
    | GiveUp(w: nat)                                                         // success reported, or retries used up
    | Copy(w: nat, source: nat, target: nat, sameBucket: bool)
    | Delete(w: nat, n: nat)
    | Get(w: nat, n: nat)

  function KindOf(cfg: Config): Kind
  {
    Generator.KindOf(cfg.generator)
  }

  function StreamOf(cfg: Config, key: string): Stream
  {
    Generator.StreamOf(cfg.library, cfg.generator, key)
  }

  function Contents(cfg: Config, key: string, size: nat): seq<byte>
  {
    Generator.Contents(cfg.library, cfg.generator, key, size)
  }

  /** The bytes a client gets from a reader at c by reading in the given chunks. */
  function Received(cfg: Config, key: string, size: nat, c: Cursor, chunks: seq<nat>): seq<byte>
    requires ValidSize(size) && c.position <= size
  {
    Delivered(Run(KindOf(cfg), StreamOf(cfg, key), size, c, Reads(chunks)).1)
  }

  /** The reader of a put attempt: rewound, then probed by the client. */
  function Prepare(cfg: Config, job: Job, probes: seq<Op>): (c: Cursor)
    requires job.Putting? && ValidSize(job.size) && job.body.position <= job.size
    ensures c.position <= job.size
  {
    Run(KindOf(cfg), StreamOf(cfg, job.key), job.size, job.body, [Seek(0, SeekStart)] + probes).0
  }

  function UploadConfig(cfg: Config, job: Job): P.Config
    requires job.MultipartPutting?
  {
    P.Config(KindOf(cfg), StreamOf(cfg, job.key), job.size, cfg.partSize, cfg.maxParts)
  }

  ghost predicate JobOk(cfg: Config, job: Job)
  {
    !job.Idle? ==>
      && ValidSize(job.size) && ValidCursor(KindOf(cfg), job.size, job.body)
      && HasPrefix(job.key, cfg.keygen.prefix)
      && job.hash == cfg.library.sha256Hex(Contents(cfg, job.key, job.size))
      && job.left <= cfg.maxRetries && (job.left == cfg.maxRetries ==> job.body == Cursor(0, 0))
  }

  /** Written by a put or copied from there: metadata prepared from some hash. */
  ghost predicate Prepared(cfg: Config, o: Object)
  {
    exists hash :: o.metadata == Metadata.Prepared(hash, cfg.tag)
  }

  /** The hash is that of the bytes. */
  ghost predicate Matches(cfg: Config, o: Object)
  {
    o.metadata == Metadata.Prepared(cfg.library.sha256Hex(o.content), cfg.tag)
  }

  ghost predicate Inv(cfg: Config, world: World)
  {
    && cfg.partSize > 0
    && |world.jobs| == cfg.workers
    && (forall w :: 0 <= w < cfg.workers ==> JobOk(cfg, world.jobs[w]))
    && forall k :: k in world.objects ==> HasPrefix(k, cfg.keygen.prefix) && Prepared(cfg, world.objects[k])
  }

  ghost predicate Sound(cfg: Config, world: World)
  {
    forall k :: k in world.objects ==> Matches(cfg, world.objects[k])
  }

  /** The parts were read one at a time, in an order that keeps the reader aligned. */
  ghost predicate Aligned(cfg: Config, job: Job, acts: seq<P.Action>, end: P.State)
    requires job.MultipartPutting? && UploadConfig(cfg, job).Valid() && job.body.position <= job.size
  {
    && R.AtomicReads(UploadConfig(cfg, job), P.Init(UploadConfig(cfg, job), job.body), acts)
    && (KindOf(cfg) == Fixed || R.NeverSkipsAhead(UploadConfig(cfg, job), job.body, end.order))
  }

  /** The upload returned no error. */
  predicate Succeeded(end: P.State)
  {
    end.phase.Returned? && end.phase.outcome.Completed? && end.phase.outcome.accepted
  }

  ghost predicate Enabled(cfg: Config, world: World, a: Action)
    requires Inv(cfg, world)
  {
    a.w < cfg.workers &&
    var job := world.jobs[a.w];
    match a
    case StartPut(_, _, size, _, chunks) => job.Idle? && ValidSize(size) && Sum(chunks) >= size
    case PutAttempt(_, probes, chunks, applied) =>
      job.Putting? && job.left > 0 &&
      // the service stores a body only if it has the announced length
      (applied ==> |Received(cfg, job.key, job.size, Prepare(cfg, job, probes), chunks)| == job.size)
    case MultipartAttempt(_, acts, end, applied) =>
      job.MultipartPutting? && job.left > 0 &&
      P.Leads(UploadConfig(cfg, job), P.Init(UploadConfig(cfg, job), job.body), acts, end) && end.phase.Returned? &&
      (applied ==> end.phase.outcome.Completed?) && (Succeeded(end) ==> applied)
    case GiveUp(_) => !job.Idle?
    case Copy(_, _, _, _) => job.Idle?
    case Delete(_, _) => job.Idle?
    case Get(_, _) => job.Idle?
  }

  ghost function Next(cfg: Config, world: World, a: Action): World
    requires Inv(cfg, world) && Enabled(cfg, world, a)
  {
    var job := world.jobs[a.w];
    match a
    case StartPut(w, n, size, multipart, chunks) =>
      var key := cfg.keygen.Key(n);
      var hash := cfg.library.sha256Hex(Received(cfg, key, size, Cursor(0, 0), chunks));
      var body := Run(KindOf(cfg), StreamOf(cfg, key), size, Cursor(0, 0), Reads(chunks) + [Seek(0, SeekStart)]).0;
      world.(jobs := world.jobs[w := 
        if multipart then MultipartPutting(key, size, hash, body, cfg.maxRetries)
        else Putting(key, size, hash, body, cfg.maxRetries)])
    case PutAttempt(w, probes, chunks, applied) =>
      var c := Prepare(cfg, job, probes);
      var data := Received(cfg, job.key, job.size, c, chunks);
      var body := Run(KindOf(cfg), StreamOf(cfg, job.key), job.size, c, Reads(chunks)).0;
      World(if applied then world.objects[job.key := Object(data, Metadata.Prepared(job.hash, cfg.tag))] else world.objects,
            world.jobs[w := Putting(job.key, job.size, job.hash, body, job.left - 1)])
    case MultipartAttempt(w, acts, end, applied) =>
      World(if applied then world.objects[job.key := Object(Flatten(end.sent), Metadata.Prepared(job.hash, cfg.tag))] else world.objects,
            world.jobs[w :=
              if Succeeded(end) then Idle else MultipartPutting(job.key, job.size, job.hash, end.body, job.left - 1)])
    case GiveUp(w) => world.(jobs := world.jobs[w := Idle])
    case Copy(_, source, target, sameBucket) =>
      var from := cfg.keygen.Key(source);
      if sameBucket && from in world.objects
      then world.(objects := world.objects[cfg.keygen.Key(target) := world.objects[from]])
      else world
    case Delete(_, n) => world.(objects := world.objects - {cfg.keygen.Key(n)})
    case Get(_, _) => world
  }

  function Empty(cfg: Config): World
  {
    World(map[], seq(cfg.workers, _ => Idle))
  }

  // ---------------------------------------------------------------------------------------------
  // Each way of writing an object

  lemma StartOk(cfg: Config, key: string, size: nat, chunks: seq<nat>)
    requires ValidSize(size) && Sum(chunks) >= size
    ensures Received(cfg, key, size, Cursor(0, 0), chunks) == Contents(cfg, key, size)
    ensures Run(KindOf(cfg), StreamOf(cfg, key), size, Cursor(0, 0), Reads(chunks) + [Seek(0, SeekStart)]).0 == Cursor(0, 0)
  {
    DrainDelivers(KindOf(cfg), StreamOf(cfg, key), size, 0, chunks);
    RewindRealigns(KindOf(cfg), StreamOf(cfg, key), size, Reads(chunks));
  }

  /** No client gets more bytes than lie between the position and the end. */
  lemma {:induction false} ReceivedLength(kind: Kind, f: Stream, size: nat, c: Cursor, chunks: seq<nat>)
    requires ValidSize(size) && c.position <= size
    ensures |Delivered(Run(kind, f, size, c, Reads(chunks)).1)| <= size - c.position
    decreases |chunks|
  {
    if chunks != [] {
      var (c1, e) := ReadStep(f, size, c, chunks[0]);
      assert Reads(chunks)[0] == Read(chunks[0]) && Reads(chunks)[1..] == Reads(chunks[1..]);
      var es := Run(kind, f, size, c1, Reads(chunks[1..])).1;
      assert Run(kind, f, size, c, Reads(chunks)).1 == [e] + es;
      ReceivedLength(kind, f, size, c1, chunks[1..]);
      DeliveredCons(e, es);
    }
  }

  /**
   A put attempt that delivers as many bytes as announced delivers the object, whatever earlier
   attempts consumed and however the client probed: nothing shorter than the whole object fits.
   */
  lemma FullBodyIsContents(cfg: Config, key: string, size: nat, c: Cursor, chunks: seq<nat>)
    requires ValidSize(size) && ValidCursor(KindOf(cfg), size, c)
    requires |Received(cfg, key, size, c, chunks)| == size
    ensures Received(cfg, key, size, c, chunks) == Contents(cfg, key, size)
  {
    ReceivedLength(KindOf(cfg), StreamOf(cfg, key), size, c, chunks);
    if size > 0 {
      assert c == Cursor(0, 0);
      DrainDelivers(KindOf(cfg), StreamOf(cfg, key), size, 0, chunks);
    }
  }

  lemma PutAttemptOk(cfg: Config, job: Job, probes: seq<Op>, chunks: seq<nat>)
    requires job.Putting? && JobOk(cfg, job)
    ensures var c := Prepare(cfg, job, probes);
            && ValidCursor(KindOf(cfg), job.size, c)
            && ValidCursor(KindOf(cfg), job.size, Run(KindOf(cfg), StreamOf(cfg, job.key), job.size, c, Reads(chunks)).0)
            && (|Received(cfg, job.key, job.size, c, chunks)| == job.size ==>
                  Received(cfg, job.key, job.size, c, chunks) == Contents(cfg, job.key, job.size))
  {
    var c := Prepare(cfg, job, probes);
    LagIsConserved(KindOf(cfg), StreamOf(cfg, job.key), job.size, job.body, [Seek(0, SeekStart)] + probes);
    LagIsConserved(KindOf(cfg), StreamOf(cfg, job.key), job.size, c, Reads(chunks));
    if |Received(cfg, job.key, job.size, c, chunks)| == job.size {
      FullBodyIsContents(cfg, job.key, job.size, c, chunks);
    }
  }

  /**
   A put does get through: if the client's probes leave the reader at the start and it then reads to
   the end, the attempt may be applied and stores exactly the object with its hash.
   */
  lemma PutStoresContents(cfg: Config, world: World, w: nat, probes: seq<Op>, chunks: seq<nat>)
    requires Inv(cfg, world) && w < cfg.workers && world.jobs[w].Putting? && world.jobs[w].left > 0
    requires Prepare(cfg, world.jobs[w], probes).position == 0 && Sum(chunks) >= world.jobs[w].size
    ensures Enabled(cfg, world, PutAttempt(w, probes, chunks, true))
    ensures var job, world' := world.jobs[w], Next(cfg, world, PutAttempt(w, probes, chunks, true));
            world'.objects == world.objects[job.key :=
              Object(Contents(cfg, job.key, job.size),
                     Metadata.Prepared(cfg.library.sha256Hex(Contents(cfg, job.key, job.size)), cfg.tag))]
  {
    var job := world.jobs[w];
    assert JobOk(cfg, job);
    FullAttempt(cfg, job, probes, chunks);
  }

  /** However earlier attempts left the reader, a retried put that is not probed and read to the end succeeds. */
  lemma RetriedPutStoresContents(cfg: Config, world: World, w: nat)
    requires Inv(cfg, world) && w < cfg.workers && world.jobs[w].Putting? && world.jobs[w].left > 0
    ensures var job, a := world.jobs[w], PutAttempt(w, [], [world.jobs[w].size], true);
            Enabled(cfg, world, a) && Next(cfg, world, a).objects == world.objects[job.key :=
              Object(Contents(cfg, job.key, job.size),
                     Metadata.Prepared(cfg.library.sha256Hex(Contents(cfg, job.key, job.size)), cfg.tag))]
  {
    var job := world.jobs[w];
    assert JobOk(cfg, job);
    assert Sum([job.size]) == job.size;
    PrepareRewinds(cfg, job);
    PutStoresContents(cfg, world, w, [], [job.size]);
  }

  lemma PrepareRewinds(cfg: Config, job: Job)
    requires job.Putting? && JobOk(cfg, job)
    ensures Prepare(cfg, job, []) == Cursor(0, 0)
  {
    assert [Seek(0, SeekStart)] + [] == [Seek(0, SeekStart)];
    assert Run(KindOf(cfg), StreamOf(cfg, job.key), job.size, job.body, [Seek(0, SeekStart)]).0 == Cursor(0, 0);
  }

  lemma FullAttempt(cfg: Config, job: Job, probes: seq<Op>, chunks: seq<nat>)
    requires job.Putting? && JobOk(cfg, job)
    requires Prepare(cfg, job, probes).position == 0 && Sum(chunks) >= job.size
    ensures Received(cfg, job.key, job.size, Prepare(cfg, job, probes), chunks) == Contents(cfg, job.key, job.size)
  {
    PutAttemptOk(cfg, job, probes, chunks);
    assert Prepare(cfg, job, probes) == Cursor(0, 0);
    DrainDelivers(KindOf(cfg), StreamOf(cfg, job.key), job.size, 0, chunks);
  }

  /** A completed multipart attempt that was aligned, or could not have gone wrong, holds the object. */
  lemma MultipartAttemptOk(cfg: Config, job: Job, acts: seq<P.Action>, end: P.State)
    requires job.MultipartPutting? && JobOk(cfg, job) && cfg.partSize > 0
    requires R.Done(UploadConfig(cfg, job), job.body, acts, end)
    requires Aligned(cfg, job, acts, end) || I.Intact(UploadConfig(cfg, job), job.body)
    ensures Flatten(end.sent) == Contents(cfg, job.key, job.size)
  {
    var u := UploadConfig(cfg, job);
    if !I.Intact(u, job.body) {
      R.CompletedObjectIsContents(u, job.body, acts, end);
    }
  }

  /** So does a multipart put, under any limit: the run that takes the parts in ascending order is one. */
  lemma MultipartCanStoreContents(cfg: Config, world: World, w: nat) returns (acts: seq<P.Action>, end: P.State)
    requires Inv(cfg, world) && w < cfg.workers && world.jobs[w].MultipartPutting? && world.jobs[w].left > 0
    requires cfg.maxParts >= 1
    ensures Enabled(cfg, world, MultipartAttempt(w, acts, end, true))
    ensures var job, world' := world.jobs[w], Next(cfg, world, MultipartAttempt(w, acts, end, true));
            world'.objects == world.objects[job.key :=
              Object(Contents(cfg, job.key, job.size),
                     Metadata.Prepared(cfg.library.sha256Hex(Contents(cfg, job.key, job.size)), cfg.tag))]
  {
    var job := world.jobs[w];
    assert JobOk(cfg, job);
    var u := UploadConfig(cfg, job);
    var order: seq<nat> := seq(u.N(), i => i);
    forall i | 0 <= i < u.N() ensures i in order {
      assert order[i] == i;
    }
    acts, end := Schedules.EveryOrderCanHappen(u, job.body, order);
    R.AscendingNeverSkipsAhead(u, job.body, order);
    MultipartAttemptOk(cfg, job, acts, end);
  }

  // ---------------------------------------------------------------------------------------------
  // Whole runs

  lemma JobsUpdate(cfg: Config, world: World, w: nat, job: Job)
    requires Inv(cfg, world) && w < cfg.workers && JobOk(cfg, job)
    ensures Inv(cfg, world.(jobs := world.jobs[w := job]))
  {
  }

  lemma ObjectsUpdate(cfg: Config, world: World, key: string, o: Object)
    requires Inv(cfg, world) && HasPrefix(key, cfg.keygen.prefix) && Prepared(cfg, o)
    ensures Inv(cfg, world.(objects := world.objects[key := o]))
    ensures Sound(cfg, world) && Matches(cfg, o) ==> Sound(cfg, world.(objects := world.objects[key := o]))
  {
  }

  /** Whatever happens, jobs keep their hash and a usable reader, and objects carry prepared metadata. */
  lemma StepInv(cfg: Config, world: World, a: Action)
    requires Inv(cfg, world) && Enabled(cfg, world, a)
    ensures Inv(cfg, Next(cfg, world, a))
  {
    var job, world' := world.jobs[a.w], Next(cfg, world, a);
    assert JobOk(cfg, job);
    match a {
      case StartPut(w, n, size, multipart, chunks) =>
        StartOk(cfg, cfg.keygen.Key(n), size, chunks);
        JobsUpdate(cfg, world, w, world'.jobs[w]);
      case PutAttempt(w, probes, chunks, applied) =>
        PutAttemptOk(cfg, job, probes, chunks);
        JobsUpdate(cfg, world, w, world'.jobs[w]);
        if applied {
          ObjectsUpdate(cfg, world.(jobs := world'.jobs), job.key, world'.objects[job.key]);
        }
      case MultipartAttempt(w, acts, end, applied) =>
        var u := UploadConfig(cfg, job);
        R.CursorStaysValid(u, P.Init(u, job.body), acts, end);
        JobsUpdate(cfg, world, w, world'.jobs[w]);
        if applied {
          ObjectsUpdate(cfg, world.(jobs := world'.jobs), job.key, world'.objects[job.key]);
        }
      case GiveUp(w) =>
        JobsUpdate(cfg, world, w, Idle);
      case Copy(_, source, target, sameBucket) =>
        if sameBucket && cfg.keygen.Key(source) in world.objects {
          ObjectsUpdate(cfg, world, cfg.keygen.Key(target), world.objects[cfg.keygen.Key(source)]);
        }
      case Delete(_, _) =>
      case Get(_, _) =>
    }
  }

  /** The only step that can store bytes other than the hashed ones is a multipart attempt out of step. */
  ghost predicate Careful(cfg: Config, world: World, a: Action)
    requires Inv(cfg, world) && Enabled(cfg, world, a)
  {
    a.MultipartAttempt? && a.applied ==>
      assert JobOk(cfg, world.jobs[a.w]);
      Aligned(cfg, world.jobs[a.w], a.acts, a.end) || I.Intact(UploadConfig(cfg, world.jobs[a.w]), world.jobs[a.w].body)
  }

  lemma StepSound(cfg: Config, world: World, a: Action)
    requires Inv(cfg, world) && Sound(cfg, world) && Enabled(cfg, world, a) && Careful(cfg, world, a)
    ensures Sound(cfg, Next(cfg, world, a))
  {
    var job := world.jobs[a.w];
    assert JobOk(cfg, job);
    if a.PutAttempt? && a.applied {
      PutAttemptOk(cfg, job, a.probes, a.chunks);
    } else if a.MultipartAttempt? && a.applied {
      MultipartAttemptOk(cfg, job, a.acts, a.end);
    }
  }

  ghost predicate Leads(cfg: Config, world: World, acts: seq<Action>, world': World)
    requires Inv(cfg, world)
    decreases |acts|
  {
    if acts == [] then world' == world
    else Enabled(cfg, world, acts[0]) && (StepInv(cfg, world, acts[0]); Leads(cfg, Next(cfg, world, acts[0]), acts[1..], world'))
  }

  lemma {:induction false} RunInv(cfg: Config, world: World, acts: seq<Action>, world': World)
    requires Inv(cfg, world) && Leads(cfg, world, acts, world')
    ensures Inv(cfg, world')
    decreases |acts|
  {
    if acts != [] {
      StepInv(cfg, world, acts[0]);
      RunInv(cfg, Next(cfg, world, acts[0]), acts[1..], world');
    }
  }

  ghost predicate CarefulRun(cfg: Config, world: World, acts: seq<Action>)
    requires Inv(cfg, world)
    decreases |acts|
  {
    acts == [] ||
    (Enabled(cfg, world, acts[0]) && Careful(cfg, world, acts[0]) &&
     (StepInv(cfg, world, acts[0]); CarefulRun(cfg, Next(cfg, world, acts[0]), acts[1..])))
  }

  lemma {:induction false} RunSound(cfg: Config, world: World, acts: seq<Action>, world': World)
    requires Inv(cfg, world) && Sound(cfg, world) && Leads(cfg, world, acts, world') && CarefulRun(cfg, world, acts)
    ensures Sound(cfg, world')
    decreases |acts|
  {
    if acts != [] {
      StepInv(cfg, world, acts[0]);
      StepSound(cfg, world, acts[0]);
      RunSound(cfg, Next(cfg, world, acts[0]), acts[1..], world');
    }
  }

  /** What GET with verification answers for a stored object. */
  function VerifiedGet(cfg: Config, o: Object): Metadata.Verification
  {
    Metadata.VerifyHash(cfg.library.sha256Hex(o.content), o.metadata)
  }

  /**
   Started on an empty bucket, no interleaving of any number of workers makes a verified GET fail if
   the namespace tag does not define the key "sha256" and every multipart attempt that was applied
   either was aligned or could not have gone wrong from where the reader stood.
   */
  lemma EveryGetVerifies(cfg: Config, acts: seq<Action>, world: World, key: string)
    requires cfg.partSize > 0 && Leads(cfg, Empty(cfg), acts, world) && CarefulRun(cfg, Empty(cfg), acts)
    requires key in world.objects && Metadata.KEY_SHA256 !in Metadata.TagEntries(cfg.tag)
    ensures VerifiedGet(cfg, world.objects[key]) == Metadata.Verified
  {
    RunSound(cfg, Empty(cfg), acts, world);
    assert Matches(cfg, world.objects[key]);
  }

  // ---------------------------------------------------------------------------------------------
  // Which configurations guarantee that every run verifies

  /**
   A multipart put of this key and size cannot go wrong: nothing with parts completes, there is at most
   one part, all bytes are the same, or parts are uploaded one at a time and the body is a fixed
   pattern or repeats with the part size and is not retried.
   */
  ghost predicate SafePut(cfg: Config, key: string, size: nat)
    requires cfg.partSize > 0
  {
    var f := StreamOf(cfg, key);
    || cfg.maxRetries <= 0 || cfg.maxParts == 0 || Multipart.NumParts(size, cfg.partSize) <= 1 || I.Constant(f, size)
    || (cfg.maxParts == 1 &&
        (KindOf(cfg) == Fixed || (cfg.maxRetries == 1 && I.Periodic(f, cfg.partSize, size))))
  }

  lemma SafeAttempt(cfg: Config, job: Job)
    requires job.MultipartPutting? && JobOk(cfg, job) && job.left > 0 && cfg.partSize > 0
    requires SafePut(cfg, job.key, job.size)
    ensures I.Intact(UploadConfig(cfg, job), job.body)
  {
    var u := UploadConfig(cfg, job);
    if I.Safe(u) {
      I.IntactFromAnywhereIff(u);
    } else {
      I.FirstAttemptIntactIff(u);
    }
  }

  /** Which sequence numbers and sizes the multipart puts of a run may have. */
  type Puts = (nat, nat) -> bool

  ghost predicate Within(puts: Puts, acts: seq<Action>)
  {
    forall k :: 0 <= k < |acts| && acts[k].StartPut? && acts[k].multipart ==> puts(acts[k].n, acts[k].size)
  }

  ghost predicate JobWithin(cfg: Config, puts: Puts, job: Job)
  {
    job.MultipartPutting? ==> exists n: nat :: puts(n, job.size) && job.key == cfg.keygen.Key(n)
  }

  ghost predicate JobsWithin(cfg: Config, puts: Puts, world: World)
  {
    forall w :: 0 <= w < |world.jobs| ==> JobWithin(cfg, puts, world.jobs[w])
  }

  ghost predicate SafePuts(cfg: Config, puts: Puts)
    requires cfg.partSize > 0
  {
    forall n: nat, size: nat :: ValidSize(size) && puts(n, size) ==> SafePut(cfg, cfg.keygen.Key(n), size)
  }

  lemma StepCareful(cfg: Config, puts: Puts, world: World, a: Action)
    requires Inv(cfg, world) && JobsWithin(cfg, puts, world) && SafePuts(cfg, puts) && Enabled(cfg, world, a)
    ensures Careful(cfg, world, a)
  {
    var job := world.jobs[a.w];
    assert JobOk(cfg, job) && JobWithin(cfg, puts, job);
    if a.MultipartAttempt? {
      SafeAttempt(cfg, job);
    }
  }

  lemma {:induction false} SafeRunIsCareful(cfg: Config, puts: Puts, world: World, acts: seq<Action>, world': World)
    requires Inv(cfg, world) && JobsWithin(cfg, puts, world) && Leads(cfg, world, acts, world')
    requires Within(puts, acts) && SafePuts(cfg, puts)
    ensures CarefulRun(cfg, world, acts)
    decreases |acts|
  {
    if acts != [] {
      StepCareful(cfg, puts, world, acts[0]);
      StepInv(cfg, world, acts[0]);
      assert forall k :: 0 <= k < |acts| - 1 ==> acts[1..][k] == acts[k + 1];
      SafeRunIsCareful(cfg, puts, Next(cfg, world, acts[0]), acts[1..], world');
    }
  }

  // ---------------------------------------------------------------------------------------------
  // And which do not

  /** One worker generates an object for a multipart upload. */
  lemma FirstStart(cfg: Config, n: nat, size: nat) returns (world: World)
    requires cfg.partSize > 0 && cfg.workers > 0 && ValidSize(size)
    ensures var start := StartPut(0, n, size, true, [size]);
            Enabled(cfg, Empty(cfg), start) && world == Next(cfg, Empty(cfg), start) && Inv(cfg, world)
    ensures |world.jobs| == cfg.workers && world.jobs[0] == FreshJob(cfg, cfg.keygen.Key(n), size)
  {
    var start := StartPut(0, n, size, true, [size]);
    assert Sum([size]) == size;
    StartOk(cfg, cfg.keygen.Key(n), size, [size]);
    StepInv(cfg, Empty(cfg), start);
    world := Next(cfg, Empty(cfg), start);
  }

  function FreshJob(cfg: Config, key: string, size: nat): Job
  {
    MultipartPutting(key, size, cfg.library.sha256Hex(Contents(cfg, key, size)), Cursor(0, 0), cfg.maxRetries)
  }

  /** An attempt that returned an error leaves the object alone and the reader where it was. */
  lemma AttemptAborts(cfg: Config, world: World, steps: seq<P.Action>, end: P.State) returns (world': World)
    requires Inv(cfg, world) && cfg.workers > 0 && world.jobs[0].MultipartPutting? && world.jobs[0].left > 0
    requires var u := UploadConfig(cfg, world.jobs[0]);
             P.Leads(u, P.Init(u, world.jobs[0].body), steps, end) && end.phase.Returned? && end.phase.outcome.Aborted?
    ensures var attempt := MultipartAttempt(0, steps, end, false);
            Enabled(cfg, world, attempt) && world' == Next(cfg, world, attempt) && Inv(cfg, world')
    ensures |world'.jobs| == cfg.workers && world'.jobs[0] == world.jobs[0].(body := end.body, left := world.jobs[0].left - 1)
  {
    var attempt := MultipartAttempt(0, steps, end, false);
    StepInv(cfg, world, attempt);
    world' := Next(cfg, world, attempt);
  }

  /** An upload that completes with bytes other than the generated ones stores them with the hash of those. */
  lemma AttemptSpoils(cfg: Config, world: World, steps: seq<P.Action>, end: P.State) returns (world': World)
    requires Inv(cfg, world) && cfg.workers > 0 && world.jobs[0].MultipartPutting? && world.jobs[0].left > 0
    requires var job := world.jobs[0];
             R.Done(UploadConfig(cfg, job), job.body, steps, end) && Flatten(end.sent) != Contents(cfg, job.key, job.size)
    ensures var attempt := MultipartAttempt(0, steps, end, true);
            Enabled(cfg, world, attempt) && world' == Next(cfg, world, attempt) && Inv(cfg, world')
    ensures Spoiled(cfg, world', world.jobs[0].key, world.jobs[0].size)
  {
    var attempt := MultipartAttempt(0, steps, end, true);
    StepInv(cfg, world, attempt);
    world' := Next(cfg, world, attempt);
  }

  /** The bucket holds under key other bytes than the generated ones, with the hash of the generated ones. */
  ghost predicate Spoiled(cfg: Config, world: World, key: string, size: nat)
  {
    && key in world.objects
    && world.objects[key].content != Contents(cfg, key, size)
    && world.objects[key].metadata == Metadata.Prepared(cfg.library.sha256Hex(Contents(cfg, key, size)), cfg.tag)
  }

  lemma LeadsCons(cfg: Config, world: World, a: Action, world1: World, acts: seq<Action>, world2: World)
    requires Inv(cfg, world) && Enabled(cfg, world, a) && world1 == Next(cfg, world, a)
    requires Inv(cfg, world1) && Leads(cfg, world1, acts, world2)
    ensures Leads(cfg, world, [a] + acts, world2)
  {
    assert ([a] + acts)[1..] == acts;
  }

  lemma LeadsOne(cfg: Config, world: World, a: Action, world1: World)
    requires Inv(cfg, world) && Enabled(cfg, world, a) && world1 == Next(cfg, world, a) && Inv(cfg, world1)
    ensures Leads(cfg, world, [a], world1)
  {
    assert Leads(cfg, world1, [], world1);
    LeadsCons(cfg, world, a, world1, [], world1);
    assert [a] + [] == [a];
  }

  /** The attempts a fresh job of an unsafe put can make, the last of which spoils the object. */
  lemma SpoilingAttempts(cfg: Config, world: World, key: string, size: nat) returns (acts: seq<Action>, world': World)
    requires Inv(cfg, world) && cfg.workers > 0 && ValidSize(size) && world.jobs[0] == FreshJob(cfg, key, size)
    requires !SafePut(cfg, key, size)
    ensures Leads(cfg, world, acts, world') && Spoiled(cfg, world', key, size)
    ensures forall k :: 0 <= k < |acts| ==> acts[k].MultipartAttempt?
  {
    var u := UploadConfig(cfg, world.jobs[0]);
    if I.Intact(u, Cursor(0, 0)) {
      OnlyRetrySpoils(cfg, key, size);
      var failed, aborted, steps, end := I.RetryCanSpoil(u);
      var world1 := AttemptAborts(cfg, world, failed, aborted);
      world' := AttemptSpoils(cfg, world1, steps, end);
      LeadsOne(cfg, world1, MultipartAttempt(0, steps, end, true), world');
      acts := [MultipartAttempt(0, failed, aborted, false)] + [MultipartAttempt(0, steps, end, true)];
      LeadsCons(cfg, world, acts[0], world1, [MultipartAttempt(0, steps, end, true)], world');
    } else {
      var steps, end :| R.Done(u, Cursor(0, 0), steps, end) && Flatten(end.sent) != Slice(u.stream, 0, u.size);
      world' := AttemptSpoils(cfg, world, steps, end);
      acts := [MultipartAttempt(0, steps, end, true)];
      LeadsOne(cfg, world, acts[0], world');
    }
  }

  /** If a first attempt cannot spoil an unsafe put, a retry of a random body, one part at a time, can. */
  lemma OnlyRetrySpoils(cfg: Config, key: string, size: nat)
    requires cfg.partSize > 0 && ValidSize(size) && !SafePut(cfg, key, size)
    requires I.Intact(UploadConfig(cfg, FreshJob(cfg, key, size)), Cursor(0, 0))
    ensures KindOf(cfg) == Random && cfg.maxParts == 1 && cfg.maxRetries >= 2
    ensures Multipart.NumParts(size, cfg.partSize) >= 2 && !I.Constant(StreamOf(cfg, key), size)
  {
    var u := UploadConfig(cfg, FreshJob(cfg, key, size));
    I.IntactIff(u, Cursor(0, 0));
    if KindOf(cfg) == Random {
      I.FirstAttemptIntactIff(u);
    }
  }

  /**
   One multipart put that is not safe is enough for a run, with the configured library, that ends with
   wrong bytes in the bucket; a verified GET of them fails unless the hashes happen to collide.
   */
  lemma UnsafePutFails(cfg: Config, n: nat, size: nat) returns (acts: seq<Action>, world: World)
    requires cfg.partSize > 0 && cfg.workers > 0 && ValidSize(size) && !SafePut(cfg, cfg.keygen.Key(n), size)
    ensures Leads(cfg, Empty(cfg), acts, world) && Spoiled(cfg, world, cfg.keygen.Key(n), size)
    ensures acts != [] && acts[0] == StartPut(0, n, size, true, [size])
    ensures forall k :: 1 <= k < |acts| ==> acts[k].MultipartAttempt?
    ensures var key := cfg.keygen.Key(n); var o := world.objects[key];
            && Metadata.KEY_SHA256 !in Metadata.TagEntries(cfg.tag)
            && cfg.library.sha256Hex(o.content) != cfg.library.sha256Hex(Contents(cfg, key, size))
            ==> VerifiedGet(cfg, o) == Metadata.Mismatch
  {
    var start := StartPut(0, n, size, true, [size]);
    var world1 := FirstStart(cfg, n, size);
    var more;
    more, world := SpoilingAttempts(cfg, world1, cfg.keygen.Key(n), size);
    acts := [start] + more;
    LeadsCons(cfg, Empty(cfg), start, world1, more, world);
  }

  /** The configuration with another hash function. */
  function WithHash(cfg: Config, hash: seq<byte> -> string): Config
  {
    cfg.(library := cfg.library.(sha256Hex := hash))
  }

  /** A hash that tells one sequence from all others. */
  function Telling(good: seq<byte>): seq<byte> -> string
  {
    (data: seq<byte>) => if data == good then "good" else "bad"
  }

  lemma UnsafePutsFail(cfg: Config, puts: Puts, n: nat, size: nat)
    returns (hash: seq<byte> -> string, acts: seq<Action>, world: World)
    requires cfg.partSize > 0 && cfg.workers > 0 && Metadata.KEY_SHA256 !in Metadata.TagEntries(cfg.tag)
    requires ValidSize(size) && puts(n, size) && !SafePut(cfg, cfg.keygen.Key(n), size)
    ensures Leads(WithHash(cfg, hash), Empty(cfg), acts, world) && Within(puts, acts)
    ensures var key := cfg.keygen.Key(n);
            key in world.objects && VerifiedGet(WithHash(cfg, hash), world.objects[key]) == Metadata.Mismatch
  {
    hash := Telling(Contents(cfg, cfg.keygen.Key(n), size));
    assert !SafePut(WithHash(cfg, hash), cfg.keygen.Key(n), size);
    acts, world := UnsafePutFails(WithHash(cfg, hash), n, size);
  }

  /** Whatever the hash function and however the workers interleave, every verified GET succeeds. */
  ghost predicate AlwaysVerifies(cfg: Config, puts: Puts)
    requires cfg.partSize > 0
  {
    forall hash: seq<byte> -> string, acts, world, key ::
      Leads(WithHash(cfg, hash), Empty(cfg), acts, world) && Within(puts, acts) && key in world.objects ==>
        VerifiedGet(WithHash(cfg, hash), world.objects[key]) == Metadata.Verified
  }

  /**
   Whole-run integrity. For the configured generator, key template, limits and retries: no run, started
   on an empty bucket, of any number of workers in any interleaving, can end with an object that fails
   verification, exactly when every multipart put that may occur is safe.
   */
  lemma AlwaysVerifiesIff(cfg: Config, puts: Puts)
    requires cfg.partSize > 0 && cfg.workers > 0 && Metadata.KEY_SHA256 !in Metadata.TagEntries(cfg.tag)
    ensures AlwaysVerifies(cfg, puts) <==> SafePuts(cfg, puts)
  {
    if SafePuts(cfg, puts) {
      forall hash: seq<byte> -> string, acts, world, key
        | Leads(WithHash(cfg, hash), Empty(cfg), acts, world) && Within(puts, acts) && key in world.objects
        ensures VerifiedGet(WithHash(cfg, hash), world.objects[key]) == Metadata.Verified
      {
        SafeRunIsCareful(WithHash(cfg, hash), puts, Empty(cfg), acts, world);
        EveryGetVerifies(WithHash(cfg, hash), acts, world, key);
      }
    } else {
      var n: nat, size: nat :| ValidSize(size) && puts(n, size) && !SafePut(cfg, cfg.keygen.Key(n), size);
      var hash, acts, world := UnsafePutsFail(cfg, puts, n, size);
    }
  }

  /** With a tag that defines "sha256" a GET verifies exactly when the tag happens to name the object's own hash. */
  lemma TagDecidesVerification(cfg: Config, acts: seq<Action>, world: World, key: string)
    requires cfg.partSize > 0 && Leads(cfg, Empty(cfg), acts, world) && key in world.objects
    requires Metadata.KEY_SHA256 in Metadata.TagEntries(cfg.tag)
    ensures VerifiedGet(cfg, world.objects[key]) == Metadata.Verified
       <==> cfg.library.sha256Hex(world.objects[key].content) == Metadata.TagEntries(cfg.tag)[Metadata.KEY_SHA256]
  {
    RunInv(cfg, Empty(cfg), acts, world);
    assert Prepared(cfg, world.objects[key]);
  }

  // ---------------------------------------------------------------------------------------------
  // Cleanup

  /** What cleanup looks for is what PrepareMetadata writes: the tag does not give created-by another value. */
  predicate MarkSurvives(tag: string)
  {
    var entries := Metadata.TagEntries(tag);
    Metadata.KEY_CREATED_BY in entries ==> entries[Metadata.KEY_CREATED_BY] == Metadata.VALUE_CREATED_BY
  }

  /** What runCleanup leaves, no listing failing. */
  function AfterCleanup(cfg: Config, world: World, svc: Cleanup.Service): Objects
  {
    var t := Cleanup.Target(cfg.keygen.prefix, Metadata.KEY_CREATED_BY, Metadata.VALUE_CREATED_BY);
    world.objects - Cleanup.RemovedAmong(t, svc, world.objects, Cleanup.UnderPrefix(world.objects, cfg.keygen.prefix))
  }

  /**
   Cleanup undoes a run exactly when it should: if no call fails, removing by prefix and mark, as
   runCleanup does, leaves the bucket empty if and only if it was empty or the mark survives the tag.
   */
  lemma CleanupEmptiesTheBucketIff(cfg: Config, acts: seq<Action>, world: World, svc: Cleanup.Service)
    requires cfg.partSize > 0 && Leads(cfg, Empty(cfg), acts, world)
    requires forall k :: k in world.objects ==> Cleanup.Reliable(svc, k)
    ensures AfterCleanup(cfg, world, svc) == map[] <==> world.objects == map[] || MarkSurvives(cfg.tag)
  {
    RunInv(cfg, Empty(cfg), acts, world);
    forall k | k in world.objects ensures k in AfterCleanup(cfg, world, svc) <==> !MarkSurvives(cfg.tag) {
      PreparedIsMarkedIff(cfg, world.objects[k]);
    }
  }

  lemma PreparedIsMarkedIff(cfg: Config, o: Object)
    requires Prepared(cfg, o)
    ensures Metadata.KEY_CREATED_BY in o.metadata
    ensures o.metadata[Metadata.KEY_CREATED_BY] == Metadata.VALUE_CREATED_BY <==> MarkSurvives(cfg.tag)
  {
    var hash :| o.metadata == Metadata.Prepared(hash, cfg.tag);
    Metadata.MarkSurvivesIff(hash, cfg.tag);
  }
}
