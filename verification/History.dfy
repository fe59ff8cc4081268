/**
 What a run leaves in the bucket, read off the list of its actions alone: the object under a key is
 the one last put, uploaded or copied there, unless it was deleted since.
 */
module History {
  import opened Basics
  import opened Streams
  import opened Readers
  import opened Store
  import opened Integrity
  import Metadata
  import P = MultipartProtocol

  /** What a worker is to put: the sequence number of the key, the size, and which way. */
  datatype Start = Start(n: nat, size: nat, multipart: bool)

  /** The put a worker started last. */
  function LastStart(acts: seq<Action>, w: nat): Option<Start>
  {
    if acts == [] then None else
    var a := acts[|acts| - 1];
    if a.StartPut? && a.w == w then Some(Start(a.n, a.size, a.multipart)) else LastStart(acts[..|acts| - 1], w)
  }

  /** The last step of the upload was a completion the service accepted. */
  predicate EndsAccepted(steps: seq<P.Action>)
  {
    steps != [] && steps[|steps| - 1] == P.Complete(true)
  }

  /** A worker has an unfinished put: started, not given up, and not uploaded with success. */
  function Unfinished(acts: seq<Action>, w: nat): bool
  {
    if acts == [] then false else
    var a := acts[|acts| - 1];
    if a.w == w && a.StartPut? then true
    else if a.w == w && (a.GiveUp? || (a.MultipartAttempt? && EndsAccepted(a.acts))) then false
    else Unfinished(acts[..|acts| - 1], w)
  }

  /** The attempts a worker has made at its last put. */
  function Attempts(acts: seq<Action>, w: nat): nat
  {
    if acts == [] then 0 else
    var a := acts[|acts| - 1];
    if a.w == w && a.StartPut? then 0
    else Attempts(acts[..|acts| - 1], w) + if a.w == w && (a.PutAttempt? || a.MultipartAttempt?) then 1 else 0
  }

  /** The metadata of what is put: hash and mark of the generated contents, and the tag. */
  function MetadataOf(cfg: Config, start: Start): map<string, string>
  {
    Metadata.Prepared(cfg.library.sha256Hex(Contents(cfg, cfg.keygen.Key(start.n), start.size)), cfg.tag)
  }

  /** The object under a key after the actions, None if there is none. */
  ghost function Stored(cfg: Config, acts: seq<Action>, key: string): Option<Object>
    decreases |acts|
  {
    if acts == [] then None else
    var before, a := acts[..|acts| - 1], acts[|acts| - 1];
    match a
    case PutAttempt(w, _, _, applied) =>
      var start := LastStart(before, w);
      if applied && start.Some? && cfg.keygen.Key(start.value.n) == key
      then Some(Object(Contents(cfg, key, start.value.size), MetadataOf(cfg, start.value)))
      else Stored(cfg, before, key)
    case MultipartAttempt(w, _, end, applied) =>
      var start := LastStart(before, w);
      if applied && start.Some? && cfg.keygen.Key(start.value.n) == key
      then Some(Object(Flatten(end.sent), MetadataOf(cfg, start.value)))
      else Stored(cfg, before, key)
    case Copy(_, source, target, sameBucket) =>
      var copied := Stored(cfg, before, cfg.keygen.Key(source));
      if sameBucket && copied.Some? && cfg.keygen.Key(target) == key then copied else Stored(cfg, before, key)
    case Delete(_, n) => if cfg.keygen.Key(n) == key then None else Stored(cfg, before, key)
    case _ => Stored(cfg, before, key)
  }

  function Lookup(objects: Objects, key: string): Option<Object>
  {
    if key in objects then Some(objects[key]) else None
  }

  ghost predicate JobFollows(cfg: Config, acts: seq<Action>, w: nat, job: Job)
  {
    && (job.Idle? <==> !Unfinished(acts, w))
    && Attempts(acts, w) <= Max(cfg.maxRetries, 0)
    && (!job.Idle? ==>
          var start := LastStart(acts, w);
          && start.Some? && job.key == cfg.keygen.Key(start.value.n) && job.size == start.value.size
          && (job.MultipartPutting? <==> start.value.multipart)
          && job.left == cfg.maxRetries - Attempts(acts, w))
  }

  ghost predicate Agrees(cfg: Config, acts: seq<Action>, world: World)
  {
    && (forall key :: Lookup(world.objects, key) == Stored(cfg, acts, key))
    && (forall w: nat :: w < |world.jobs| ==> JobFollows(cfg, acts, w, world.jobs[w]))
  }

  // ---------------------------------------------------------------------------------------------
  // Single steps

  /** What each action does to the bucket, and that it leaves the other workers alone. */
  lemma StepEffects(cfg: Config, world: World, a: Action)
    requires Inv(cfg, world) && Enabled(cfg, world, a)
    ensures var objects, objects' := world.objects, Next(cfg, world, a).objects;
            && (a.StartPut? || a.GiveUp? || a.Get? ==> objects' == objects)
            && (a.Delete? ==>
                  && cfg.keygen.Key(a.n) !in objects'
                  && forall k :: k != cfg.keygen.Key(a.n) ==> Lookup(objects', k) == Lookup(objects, k))
            && (a.Copy? && a.sameBucket && cfg.keygen.Key(a.source) in objects ==>
                  && Lookup(objects', cfg.keygen.Key(a.target)) == Some(objects[cfg.keygen.Key(a.source)])
                  && forall k :: k != cfg.keygen.Key(a.target) ==> Lookup(objects', k) == Lookup(objects, k))
            && (a.Copy? && !(a.sameBucket && cfg.keygen.Key(a.source) in objects) ==> objects' == objects)
    ensures forall w: nat :: w < cfg.workers && w != a.w ==> Next(cfg, world, a).jobs[w] == world.jobs[w]
    ensures a.Copy? || a.Delete? || a.Get? ==> Next(cfg, world, a).jobs == world.jobs
  {
  }

  /** What an applied put stores: the generated object of the worker's put. */
  lemma PutStores(cfg: Config, world: World, a: Action)
    requires Inv(cfg, world) && Enabled(cfg, world, a) && a.PutAttempt?
    ensures var job := world.jobs[a.w];
            Next(cfg, world, a).objects
            == if !a.applied then world.objects
               else world.objects[job.key := Object(Contents(cfg, job.key, job.size), Metadata.Prepared(
                                    cfg.library.sha256Hex(Contents(cfg, job.key, job.size)), cfg.tag))]
  {
    var job := world.jobs[a.w];
    assert JobOk(cfg, job);
    PutAttemptOk(cfg, job, a.probes, a.chunks);
  }

  lemma UploadStores(cfg: Config, world: World, a: Action)
    requires Inv(cfg, world) && Enabled(cfg, world, a) && a.MultipartAttempt?
    ensures var job := world.jobs[a.w];
            Next(cfg, world, a).objects
            == if !a.applied then world.objects
               else world.objects[job.key := Object(Flatten(a.end.sent), Metadata.Prepared(
                                    cfg.library.sha256Hex(Contents(cfg, job.key, job.size)), cfg.tag))]
  {
    assert JobOk(cfg, world.jobs[a.w]);
  }

  predicate SamePut(job: Job, job': Job)
  {
    !job.Idle? && !job'.Idle? && job'.key == job.key && job'.size == job.size && job'.hash == job.hash
  }

  lemma JobAfter(cfg: Config, world: World, a: Action)
    requires Inv(cfg, world) && Enabled(cfg, world, a)
    ensures var job, job' := world.jobs[a.w], Next(cfg, world, a).jobs[a.w];
            match a
            case StartPut(_, n, size, multipart, _) =>
              && !job'.Idle? && job'.key == cfg.keygen.Key(n) && job'.size == size && job'.left == cfg.maxRetries
              && (job'.MultipartPutting? <==> multipart)
            case PutAttempt(_, _, _, _) =>
              job.Putting? && job.left > 0 && job'.Putting? && SamePut(job, job') && job'.left == job.left - 1
            case MultipartAttempt(_, _, end, _) =>
              && job.MultipartPutting? && job.left > 0
              && if EndsAccepted(a.acts) then job' == Idle
                 else job'.MultipartPutting? && SamePut(job, job') && job'.left == job.left - 1
            case GiveUp(_) => job' == Idle
            case _ => job' == job
  {
    if a.MultipartAttempt? {
      SucceededIff(cfg, world, a);
    }
  }

  /** An upload returns no error exactly when its completion was accepted, and then the object has been stored. */
  lemma SucceededIff(cfg: Config, world: World, a: Action)
    requires Inv(cfg, world) && Enabled(cfg, world, a) && a.MultipartAttempt?
    ensures Succeeded(a.end) <==> EndsAccepted(a.acts)
    ensures EndsAccepted(a.acts) ==> a.applied
  {
    assert JobOk(cfg, world.jobs[a.w]);
    P.OutcomeIsRight(UploadConfig(cfg, world.jobs[a.w]), world.jobs[a.w].body, a.acts, a.end);
  }

  /** An idle worker may take up any operation, and a busy one may fail an attempt or give up. */
  lemma EverythingCanHappen(cfg: Config, world: World, w: nat, n: nat, size: nat, multipart: bool, other: nat, same: bool)
    requires Inv(cfg, world) && w < cfg.workers && ValidSize(size)
    ensures world.jobs[w].Idle? ==>
              && Enabled(cfg, world, StartPut(w, n, size, multipart, [size])) && Enabled(cfg, world, Get(w, n))
              && Enabled(cfg, world, Copy(w, n, other, same)) && Enabled(cfg, world, Delete(w, n))
    ensures !world.jobs[w].Idle? ==> Enabled(cfg, world, GiveUp(w))
    ensures world.jobs[w].Putting? && world.jobs[w].left > 0 ==> Enabled(cfg, world, PutAttempt(w, [], [], false))
  {
    assert Sum([size]) == size;
  }

  // ---------------------------------------------------------------------------------------------
  // Whole runs

  lemma SnocFront<T>(xs: seq<T>, x: T)
    ensures (xs + [x])[..|xs + [x]| - 1] == xs && (xs + [x])[|xs + [x]| - 1] == x
  {
  }

  lemma JobsAgree(cfg: Config, acts: seq<Action>, world: World, a: Action, w: nat)
    requires Inv(cfg, world) && Enabled(cfg, world, a) && w < cfg.workers && JobFollows(cfg, acts, w, world.jobs[w])
    ensures JobFollows(cfg, acts + [a], w, Next(cfg, world, a).jobs[w])
  {
    SnocFront(acts, a);
    if a.w == w {
      JobAfter(cfg, world, a);
    } else {
      StepEffects(cfg, world, a);
    }
  }

  lemma WriteAgrees(cfg: Config, acts: seq<Action>, world: World, a: Action, key: string)
    requires Inv(cfg, world) && Enabled(cfg, world, a) && (a.PutAttempt? || a.MultipartAttempt?)
    requires Lookup(world.objects, key) == Stored(cfg, acts, key) && JobFollows(cfg, acts, a.w, world.jobs[a.w])
    ensures Lookup(Next(cfg, world, a).objects, key) == Stored(cfg, acts + [a], key)
  {
    SnocFront(acts, a);
    if a.PutAttempt? {
      PutStores(cfg, world, a);
    } else {
      UploadStores(cfg, world, a);
    }
  }

  lemma OtherAgrees(cfg: Config, acts: seq<Action>, world: World, a: Action, key: string)
    requires Inv(cfg, world) && Enabled(cfg, world, a) && !a.PutAttempt? && !a.MultipartAttempt?
    requires Lookup(world.objects, key) == Stored(cfg, acts, key)
    requires a.Copy? ==>
               Lookup(world.objects, cfg.keygen.Key(a.source)) == Stored(cfg, acts, cfg.keygen.Key(a.source))
    ensures Lookup(Next(cfg, world, a).objects, key) == Stored(cfg, acts + [a], key)
  {
    SnocFront(acts, a);
    StepEffects(cfg, world, a);
  }

  lemma StepAgrees(cfg: Config, acts: seq<Action>, world: World, a: Action)
    requires Inv(cfg, world) && Enabled(cfg, world, a) && Agrees(cfg, acts, world)
    ensures Agrees(cfg, acts + [a], Next(cfg, world, a))
  {
    StepInv(cfg, world, a);
    forall key ensures Lookup(Next(cfg, world, a).objects, key) == Stored(cfg, acts + [a], key) {
      assert Lookup(world.objects, key) == Stored(cfg, acts, key);
      if a.PutAttempt? || a.MultipartAttempt? {
        assert JobFollows(cfg, acts, a.w, world.jobs[a.w]);
        WriteAgrees(cfg, acts, world, a, key);
      } else {
        OtherAgrees(cfg, acts, world, a, key);
      }
    }
    forall w: nat | w < cfg.workers ensures JobFollows(cfg, acts + [a], w, Next(cfg, world, a).jobs[w]) {
      JobsAgree(cfg, acts, world, a, w);
    }
  }

  lemma {:induction false} RunAgrees(cfg: Config, past: seq<Action>, world: World, acts: seq<Action>, world': World)
    requires Inv(cfg, world) && Agrees(cfg, past, world) && Leads(cfg, world, acts, world')
    ensures Agrees(cfg, past + acts, world')
    decreases |acts|
  {
    if acts == [] {
      assert past + acts == past;
    } else {
      StepInv(cfg, world, acts[0]);
      StepAgrees(cfg, past, world, acts[0]);
      RunAgrees(cfg, past + [acts[0]], Next(cfg, world, acts[0]), acts[1..], world');
      assert past + [acts[0]] + acts[1..] == past + acts;
    }
  }

  /**
   After every run from an empty bucket, whatever the interleaving: a key holds what was last put,
   uploaded or copied to it, with content and metadata moving together, and nothing if it was deleted
   since or never written. A worker never makes more attempts at a put than configured, and none once
   it has given up or an upload has succeeded.
   */
  lemma BucketIsHistory(cfg: Config, acts: seq<Action>, world: World)
    requires cfg.partSize > 0 && Leads(cfg, Empty(cfg), acts, world)
    ensures forall key :: Lookup(world.objects, key) == Stored(cfg, acts, key)
    ensures forall w: nat :: w < cfg.workers ==> Attempts(acts, w) <= Max(cfg.maxRetries, 0)
    ensures |world.jobs| == cfg.workers
    ensures forall w: nat :: w < cfg.workers ==> (world.jobs[w].Idle? <==> !Unfinished(acts, w))
  {
    assert Agrees(cfg, [], Empty(cfg));
    RunAgrees(cfg, [], Empty(cfg), acts, world);
    RunInv(cfg, Empty(cfg), acts, world);
    assert [] + acts == acts;
    forall w: nat | w < cfg.workers
      ensures Attempts(acts, w) <= Max(cfg.maxRetries, 0) && (world.jobs[w].Idle? <==> !Unfinished(acts, w))
    {
      assert JobFollows(cfg, acts, w, world.jobs[w]);
    }
  }

  predicate MayWrite(cfg: Config, a: Action, key: string)
  {
    a.PutAttempt? || a.MultipartAttempt? || (a.Copy? && cfg.keygen.Key(a.target) == key)
  }

  lemma StaysAway(cfg: Config, acts: seq<Action>, a: Action, key: string)
    requires Stored(cfg, acts, key) == None && !MayWrite(cfg, a, key)
    ensures Stored(cfg, acts + [a], key) == None
  {
    SnocFront(acts, a);
  }

  /** A deleted object stays away until its key is written again. */
  lemma {:induction false} DeletedStaysAway(cfg: Config, acts: seq<Action>, w: nat, n: nat, more: seq<Action>)
    requires forall k :: 0 <= k < |more| ==> !MayWrite(cfg, more[k], cfg.keygen.Key(n))
    ensures Stored(cfg, acts + [Delete(w, n)] + more, cfg.keygen.Key(n)) == None
    decreases |more|
  {
    hide Stored, MayWrite;
    var deleted := acts + [Delete(w, n)];
    if more == [] {
      AfterDelete(cfg, acts, w, n);
      assert deleted + more == deleted;
    } else {
      var front, a := more[..|more| - 1], more[|more| - 1];
      DeletedStaysAway(cfg, acts, w, n, front);
      StaysAway(cfg, deleted + front, a, cfg.keygen.Key(n));
      assert deleted + more == deleted + front + [a];
    }
  }

  lemma AfterDelete(cfg: Config, acts: seq<Action>, w: nat, n: nat)
    ensures Stored(cfg, acts + [Delete(w, n)], cfg.keygen.Key(n)) == None
  {
    SnocFront(acts, Delete(w, n));
  }
}
