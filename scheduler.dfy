/**
 * The module-level run queue of index.js:169-187 and 214-218: scripts that
 * may not run concurrently wait while one is running and start in order of
 * submission; `dequeue` runs after every finished script.
 */
module Scheduler {

  /** A `runCmd` call; `concurrent` is `opts.runConcurrently === true`. */
  datatype Job = Job(id: nat, concurrent: bool)

  /**
   * `running`, `queue`, the jobs started so far, in order, and those of them
   * whose child process has not finished yet.
   */
  datatype QueueState = QueueState(running: bool, queue: seq<Job>, started: seq<Job>, active: seq<Job>)

  /** `runCmd` (index.js:179-187): a serial job waits while another one runs. */
  function SubmitStep(s: QueueState, job: Job): QueueState {
    if !job.concurrent && s.running then s.(queue := s.queue + [job])
    else QueueState(s.running || !job.concurrent, s.queue, s.started + [job], s.active + [job])
  }

  /** `dequeue` (index.js:171-177): clear `running` and start the first waiting job. */
  function DequeueStep(s: QueueState): QueueState {
    if s.queue == [] then s.(running := false)
    else SubmitStep(s.(running := false, queue := s.queue[1..]), s.queue[0])
  }

  /** The jobs of `js` other than `id`, in order. */
  function Without(js: seq<Job>, id: nat): (r: seq<Job>)
    ensures forall j :: j in r <==> j in js && j.id != id
    decreases |js|
  {
    if js == [] then []
    else Without(js[..|js| - 1], id) + (if js[|js| - 1].id == id then [] else [js[|js| - 1]])
  }

  function Ids(js: seq<Job>): set<nat> {
    set i | 0 <= i < |js| :: js[i].id
  }

  /**
   * A child process finished (index.js:213-218): its job is no longer active
   * and `dequeue` runs, whether or not the job was a serial one.
   */
  function FinishStep(s: QueueState, id: nat): QueueState {
    DequeueStep(s.(active := Without(s.active, id)))
  }

  datatype Event = Run(job: Job) | Finished(id: nat)

  /** The state after a sequence of submissions and completions, each completion followed by its `dequeue`. */
  function Trace(s: QueueState, evs: seq<Event>): QueueState
    decreases |evs|
  {
    if evs == [] then s
    else
      var t := Trace(s, evs[..|evs| - 1]);
      match evs[|evs| - 1]
      case Run(job) => SubmitStep(t, job)
      case Finished(id) => FinishStep(t, id)
  }

  const Idle := QueueState(false, [], [], [])

  /** Every completion in the trace is that of a job whose child process is still active. */
  predicate Completes(evs: seq<Event>)
    decreases |evs|
  {
    evs == [] ||
    (Completes(evs[..|evs| - 1]) &&
     (evs[|evs| - 1].Finished? ==> evs[|evs| - 1].id in Ids(Trace(Idle, evs[..|evs| - 1]).active)))
  }

  /** Only serial jobs wait, and they wait only while something is marked running. */
  predicate Valid(s: QueueState) {
    (forall i :: 0 <= i < |s.queue| ==> !s.queue[i].concurrent) && (s.queue != [] ==> s.running)
  }

  function Serial(js: seq<Job>): (r: seq<Job>)
    ensures forall i :: 0 <= i < |r| ==> !r[i].concurrent
    decreases |js|
  {
    if js == [] then []
    else Serial(js[..|js| - 1]) + (if js[|js| - 1].concurrent then [] else [js[|js| - 1]])
  }

  function Submitted(evs: seq<Event>): seq<Job>
    decreases |evs|
  {
    if evs == [] then []
    else Submitted(evs[..|evs| - 1]) + (if evs[|evs| - 1].Run? then [evs[|evs| - 1].job] else [])
  }

  lemma SerialAppend(a: seq<Job>, b: seq<Job>)
    ensures Serial(a + b) == Serial(a) + Serial(b)
    decreases |b|
  {
    if b == [] {
      assert a + b == a;
    } else {
      assert (a + b)[..|a + b| - 1] == a + b[..|b| - 1];
      SerialAppend(a, b[..|b| - 1]);
    }
  }

  predicate QueuedSerial(s: QueueState) {
    forall i :: 0 <= i < |s.queue| ==> !s.queue[i].concurrent
  }

  /** A submission keeps the queue well formed, and every serial job is started or waiting, in order. */
  lemma SubmitKeeps(s: QueueState, job: Job)
    requires QueuedSerial(s)
    ensures QueuedSerial(SubmitStep(s, job))
    ensures Valid(s) ==> Valid(SubmitStep(s, job))
    ensures !job.concurrent ==> SubmitStep(s, job).running
    ensures Valid(s) ==> Serial(SubmitStep(s, job).started) + SubmitStep(s, job).queue == Serial(s.started) + s.queue + Serial([job])
    ensures !job.concurrent && !s.running ==> SubmitStep(s, job) == QueueState(true, s.queue, s.started + [job], s.active + [job])
    ensures job.concurrent ==> SubmitStep(s, job) == QueueState(s.running, s.queue, s.started + [job], s.active + [job])
    ensures !job.concurrent && s.running ==> SubmitStep(s, job).started == s.started
  {
    assert Serial([job]) == (if job.concurrent then [] else [job]) by {
      assert [job][..0] == [];
    }
    var r := SubmitStep(s, job);
    if !job.concurrent && s.running {
      assert r.queue == s.queue + [job] && r.started == s.started;
    } else {
      SerialAppend(s.started, [job]);
      assert r.queue == s.queue && r.started == s.started + [job];
    }
  }

  lemma DequeueKeeps(s: QueueState)
    requires Valid(s)
    ensures Valid(DequeueStep(s))
    ensures Serial(DequeueStep(s).started) + DequeueStep(s).queue == Serial(s.started) + s.queue
    ensures s.queue != [] ==> DequeueStep(s).started == s.started + [s.queue[0]] && DequeueStep(s).running
    ensures s.queue == [] ==> !DequeueStep(s).running && DequeueStep(s).started == s.started
  {
    if s.queue != [] {
      var q0 := s.queue[0];
      assert !q0.concurrent;
      assert DequeueStep(s) == QueueState(true, s.queue[1..], s.started + [q0], s.active + [q0]);
      SerialAppend(s.started, [q0]);
      assert Serial([q0]) == [q0] by {
        assert [q0][..0] == [];
      }
      assert s.queue == [q0] + s.queue[1..];
    }
  }

  /**
   * First in, first out: from the idle state, the serial jobs started so far
   * followed by those still waiting are exactly the serial jobs submitted, in
   * submission order; none is lost, repeated or overtaken.
   */
  lemma {:induction false} SerialJobsStartInOrder(evs: seq<Event>)
    ensures Valid(Trace(Idle, evs))
    ensures Serial(Trace(Idle, evs).started) + Trace(Idle, evs).queue == Serial(Submitted(evs))
    decreases |evs|
  {
    var s0 := Idle;
    if evs != [] {
      var init := evs[..|evs| - 1];
      SerialJobsStartInOrder(init);
      var t := Trace(s0, init);
      match evs[|evs| - 1]
      case Run(job) =>
        SubmitKeeps(t, job);
        SerialAppend(Submitted(init), [job]);
      case Finished(id) =>
        DequeueKeeps(t.(active := Without(t.active, id)));
        assert Submitted(evs) == Submitted(init) + [];
        assert Submitted(init) + [] == Submitted(init);
    }
  }

  /** Only serial jobs are submitted. */
  predicate AllSerial(evs: seq<Event>) {
    forall i :: 0 <= i < |evs| && evs[i].Run? ==> !evs[i].job.concurrent
  }

  /**
   * One child at a time: when every job is serial, at most one job is active,
   * and exactly while `running` is set.
   */
  lemma {:induction false} OneSerialAtATime(evs: seq<Event>)
    requires AllSerial(evs) && Completes(evs)
    ensures |Trace(Idle, evs).active| <= 1
    ensures Trace(Idle, evs).running <==> Trace(Idle, evs).active != []
    decreases |evs|
  {
    if evs != [] {
      var init := evs[..|evs| - 1];
      assert AllSerial(init) by {
        forall i | 0 <= i < |init| && init[i].Run? ensures !init[i].job.concurrent {
          assert init[i] == evs[i];
        }
      }
      OneSerialAtATime(init);
      var t := Trace(Idle, init);
      match evs[|evs| - 1]
      case Run(job) =>
        assert !job.concurrent;
      case Finished(id) =>
        SerialJobsStartInOrder(init);
        var j :| 0 <= j < |t.active| && t.active[j].id == id;
        assert t.active == [t.active[0]];
        assert Without(t.active, id) == [] by {
          assert t.active[..0] == [];
        }
    }
  }

    // ------------------------------------------------------------ the module

  /** The module-level `running` flag and `queue`, with the log of started and of active jobs. */
  class RunQueue {
    var running: bool
    var queue: seq<Job>
    var started: seq<Job>
    var active: seq<Job>

    function Snapshot(): QueueState
      reads this
    {
      QueueState(running, queue, started, active)
    }

    constructor()
      ensures Snapshot() == Idle
    {
      running, queue, started, active := false, [], [], [];
    }

    /** `runCmd(...)`: queue a serial job while another runs, else start it. */
    method RunCmd(job: Job)
      modifies this
      ensures Snapshot() == SubmitStep(old(Snapshot()), job)
    {
      if !job.concurrent {
        if running {
          queue := queue + [job];
          return;
        }
        running := true;
      }
      started := started + [job];
      active := active + [job];
    }

    /** `dequeue()`, scheduled by every finished script (index.js:217). */
    method Dequeue()
      modifies this
      ensures Snapshot() == DequeueStep(old(Snapshot()))
    {
      running := false;
      if |queue| > 0 {
        var r := queue[0];
        queue := queue[1..];
        RunCmd(r);
      }
    }

    /** The completion callback of `runCmd_` (index.js:213-218) for the job `id`. */
    method Finish(id: nat)
      modifies this
      ensures Snapshot() == FinishStep(old(Snapshot()), id)
    {
      active := Without(active, id);
      Dequeue();
    }
  }

  /**
   * What the queue does not enforce: a concurrent job's completion also runs
   * `dequeue`, so a waiting serial job starts while another serial job is
   * still active.
   */
  lemma ConcurrentCompletionReleasesQueue()
    ensures var evs := [Run(Job(0, false)), Run(Job(1, true)), Run(Job(2, false)), Finished(1)];
      Completes(evs) &&
      Trace(Idle, evs[..3]).queue == [Job(2, false)] && Trace(Idle, evs[..3]).active == [Job(0, false), Job(1, true)] &&
      Trace(Idle, evs).queue == [] && Trace(Idle, evs).active == [Job(0, false), Job(2, false)]
  {
    var j0, j1, j2 := Job(0, false), Job(1, true), Job(2, false);
    var e3 := [Run(j0), Run(j1), Run(j2)];
    var e4 := e3 + [Finished(1)];
    var s3 := QueueState(true, [j2], [j0, j1], [j0, j1]);
    TwoSubmissionsAndAWait();
    TraceSnoc(e3, Finished(1));
    WithoutConcurrent();
    assert FinishStep(s3, 1) == SubmitStep(QueueState(false, [], [j0, j1], [j0]), j2);
    assert 1 in Ids(s3.active) by {
      assert s3.active[1].id == 1;
    }
    assert e4[..3] == e3;
    assert e4 == [Run(j0), Run(j1), Run(j2), Finished(1)];
  }

  /** The first three events of the trace above: J0 runs, J1 runs beside it, J2 waits. */
  lemma TwoSubmissionsAndAWait()
    ensures var e := [Run(Job(0, false)), Run(Job(1, true)), Run(Job(2, false))];
      Completes(e) &&
      Trace(Idle, e) == QueueState(true, [Job(2, false)], [Job(0, false), Job(1, true)], [Job(0, false), Job(1, true)])
  {
    var j0, j1, j2 := Job(0, false), Job(1, true), Job(2, false);
    var e1 := [Run(j0)];
    var e2 := e1 + [Run(j1)];
    var e3 := e2 + [Run(j2)];
    TraceSnoc([], Run(j0));
    assert [] + [Run(j0)] == e1;
    TraceSnoc(e1, Run(j1));
    TraceSnoc(e2, Run(j2));
    assert e3 == [Run(j0), Run(j1), Run(j2)];
  }

  /** One more event: the trace takes one more step, and a submission keeps it complete. */
  lemma TraceSnoc(evs: seq<Event>, ev: Event)
    ensures (evs + [ev])[..|evs|] == evs
    ensures Trace(Idle, evs + [ev]) == if ev.Run? then SubmitStep(Trace(Idle, evs), ev.job) else FinishStep(Trace(Idle, evs), ev.id)
    ensures Completes(evs + [ev]) <==> Completes(evs) && (ev.Finished? ==> ev.id in Ids(Trace(Idle, evs).active))
  {
    assert (evs + [ev])[..|evs|] == evs;
  }

  lemma WithoutConcurrent()
    ensures Without([Job(0, false), Job(1, true)], 1) == [Job(0, false)]
  {
    assert [Job(0, false), Job(1, true)][..1] == [Job(0, false)];
    assert [Job(0, false)][..0] == [];
  }
}
