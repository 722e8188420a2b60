/**
 The push queue: a bounded queue that coalesces by key, one worker, and a wake token. Each
 method is one lock section or one channel operation, so any interleaving of submitters,
 the worker and the closing of done is a sequence of calls.
 */
module PushQueues {
  import opened Basics

  const QUEUE_DEPTH: nat := 16

  // The closure of a job, by identity.
  type Run = nat

  datatype Job = Job(key: string, run: Run)

  datatype Worker = AtCheck | AtLock | Parked | Running(job: Job) | AtStop | Ended

  datatype Outcome = Accepted | Coalesced | Closed | Full | NilJob

  /** One closure handed in for the job with this number, in the order of acceptance. */
  datatype Entry = Entry(ticket: nat, run: Run)

  /** The closure last handed in for a job. */
  function Latest(entries: seq<Entry>, ticket: nat): Option<Run> {
    if entries == [] then None
    else if entries[|entries| - 1].ticket == ticket then Some(entries[|entries| - 1].run)
    else Latest(entries[..|entries| - 1], ticket)
  }

  lemma LatestSnoc(entries: seq<Entry>, e: Entry)
    ensures forall t :: Latest(entries + [e], t) == if t == e.ticket then Some(e.run) else Latest(entries, t)
  {
    assert (entries + [e])[..|entries|] == entries;
  }

  /** Keys that coalesce occur once. */
  predicate DistinctKeys(jobs: seq<Job>) {
    forall i, j :: 0 <= i < j < |jobs| && jobs[i].key != "" ==> jobs[i].key != jobs[j].key
  }

  /**
   The history against the queue: keys has the key of every accepted job in order, entries all
   closures handed in. Started are the first of them, queued the next, each with its latest closure.
   */
  predicate InOrder(keys: seq<string>, entries: seq<Entry>, started: seq<Job>, queued: seq<Job>) {
    && |started| + |queued| <= |keys|
    && (forall i :: 0 <= i < |started| ==> started[i].key == keys[i] && Latest(entries, i) == Some(started[i].run))
    && (forall i :: 0 <= i < |queued| ==>
          queued[i].key == keys[|started| + i] && Latest(entries, |started| + i) == Some(queued[i].run))
    && (forall e <- entries :: e.ticket < |keys|)
  }

  class PushQueue {
    const max: nat
    const jobs: array<Job>
    var count: nat
    var wake: bool
    var done: bool
    var stopped: bool
    var accepted: nat
    var coalesced: nat
    var rejected: nat
    var worker: Worker
    ghost var keys: seq<string>
    ghost var entries: seq<Entry>
    ghost var started: seq<Job>
    ghost var dropped: nat

    function Queued(): seq<Job>
      requires count <= jobs.Length
      reads this, jobs
    {
      jobs[..count]
    }

    /** What every step keeps. */
    ghost predicate Valid()
      reads this, jobs
    {
      && max == jobs.Length && count <= max
      && (worker == Parked && count > 0 ==> wake)
      && accepted == |keys| == |started| + dropped + count
      && (dropped > 0 ==> stopped) && (stopped ==> count == 0)
      && (worker.Running? ==> started != [] && worker.job == started[|started| - 1])
      && DistinctKeys(Queued()) && InOrder(keys, entries, started, Queued())
    }

    constructor ()
      ensures Valid() && count == 0 && accepted == 0 && max == 16 && worker == AtCheck && !done && !stopped
    {
      max := QUEUE_DEPTH;
      jobs := new Job[QUEUE_DEPTH](_ => Job("", 0));
      count, wake, done, stopped, worker := 0, false, false, false, AtCheck;
      accepted, coalesced, rejected := 0, 0, 0;
      keys, entries, started, dropped := [], [], [], 0;
    }

    method Signal()
      modifies this`wake
      ensures wake
    {
      if !wake { wake := true; }
    }

    /** submit: never waits, and says what became of the job. */
    method Submit(key: string, job: Option<Run>) returns (outcome: Outcome)
      requires Valid()
      modifies this, jobs
      ensures Valid() && worker == old(worker) && done == old(done) && started == old(started)
      ensures outcome == NilJob <==> job.None?
      ensures outcome == Closed <==> job.Some? && (old(stopped) || old(done))
      ensures outcome == Coalesced <==>
                job.Some? && !old(stopped) && !old(done) && key != ""
                    && (exists i :: 0 <= i < old(count) && old(jobs[i].key) == key)
      ensures outcome == Full ==> old(count) == max
      ensures outcome == Accepted ==> old(count) < max
      ensures outcome == Accepted ==>
                Queued() == old(Queued()) + [Job(key, job.value)] && keys == old(keys) + [key]
      ensures outcome == Coalesced ==>
                count == old(count) && keys == old(keys)
                && exists i ::
                     0 <= i < count && old(jobs[i].key) == key && Queued() == old(Queued())[i := Job(key, job.value)]
      ensures outcome == Full || outcome == NilJob ==> Queued() == old(Queued()) && keys == old(keys)
      ensures outcome == Closed ==> count == 0 && stopped && keys == old(keys)
      ensures rejected == old(rejected) + (if outcome == Full then 1 else 0)
      ensures coalesced == old(coalesced) + (if outcome == Coalesced then 1 else 0)
    {
      hide DistinctKeys, InOrder;
      if job.None? { return NilJob; }
      if stopped { return Closed; }
      if done {
        Discard();
        return Closed;
      }
      if key != "" {
        var i := Find(key);
        if i < count {
          Replace(i, key, job.value);
          return Coalesced;
        }
      }
      if count >= max {
        rejected := rejected + 1;
        return Full;
      }
      Append(key, job.value);
      return Accepted;
    }

    /** The search for a queued job with this key. */
    method Find(key: string) returns (i: nat)
      requires count <= jobs.Length
      ensures i <= count && (i < count ==> jobs[i].key == key)
      ensures forall j :: 0 <= j < i ==> jobs[j].key != key
    {
      i := 0;
      while i < count && jobs[i].key != key
        invariant i <= count
        invariant forall j :: 0 <= j < i ==> jobs[j].key != key
      {
        i := i + 1;
      }
    }

    /** A queued job gets a newer closure and keeps its place. */
    method Replace(i: nat, key: string, run: Run)
      requires Valid() && i < count && jobs[i].key == key
      modifies jobs, this`coalesced, this`wake, this`entries
      ensures Valid() && wake && coalesced == old(coalesced) + 1
      ensures Queued() == old(Queued())[i := Job(key, run)]
    {
      hide DistinctKeys, InOrder;
      ghost var before := Queued();
      Replaces(keys, entries, started, before, i, run);
      entries := entries + [Entry(|started| + i, run)];
      jobs[i] := Job(key, run);
      assert Queued() == before[i := Job(key, run)];
      coalesced := coalesced + 1;
      Signal();
    }

    method Append(key: string, run: Run)
      requires Valid() && count < max && !stopped
      requires key != "" ==> forall j :: 0 <= j < count ==> jobs[j].key != key
      modifies jobs, this`count, this`accepted, this`wake, this`entries, this`keys
      ensures Valid() && wake && accepted == old(accepted) + 1
      ensures Queued() == old(Queued()) + [Job(key, run)] && keys == old(keys) + [key]
    {
      hide DistinctKeys, InOrder;
      ghost var before := Queued();
      Appends(keys, entries, started, before, key, run);
      entries := entries + [Entry(|keys|, run)];
      keys := keys + [key];
      jobs[count] := Job(key, run);
      count := count + 1;
      assert Queued() == before + [Job(key, run)];
      accepted := accepted + 1;
      Signal();
    }

    /** Everything still queued is dropped; nothing is accepted after it. */
    method Discard()
      requires Valid()
      modifies this`stopped, this`count, this`dropped
      ensures Valid() && stopped && count == 0 && dropped == old(dropped) + old(count)
    {
      stopped := true;
      dropped := dropped + count;
      count := 0;
    }

    /** The signaling connection goes away, at any time. */
    method CloseDone()
      requires Valid()
      modifies this`done
      ensures Valid() && done
    {
      done := true;
    }

    // --- the worker, step by step

    method CheckDone()
      requires Valid() && worker == AtCheck
      modifies this`worker
      ensures Valid() && worker == if done then AtStop else AtLock
    {
      worker := if done then AtStop else AtLock;
    }

    /** The lock section of run: ends, parks, or takes the oldest job. */
    method Next()
      requires Valid() && worker == AtLock
      modifies this`worker, this`count, this`started, jobs
      ensures Valid()
      ensures stopped ==> worker == Ended && Queued() == old(Queued()) && started == old(started)
      ensures !stopped && old(count) == 0 ==> worker == Parked && Queued() == old(Queued()) && started == old(started)
      ensures !stopped && old(count) > 0 ==>
                && worker == Running(old(jobs[0])) && Queued() == old(Queued())[1..]
                && started == old(started) + [old(jobs[0])] && old(jobs[0]).key == keys[|old(started)|]
                && Latest(entries, |old(started)|) == Some(old(jobs[0]).run)
    {
      if stopped {
        worker := Ended;
        return;
      }
      if count == 0 {
        worker := Parked;
        return;
      }
      ghost var before := Queued();
      var job := jobs[0];
      ShiftDown();
      count := count - 1;
      started := started + [job];
      worker := Running(job);
      assert Queued() == before[1..];
      TakesFirst(keys, entries, old(started), before);
    }

    /** copy(jobs, jobs[1:]) in place. */
    method ShiftDown()
      requires 0 < count <= jobs.Length
      modifies jobs
      ensures forall j :: 0 <= j < count - 1 ==> jobs[j] == old(jobs[j + 1])
    {
      for i := 1 to count
        invariant forall j :: 0 <= j < i - 1 ==> jobs[j] == old(jobs[j + 1])
        invariant forall j :: i - 1 <= j < jobs.Length ==> jobs[j] == old(jobs[j])
      {
        jobs[i - 1] := jobs[i];
      }
    }

    /** Parked, the worker waits for the token or for done. */
    method WakeUp()
      requires Valid() && worker == Parked && wake
      modifies this`worker, this`wake
      ensures Valid() && worker == AtCheck && !wake
    {
      wake := false;
      worker := AtCheck;
    }

    method SeeDone()
      requires Valid() && worker == Parked && done
      modifies this`worker
      ensures Valid() && worker == AtStop
    {
      worker := AtStop;
    }

    method Finish()
      requires Valid() && worker.Running?
      modifies this`worker
      ensures Valid() && worker == AtCheck
    {
      worker := AtCheck;
    }

    method Stop()
      requires Valid() && worker == AtStop
      modifies this`stopped, this`count, this`dropped, this`worker
      ensures Valid() && worker == Ended && stopped && count == 0 && dropped == old(dropped) + old(count)
    {
      Discard();
      worker := Ended;
    }

    /** No lost wake-up: a worker with no step left has ended, or there is nothing queued. */
    lemma NeverSleepsOnWork()
      requires Valid() && worker == Parked && !wake && !done
      ensures count == 0 && accepted == |started| + dropped
    {
    }

    /** Every job started so far ran, in the order of acceptance, the last closure handed in for it. */
    lemma StartsInOrder(i: nat)
      requires Valid() && i < |started|
      ensures started[i].key == keys[i] && Latest(entries, i) == Some(started[i].run)
    {
    }
  }

  lemma Replaces(keys: seq<string>, entries: seq<Entry>, started: seq<Job>, queued: seq<Job>, i: nat, run: Run)
    requires InOrder(keys, entries, started, queued) && DistinctKeys(queued) && i < |queued|
    ensures var q2 := queued[i := Job(queued[i].key, run)];
            InOrder(keys, entries + [Entry(|started| + i, run)], started, q2) && DistinctKeys(q2)
  {
    LatestSnoc(entries, Entry(|started| + i, run));
    hide Latest;
  }

  lemma Appends(keys: seq<string>, entries: seq<Entry>, started: seq<Job>, queued: seq<Job>, key: string, run: Run)
    requires InOrder(keys, entries, started, queued) && DistinctKeys(queued) && |keys| == |started| + |queued|
    requires key != "" ==> forall j :: 0 <= j < |queued| ==> queued[j].key != key
    ensures var q2 := queued + [Job(key, run)];
            InOrder(keys + [key], entries + [Entry(|keys|, run)], started, q2) && DistinctKeys(q2)
  {
    LatestSnoc(entries, Entry(|keys|, run));
    hide Latest;
  }

  lemma TakesFirst(keys: seq<string>, entries: seq<Entry>, started: seq<Job>, queued: seq<Job>)
    requires InOrder(keys, entries, started, queued) && DistinctKeys(queued) && queued != []
    ensures InOrder(keys, entries, started + [queued[0]], queued[1..]) && DistinctKeys(queued[1..])
  {
    var s2, q2 := started + [queued[0]], queued[1..];
    forall i | 0 <= i < |q2|
      ensures q2[i].key == keys[|s2| + i] && Latest(entries, |s2| + i) == Some(q2[i].run)
    {
      assert q2[i] == queued[i + 1] && |s2| + i == |started| + (i + 1);
    }
    assert forall i :: 0 <= i < |q2| ==> q2[i] == queued[i + 1];
  }
}
