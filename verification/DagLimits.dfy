/** How often a node of a DAG job is tried: the retries of a failing node, and the outcomes of
    reporting the same missing files again and again (src/scheduler/persistence.py). */
module DagLimits {
  import opened Prelude
  import opened DagPropagation
  import opened DagRuns

  // ---------------------------------------------------------------- failures

  /** The rows after so many failures of a node that may be retried. */
  function AfterFailures(j: Job, n: Node, limit: nat, k: nat): (j': Job)
    requires n in j.status && n in j.retries
    ensures n in j'.status && n in j'.retries
  {
    if k == 0 then j else FailureOrRetry(AfterFailures(j, n, limit, k - 1), n, false, limit)
  }

  lemma {:induction false} RetriesCount(j: Job, n: Node, limit: nat, k: nat)
    requires n in j.status && n in j.retries && j.retries[n] == 0
    ensures AfterFailures(j, n, limit, k).retries[n] == if k <= limit then k else limit
  {
    if k > 0 { RetriesCount(j, n, limit, k - 1); }
  }

  /** A fresh node is ready again after each of its first `limit` failures and failed from the next
      one on, so it is tried `limit` + 1 times; one that may not be retried fails at once. No
      failure touches another row. */
  lemma {:induction false} NodeIsTriedToTheLimit(j: Job, n: Node, limit: nat, k: nat)
    requires n in j.status && n in j.retries && j.retries[n] == 0 && k > 0
    ensures AfterFailures(j, n, limit, k).status[n] == if k <= limit then Ready else Failed
    ensures FailureOrRetry(j, n, true, limit).status[n] == Failed
    ensures forall m :: m != n ==> Lookup(AfterFailures(j, n, limit, k).status, m) == Lookup(j.status, m)
  {
    RetriesCount(j, n, limit, k - 1);
    if k > 1 { NodeIsTriedToTheLimit(j, n, limit, k - 1); }
  }

  // ---------------------------------------------------------------- missing files

  /** A consumer that reports missing paths, whether peers hold them, and the scan of the rows. */
  datatype Trouble = Trouble(p: Plan, c: Node, paths: seq<string>, peers: bool, order: seq<Node>)

  ghost predicate ValidTrouble(t: Trouble) {
    t.c in t.p.deps && t.p.outs.Keys == t.p.deps.Keys && Enumerates(t.order, t.p.deps.Keys)
  }

  /** The outcome of a report. */
  ghost function Outcome(t: Trouble, j: Job): (r: Recovery)
    requires ValidTrouble(t) && ValidJob(t.p, j)
    ensures r.Relaunch? ==> r.producer in t.p.deps
  {
    Diagnose(t.p, j, t.c, t.paths, t.peers, t.order)
  }

  ghost function Reported(t: Trouble, j: Job): (j': Job)
    requires ValidTrouble(t) && ValidJob(t.p, j)
    ensures ValidJob(t.p, j')
  {
    Recover(j, t.c, Outcome(t, j))
  }

  /** The rows at each report of a series. Between two reports the statuses may change in any way,
      as passes and other reports make them; the counters are as the report before left them. */
  ghost predicate Series(t: Trouble, rows: seq<Job>)
    requires ValidTrouble(t)
  {
    && (forall i :: 0 <= i < |rows| ==> ValidJob(t.p, rows[i]))
    && forall i :: 1 <= i < |rows| ==> rows[i].recoveries == Reported(t, rows[i - 1]).recoveries
  }

  ghost predicate Counts(t: Trouble, producer: Node, j: Job, fetches: nat, launches: nat)
    requires ValidTrouble(t) && ValidJob(t.p, j)
  {
    producer in t.p.deps && j.recoveries[t.c] == fetches && j.recoveries[producer] == launches
  }

  /** One report: while a peer holds the files, the fetch is retried twice; the next report sends
      the producer back and lets the consumer wait; a later one fails the consumer. */
  lemma OneReport(t: Trouble, producer: Node, j: Job, fetches: nat, launches: nat)
    requires ValidTrouble(t) && ValidJob(t.p, j) && Counts(t, producer, j, fetches, launches) && producer != t.c
    requires LastProducer(t.p.outs, t.order, t.paths) == Some(producer)
    ensures var j' := Reported(t, j);
            if t.peers && fetches < 2 then
              Outcome(t, j) == RetryFetch && j'.status[t.c].Ready? && Counts(t, producer, j', fetches + 1, launches)
            else if launches == 0 then
              && Outcome(t, j) == Relaunch(producer) && j'.status[producer].Ready? && j'.status[t.c].Pending?
              && Counts(t, producer, j', fetches, 1)
            else
              && Outcome(t, j) == RetryExhausted(producer) && j'.status[t.c].Failed?
              && Counts(t, producer, j', fetches, launches)
  {
  }

  /** The counters after `k` reports of a consumer that had caused no recovery. */
  ghost predicate CountsAfter(t: Trouble, producer: Node, j: Job, k: nat)
    requires ValidTrouble(t) && ValidJob(t.p, j)
  {
    var fetches := if t.peers then 2 else 0;
    if k <= fetches then Counts(t, producer, j, k, 0) else Counts(t, producer, j, fetches, 1)
  }

  lemma OneMoreReport(t: Trouble, producer: Node, j: Job, k: nat)
    requires ValidTrouble(t) && ValidJob(t.p, j) && CountsAfter(t, producer, j, k) && producer != t.c
    requires LastProducer(t.p.outs, t.order, t.paths) == Some(producer)
    ensures CountsAfter(t, producer, Reported(t, j), k + 1)
  {
    var fetches := if t.peers then 2 else 0;
    if k <= fetches { OneReport(t, producer, j, k, 0); } else { OneReport(t, producer, j, fetches, 1); }
  }

  lemma {:induction false} SeriesCounts(t: Trouble, producer: Node, rows: seq<Job>, k: nat)
    requires ValidTrouble(t) && Series(t, rows) && k < |rows|
    requires CountsAfter(t, producer, rows[0], 0) && producer != t.c
    requires LastProducer(t.p.outs, t.order, t.paths) == Some(producer)
    ensures CountsAfter(t, producer, rows[k], k)
  {
    if k > 0 {
      SeriesCounts(t, producer, rows, k - 1);
      OneMoreReport(t, producer, rows[k - 1], k - 1);
    }
  }

  /** A consumer whose files have a producer and that has caused no recovery yet: while a peer holds
      the files, the first two reports have the fetch retried; the next one sends the producer back
      and the consumer waits; every later one fails the consumer. */
  lemma ReportsEscalate(t: Trouble, producer: Node, rows: seq<Job>, k: nat)
    requires ValidTrouble(t) && Series(t, rows) && k < |rows|
    requires rows[0].recoveries[t.c] == 0 && producer in t.p.deps && rows[0].recoveries[producer] == 0
    requires LastProducer(t.p.outs, t.order, t.paths) == Some(producer) && producer != t.c
    ensures var fetches := if t.peers then 2 else 0;
            var (outcome, status) := (Outcome(t, rows[k]), Reported(t, rows[k]).status);
            if k < fetches then outcome == RetryFetch && status[t.c].Ready?
            else if k == fetches then outcome == Relaunch(producer) && status[producer].Ready? && status[t.c].Pending?
            else outcome == RetryExhausted(producer) && status[t.c].Failed?
  {
    var fetches := if t.peers then 2 else 0;
    SeriesCounts(t, producer, rows, k);
    if k <= fetches { OneReport(t, producer, rows[k], k, 0); } else { OneReport(t, producer, rows[k], fetches, 1); }
  }

  /** Files that no row declares, and only those, fail their consumer whatever was reported before. */
  lemma UnknownFilesFail(t: Trouble, j: Job)
    requires ValidTrouble(t) && ValidJob(t.p, j)
    ensures Outcome(t, j) == UnknownProducer <==>
            forall n, path :: n in t.p.outs && path in t.paths ==> path !in t.p.outs[n]
    ensures Outcome(t, j) == UnknownProducer ==> Reported(t, j).status == j.status[t.c := Failed]
  {
    if LastProducer(t.p.outs, t.order, t.paths).None? {
      forall n, path | n in t.p.outs && path in t.paths ensures path !in t.p.outs[n] {
        assert n in t.order && !Produces(t.p.outs[n], t.paths);
      }
    }
  }

  // ---------------------------------------------------------------- the status of a job

  /** The aggregated status for all statuses of the rows: an ended job keeps its status; of the
      others, a job is completed if every row succeeded, failed if nothing can go on and a row
      failed or is blocked, pending if nothing has happened, and otherwise running. */
  lemma AggregateExactly(job: JobStatus, st: Statuses)
    requires st != map[] && !job.JobFailed? && !job.JobCompleted?
    ensures var active := exists n :: n in st && (st[n].Running? || st[n].Ready? || st[n].Preempting?);
            var broken := exists n :: n in st && (st[n].Failed? || st[n].Blocked?);
            var done := exists n :: n in st && st[n].Done?;
            var waiting := exists n :: n in st && st[n].Pending?;
            && (Aggregate(job, st).JobCompleted? <==> !active && !broken && !waiting)
            && (Aggregate(job, st).JobFailed? <==> !active && broken)
            && (Aggregate(job, st).JobPending? <==> !active && !broken && !done && waiting)
    ensures Aggregate(JobFailed, st) == JobFailed && Aggregate(JobCompleted, st) == JobCompleted
    ensures Aggregate(job, map[]) == job
  {
  }
}
