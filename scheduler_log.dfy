/**
 * The scheduler log: the most recent runs of the scheduled jobs, at most
 * 100 entries kept oldest first, queried newest first by job, status and
 * date, summarised, and pruned by date.
 */
module SchedulerLog {
  import opened Common
  import opened Dicts

  /** `MAX_LOG_ENTRIES`. */
  const MaxEntries: nat := 100

  /** One run record of `add_log`; `details` stands for the details object, which no query reads. */
  datatype LogEntry = LogEntry(
    id: string,
    jobId: string,
    jobName: string,
    status: string,
    message: string,
    details: string,
    timestamp: string,
    date: string,
    time: string)

  /** The clock reading of `add_log`: `%Y-%m-%d`, `%H:%M:%S` and the ISO text of the same moment. */
  datatype Now = Now(date: string, time: string, iso: string)

  /** The last `n` elements (all of them when there are fewer), as `xs[-n:]` for `n > 0`. */
  function Last<T>(xs: seq<T>, n: nat): (r: seq<T>)
    ensures |r| <= n && |r| <= |xs|
    ensures |xs| <= n ==> r == xs
  {
    if |xs| <= n then xs else xs[|xs| - n..]
  }

  /** Appending to a full bounded log drops exactly its oldest entry. */
  lemma LastSnoc<T>(xs: seq<T>, x: T, n: nat)
    requires |xs| <= n
    ensures Last(xs + [x], n) == if |xs| == n then (xs + [x])[1..] else xs + [x]
  {
  }

  /** The entry `add_log` builds; its id is the job id and the compact date and time. */
  function NewEntry(jobId: string, jobName: string, status: string, message: string, details: string, now: Now): (e: LogEntry)
    ensures e.jobId == jobId && e.status == status && e.date == now.date
  {
    LogEntry(jobId + "_" + RemoveChar(now.date, '-') + "_" + RemoveChar(now.time, ':'),
      jobId, jobName, status, message, details, now.iso, now.date, now.time)
  }

  // ---------------------------------------------------------------------
  // get_logs
  // ---------------------------------------------------------------------

  /** The optional filters of `get_logs`; an empty text is no filter, as Python's falsy test reads it. */
  datatype Query = Query(jobId: string, status: string, dateFrom: string)

  predicate Matches(e: LogEntry, q: Query) {
    (q.jobId == "" || e.jobId == q.jobId)
    && (q.status == "" || e.status == q.status)
    && (q.dateFrom == "" || !StrLess(e.date, q.dateFrom))
  }

  /** The matching entries, newest (last) first. */
  function NewestMatching(logs: seq<LogEntry>, q: Query): (r: seq<LogEntry>)
    ensures |r| <= |logs|
  {
    if |logs| == 0 then []
    else NewestMatching(logs[1..], q) + (if Matches(logs[0], q) then [logs[0]] else [])
  }

  /** A newer entry comes before every older one, and only when it matches. */
  lemma {:induction false} NewestMatchingSnoc(logs: seq<LogEntry>, e: LogEntry, q: Query)
    ensures NewestMatching(logs + [e], q) == (if Matches(e, q) then [e] else []) + NewestMatching(logs, q)
  {
    if |logs| > 0 {
      assert (logs + [e])[1..] == logs[1..] + [e];
      NewestMatchingSnoc(logs[1..], e, q);
    }
  }

  /** Exactly the matching entries are listed. */
  lemma {:induction false} NewestMatchingSpec(logs: seq<LogEntry>, q: Query, x: LogEntry)
    ensures x in NewestMatching(logs, q) <==> x in logs && Matches(x, q)
  {
    if |logs| > 0 {
      NewestMatchingSpec(logs[1..], q, x);
      assert logs == [logs[0]] + logs[1..];
    }
  }

  /** `get_logs`: the first `limit` matching entries newest first; a `limit` below 1 still lets the first match through. */
  function RecentLogs(logs: seq<LogEntry>, q: Query, limit: int): (r: seq<LogEntry>)
    ensures |r| <= |NewestMatching(logs, q)|
    ensures limit >= 1 ==> |r| <= limit
    ensures |r| < |NewestMatching(logs, q)| ==> |r| == if limit >= 1 then limit else 1
    ensures r == NewestMatching(logs, q)[..|r|]
  {
    var all := NewestMatching(logs, q);
    var bound := if limit >= 1 then limit else 1;
    if |all| <= bound then all else all[..bound]
  }

  // ---------------------------------------------------------------------
  // get_latest_by_job
  // ---------------------------------------------------------------------

  /** `latest` after visiting the entries newest first: a job id is filed at its first visit. */
  function LatestByJob(logs: seq<LogEntry>): Dict<string, LogEntry> {
    if |logs| == 0 then []
    else
      var latest := LatestByJob(logs[1..]);
      var j := logs[0].jobId;
      if j != "" && j !in Keys(latest) then latest + [(j, logs[0])] else latest
  }

  /** The newest entry of job `j`. */
  function NewestOf(logs: seq<LogEntry>, j: string): (r: Option<LogEntry>)
    ensures r.Some? ==> r.value in logs && r.value.jobId == j
    ensures r.None? <==> forall i :: 0 <= i < |logs| ==> logs[i].jobId != j
  {
    if |logs| == 0 then None
    else if logs[|logs| - 1].jobId == j then Some(logs[|logs| - 1])
    else NewestOf(logs[..|logs| - 1], j)
  }

  lemma {:induction false} NewestOfCons(e: LogEntry, logs: seq<LogEntry>, j: string)
    ensures NewestOf([e] + logs, j) == match NewestOf(logs, j) case Some(x) => Some(x) case None => if e.jobId == j then Some(e) else None
  {
    if |logs| > 0 {
      assert ([e] + logs)[..|logs|] == [e] + logs[..|logs| - 1];
      NewestOfCons(e, logs[..|logs| - 1], j);
    }
  }

  /** Each non-empty job id maps to the newest entry of that job. */
  lemma {:induction false} LatestByJobSpec(logs: seq<LogEntry>, j: string)
    requires j != ""
    ensures Get(LatestByJob(logs), j) == NewestOf(logs, j)
  {
    if |logs| > 0 {
      var latest := LatestByJob(logs[1..]);
      LatestByJobSpec(logs[1..], j);
      assert logs == [logs[0]] + logs[1..];
      NewestOfCons(logs[0], logs[1..], j);
      var k := logs[0].jobId;
      if k != "" && k !in Keys(latest) {
        GetSnoc(latest, k, logs[0], j);
      }
    }
  }

  // ---------------------------------------------------------------------
  // get_summary and clear_old_logs
  // ---------------------------------------------------------------------

  function CountStatus(logs: seq<LogEntry>, status: string): (n: nat)
    ensures n <= |logs|
  {
    if |logs| == 0 then 0 else (if logs[0].status == status then 1 else 0) + CountStatus(logs[1..], status)
  }

  function CountDate(logs: seq<LogEntry>, date: string): (n: nat)
    ensures n <= |logs|
  {
    if |logs| == 0 then 0 else (if logs[0].date == date then 1 else 0) + CountDate(logs[1..], date)
  }

  datatype Summary = Summary(total: nat, success: nat, failed: nat, today: nat, latestByJob: Dict<string, LogEntry>)

  /** `get_summary` for the day `today` (`%Y-%m-%d`). */
  function GetSummary(logs: seq<LogEntry>, today: string): (s: Summary)
    ensures s.total == |logs| && s.today <= s.total
  {
    Summary(|logs|, CountStatus(logs, "success"), CountStatus(logs, "failed"), CountDate(logs, today), LatestByJob(logs))
  }

  /** No entry is counted both as a success and as a failure. */
  lemma {:induction false} SuccessFailedBound(logs: seq<LogEntry>)
    ensures CountStatus(logs, "success") + CountStatus(logs, "failed") <= |logs|
  {
    if |logs| > 0 {
      SuccessFailedBound(logs[1..]);
    }
  }

  /** The entries dated on or after `cutoff`, in their order. */
  function KeepFrom(logs: seq<LogEntry>, cutoff: string): (r: seq<LogEntry>)
    ensures |r| <= |logs|
  {
    if |logs| == 0 then []
    else (if StrLess(logs[0].date, cutoff) then [] else [logs[0]]) + KeepFrom(logs[1..], cutoff)
  }

  /** Pruning keeps exactly the entries dated on or after the cutoff. */
  lemma {:induction false} KeepFromSpec(logs: seq<LogEntry>, cutoff: string, x: LogEntry)
    ensures x in KeepFrom(logs, cutoff) <==> x in logs && !StrLess(x.date, cutoff)
  {
    if |logs| > 0 {
      KeepFromSpec(logs[1..], cutoff, x);
      assert logs == [logs[0]] + logs[1..];
    }
  }

  /** Pruning keeps the order: the kept part of a log is the kept part of its halves, one after the other. */
  lemma {:induction false} KeepFromAppend(xs: seq<LogEntry>, ys: seq<LogEntry>, cutoff: string)
    ensures KeepFrom(xs + ys, cutoff) == KeepFrom(xs, cutoff) + KeepFrom(ys, cutoff)
  {
    if |xs| > 0 {
      assert (xs + ys)[0] == xs[0];
      assert (xs + ys)[1..] == xs[1..] + ys;
      KeepFromAppend(xs[1..], ys, cutoff);
    } else {
      assert xs + ys == ys;
    }
  }

  // ---------------------------------------------------------------------
  // The manager
  // ---------------------------------------------------------------------

  /** `SchedulerLogManager.logs`, oldest first. */
  class SchedulerLogManager {
    var logs: seq<LogEntry>

    predicate Valid()
      reads this
    {
      |logs| <= MaxEntries
    }

    /** `_load_logs`: the last 100 stored entries, in their order. */
    constructor (stored: seq<LogEntry>)
      ensures Valid() && logs == Last(stored, MaxEntries)
    {
      logs := Last(stored, MaxEntries);
    }

    /** `add_log`: the new entry goes last, and the oldest is dropped when the log is full. */
    method AddLog(jobId: string, jobName: string, status: string, message: string, details: string, now: Now) returns (e: LogEntry)
      requires Valid()
      modifies this
      ensures Valid() && e == NewEntry(jobId, jobName, status, message, details, now)
      ensures logs == Last(old(logs) + [e], MaxEntries)
    {
      e := NewEntry(jobId, jobName, status, message, details, now);
      LastSnoc(logs, e, MaxEntries);
      if |logs| == MaxEntries {
        logs := logs[1..] + [e];
      } else {
        logs := logs + [e];
      }
    }

    /** The loop of `get_logs` over the entries newest first, stopping once `limit` are collected. */
    method GetLogs(q: Query, limit: int) returns (results: seq<LogEntry>)
      ensures results == RecentLogs(logs, q, limit)
    {
      results := [];
      var bound := if limit >= 1 then limit else 1;
      var i := |logs|;
      while i > 0
        invariant 0 <= i <= |logs|
        invariant results == NewestMatching(logs[i..], q) && |results| < bound
      {
        i := i - 1;
        assert logs[i..] == [logs[i]] + logs[i + 1..];
        if Matches(logs[i], q) {
          results := results + [logs[i]];
          if |results| >= limit {
            assert logs == logs[..i] + logs[i..];
            NewestMatchingAppend(logs[..i], logs[i..], q);
            assert results == NewestMatching(logs, q)[..|results|];
            return;
          }
        }
      }
      assert logs[0..] == logs;
    }

    /** The loop of `get_latest_by_job` over the entries newest first. */
    method GetLatestByJob() returns (latest: Dict<string, LogEntry>)
      ensures latest == LatestByJob(logs)
    {
      latest := [];
      var i := |logs|;
      while i > 0
        invariant 0 <= i <= |logs|
        invariant latest == LatestByJob(logs[i..])
      {
        i := i - 1;
        assert logs[i..][1..] == logs[i + 1..];
        var j := logs[i].jobId;
        if j != "" && j !in Keys(latest) {
          latest := latest + [(j, logs[i])];
        }
      }
      assert logs[0..] == logs;
    }

    /** `clear_old_logs` with the cutoff date `%Y-%m-%d` already computed. */
    method ClearOldLogs(cutoff: string)
      requires Valid()
      modifies this
      ensures Valid() && logs == KeepFrom(old(logs), cutoff)
    {
      logs := KeepFrom(logs, cutoff);
    }
  }

  /** The matches of a log are those of its newer part followed by those of its older part. */
  lemma {:induction false} NewestMatchingAppend(xs: seq<LogEntry>, ys: seq<LogEntry>, q: Query)
    ensures NewestMatching(xs + ys, q) == NewestMatching(ys, q) + NewestMatching(xs, q)
  {
    if |xs| > 0 {
      assert (xs + ys)[0] == xs[0];
      assert (xs + ys)[1..] == xs[1..] + ys;
      NewestMatchingAppend(xs[1..], ys, q);
    } else {
      assert xs + ys == ys;
    }
  }
}
