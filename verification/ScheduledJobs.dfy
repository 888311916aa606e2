/**
 The scheduled-job table, and what the SELECT ... FOR UPDATE SKIP LOCKED of a tick returns.
 */
module ScheduledJobs {

  datatype Status = Pending | Cancelled | Failed | Executed(at: real)

  datatype ScheduledJob = ScheduledJob(jobType: string, runAt: real, status: Status)

  type Table = map<nat, ScheduledJob>

  predicate Due(t: Table, now: real, id: nat) {
    id in t && t[id].status.Pending? && t[id].runAt <= now
  }

  ghost predicate Distinct(xs: seq<nat>) {
    forall i, j :: 0 <= i < j < |xs| ==> xs[i] != xs[j]
  }

  /**
   The rows a tick picks: due, not locked, oldest first, at most `limit`; and a due unlocked
   row is left out only when the limit is reached by rows that are not younger.
   */
  ghost predicate IsPick(t: Table, now: real, limit: nat, locked: set<nat>, picked: seq<nat>) {
    && Distinct(picked) && |picked| <= limit
    && (forall id :: id in picked ==> Due(t, now, id) && id !in locked)
    && (forall i, j :: 0 <= i < j < |picked| ==>
          picked[i] in t && picked[j] in t && t[picked[i]].runAt <= t[picked[j]].runAt)
    && (forall id :: Due(t, now, id) && id !in locked && id !in picked ==>
          |picked| == limit && forall q :: q in picked ==> q in t && t[q].runAt <= t[id].runAt)
  }

  /** UPDATE ... SET status = 'executed', executed_at = at for a set of rows. */
  function MarkAll(t: Table, marks: set<nat>, at: real): Table {
    map id | id in t :: if id in marks then t[id].(status := Executed(at)) else t[id]
  }
}
