/** The board list page: each board card shows how many of its tasks are done. */
module Dashboard {
  import opened Types
  import opened Seqs
  import opened Percent

  predicate IsDone(t: TaskSummary)
  {
    t.status == Done
  }

  function CompletedCount(tasks: seq<TaskSummary>): nat
  {
    Count(tasks, IsDone)
  }

  /** `calculateProgress`: the rounded percentage of a board's tasks that are DONE. */
  function CalculateProgress(tasks: seq<TaskSummary>): (r: nat)
    ensures r <= 100
    ensures |tasks| == 0 ==> r == 0
    ensures |tasks| > 0 ==>
      2 * |tasks| * r <= 200 * CompletedCount(tasks) + |tasks| < 2 * |tasks| * (r + 1)
  {
    if |tasks| == 0 then 0
    else
      CountBounds(tasks, IsDone);
      RoundedPercentBounds(CompletedCount(tasks), |tasks|);
      RoundedPercent(CompletedCount(tasks), |tasks|)
  }

  /** A board whose tasks are all DONE shows 100. */
  lemma ProgressAllDone(tasks: seq<TaskSummary>)
    requires |tasks| > 0
    requires forall i :: 0 <= i < |tasks| ==> tasks[i].status == Done
    ensures CalculateProgress(tasks) == 100
  {
    CountBounds(tasks, IsDone);
    RoundedPercentAll(|tasks|);
  }

  /** A board with no DONE task shows 0. */
  lemma ProgressNoneDone(tasks: seq<TaskSummary>)
    requires forall i :: 0 <= i < |tasks| ==> tasks[i].status != Done
    ensures CalculateProgress(tasks) == 0
  {
    if |tasks| > 0 {
      CountBounds(tasks, IsDone);
      RoundedPercentNone(|tasks|);
    }
  }

  /** For boards of the same size, more DONE tasks never show a smaller percentage. */
  lemma ProgressMonotone(a: seq<TaskSummary>, b: seq<TaskSummary>)
    requires |a| == |b| && CompletedCount(a) <= CompletedCount(b)
    ensures CalculateProgress(a) <= CalculateProgress(b)
  {
    if |a| > 0 {
      RoundedPercentMonotone(CompletedCount(a), CompletedCount(b), |a|);
    }
  }
}
