/** The check of a whole recorded run against its frozen task set (web/lib/benchmark/scorecard.ts:120-179). */
module RunCheck {
  import opened Common
  import opened BatchSpec
  import opened BlindScoring
  import opened Scorecard

  /** The characters that trim removes. */
  predicate IsSpace(c: char) {
    || '\t' <= c <= '\r' || c in {' ', '\U{A0}', '\U{1680}', '\U{2028}', '\U{2029}', '\U{202F}', '\U{205F}', '\U{3000}', '\U{FEFF}'}
    || '\U{2000}' <= c <= '\U{200A}'
  }

  /** Not blank. */
  predicate IsId(s: string) { exists i :: 0 <= i < |s| && !IsSpace(s[i]) }

  predicate IsAlphanumeric(c: char) { 'a' <= c <= 'z' || 'A' <= c <= 'Z' || '0' <= c <= '9' }

  /** A plain name: it becomes part of a file name. */
  predicate IsName(s: string) {
    s != "" && IsAlphanumeric(s[0]) && forall i :: 0 <= i < |s| ==> IsAlphanumeric(s[i]) || s[i] in {'_', '.', '-'}
  }

  datatype TaskKind = Standard | Negative | Ambiguous | ColdStart

  /** A task of the frozen set; its kind is one of the four, or anything else. */
  datatype FrozenTask = FrozenTask(id: string, kind: Option<TaskKind>)
  datatype TaskSet = TaskSet(version: string, tasks: seq<FrozenTask>)

  datatype ResultRow = ResultRow(rank: Rank, entity: string, verdicts: Verdicts)
  datatype TaskRun = TaskRun(task: string, status: Status, cost: Option<real>, seconds: Option<real>, results: seq<ResultRow>)
  datatype RecordedRun = RecordedRun(version: string, system: string, commit: Option<string>, evaluator: string, tasks: seq<TaskRun>)

  predicate NotNegative(x: Option<real>) { x.Some? ==> 0.0 <= x.value }

  /** No problem with the frozen set. */
  predicate SetPasses(frozen: TaskSet) {
    && IsId(frozen.version) && frozen.tasks != []
    && (forall i :: 0 <= i < |frozen.tasks| ==> IsId(frozen.tasks[i].id) && frozen.tasks[i].kind.Some?)
    && (forall i, j :: 0 <= i < j < |frozen.tasks| ==> frozen.tasks[i].id != frozen.tasks[j].id)
  }

  function RanksOf(rows: seq<ResultRow>): seq<Rank> {
    seq(|rows|, i requires 0 <= i < |rows| => rows[i].rank)
  }

  /** No problem with a task's results: ranks 1 to n, and every row with its entity and verdicts. */
  ghost predicate RowsPass(rows: seq<ResultRow>) {
    && (forall i :: 0 <= i < |rows| ==> ValidRank(rows[i].rank) && IsId(rows[i].entity) && AllGiven(rows[i].verdicts))
    && NoRepeats(RanksOf(rows)) && NoGaps(RanksOf(rows))
  }

  /** No problem with this task: it is one of the set's, and one that did not run has no results. */
  ghost predicate TaskPasses(frozen: TaskSet, t: TaskRun) {
    && IsId(t.task) && (exists i :: 0 <= i < |frozen.tasks| && frozen.tasks[i].id == t.task)
    && NotNegative(t.cost) && NotNegative(t.seconds)
    && (t.status in {NotRun, Unsupported} ==> t.results == [])
    && RowsPass(t.results)
  }

  /** No problem with the set or the run. */
  ghost predicate RunPasses(frozen: TaskSet, run: RecordedRun) {
    && SetPasses(frozen) && run.version == frozen.version
    && IsName(run.system) && (run.commit.Some? ==> IsName(run.commit.value)) && IsId(run.evaluator)
    && (forall i :: 0 <= i < |run.tasks| ==> TaskPasses(frozen, run.tasks[i]))
    && (forall i, j :: 0 <= i < j < |run.tasks| ==> run.tasks[i].task != run.tasks[j].task)
  }
}
