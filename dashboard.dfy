/**
 * The Dashboard page: it fetches the user's prospects, reduces them to a
 * count per pipeline stage, and derives the figures and chart rows it shows.
 *
 * The page declares a three-valued stage ('new', 'in_talks', 'closed'), but
 * that declaration is only a cast over the stored column: rows reach the page
 * with whatever stage string they were saved with. The model therefore keeps
 * `stage` a string and the three declared stages a separate datatype.
 */
module Dashboard {
  import opened Wrappers
  import opened Backend
  import opened Seqs

  /** The stage values the page declares. */
  datatype Stage = New | InTalks | Closed {
    /** The string stored in the `stage` column for this stage. */
    function Key(): string
    {
      match this
      case New => "new"
      case InTalks => "in_talks"
      case Closed => "closed"
    }
  }

  /** The stages in the order the charts list them. */
  const ChartStages: seq<Stage> := [New, InTalks, Closed]

  /** Reads a stored stage string as one of the declared stages, if it is one. */
  function ParseStage(s: string): (r: Option<Stage>)
    ensures r.Some? ==> r.value.Key() == s
    ensures forall st: Stage :: st.Key() == s ==> r == Some(st)
  {
    if s == "new" then Some(New)
    else if s == "in_talks" then Some(InTalks)
    else if s == "closed" then Some(Closed)
    else None
  }

  predicate IsDeclared(s: string) { ParseStage(s).Some? }

  datatype Prospect = Prospect(
    id: string,
    fullName: string,
    email: string,
    company: string,
    stage: string,
    createdAt: string)

  /** The page's `stats` record: one counter per declared stage. */
  datatype PipelineStats = PipelineStats(newCount: nat, inTalksCount: nat, closedCount: nat) {
    function Count(st: Stage): nat
    {
      match st
      case New => newCount
      case InTalks => inTalksCount
      case Closed => closedCount
    }

    function Sum(): nat { newCount + inTalksCount + closedCount }
  }

  /** The value `stats` starts with, which is also the reduction's seed. */
  const ZeroStats := PipelineStats(0, 0, 0)

  /** The number of rows stored with stage string `key`. */
  function CountStage(rows: seq<Prospect>, key: string): nat
  {
    |Filter(rows, (p: Prospect) => p.stage == key)|
  }

  /** The rows whose stage is none of the declared ones. */
  function Undeclared(rows: seq<Prospect>): seq<Prospect>
  {
    Filter(rows, (p: Prospect) => !IsDeclared(p.stage))
  }

  /** Reference definition of the stats: each counter counts the rows of its stage. */
  function StatsOf(rows: seq<Prospect>): PipelineStats
  {
    PipelineStats(CountStage(rows, New.Key()), CountStage(rows, InTalks.Key()), CountStage(rows, Closed.Key()))
  }

  /**
   * One step of the reduction, `acc[prospect.stage]++`. For a stage string
   * outside the declared ones the source adds a new key to the accumulator
   * whose value nothing reads; the three counters are left as they were.
   */
  function Bump(acc: PipelineStats, stage: string): (r: PipelineStats)
    ensures forall st: Stage :: r.Count(st) == acc.Count(st) + (if st.Key() == stage then 1 else 0)
  {
    match ParseStage(stage)
    case Some(New) => acc.(newCount := acc.newCount + 1)
    case Some(InTalks) => acc.(inTalksCount := acc.inTalksCount + 1)
    case Some(Closed) => acc.(closedCount := acc.closedCount + 1)
    case None => acc
  }

  lemma StatsOfEmpty()
    ensures StatsOf([]) == ZeroStats
  {
  }

  lemma StatsOfSnoc(rows: seq<Prospect>, p: Prospect)
    ensures StatsOf(rows + [p]) == Bump(StatsOf(rows), p.stage)
  {
    forall st: Stage
      ensures CountStage(rows + [p], st.Key()) == CountStage(rows, st.Key()) + (if st.Key() == p.stage then 1 else 0)
    {
      FilterAppend(rows, [p], (q: Prospect) => q.stage == st.Key());
    }
    var l, r := StatsOf(rows + [p]), Bump(StatsOf(rows), p.stage);
    assert l.Count(New) == r.Count(New);
    assert l.Count(InTalks) == r.Count(InTalks);
    assert l.Count(Closed) == r.Count(Closed);
  }

  /**
   * The reduction over the fetched rows: every counter ends equal to the
   * number of rows stored with its stage.
   */
  method TallyStages(rows: seq<Prospect>) returns (acc: PipelineStats)
    ensures forall st: Stage :: acc.Count(st) == CountStage(rows, st.Key())
    ensures acc == StatsOf(rows)
  {
    acc := ZeroStats;
    var i := 0;
    while i < |rows|
      invariant 0 <= i <= |rows|
      invariant acc == StatsOf(rows[..i])
    {
      StatsOfSnoc(rows[..i], rows[i]);
      assert rows[..i + 1] == rows[..i] + [rows[i]];
      acc := Bump(acc, rows[i].stage);
      i := i + 1;
    }
    assert rows[..|rows|] == rows;
  }

  /**
   * Every row is counted by exactly one counter, or by none when its stage is
   * undeclared.
   */
  lemma {:induction false} CountsPartitionRows(rows: seq<Prospect>)
    ensures StatsOf(rows).Sum() + |Undeclared(rows)| == |rows|
    decreases |rows|
  {
    if rows != [] {
      CountsPartitionRows(rows[1..]);
    }
  }

  /**
   * `totalProspects` equals the sum of the three counters exactly when every
   * fetched row has a declared stage.
   */
  lemma CountsSumToTotal(rows: seq<Prospect>)
    ensures StatsOf(rows).Sum() == TotalProspects(rows) <==> forall p :: p in rows ==> IsDeclared(p.stage)
  {
    CountsPartitionRows(rows);
    var undeclared := Undeclared(rows);
    forall p ensures p in undeclared <==> p in rows && !IsDeclared(p.stage) {
      FilterMembership(rows, (q: Prospect) => !IsDeclared(q.stage), p);
    }
    if undeclared != [] {
      assert undeclared[0] in undeclared;
    }
  }

  /** `totalProspects`. */
  function TotalProspects(rows: seq<Prospect>): (r: nat)
    ensures r == StatsOf(rows).Sum() + |Undeclared(rows)|
  {
    CountsPartitionRows(rows);
    |rows|
  }

  /** The "In Progress" card: the rows that are new or in talks. */
  function InProgress(stats: PipelineStats): (r: nat)
    ensures r + stats.Count(Closed) == stats.Sum()
  {
    stats.newCount + stats.inTalksCount
  }

  /** "In Progress" never exceeds the total and misses exactly the closed and undeclared rows. */
  lemma InProgressWithinTotal(rows: seq<Prospect>)
    ensures InProgress(StatsOf(rows)) + StatsOf(rows).closedCount + |Undeclared(rows)| == TotalProspects(rows)
    ensures InProgress(StatsOf(rows)) <= TotalProspects(rows)
  {
    CountsPartitionRows(rows);
  }

  /** How many prospects the "Recent Prospects" card shows at most. */
  const RecentLimit := 5

  /** `recentProspects`: the first five fetched rows, or all of them when fewer. */
  function RecentProspects(rows: seq<Prospect>): (r: seq<Prospect>)
    ensures |r| == if |rows| < RecentLimit then |rows| else RecentLimit
    ensures forall i :: 0 <= i < |r| ==> r[i] == rows[i]
  {
    if |rows| < RecentLimit then rows else rows[..RecentLimit]
  }

  datatype ChartEntry = ChartEntry(name: string, value: nat, color: string)
  datatype BarEntry = BarEntry(stage: string, count: nat)

  /** `chartData`: the pie chart's slices. */
  function ChartData(stats: PipelineStats): (r: seq<ChartEntry>)
    ensures |r| == |ChartStages|
    ensures forall i :: 0 <= i < |r| ==>
      r[i].name == StageLabel(ChartStages[i].Key()) && r[i].value == stats.Count(ChartStages[i])
  {
    [ ChartEntry("New", stats.newCount, "hsl(var(--pipeline-new))"),
      ChartEntry("In Talks", stats.inTalksCount, "hsl(var(--pipeline-talks))"),
      ChartEntry("Closed", stats.closedCount, "hsl(var(--pipeline-closed))") ]
  }

  /** `barChartData`: each slice renamed to a bar, in the same order. */
  function BarChartData(chart: seq<ChartEntry>): (r: seq<BarEntry>)
    ensures |r| == |chart|
    ensures forall i :: 0 <= i < |r| ==> r[i].stage == chart[i].name && r[i].count == chart[i].value
  {
    seq(|chart|, i requires 0 <= i < |chart| => BarEntry(chart[i].name, chart[i].value))
  }

  /** The bar chart lists New, In Talks, Closed in that order, each with its stage's counter. */
  lemma ChartsFollowStats(stats: PipelineStats)
    ensures BarChartData(ChartData(stats)) ==
      [BarEntry("New", stats.newCount), BarEntry("In Talks", stats.inTalksCount), BarEntry("Closed", stats.closedCount)]
  {
    var bars := BarChartData(ChartData(stats));
    assert bars[0] == BarEntry("New", stats.newCount);
    assert bars[1] == BarEntry("In Talks", stats.inTalksCount);
    assert bars[2] == BarEntry("Closed", stats.closedCount);
  }

  /** `getStageLabel`: display text for a declared stage; any other string is shown as it is. */
  function StageLabel(stage: string): (r: string)
    ensures !IsDeclared(stage) ==> r == stage
    ensures IsDeclared(stage) ==> r != stage
  {
    match stage
    case "new" => "New"
    case "in_talks" => "In Talks"
    case "closed" => "Closed"
    case _ => stage
  }

  /** Different declared stages are never shown with the same label. */
  lemma StageLabelsDistinct(a: Stage, b: Stage)
    ensures StageLabel(a.Key()) == StageLabel(b.Key()) ==> a == b
  {
  }

  /** `getStageColor`: the badge classes for a declared stage, and a muted badge for any other. */
  function StageColor(stage: string): (r: string)
    ensures !IsDeclared(stage) ==> r == "bg-muted"
    ensures IsDeclared(stage) ==> r != "bg-muted"
  {
    match stage
    case "new" => "bg-pipeline-new text-white"
    case "in_talks" => "bg-pipeline-talks text-white"
    case "closed" => "bg-pipeline-closed text-white"
    case _ => "bg-muted"
  }

  /** Different declared stages get different badge colours. */
  lemma StageColorsDistinct(a: Stage, b: Stage)
    ensures StageColor(a.Key()) == StageColor(b.Key()) ==> a == b
  {
  }

  /** The page's state: `prospects`, `stats` and `loading`. */
  class DashboardPage {
    var prospects: seq<Prospect>
    var stats: PipelineStats
    var loading: bool

    /** `stats` always describes `prospects`. */
    ghost predicate Valid()
      reads this
    {
      stats == StatsOf(prospects)
    }

    constructor ()
      ensures Valid()
      ensures prospects == [] && stats == ZeroStats && loading
    {
      prospects := [];
      stats := ZeroStats;
      loading := true;
    }

    /**
     * `fetchProspects`, given the query's answer. On an error both `prospects`
     * and `stats` keep their values; otherwise they become the returned rows
     * (none when the query returned no data) and their counts. `loading` ends
     * false on both paths.
     */
    method FetchProspects(response: Query<Prospect>)
      requires Valid()
      modifies this
      ensures Valid()
      ensures response.error.Some? ==> prospects == old(prospects) && stats == old(stats)
      ensures response.error.None? ==> prospects == RowsOrEmpty(response.data)
      ensures !loading
    {
      if response.error.None? {
        var typedData := RowsOrEmpty(response.data);
        prospects := typedData;
        var statsData := TallyStages(typedData);
        stats := statsData;
      }
      loading := false;
    }
  }
}
