/**
 What a run of the pipeline leaves behind, said in terms of its rows and settings: which rows were merged, with which
 flags and snapshot, what the edges count, and what the statistics count.
 */
module PipelineEvidence {
  import opened Collections
  import opened BlockKeys
  import opened Adjacency
  import opened GraphBuild
  import opened GraphPipeline

  /** The job carries its row's map, parser and placements, the snapshot in force, and the flags of its map. */
  ghost predicate FromRow(j: Job, row: Row, c: Settings) {
    && j.claim.mapId == row.id && j.claim.parser == row.parser && j.placements == row.placements
    && (match c.snapshot
        case Some(s) => j.claim.snapshot == s
        case None => row.stored.Some? && j.claim.snapshot == row.stored.value)
    && (j.bench <==> j.claim.mapId in c.bench)
    && (j.broken <==> j.claim.mapId in c.broken)
  }

  lemma {:induction false} JobIsFromRow(row: Row, c: Settings)
    ensures JobOf(row, c).None? <==> c.snapshot.None? && row.stored.None?
    ensures JobOf(row, c).Some? ==> FromRow(JobOf(row, c).value, row, c)
  {}

  // ----- which rows are merged -----

  /**
   Row `i` is merged: it has placements and a snapshot, its transactions go through, and its claim was neither there
   before the run nor asked for by an earlier row.
   */
  ghost predicate Wins(s: System, rows: seq<Row>, c: Settings, faults: seq<Fault>, i: nat)
    requires i < |rows| == |faults|
  {
    var j := JobOf(rows[i], c);
    && rows[i].placements != [] && j.Some? && faults[i] != ClaimFails && Merges(j.value, faults[i])
    && j.value.claim !in s.graph.processed + AllAskedFor(rows[..i], c, faults[..i])
  }

  /** The jobs of the winning rows, in order. */
  ghost function WonJobs(s: System, rows: seq<Row>, c: Settings, faults: seq<Fault>, n: nat): seq<Job>
    requires n <= |rows| == |faults|
  {
    if n == 0 then []
    else WonJobs(s, rows, c, faults, n - 1) +
         if Wins(s, rows, c, faults, n - 1) then [JobOf(rows[n - 1], c).value] else []
  }

  lemma {:induction false} RowMerged(t: System, row: Row, c: Settings, fault: Fault)
    requires t.held == map[]
    ensures var j := JobOf(row, c);
            Run(t, StepsOf(row, c, fault)).log == t.log +
            if row.placements != [] && j.Some? && fault != ClaimFails && Merges(j.value, fault)
               && j.value.claim !in t.graph.processed then [j.value] else []
  {
    var j := JobOf(row, c);
    if !(row.placements == [] || j.None? || fault == ClaimFails) {
      JobRuns(t, j.value, fault);
    }
  }

  /** The history of a run is the history before it and the jobs of the winning rows. */
  lemma {:induction false} LogIsWonJobs(s: System, rows: seq<Row>, c: Settings, faults: seq<Fault>, n: nat)
    requires n <= |rows| == |faults| && s.held == map[]
    ensures LogAfter(s, rows, c, faults)(n) == s.log + WonJobs(s, rows, c, faults, n)
  {
    var log, won := LogAfter(s, rows, c, faults), (i: nat) => WonAt(s, rows, c, faults, i);
    assert log(0) == s.log by { assert rows[..0] == [] && faults[..0] == []; }
    forall i: nat | i < n ensures log(i + 1) == log(i) + won(i) {
      LogStep(s, rows, c, faults, i);
    }
    Grows(log, won, s.log, n);
    WonJobsJoin(s, rows, c, faults, won, n);
  }

  ghost function LogAfter(s: System, rows: seq<Row>, c: Settings, faults: seq<Fault>): nat -> seq<Job>
    requires |rows| == |faults|
  {
    (n: nat) => if n <= |rows| then Run(s, AllSteps(rows[..n], c, faults[..n])).log else []
  }

  ghost function WonAt(s: System, rows: seq<Row>, c: Settings, faults: seq<Fault>, i: nat): seq<Job>
    requires |rows| == |faults|
  {
    if i < |rows| && Wins(s, rows, c, faults, i) then [JobOf(rows[i], c).value] else []
  }

  ghost function Joined(parts: nat -> seq<Job>, n: nat): seq<Job> {
    if n == 0 then [] else Joined(parts, n - 1) + parts(n - 1)
  }

  lemma {:induction false} Grows(log: nat -> seq<Job>, parts: nat -> seq<Job>, base: seq<Job>, n: nat)
    requires log(0) == base && forall i: nat :: i < n ==> log(i + 1) == log(i) + parts(i)
    ensures log(n) == base + Joined(parts, n)
  {
    if n > 0 {
      Grows(log, parts, base, n - 1);
      assert log((n - 1) + 1) == log(n - 1) + parts(n - 1);
    }
  }

  lemma {:induction false} WonJobsJoin(s: System, rows: seq<Row>, c: Settings, faults: seq<Fault>,
                                       won: nat -> seq<Job>, n: nat)
    requires n <= |rows| == |faults| && forall i: nat :: won(i) == WonAt(s, rows, c, faults, i)
    ensures Joined(won, n) == WonJobs(s, rows, c, faults, n)
  {
    if n > 0 {
      WonJobsJoin(s, rows, c, faults, won, n - 1);
    }
  }

  lemma {:induction false} LogStep(s: System, rows: seq<Row>, c: Settings, faults: seq<Fault>, i: nat)
    requires i < |rows| == |faults| && s.held == map[]
    ensures Run(s, AllSteps(rows[..i + 1], c, faults[..i + 1])).log
         == Run(s, AllSteps(rows[..i], c, faults[..i])).log +
            if Wins(s, rows, c, faults, i) then [JobOf(rows[i], c).value] else []
  {
    var done, more := AllSteps(rows[..i], c, faults[..i]), StepsOf(rows[i], c, faults[i]);
    RunClaims(s, rows[..i], c, faults[..i]);
    RowMerged(Run(s, done), rows[i], c, faults[i]);
    assert Run(s, done + more) == Run(Run(s, done), more) by { RunAppend(s, done, more); }
    assert AllSteps(rows[..i + 1], c, faults[..i + 1]) == done + more by { StepsMore(rows, c, faults, i); }
  }

  lemma {:induction false} WonFromRows(s: System, rows: seq<Row>, c: Settings, faults: seq<Fault>, n: nat, j: Job)
    requires n <= |rows| == |faults| && j in WonJobs(s, rows, c, faults, n)
    ensures exists i :: 0 <= i < n && rows[i].placements != [] && FromRow(j, rows[i], c)
  {
    if j in WonJobs(s, rows, c, faults, n - 1) {
      WonFromRows(s, rows, c, faults, n - 1, j);
    } else {
      JobIsFromRow(rows[n - 1], c);
    }
  }

  /** Every job merged by a run from the empty store comes from a row of the run. */
  lemma {:induction false} MergedFromRows(rows: seq<Row>, c: Settings, faults: seq<Fault>, j: Job)
    requires |rows| == |faults| && j in Run(Start, AllSteps(rows, c, faults)).log
    ensures exists row :: row in rows && row.placements != [] && FromRow(j, row, c)
  {
    assert rows[..|rows|] == rows && faults[..|rows|] == faults;
    LogIsWonJobs(Start, rows, c, faults, |rows|);
    WonFromRows(Start, rows, c, faults, |rows|, j);
  }

  // ----- what the edges count -----

  /** The merged claims that show an edge and whose map is in the set. */
  ghost function ShownByMaps(log: seq<Job>, id: PairId, maps: set<int>): set<Claim> {
    set k | k in Claims(log, Shows(id)) && k.mapId in maps
  }

  ghost predicate Flagged(log: seq<Job>, c: Settings) {
    forall j :: j in log ==> (j.bench <==> j.claim.mapId in c.bench) && (j.broken <==> j.claim.mapId in c.broken)
  }

  lemma {:induction false} FlagsAreMaps(log: seq<Job>, c: Settings, id: PairId)
    requires Flagged(log, c)
    ensures Claims(log, ShowsBench(id)) == ShownByMaps(log, id, c.bench)
    ensures Claims(log, ShowsBroken(id)) == ShownByMaps(log, id, c.broken)
  {
    forall k ensures k in Claims(log, ShowsBench(id)) <==> k in ShownByMaps(log, id, c.bench) {
      if j :| j in log && Shows(id)(j) && j.claim == k && k.mapId in c.bench {
        assert ShowsBench(id)(j);
      }
      if j :| j in log && ShowsBench(id)(j) && j.claim == k {
        assert Shows(id)(j);
      }
    }
    forall k ensures k in Claims(log, ShowsBroken(id)) <==> k in ShownByMaps(log, id, c.broken) {
      if j :| j in log && Shows(id)(j) && j.claim == k && k.mapId in c.broken {
        assert ShowsBroken(id)(j);
      }
      if j :| j in log && ShowsBroken(id)(j) && j.claim == k {
        assert Shows(id)(j);
      }
    }
  }

  lemma {:induction false} RunFlagged(rows: seq<Row>, c: Settings, faults: seq<Fault>)
    requires |rows| == |faults|
    ensures Flagged(Run(Start, AllSteps(rows, c, faults)).log, c)
  {
    forall j | j in Run(Start, AllSteps(rows, c, faults)).log
      ensures (j.bench <==> j.claim.mapId in c.bench) && (j.broken <==> j.claim.mapId in c.broken)
    {
      MergedFromRows(rows, c, faults, j);
    }
  }

  /**
   The evidence of a run from the empty store: an edge is stored when a merged claim shows it, its benchmark count is
   the number of merged claims of benchmark maps that show it, its broken count that of broken fixtures; it is valid
   when a benchmark map shows it, and suspicious when only a broken one does.
   */
  lemma {:induction false} EvidenceOfRun(rows: seq<Row>, c: Settings, faults: seq<Fault>, id: PairId)
    requires |rows| == |faults|
    ensures var t := Run(Start, AllSteps(rows, c, faults));
            && (id in t.graph.edges <==> Claims(t.log, Shows(id)) != {})
            && (id in t.graph.edges ==>
                  var e := t.graph.edges[id];
                  && e.observed == |Claims(t.log, Shows(id))|
                  && e.bench == |ShownByMaps(t.log, id, c.bench)|
                  && e.broken == |ShownByMaps(t.log, id, c.broken)|
                  && (e.validity == Valid <==> ShownByMaps(t.log, id, c.bench) != {})
                  && (e.validity == Suspicious <==>
                        ShownByMaps(t.log, id, c.bench) == {} != ShownByMaps(t.log, id, c.broken)))
  {
    var steps := AllSteps(rows, c, faults);
    EveryInterleaving(steps, id);
    RunFlagged(rows, c, faults);
    FlagsAreMaps(Run(Start, steps).log, c, id);
    NoReplays(steps, id);
  }

  lemma {:induction false} NoReplays(steps: seq<Step>, id: PairId)
    ensures id in Run(Start, steps).graph.edges ==> Run(Start, steps).graph.edges[id].replay == 0
  {
    StartKeeps();
    RunKeeps(Start, steps);
    assert Says(Lookup(Run(Start, steps).graph.edges, id), TallyOf(Run(Start, steps).log, id));
  }

  // ----- what the statistics count -----

  /** How the rows end, in order. */
  ghost function Endings(s: System, rows: seq<Row>, c: Settings, faults: seq<Fault>): (es: seq<Ending>)
    requires |faults| == |rows|
    ensures |es| == |rows|
  {
    if rows == [] then []
    else
      var n := |rows| - 1;
      Endings(s, rows[..n], c, faults[..n]) +
      [RowEnding(Run(s, AllSteps(rows[..n], c, faults[..n])), rows[n], c, faults[n])]
  }

  predicate IsProcessed(e: Ending) { e.Processed? }
  predicate IsNoPlacements(e: Ending) { e.NoPlacements? }
  predicate IsAlready(e: Ending) { e.AlreadyProcessed? }
  predicate IsFailed(e: Ending) { e.Failed? }

  ghost function ObservationsIn(e: Ending): nat { if e.Processed? then e.observations else 0 }
  ghost function NodesIn(e: Ending): nat { if e.Processed? then e.nodes else 0 }

  /** Each statistic counts the rows that end its way, or adds up what they contributed. */
  ghost predicate Tallies(stats: Stats, es: seq<Ending>) {
    && stats.seen == |es|
    && stats.processed == |Filter(IsProcessed, es)|
    && stats.noPlacements == |Filter(IsNoPlacements, es)|
    && stats.alreadyProcessed == |Filter(IsAlready, es)|
    && stats.errors == |Filter(IsFailed, es)|
    && stats.observations == stats.edges == SumOver(ObservationsIn, es)
    && stats.nodes == SumOver(NodesIn, es)
  }

  lemma {:induction false} SeeRowTallies(stats: Stats, es: seq<Ending>, e: Ending)
    requires Tallies(stats, es)
    ensures Tallies(SeeRow(stats, e), es + [e])
  {
    FilterSnoc(IsProcessed, es, e);
    FilterSnoc(IsNoPlacements, es, e);
    FilterSnoc(IsAlready, es, e);
    FilterSnoc(IsFailed, es, e);
    SumOverSnoc(ObservationsIn, es, e);
    SumOverSnoc(NodesIn, es, e);
  }

  lemma {:induction false} StatsTallyEndings(s: System, rows: seq<Row>, c: Settings, faults: seq<Fault>)
    requires |faults| == |rows|
    ensures Tallies(StatsOf(s, rows, c, faults), Endings(s, rows, c, faults))
  {
    if rows != [] {
      var n := |rows| - 1;
      StatsTallyEndings(s, rows[..n], c, faults[..n]);
      SeeRowTallies(StatsOf(s, rows[..n], c, faults[..n]), Endings(s, rows[..n], c, faults[..n]),
                    RowEnding(Run(s, AllSteps(rows[..n], c, faults[..n])), rows[n], c, faults[n]));
    }
  }

  /** Which of the four ways a row ends, from what was claimed before the run and by the rows before it. */
  lemma {:induction false} EndingOf(s: System, rows: seq<Row>, c: Settings, faults: seq<Fault>, i: nat)
    requires i < |rows| == |faults| && s.held == map[]
    ensures var e := RowEnding(Run(s, AllSteps(rows[..i], c, faults[..i])), rows[i], c, faults[i]);
            var taken := s.graph.processed + AllAskedFor(rows[..i], c, faults[..i]);
            && (e.Processed? <==> Wins(s, rows, c, faults, i))
            && (e.NoPlacements? <==> rows[i].placements == [])
            && (e.AlreadyProcessed? <==> AsksFor(rows[i], c, faults[i]) != {}
                                         && AsksFor(rows[i], c, faults[i]) <= taken)
  {
    RunClaims(s, rows[..i], c, faults[..i]);
  }
}
