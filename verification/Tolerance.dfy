/** When the coordinator shows cached values, gives up and backs off, computed from its past reports alone. */
module Tolerance {
  import opened Wrappers
  import opened Coordinator

  /** Polling mode with the constants the coordinator ships. */
  function Polled(k: Coord, u: Update): (Coord, Report) {
    Updated(COOLDOWN_STEPS, RESUME_AFTER_PROBES, k, u)
  }

  function After(updates: seq<Update>): Coord {
    if updates == [] then UNLOADED else Polled(After(updates[..|updates| - 1]), updates[|updates| - 1]).0
  }

  function Reports(updates: seq<Update>): (reports: seq<Report>)
    ensures |reports| == |updates|
  {
    if updates == [] then []
    else
      var n := |updates| - 1;
      Reports(updates[..n]) + [Polled(After(updates[..n]), updates[n]).1]
  }

  /** Full reads failed in a row since the last good one or the last rest. */
  function MissesInARow(reports: seq<Report>): nat {
    if reports == [] then 0
    else
      var before := MissesInARow(reports[..|reports| - 1]);
      match reports[|reports| - 1]
      case Cached => before + 1
      case Unreachable => before + 1
      case Streaming => before
      case BridgePaused => before
      case _ => 0
  }

  /** Good probes in a row since the last failed one or the last full read. */
  function ConfirmedInARow(reports: seq<Report>): nat {
    if reports == [] then 0
    else
      var before := ConfirmedInARow(reports[..|reports| - 1]);
      match reports[|reports| - 1]
      case Confirming => before + 1
      case Streaming => before
      case BridgePaused => before
      case CoolingDown => before
      case _ => 0
  }

  ghost predicate Kept(k: Coord, reports: seq<Report>) {
    && (k.until.None? <==> k.index == 0)
    && (k.index == 0 ==> k.failures == MissesInARow(reports) && k.probes == 0 && ConfirmedInARow(reports) == 0)
    && (k.index > 0 ==> k.probes == ConfirmedInARow(reports) < 2)
    && (k.probes > 0 ==> MissesInARow(reports) == 0)
    && (k.hasData <==> Fresh in reports)
  }

  lemma LastReport(reports: seq<Report>, report: Report)
    ensures (reports + [report])[..|reports|] == reports
    ensures Fresh in reports + [report] <==> Fresh in reports || report == Fresh
  {
  }

  lemma UpdateKeeps(k: Coord, reports: seq<Report>, u: Update)
    requires Kept(k, reports)
    ensures Kept(Polled(k, u).0, reports + [Polled(k, u).1])
  {
    LastReport(reports, Polled(k, u).1);
  }

  lemma {:induction false} ReportsTell(updates: seq<Update>)
    ensures Kept(After(updates), Reports(updates))
  {
    hide Kept, Polled;
    if updates == [] {
      NothingYet();
    } else {
      var n := |updates| - 1;
      ReportsTell(updates[..n]);
      UpdateKeeps(After(updates[..n]), Reports(updates[..n]), updates[n]);
    }
  }

  lemma NothingYet()
    ensures Kept(UNLOADED, [])
  {
  }

  /**
   * After any updates, what the next one reports while no cooldown is set: a good read is shown; a failed one is
   * covered by the last values five times in a row, once anything has been read, and the sixth begins a rest of
   * five minutes. Before anything was read every failure is reported and none begins a rest.
   */
  lemma FiveMissesAreTolerated(updates: seq<Update>, u: Update)
    requires After(updates).until.None? && !u.blocked
    ensures var (k, report) := Polled(After(updates), u);
      var misses := MissesInARow(Reports(updates));
      var loaded := Fresh in Reports(updates);
      && (report.Fresh? <==> u.poll)
      && (report.Cached? <==> !u.poll && loaded && misses < 5)
      && (report.Unreachable? <==> !u.poll && !(loaded && misses < 5))
      && k.until == if !u.poll && loaded && misses >= 5 then Some(u.begun + 300.0) else None
  {
    hide Kept, After, Reports, MissesInARow;
    ReportsTell(updates);
    assert After(updates).index == 0 && After(updates).failures == MissesInARow(Reports(updates))
      && (After(updates).hasData <==> Fresh in Reports(updates)) by { KeptMeans(After(updates), Reports(updates)); }
  }

  lemma KeptMeans(k: Coord, reports: seq<Report>)
    requires Kept(k, reports)
    ensures k.until.None? <==> k.index == 0
    ensures k.index == 0 ==> k.failures == MissesInARow(reports)
    ensures k.index > 0 ==> k.probes == ConfirmedInARow(reports) < 2
    ensures k.hasData <==> Fresh in reports
  {
  }

  /**
   * And while one is set: nothing before its end; then a failed probe extends it, the first good one is only
   * noted, and the second in a row is followed by a full read with a clean slate.
   */
  lemma SecondGoodProbeReads(updates: seq<Update>, u: Update)
    requires After(updates).until.Some? && !u.blocked
    ensures var until := After(updates).until.value;
      var (k, report) := Polled(After(updates), u);
      var confirmed := ConfirmedInARow(Reports(updates));
      && confirmed < 2
      && (report.CoolingDown? <==> u.entered < until)
      && (report.StillWedged? <==> u.entered >= until && !u.probe)
      && (report.Confirming? <==> u.entered >= until && u.probe && confirmed == 0)
      && (report.Fresh? || report.Cached? || report.Unreachable? <==> u.entered >= until && u.probe && confirmed == 1)
      && (report.Fresh? || report.Cached? || report.Unreachable? ==> k.until.None? && k.index == 0 && k.probes == 0)
      && (report.Cached? ==> k.failures == 1)
      && (report.CoolingDown? || report.Confirming? ==> k.until == After(updates).until)
  {
    hide Kept, After, Reports, ConfirmedInARow;
    ReportsTell(updates);
    KeptMeans(After(updates), Reports(updates));
  }

  /** A blocking bridge suspends everything: no read, no count, no change. */
  lemma BlockedChangesNothing(k: Coord, u: Update)
    ensures u.blocked <==> Polled(k, u).1.BridgePaused?
    ensures u.blocked ==> Polled(k, u).0 == k
  {
  }
}
