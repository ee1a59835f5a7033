/** The batch controller `process_tickets`: segmentation, one extraction per
    unit, numbering, balance repair, rejections and alerts, then the three
    optional outputs and the summary. The batch's accumulators are the fields of
    a `Batch` object that each processed unit updates; `Step` and `Run` state
    the same updates as functions, and the lemmas below are about them. */
module Pipeline {
  import opened Common
  import opened Strings
  import opened Segmenter
  import opened Extraction
  import opened Balance
  import opened Ledger

  /** Reason used when a rejection names none (line 419). */
  const DefaultReason: string := "Document inexploitable"

  /** One row of the rejection report: `{'filename': ..., 'raison': ...}`. */
  datatype Rejection = Rejection(filename: string, reason: string)

  /** One record of `results_detail`. */
  datatype Detail =
    | Accepted(filename: string, reference: string, entries: seq<Entry>)
    | Rejected(filename: string, reason: string)

  /** Line 421: the alert for a rejected unit. It names no group, so it cannot
      be mistaken for an imbalance alert. */
  function RejectionAlert(filename: string, reason: string): (alert: string)
    ensures AlertGroup(alert) == None
  {
    "!! " + filename + " : " + reason
  }

  /** The accumulators of `process_tickets`: `all_ecritures`, `exploited_pdfs`,
      `inexploitable_tickets`, `alerts`, `results_detail` and `ticket_num`. */
  datatype BatchState = BatchState(
    entries: seq<Entry>,
    stamped: seq<seq<Page>>,
    rejected: seq<Rejection>,
    alerts: seq<string>,
    details: seq<Detail>,
    ticketNum: nat)

  /** Lines 366-371. */
  const Start: BatchState := BatchState([], [], [], [], [], 1)

  /** `stamp_pdf_with_s`: every page gets the overlay, in order. */
  function Stamp(pages: seq<Page>): seq<Page>
  {
    seq(|pages|, i requires 0 <= i < |pages| => Stamped(pages[i]))
  }

  /** Removes the overlay: the pages a stamped document was made from. */
  function Unstamp(pages: seq<Page>): seq<Page>
  {
    seq(|pages|, i requires 0 <= i < |pages| => if pages[i].Stamped? then pages[i].under else pages[i])
  }

  lemma UnstampAppend(ps: seq<Page>, qs: seq<Page>)
    ensures Unstamp(ps + qs) == Unstamp(ps) + Unstamp(qs)
  {
  }

  /** The alerts the loop appends for one unit, `k` being the number it gets if
      accepted: the imbalance alert of line 400 when its normalised lines differ
      by more than a cent, none when they do not, and the rejection alert of
      line 421 when it is rejected. */
  function UnitAlerts(u: Unit, p: Proposal, k: nat): seq<string>
  {
    if p.exploitable then
      var es := NormalizeAll(p.entries, k);
      if NeedsRepair(SumDebit(es), SumCredit(es))
      then [ImbalanceAlert(k, u.filename, SumDebit(es), SumCredit(es))]
      else []
    else [RejectionAlert(u.filename, p.reason.GetOr(DefaultReason))]
  }

  /** Lines 384-427 for one unit, given the adapter's answer for it. Every
      accumulator only grows, the counter moves on exactly when the unit is
      accepted, and one record is added. */
  function Step(s: BatchState, u: Unit, p: Proposal): (s': BatchState)
    ensures Extends(s, s')
    ensures s'.ticketNum == s.ticketNum + (if p.exploitable then 1 else 0)
    ensures |s'.details| == |s.details| + 1
  {
    if p.exploitable then
      var k := s.ticketNum;
      var r := Reconcile(NormalizeAll(p.entries, k), k, u.filename);
      BatchState(s.entries + r.entries, s.stamped + [Stamp(u.pages)], s.rejected,
                 s.alerts + r.alerts, s.details + [Accepted(u.filename, Ref(k), r.entries)], k + 1)
    else
      var reason := p.reason.GetOr(DefaultReason);
      BatchState(s.entries, s.stamped, s.rejected + [Rejection(u.filename, reason)],
                 s.alerts + [RejectionAlert(u.filename, reason)],
                 s.details + [Rejected(u.filename, reason)], s.ticketNum)
  }

  /** One step appends exactly the unit's alerts. */
  lemma StepAlerts(s: BatchState, u: Unit, p: Proposal)
    ensures Step(s, u, p).alerts == s.alerts + UnitAlerts(u, p, s.ticketNum)
  {
  }

  /** The adapter's answer for every unit, in order: once the collaborators are
      fixed, the batch is a function of these answers. */
  function Answers(services: Services, units: seq<Unit>): seq<Proposal>
  {
    seq(|units|, i requires 0 <= i < |units| => Analyze(services, units[i]))
  }

  /** The state after the loop at lines 383-427 has processed `units` in order,
      the i-th unit having been answered `answers[i]`. */
  function Run(units: seq<Unit>, answers: seq<Proposal>): (s: BatchState)
    requires |answers| == |units|
    ensures |s.details| == |units|
    ensures s.ticketNum == CountExploitable(answers) + 1
  {
    if units == [] then Start
    else
      var n := |units| - 1;
      Step(Run(units[..n], answers[..n]), units[n], answers[n])
  }

  /** Number of exploitable answers. */
  function CountExploitable(answers: seq<Proposal>): nat
  {
    if answers == [] then 0
    else CountExploitable(answers[..|answers| - 1]) + (if answers[|answers| - 1].exploitable then 1 else 0)
  }

  /** The alerts of each unit, in processing order, each unit being numbered
      one more than the number of units accepted before it. */
  function AlertGroups(units: seq<Unit>, answers: seq<Proposal>): (gs: seq<seq<string>>)
    requires |answers| == |units|
    ensures |gs| == |units|
  {
    if units == [] then []
    else
      var n := |units| - 1;
      AlertGroups(units[..n], answers[..n]) + [UnitAlerts(units[n], answers[n], CountExploitable(answers[..n]) + 1)]
  }

  /** The `alerts` list, which the ledger's `ALERTES` block shows, is each unit's
      alerts in processing order: one rejection alert per rejected unit, one
      imbalance alert per accepted unit whose group needs repair, and nothing
      else. */
  lemma {:induction false} RunAlerts(units: seq<Unit>, answers: seq<Proposal>)
    requires |answers| == |units|
    ensures Run(units, answers).alerts == Concat(AlertGroups(units, answers))
  {
    if units != [] {
      var n := |units| - 1;
      RunAlerts(units[..n], answers[..n]);
      StepAlerts(Run(units[..n], answers[..n]), units[n], answers[n]);
      ConcatSnoc(AlertGroups(units, answers), AlertGroups(units[..n], answers[..n]),
                 UnitAlerts(units[n], answers[n], CountExploitable(answers[..n]) + 1));
    }
  }

  // ----- Views of `results_detail` -----

  /** References of the accepted records, in order. */
  function AcceptedRefs(ds: seq<Detail>): seq<string>
  {
    if ds == [] then []
    else AcceptedRefs(ds[..|ds| - 1]) + (if ds[|ds| - 1].Accepted? then [ds[|ds| - 1].reference] else [])
  }

  /** Entries of the accepted records, in order. */
  function AcceptedEntries(ds: seq<Detail>): seq<Entry>
  {
    if ds == [] then []
    else AcceptedEntries(ds[..|ds| - 1]) + (if ds[|ds| - 1].Accepted? then ds[|ds| - 1].entries else [])
  }

  /** Rejection rows of the rejected records, in order. */
  function RejectionsOf(ds: seq<Detail>): seq<Rejection>
  {
    if ds == [] then []
    else
      var d := ds[|ds| - 1];
      RejectionsOf(ds[..|ds| - 1]) + (if d.Rejected? then [Rejection(d.filename, d.reason)] else [])
  }

  /** `T1`, `T2`, ..., `Tn`. */
  function Numbered(n: nat): seq<string>
  {
    seq(n, j requires 0 <= j < n => Ref(j + 1))
  }

  /** The invariants the batch loop keeps: the counter is one past the number of
      accepted units; every record is accepted or rejected; the accepted records
      carry `T1`..`TA` in order; the ledger lines are exactly the accepted
      records' lines, each tagged with its record's reference; the rejection
      list is exactly the rejected records. */
  predicate Consistent(s: BatchState)
  {
    && s.ticketNum == |s.stamped| + 1
    && |s.details| == |s.stamped| + |s.rejected|
    && AcceptedRefs(s.details) == Numbered(|s.stamped|)
    && s.entries == AcceptedEntries(s.details)
    && s.rejected == RejectionsOf(s.details)
    && forall i, e :: 0 <= i < |s.details| && s.details[i].Accepted? && e in s.details[i].entries
                      ==> e.reference == s.details[i].reference
  }

  /** Processing a unit keeps the batch consistent. */
  lemma StepConsistent(s: BatchState, u: Unit, p: Proposal)
    requires Consistent(s)
    ensures Consistent(Step(s, u, p))
  {
    var s' := Step(s, u, p);
    var ds' := s'.details;
    assert ds'[..|ds'| - 1] == s.details;
    if p.exploitable {
      var k := s.ticketNum;
      var es := NormalizeAll(p.entries, k);
      var r := Reconcile(es, k, u.filename);
      assert Numbered(|s.stamped|) + [Ref(k)] == Numbered(|s'.stamped|);
      forall e | e in r.entries
        ensures e.reference == Ref(k)
      {
        var j :| 0 <= j < |r.entries| && r.entries[j] == e;
        assert e == es[j].(credit := e.credit);
      }
    }
  }

  /** The whole batch loop keeps the invariants. */
  lemma {:induction false} RunConsistent(units: seq<Unit>, answers: seq<Proposal>)
    requires |answers| == |units|
    ensures Consistent(Run(units, answers))
  {
    if units == [] {
      assert Numbered(0) == [];
    } else {
      var n := |units| - 1;
      RunConsistent(units[..n], answers[..n]);
      StepConsistent(Run(units[..n], answers[..n]), units[n], answers[n]);
    }
  }

  /** One more unit is one more step. */
  lemma RunExtend(units: seq<Unit>, answers: seq<Proposal>, i: nat)
    requires |answers| == |units| && i < |units|
    ensures Run(units[..i + 1], answers[..i + 1]) == Step(Run(units[..i], answers[..i]), units[i], answers[i])
  {
    assert units[..i + 1][..i] == units[..i] && answers[..i + 1][..i] == answers[..i];
  }

  /** Every accumulator of `after` starts with the one of `before`, and the
      counter has not gone down. */
  predicate Extends(before: BatchState, after: BatchState)
  {
    && before.entries <= after.entries
    && before.stamped <= after.stamped
    && before.rejected <= after.rejected
    && before.alerts <= after.alerts
    && before.details <= after.details
    && before.ticketNum <= after.ticketNum
  }

  /** Append-only: processing more units only extends every accumulator. */
  lemma {:induction false} RunAppendOnly(units: seq<Unit>, answers: seq<Proposal>, i: nat)
    requires |answers| == |units|
    requires i <= |units|
    ensures Extends(Run(units[..i], answers[..i]), Run(units, answers))
    decreases |units|
  {
    if i == |units| {
      assert units[..i] == units && answers[..i] == answers;
    } else {
      var n := |units| - 1;
      assert units[..n][..i] == units[..i] && answers[..n][..i] == answers[..i];
      RunAppendOnly(units[..n], answers[..n], i);
    }
  }

  /** Number of accepted records. */
  function CountAccepted(ds: seq<Detail>): nat
  {
    |AcceptedRefs(ds)|
  }

  /** What the record of unit `u` says, `p` being the answer for it and `k` one
      more than the number of units accepted before it: same filename; accepted
      exactly when the answer was exploitable; an accepted record holds `T<k>`
      and the unit's proposed lines normalised and reconciled under that
      reference; a rejected record holds the stated reason or the default one. */
  predicate DetailMatches(u: Unit, p: Proposal, d: Detail, k: nat)
  {
    && d.filename == u.filename
    && (d.Accepted? <==> p.exploitable)
    && (d.Accepted? ==>
          d.reference == Ref(k)
          && d.entries == Reconcile(NormalizeAll(p.entries, k), k, u.filename).entries)
    && (d.Rejected? ==> d.reason == p.reason.GetOr(DefaultReason))
  }

  /** Record i of `ds` is the record of unit i. */
  predicate DetailFor(units: seq<Unit>, answers: seq<Proposal>, ds: seq<Detail>, i: nat)
    requires |answers| == |units| && i < |units|
  {
    i < |ds| && DetailMatches(units[i], answers[i], ds[i], CountAccepted(ds[..i]) + 1)
  }

  /** One step appends the record of its unit. */
  lemma StepDetail(s: BatchState, u: Unit, p: Proposal)
    requires Consistent(s)
    ensures var ds := Step(s, u, p).details;
            && |ds| == |s.details| + 1
            && ds[..|s.details|] == s.details
            && DetailMatches(u, p, ds[|s.details|], CountAccepted(s.details) + 1)
  {
    assert |AcceptedRefs(s.details)| == |Numbered(|s.stamped|)|;
  }

  /** `results_detail` has one record per unit, in processing order, each as
      `DetailFor` describes. */
  lemma {:induction false} RunDetails(units: seq<Unit>, answers: seq<Proposal>)
    requires |answers| == |units|
    ensures |Run(units, answers).details| == |units|
    ensures forall i :: 0 <= i < |units| ==> DetailFor(units, answers, Run(units, answers).details, i)
  {
    if units != [] {
      var n := |units| - 1;
      var s := Run(units[..n], answers[..n]);
      RunDetails(units[..n], answers[..n]);
      RunConsistent(units[..n], answers[..n]);
      StepDetail(s, units[n], answers[n]);
      DetailsExtend(units, answers, n, s.details, Run(units, answers).details);
    }
  }

  /** Appending the record of the last unit to the records of the others gives
      the records of all units. */
  lemma DetailsExtend(units: seq<Unit>, answers: seq<Proposal>, n: nat, prev: seq<Detail>, ds: seq<Detail>)
    requires |answers| == |units| == n + 1
    requires |prev| == n && |ds| == n + 1
    requires forall i :: 0 <= i < n ==> DetailFor(units[..n], answers[..n], prev, i)
    requires ds[..n] == prev
    requires DetailMatches(units[n], answers[n], ds[n], CountAccepted(prev) + 1)
    ensures forall i :: 0 <= i < |units| ==> DetailFor(units, answers, ds, i)
  {
    forall i | 0 <= i < |units|
      ensures DetailFor(units, answers, ds, i)
    {
      if i < n {
        assert DetailFor(units[..n], answers[..n], ds[..n], i);
        DetailForPrefix(units, answers, ds, n, i);
      }
    }
  }

  /** A record that describes its unit in a prefix of the batch still does in
      the whole batch. */
  lemma DetailForPrefix(units: seq<Unit>, answers: seq<Proposal>, ds: seq<Detail>, n: nat, i: nat)
    requires |answers| == |units| && n <= |units| && n <= |ds| && i < n
    requires DetailFor(units[..n], answers[..n], ds[..n], i)
    ensures DetailFor(units, answers, ds, i)
  {
    assert ds[..n][..i] == ds[..i];
  }

  /** Different reference numbers give different references. */
  lemma NumberedDistinct(n: nat)
    ensures forall i, j :: 0 <= i < j < n ==> Numbered(n)[i] != Numbered(n)[j]
  {
    forall i, j | 0 <= i < j < n
      ensures Numbered(n)[i] != Numbered(n)[j]
    {
      if Ref(i + 1) == Ref(j + 1) {
        RefInjective(i + 1, j + 1);
      }
    }
  }

  /** Numbering has no gaps and no reuse: the accepted units carry `T1`..`TA` in
      processing order, A being the number of accepted units, no two of them
      share a reference, and the counter stands at A + 1. */
  lemma NumberingWithoutGaps(units: seq<Unit>, answers: seq<Proposal>)
    requires |answers| == |units|
    ensures var s := Run(units, answers);
            && AcceptedRefs(s.details) == Numbered(|s.stamped|)
            && s.ticketNum == |s.stamped| + 1
            && forall i, j :: 0 <= i < j < |s.stamped| ==> AcceptedRefs(s.details)[i] != AcceptedRefs(s.details)[j]
  {
    RunConsistent(units, answers);
    NumberedDistinct(|Run(units, answers).stamped|);
  }

  /** Partition: every unit is either accepted or rejected, never both. */
  lemma RunPartition(units: seq<Unit>, answers: seq<Proposal>)
    requires |answers| == |units|
    ensures var s := Run(units, answers);
            |s.details| == |units| == |s.stamped| + |s.rejected|
  {
    RunConsistent(units, answers);
    RunDetails(units, answers);
  }

  /** If every accepted group balances, so does the whole ledger. */
  lemma {:induction false} GroupsBalanceBatch(ds: seq<Detail>)
    requires forall i :: 0 <= i < |ds| && ds[i].Accepted? ==> SumDebit(ds[i].entries) == SumCredit(ds[i].entries)
    ensures SumDebit(AcceptedEntries(ds)) == SumCredit(AcceptedEntries(ds))
  {
    if ds != [] {
      var n := |ds| - 1;
      GroupsBalanceBatch(ds[..n]);
      SumAppend(AcceptedEntries(ds[..n]), if ds[n].Accepted? then ds[n].entries else []);
    }
  }

  /** The pages of the accepted units, in processing order. */
  function AcceptedPages(units: seq<Unit>, answers: seq<Proposal>): seq<Page>
    requires |answers| == |units|
  {
    if units == [] then []
    else
      var n := |units| - 1;
      AcceptedPages(units[..n], answers[..n]) + (if answers[n].exploitable then units[n].pages else [])
  }

  /** The stamped bundle, once its overlays are removed, is the accepted units'
      pages in processing order. */
  lemma {:induction false} StampedBundleRoundTrip(units: seq<Unit>, answers: seq<Proposal>)
    requires |answers| == |units|
    ensures Unstamp(Concat(Run(units, answers).stamped)) == AcceptedPages(units, answers)
  {
    if units != [] {
      var n := |units| - 1;
      var s := Run(units[..n], answers[..n]);
      StampedBundleRoundTrip(units[..n], answers[..n]);
      if answers[n].exploitable {
        var st := s.stamped + [Stamp(units[n].pages)];
        assert st[..|st| - 1] == s.stamped;
        UnstampAppend(Concat(s.stamped), Stamp(units[n].pages));
        assert Unstamp(Stamp(units[n].pages)) == units[n].pages;
      }
    }
  }

  predicate SomeAccepted(answers: seq<Proposal>) {
    exists i :: 0 <= i < |answers| && answers[i].exploitable
  }

  predicate SomeRejected(answers: seq<Proposal>) {
    exists i :: 0 <= i < |answers| && !answers[i].exploitable
  }

  predicate SomeAcceptedLine(answers: seq<Proposal>) {
    exists i :: 0 <= i < |answers| && answers[i].exploitable && answers[i].entries != []
  }

  lemma SomeSplit(answers: seq<Proposal>)
    requires answers != []
    ensures var n := |answers| - 1;
            && (SomeAccepted(answers) <==> SomeAccepted(answers[..n]) || answers[n].exploitable)
            && (SomeRejected(answers) <==> SomeRejected(answers[..n]) || !answers[n].exploitable)
            && (SomeAcceptedLine(answers) <==>
                  SomeAcceptedLine(answers[..n]) || (answers[n].exploitable && answers[n].entries != []))
  {
    var n := |answers| - 1;
    assert forall i :: 0 <= i < n ==> answers[..n][i] == answers[i];
    if SomeAccepted(answers) {
      var i :| 0 <= i < |answers| && answers[i].exploitable;
      if i < n { assert answers[..n][i].exploitable; }
    }
    if SomeRejected(answers) {
      var i :| 0 <= i < |answers| && !answers[i].exploitable;
      if i < n { assert !answers[..n][i].exploitable; }
    }
    if SomeAcceptedLine(answers) {
      var i :| 0 <= i < |answers| && answers[i].exploitable && answers[i].entries != [];
      if i < n { assert answers[..n][i].exploitable && answers[..n][i].entries != []; }
    }
  }

  /** The accumulators behind the three outputs are non-empty exactly when some
      accepted unit proposed a line, some unit was accepted, and some unit was
      rejected, respectively. */
  lemma {:induction false} RunPresence(units: seq<Unit>, answers: seq<Proposal>)
    requires |answers| == |units|
    ensures var s := Run(units, answers);
            && (s.entries != [] <==> SomeAcceptedLine(answers))
            && (s.stamped != [] <==> SomeAccepted(answers))
            && (s.rejected != [] <==> SomeRejected(answers))
  {
    if units != [] {
      var n := |units| - 1;
      var s := Run(units[..n], answers[..n]);
      RunPresence(units[..n], answers[..n]);
      SomeSplit(answers);
      var p := answers[n];
      if p.exploitable {
        var k := s.ticketNum;
        assert |Reconcile(NormalizeAll(p.entries, k), k, units[n].filename).entries| == |p.entries|;
      }
    }
  }

  // ----- Outputs and summary -----

  datatype Summary = Summary(
    total: nat,
    accepted: nat,
    rejected: nat,
    totalDebit: int,
    totalCredit: int,
    balanced: bool)

  /** A produced file: its timestamped name and its logical content. */
  datatype Artifact<T> = Artifact(name: string, content: T)

  /** `output_files`: the ledger, the stamped bundle and the rejection report,
      each present or absent. */
  datatype Outputs = Outputs(
    ledger: Option<Artifact<seq<Row>>>,
    stampedBundle: Option<Artifact<seq<Page>>>,
    report: Option<Artifact<seq<Rejection>>>)

  datatype BatchResult = BatchResult(outputs: Outputs, details: seq<Detail>, summary: Summary)

  /** The whole call: a result, or the abort caused by a file the PDF reader
      cannot open. */
  datatype Outcome = Done(result: BatchResult) | Failed(malformed: string)

  /** Lines 429-464, given the state after the loop, the number of units and the
      caller's timestamp. */
  function Assemble(s: BatchState, total: nat, timestamp: string): (r: BatchResult)
    ensures r.outputs.ledger.Some? <==> s.entries != []
    ensures r.outputs.stampedBundle.Some? <==> s.stamped != []
    ensures r.outputs.report.Some? <==> s.rejected != []
    ensures r.outputs.ledger.Some? ==> r.outputs.ledger.value.content == LedgerRows(s.entries, s.alerts)
    ensures r.outputs.stampedBundle.Some? ==> r.outputs.stampedBundle.value.content == Concat(s.stamped)
    ensures r.outputs.report.Some? ==> r.outputs.report.value.content == s.rejected
    ensures r.details == s.details
    ensures r.summary == Summary(total, |s.stamped|, |s.rejected|, SumDebit(s.entries), SumCredit(s.entries),
                                 SumDebit(s.entries) == SumCredit(s.entries))
  {
    var ledger := if s.entries != [] then Some(Artifact("Sage_import_" + timestamp + ".xlsx", LedgerRows(s.entries, s.alerts))) else None;
    var bundle := if s.stamped != [] then Some(Artifact("Tickets_exploites_S_" + timestamp + ".pdf", Concat(s.stamped))) else None;
    var report := if s.rejected != [] then Some(Artifact("Justificatifs_inexploites_" + timestamp + ".pdf", s.rejected)) else None;
    var d, c := SumDebit(s.entries), SumCredit(s.entries);
    BatchResult(Outputs(ledger, bundle, report), s.details,
                Summary(total, |s.stamped|, |s.rejected|, d, c, Balanced(d, c)))
  }

  /** `process_tickets(files_data)` as a function of the submissions, the
      collaborators and the timestamp. */
  function BatchOutcome(files: seq<Submission>, services: Services, timestamp: string): (r: Outcome)
    ensures r.Failed? <==> exists i :: 0 <= i < |files| && files[i].pdf.None?
    ensures r.Failed? ==>
      exists i :: 0 <= i < |files| && files[i].pdf.None? && r.malformed == files[i].filename
                  && forall j :: 0 <= j < i ==> files[j].pdf.Some?
  {
    SegmentFailsOnFirstMalformed(files);
    match Segment(files)
    case Malformed(f) => Failed(f)
    case Units(us) => Done(Assemble(Run(us, Answers(services, us)), |us|, timestamp))
  }

  /** The summary's counts: every unit is counted once, as accepted or rejected,
      and `results_detail` has one record per unit. */
  lemma SummaryCounts(files: seq<Submission>, services: Services, timestamp: string)
    requires Segment(files).Units?
    ensures var units := Segment(files).units;
            var r := BatchOutcome(files, services, timestamp).result;
            && r.summary.total == |units| == r.summary.accepted + r.summary.rejected
            && |r.details| == |units|
  {
    var units := Segment(files).units;
    RunPartition(units, Answers(services, units));
  }

  /** Which outputs exist: the ledger iff some accepted unit proposed at least one
      line; the stamped bundle iff some unit was accepted; the report iff some
      unit was rejected. */
  lemma OutputsPresence(files: seq<Submission>, services: Services, timestamp: string)
    requires Segment(files).Units?
    ensures var units := Segment(files).units;
            var out := BatchOutcome(files, services, timestamp).result.outputs;
            var answers := Answers(services, units);
            && (out.ledger.Some? <==> SomeAcceptedLine(answers))
            && (out.stampedBundle.Some? <==> SomeAccepted(answers))
            && (out.report.Some? <==> SomeRejected(answers))
  {
    var units := Segment(files).units;
    RunPresence(units, Answers(services, units));
  }

  /** The summary's balance flag and the ledger's control row agree: both say
      balanced exactly when total debit equals total credit, and the control
      row shows the summary's totals. */
  lemma SummaryMatchesLedger(s: BatchState, total: nat, timestamp: string)
    requires s.entries != []
    ensures var r := Assemble(s, total, timestamp);
            && r.outputs.ledger.Some?
            && r.outputs.ledger.value.content[|s.entries| + 2]
               == Control(if r.summary.balanced then StatusOk else StatusError,
                          r.summary.totalDebit, r.summary.totalCredit)
            && (r.summary.balanced <==> r.summary.totalDebit == r.summary.totalCredit)
  {
    LedgerLayout(s.entries, s.alerts);
  }

  /** The batch's balance flag is set whenever every accepted group balances
      after repair. */
  lemma BalancedWhenGroupsBalance(s: BatchState, total: nat, timestamp: string)
    requires Consistent(s)
    requires forall i :: 0 <= i < |s.details| && s.details[i].Accepted? ==>
               SumDebit(s.details[i].entries) == SumCredit(s.details[i].entries)
    ensures Assemble(s, total, timestamp).summary.balanced
  {
    GroupsBalanceBatch(s.details);
  }

  // ----- The imperative controller -----

  /** The working state of one `process_tickets` call. */
  class Batch {
    var entries: seq<Entry>
    var stamped: seq<seq<Page>>
    var rejected: seq<Rejection>
    var alerts: seq<string>
    var details: seq<Detail>
    var ticketNum: nat

    function State(): BatchState
      reads this
    {
      BatchState(entries, stamped, rejected, alerts, details, ticketNum)
    }

    ghost predicate Valid()
      reads this
    {
      Consistent(State())
    }

    constructor ()
      ensures State() == Start && Valid()
    {
      entries, stamped, rejected, alerts, details, ticketNum := [], [], [], [], [], 1;
      new;
      assert Numbered(0) == [];
    }

    /** Lines 384-427: analyse one unit and record the outcome. */
    method ProcessUnit(u: Unit, services: Services)
      requires Valid()
      modifies this
      ensures Valid()
      ensures State() == Step(old(State()), u, Analyze(services, u))
    {
      var result := Analyze(services, u);
      Record(u, result);
    }

    /** Lines 390-427: update the accumulators with the answer for one unit. */
    method Record(u: Unit, result: Proposal)
      requires Valid()
      modifies this
      ensures Valid()
      ensures State() == Step(old(State()), u, result)
    {
      ghost var before := State();
      StepConsistent(before, u, result);
      if result.exploitable {
        var k := ticketNum;
        var es := NormalizeEntries(result.entries, k);
        var repaired, alert := RepairGroup(es, k, u.filename);
        alerts := alerts + alert;
        entries := entries + repaired;
        stamped := stamped + [Stamp(u.pages)];
        details := details + [Accepted(u.filename, Ref(k), repaired)];
        ticketNum := k + 1;
      } else {
        var reason := result.reason.GetOr(DefaultReason);
        rejected := rejected + [Rejection(u.filename, reason)];
        alerts := alerts + [RejectionAlert(u.filename, reason)];
        details := details + [Rejected(u.filename, reason)];
      }
    }

    /** Lines 429-464: the outputs that exist and the summary. */
    method Finish(total: nat, timestamp: string) returns (result: BatchResult)
      ensures result == Assemble(State(), total, timestamp)
    {
      var ledger: Option<Artifact<seq<Row>>> := None;
      if entries != [] {
        var rows := CreateExcel(entries, alerts);
        ledger := Some(Artifact("Sage_import_" + timestamp + ".xlsx", rows));
      }
      var bundle: Option<Artifact<seq<Page>>> := None;
      if stamped != [] {
        bundle := Some(Artifact("Tickets_exploites_S_" + timestamp + ".pdf", Concat(stamped)));
      }
      var report: Option<Artifact<seq<Rejection>>> := None;
      if rejected != [] {
        report := Some(Artifact("Justificatifs_inexploites_" + timestamp + ".pdf", rejected));
      }
      var totalDebit, totalCredit := SumDebit(entries), SumCredit(entries);
      var summary := Summary(total, |stamped|, |rejected|, totalDebit, totalCredit,
                             Abs(totalDebit - totalCredit) < 1);
      result := BatchResult(Outputs(ledger, bundle, report), details, summary);
    }
  }

  /** Lines 397-403 on one group: the repaired group and the alerts to append. */
  method RepairGroup(es: seq<Entry>, k: nat, filename: string) returns (repaired: seq<Entry>, alerts: seq<string>)
    ensures Reconciliation(repaired, alerts) == Reconcile(es, k, filename)
  {
    var totalDebit, totalCredit := SumDebit(es), SumCredit(es);
    repaired, alerts := es, [];
    if Abs(totalDebit - totalCredit) > 1 {
      alerts := [ImbalanceAlert(k, filename, totalDebit, totalCredit)];
      var bank := FirstBank(es);
      if bank.Some? {
        repaired := es[bank.value := es[bank.value].(credit := totalDebit)];
      }
    }
  }

  /** The loop at lines 383-427 over all units, on a fresh batch. */
  method ProcessUnits(units: seq<Unit>, services: Services) returns (batch: Batch)
    ensures fresh(batch)
    ensures batch.Valid()
    ensures batch.State() == Run(units, Answers(services, units))
  {
    ghost var answers := Answers(services, units);
    batch := new Batch();
    for i := 0 to |units|
      invariant batch.Valid()
      invariant batch.State() == Run(units[..i], answers[..i])
    {
      RunExtend(units, answers, i);
      batch.ProcessUnit(units[i], services);
    }
    assert units[..|units|] == units && answers[..|units|] == answers;
  }

  /** `process_tickets(files_data)`. */
  method ProcessTickets(files: seq<Submission>, services: Services, timestamp: string)
    returns (outcome: Outcome)
    ensures outcome == BatchOutcome(files, services, timestamp)
  {
    var segmentation := SplitSubmissions(files);
    if segmentation.Malformed? {
      return Failed(segmentation.filename);
    }
    var units := segmentation.units;
    var batch := ProcessUnits(units, services);
    var result := batch.Finish(|units|, timestamp);
    outcome := Done(result);
  }
}
