/** The logical row layout of the spreadsheet built by `create_excel`: a header,
    one row per entry, a blank row, the control row with both totals and the
    balance status, then, when there are alerts, a blank row, the `ALERTES`
    heading and one row per alert. Fonts, fills, borders and widths are not
    modelled. */
module Ledger {
  import opened Common
  import opened Balance

  const Columns: seq<string> := ["Date", "Reference", "Journal", "Compte", "Libelle", "Debit", "Credit"]
  const StatusOk: string := "OK - Equilibre"
  const StatusError: string := "ERREUR - Desequilibre"

  /** One logical row of the sheet. `Control` is the row labelled `CONTROLE`. */
  datatype Row =
    | Header(titles: seq<string>)
    | Line(date: string, reference: string, journal: string, account: string,
           description: string, debit: int, credit: int)
    | Blank
    | Control(status: string, debit: int, credit: int)
    | AlertsHeading
    | AlertLine(text: string)

  /** Lines 257-270: an entry's cells, with `''` for a missing field and `FCB`
      for a missing journal. */
  function LineOf(e: Entry): Row
  {
    Line(e.date.GetOr(""), e.reference, e.journal.GetOr("FCB"), e.account,
         e.description.GetOr(""), e.debit, e.credit)
  }

  /** Line 290: the status shown in the control row. */
  function Status(debit: int, credit: int): string
  {
    if Balanced(debit, credit) then StatusOk else StatusError
  }

  /** The sheet's rows for the given entries and alerts. */
  function LedgerRows(es: seq<Entry>, alerts: seq<string>): seq<Row>
  {
    [Header(Columns)]
    + seq(|es|, i requires 0 <= i < |es| => LineOf(es[i]))
    + [Blank, Control(Status(SumDebit(es), SumCredit(es)), SumDebit(es), SumCredit(es))]
    + (if alerts == [] then []
       else [Blank, AlertsHeading] + seq(|alerts|, i requires 0 <= i < |alerts| => AlertLine(alerts[i])))
  }

  /** Where each part of the ledger sits, and that the control row reads OK
      exactly when total debit equals total credit. */
  lemma LedgerLayout(es: seq<Entry>, alerts: seq<string>)
    ensures var rows := LedgerRows(es, alerts);
            && |rows| == |es| + 3 + (if alerts == [] then 0 else |alerts| + 2)
            && rows[0] == Header(Columns)
            && (forall i :: 0 <= i < |es| ==> rows[1 + i] == LineOf(es[i]))
            && rows[|es| + 1] == Blank
            && rows[|es| + 2].Control?
            && rows[|es| + 2].debit == SumDebit(es) && rows[|es| + 2].credit == SumCredit(es)
            && (rows[|es| + 2].status == StatusOk <==> SumDebit(es) == SumCredit(es))
            && (alerts != [] ==>
                  rows[|es| + 3] == Blank && rows[|es| + 4] == AlertsHeading
                  && forall j :: 0 <= j < |alerts| ==> rows[|es| + 5 + j] == AlertLine(alerts[j]))
  {
  }

  /** `create_excel(all_ecritures, alerts)`: writes the rows one by one while
      keeping running totals. */
  method CreateExcel(es: seq<Entry>, alerts: seq<string>) returns (rows: seq<Row>)
    ensures rows == LedgerRows(es, alerts)
  {
    var lines, totalDebit, totalCredit := WriteEntries(es);
    var status := if Abs(totalDebit - totalCredit) < 1 then StatusOk else StatusError;
    rows := [Header(Columns)] + lines + [Blank, Control(status, totalDebit, totalCredit)];
    if alerts != [] {
      var alertRows := WriteAlerts(alerts);
      rows := rows + [Blank, AlertsHeading] + alertRows;
    }
  }

  /** Lines 256-277: one row per entry, and the running totals. */
  method WriteEntries(es: seq<Entry>) returns (lines: seq<Row>, totalDebit: int, totalCredit: int)
    ensures lines == seq(|es|, i requires 0 <= i < |es| => LineOf(es[i]))
    ensures totalDebit == SumDebit(es) && totalCredit == SumCredit(es)
  {
    lines, totalDebit, totalCredit := [], 0, 0;
    for i := 0 to |es|
      invariant |lines| == i
      invariant forall j :: 0 <= j < i ==> lines[j] == LineOf(es[j])
      invariant totalDebit == SumDebit(es[..i]) && totalCredit == SumCredit(es[..i])
    {
      var e := es[i];
      assert es[..i + 1][..i] == es[..i];
      totalDebit := totalDebit + e.debit;
      totalCredit := totalCredit + e.credit;
      lines := lines + [Line(e.date.GetOr(""), e.reference, e.journal.GetOr("FCB"), e.account,
                             e.description.GetOr(""), e.debit, e.credit)];
    }
    assert es[..|es|] == es;
  }

  /** Lines 306-308: one row per alert. */
  method WriteAlerts(alerts: seq<string>) returns (rows: seq<Row>)
    ensures rows == seq(|alerts|, i requires 0 <= i < |alerts| => AlertLine(alerts[i]))
  {
    rows := [];
    for j := 0 to |alerts|
      invariant |rows| == j
      invariant forall m :: 0 <= m < j ==> rows[m] == AlertLine(alerts[m])
    {
      rows := rows + [AlertLine(alerts[j])];
    }
  }
}
