/** Normalisation, numbering and balance repair of one accepted unit's entries
    (lines 392-403 of `process_tickets`). Amounts are whole numbers of cents, so
    the tolerance `0.01` is one cent. */
module Balance {
  import opened Common
  import opened Strings
  import opened Extraction

  /** The bank (card payment) account whose credit line is repaired. */
  const BankAccount: string := "51200000"

  /** A normalised ledger line: reference assigned, amounts coerced to cents. */
  datatype Entry = Entry(
    date: Option<string>,
    reference: string,
    journal: Option<string>,
    account: string,
    description: Option<string>,
    debit: int,
    credit: int)

  /** The reference of the k-th accepted unit: `f'T{k}'`. */
  function Ref(k: nat): string
  {
    "T" + NatToString(k)
  }

  /** Different tickets get different references. */
  lemma RefInjective(j: nat, k: nat)
    requires Ref(j) == Ref(k)
    ensures j == k
  {
    assert NatToString(j) == Ref(j)[1..];
    assert NatToString(k) == Ref(k)[1..];
    NatToStringInjective(j, k);
  }

  /** `round(float(x or 0), 2)` on an amount already in cents: missing or null is 0. */
  function Coerce(amount: Option<int>): int
  {
    amount.GetOr(0)
  }

  /** Lines 393-395 for one line: the reference becomes `T<k>`, debit and credit
      are coerced, and nothing else of the line is rewritten. */
  function Normalize(c: Candidate, k: nat): (e: Entry)
    ensures e.reference == Ref(k)
    ensures e.debit == (if c.debit.Some? then c.debit.value else 0)
    ensures e.credit == (if c.credit.Some? then c.credit.value else 0)
    ensures e.date == c.date && e.journal == c.journal && e.account == c.account
            && e.description == c.description
  {
    Entry(c.date, Ref(k), c.journal, c.account, c.description, Coerce(c.debit), Coerce(c.credit))
  }

  /** The whole group of the k-th accepted unit, normalised line by line. */
  function NormalizeAll(cs: seq<Candidate>, k: nat): seq<Entry>
  {
    seq(|cs|, i requires 0 <= i < |cs| => Normalize(cs[i], k))
  }

  /** The loop at lines 392-395. */
  method NormalizeEntries(cs: seq<Candidate>, k: nat) returns (es: seq<Entry>)
    ensures |es| == |cs|
    ensures forall i :: 0 <= i < |es| ==> es[i] == Normalize(cs[i], k)
    ensures es == NormalizeAll(cs, k)
  {
    es := [];
    for i := 0 to |cs|
      invariant |es| == i
      invariant forall j :: 0 <= j < i ==> es[j] == Normalize(cs[j], k)
    {
      var c := cs[i];
      es := es + [Entry(c.date, Ref(k), c.journal, c.account, c.description, Coerce(c.debit), Coerce(c.credit))];
    }
  }

  /** `sum(e['debit'] for e in es)`. */
  function SumDebit(es: seq<Entry>): int
  {
    if es == [] then 0 else SumDebit(es[..|es| - 1]) + es[|es| - 1].debit
  }

  /** `sum(e['credit'] for e in es)`. */
  function SumCredit(es: seq<Entry>): int
  {
    if es == [] then 0 else SumCredit(es[..|es| - 1]) + es[|es| - 1].credit
  }

  lemma {:induction false} SumAppend(es: seq<Entry>, fs: seq<Entry>)
    ensures SumDebit(es + fs) == SumDebit(es) + SumDebit(fs)
    ensures SumCredit(es + fs) == SumCredit(es) + SumCredit(fs)
  {
    if fs == [] {
      assert es + fs == es;
    } else {
      var n := |fs| - 1;
      assert (es + fs)[..|es + fs| - 1] == es + fs[..n];
      SumAppend(es, fs[..n]);
    }
  }

  /** Replacing one line's credit moves the credit total by the difference and
      leaves the debit total alone. */
  lemma {:induction false} SumCreditUpdate(es: seq<Entry>, i: nat, x: int)
    requires i < |es|
    ensures SumCredit(es[i := es[i].(credit := x)]) == SumCredit(es) - es[i].credit + x
    ensures SumDebit(es[i := es[i].(credit := x)]) == SumDebit(es)
  {
    var n := |es| - 1;
    var es' := es[i := es[i].(credit := x)];
    if i < n {
      assert es'[..n] == es[..n][i := es[i].(credit := x)];
      SumCreditUpdate(es[..n], i, x);
    } else {
      assert es'[..n] == es[..n];
    }
  }

  function Abs(x: int): nat
  {
    if x < 0 then -x else x
  }

  /** Line 399: a group is repaired when its totals differ by more than a cent. */
  predicate NeedsRepair(debit: int, credit: int)
  {
    Abs(debit - credit) > 1
  }

  /** Lines 281, 290 and 462: totals count as balanced when they differ by less
      than a cent, that is, when they are equal. */
  predicate Balanced(debit: int, credit: int)
    ensures Balanced(debit, credit) <==> debit == credit
  {
    Abs(debit - credit) < 1
  }

  /** `next((e for e in es if e['compte'] == '51200000'), None)`: the first bank line. */
  function FirstBank(es: seq<Entry>): (r: Option<nat>)
    ensures r.Some? ==> r.value < |es| && es[r.value].account == BankAccount
                        && forall j :: 0 <= j < r.value ==> es[j].account != BankAccount
    ensures r.None? ==> forall j :: 0 <= j < |es| ==> es[j].account != BankAccount
  {
    if es == [] then None
    else
      match FirstBank(es[..|es| - 1])
      case Some(i) => Some(i)
      case None => if es[|es| - 1].account == BankAccount then Some(|es| - 1) else None
  }

  /** The group an alert is about: the number k of the `T<k>` it starts with,
      the reference being followed by a space; none for any other text. */
  function AlertGroup(alert: string): Option<nat>
  {
    if |alert| > 0 && alert[0] == 'T' then
      var n := DigitRun(alert[1..]);
      if 0 < n && n + 1 < |alert| && alert[n + 1] == ' ' then Some(ParseNat(alert[1..n + 1])) else None
    else None
  }

  /** Line 400: the alert for an unbalanced group, naming its reference, the unit
      and both totals. */
  function ImbalanceAlert(k: nat, filename: string, debit: int, credit: int): string
  {
    Ref(k) + ImbalanceDetail(filename, debit, credit)
  }

  /** What follows the reference in an imbalance alert. */
  function ImbalanceDetail(filename: string, debit: int, credit: int): string
  {
    " (" + filename + ") : Desequilibre detecte (" + FormatCents(debit) + " != " + FormatCents(credit) + ")"
  }

  /** The group can be read back from its imbalance alert. */
  lemma ImbalanceAlertNamesGroup(k: nat, filename: string, debit: int, credit: int)
    ensures AlertGroup(ImbalanceAlert(k, filename, debit, credit)) == Some(k)
  {
    AlertGroupOfRef(k, ImbalanceDetail(filename, debit, credit));
  }

  /** A reference followed by a space names its group. */
  lemma AlertGroupOfRef(k: nat, rest: string)
    requires rest != [] && rest[0] == ' '
    ensures AlertGroup(Ref(k) + rest) == Some(k)
  {
    var ds := NatToString(k);
    var alert := Ref(k) + rest;
    assert alert[1..] == ds + rest;
    DigitRunOfNumber(k, rest);
    assert alert[1..|ds| + 1] == ds;
    ParseNatToString(k);
  }

  /** The group after repair and the alerts the repair appends. */
  datatype Reconciliation = Reconciliation(entries: seq<Entry>, alerts: seq<string>)

  /** Lines 397-403: when the totals differ by more than a cent, one alert is
      emitted and, if there is a bank line, the first one's credit is set to the
      total debit. Only that one field of that one line can change. */
  function Reconcile(es: seq<Entry>, k: nat, filename: string): (r: Reconciliation)
    ensures |r.entries| == |es|
    ensures NeedsRepair(SumDebit(es), SumCredit(es)) ==>
              r.alerts == [ImbalanceAlert(k, filename, SumDebit(es), SumCredit(es))]
    ensures !NeedsRepair(SumDebit(es), SumCredit(es)) ==> r == Reconciliation(es, [])
    ensures forall j :: 0 <= j < |es| && Some(j) != FirstBank(es) ==> r.entries[j] == es[j]
    ensures forall j :: 0 <= j < |es| ==> r.entries[j] == es[j].(credit := r.entries[j].credit)
    ensures FirstBank(es).Some? && NeedsRepair(SumDebit(es), SumCredit(es)) ==>
              r.entries[FirstBank(es).value].credit == SumDebit(es)
  {
    var d, c := SumDebit(es), SumCredit(es);
    if NeedsRepair(d, c) then
      var alerts := [ImbalanceAlert(k, filename, d, c)];
      match FirstBank(es)
      case None => Reconciliation(es, alerts)
      case Some(i) => Reconciliation(es[i := es[i].(credit := d)], alerts)
    else Reconciliation(es, [])
  }

  /** Repair never changes the total debit. */
  lemma ReconcileKeepsDebit(es: seq<Entry>, k: nat, filename: string)
    ensures SumDebit(Reconcile(es, k, filename).entries) == SumDebit(es)
  {
    if NeedsRepair(SumDebit(es), SumCredit(es)) && FirstBank(es).Some? {
      SumCreditUpdate(es, FirstBank(es).value, SumDebit(es));
    }
  }

  /** A repaired group balances exactly when the bank line carried all of the
      group's credit: the repair sets that line to the total debit and leaves the
      other credits in place. */
  lemma ReconcileBalancesIff(es: seq<Entry>, k: nat, filename: string)
    requires NeedsRepair(SumDebit(es), SumCredit(es))
    requires FirstBank(es).Some?
    ensures var r := Reconcile(es, k, filename).entries;
            SumDebit(r) == SumCredit(r) <==> SumCredit(es) == es[FirstBank(es).value].credit
  {
    SumCreditUpdate(es, FirstBank(es).value, SumDebit(es));
  }

  /** With no bank line the group is emitted unchanged and still unbalanced. */
  lemma ReconcileWithoutBank(es: seq<Entry>, k: nat, filename: string)
    requires NeedsRepair(SumDebit(es), SumCredit(es))
    requires FirstBank(es).None?
    ensures Reconcile(es, k, filename).entries == es
    ensures SumDebit(es) != SumCredit(es)
    ensures |Reconcile(es, k, filename).alerts| == 1
  {
  }

  /** A one-cent gap is neither repaired nor reported, and the group stays
      unbalanced: the repair test (`> 0.01`) and the balance test (`< 0.01`)
      leave this case between them. */
  lemma OneCentGapIsKept(es: seq<Entry>, k: nat, filename: string)
    requires Abs(SumDebit(es) - SumCredit(es)) == 1
    ensures Reconcile(es, k, filename) == Reconciliation(es, [])
    ensures !Balanced(SumDebit(es), SumCredit(es))
  {
  }
}
