/** The student dashboard's fees tab (src/components/dashboard/DashboardFees.tsx): the
    student's fee rows, the three totals and each row's balance. */
module DashboardFees {
  import opened Table
  import opened Records

  /** `fees.reduce((sum, fee) => sum + fee.amount, 0)` */
  function TotalAmount(fees: seq<Fee>): (r: int)
    ensures (forall i :: 0 <= i < |fees| ==> fees[i].amount >= 0) ==> r >= 0
  {
    if fees == [] then 0 else TotalAmount(fees[..|fees| - 1]) + fees[|fees| - 1].amount
  }

  /** `fees.reduce((sum, fee) => sum + fee.paid_amount, 0)` */
  function TotalPaid(fees: seq<Fee>): (r: int)
    ensures (forall i :: 0 <= i < |fees| ==> fees[i].paidAmount >= 0) ==> r >= 0
  {
    if fees == [] then 0 else TotalPaid(fees[..|fees| - 1]) + fees[|fees| - 1].paidAmount
  }

  /** The balance shown on a row. */
  function Balance(f: Fee): int {
    f.amount - f.paidAmount
  }

  /** The sum of the rows' balances. */
  function TotalBalance(fees: seq<Fee>): int {
    if fees == [] then 0 else TotalBalance(fees[..|fees| - 1]) + Balance(fees[|fees| - 1])
  }

  /** `totalPending`: what is still owed. */
  function TotalPending(fees: seq<Fee>): (r: int)
    ensures r == TotalBalance(fees)
  {
    PendingIsSumOfBalances(fees);
    TotalAmount(fees) - TotalPaid(fees)
  }

  /** The pending card agrees with the balances listed under it. */
  lemma {:induction false} PendingIsSumOfBalances(fees: seq<Fee>)
    ensures TotalAmount(fees) - TotalPaid(fees) == TotalBalance(fees)
  {
    if fees != [] {
      PendingIsSumOfBalances(fees[..|fees| - 1]);
    }
  }

  /** The totals add row by row: a list split in two totals to the sum of its parts. */
  lemma {:induction false} TotalsAppend(a: seq<Fee>, b: seq<Fee>)
    ensures TotalAmount(a + b) == TotalAmount(a) + TotalAmount(b)
    ensures TotalPaid(a + b) == TotalPaid(a) + TotalPaid(b)
    decreases |b|
  {
    if b == [] {
      assert a + b == a;
    } else {
      var c := b[..|b| - 1];
      assert (a + b)[..|a + b| - 1] == a + c;
      TotalsAppend(a, c);
    }
  }

  /** When no row is overpaid, nothing pending is negative, and a fully paid list owes 0. */
  lemma {:induction false} PendingBounds(fees: seq<Fee>)
    requires forall i :: 0 <= i < |fees| ==> fees[i].paidAmount <= fees[i].amount
    ensures TotalPending(fees) >= 0
    ensures (forall i :: 0 <= i < |fees| ==> fees[i].paidAmount == fees[i].amount) ==> TotalPending(fees) == 0
  {
    BalancesBounds(fees);
  }

  lemma {:induction false} BalancesBounds(fees: seq<Fee>)
    requires forall i :: 0 <= i < |fees| ==> fees[i].paidAmount <= fees[i].amount
    ensures TotalBalance(fees) >= 0
    ensures (forall i :: 0 <= i < |fees| ==> fees[i].paidAmount == fees[i].amount) ==> TotalBalance(fees) == 0
  {
    if fees != [] {
      BalancesBounds(fees[..|fees| - 1]);
    }
  }

  /** The tab's state. */
  datatype FeesTab = FeesTab(fees: seq<Fee>, loading: bool)

  /** The tab as it mounts: no rows, still loading. */
  const Mounting := FeesTab([], true)

  function OwnedBy(id: string): Fee -> bool {
    (f: Fee) => f.studentId == id
  }

  /** `loadFees`: the student's rows (kept as they were when the query fails), and the
      loading flag down afterwards. */
  function LoadFees(tab: FeesTab, id: string, table: seq<Fee>, fails: bool): (r: FeesTab)
    ensures !r.loading
    ensures fails ==> r.fees == tab.fees
    ensures !fails ==> forall i :: 0 <= i < |r.fees| ==> r.fees[i] in table && r.fees[i].studentId == id
    ensures !fails ==> forall i :: 0 <= i < |table| && table[i].studentId == id ==> table[i] in r.fees
  {
    FeesTab(if fails then tab.fees else Where(table, OwnedBy(id)), false)
  }

  /** The tab as written: the student ID comes from the browser's storage under
      `studentId`, and the rows load only when that value is a non-empty string. */
  function MountFromStorage(stored: Option<string>, table: seq<Fee>, fails: bool): (r: FeesTab)
    ensures r.loading <==> !Truthy(stored)
  {
    if Truthy(stored) then LoadFees(Mounting, stored.value, table, fails) else Mounting
  }

  /** Nothing in the application stores `studentId`, so as written the tab never leaves
      "Loading fees...", whatever the student's rows are. */
  lemma StorageKeyNeverSetKeepsLoading(table: seq<Fee>, fails: bool)
    ensures MountFromStorage(None, table, fails).loading
    ensures MountFromStorage(None, table, fails).fees == []
  {
  }

  /** The tab as evidently intended: the logged-in student's ID is passed in, as the
      other dashboard tabs receive it. */
  function Mount(studentId: string, table: seq<Fee>, fails: bool): (r: FeesTab)
    ensures studentId != "" ==> !r.loading
  {
    if studentId != "" then LoadFees(Mounting, studentId, table, fails) else Mounting
  }

  /** Mounted with the student's ID, the tab stops loading and shows exactly the student's
      rows, and its pending total is the sum of their balances. */
  lemma MountShowsOwnFees(studentId: string, table: seq<Fee>)
    requires studentId != ""
    ensures var r := Mount(studentId, table, false);
            && !r.loading
            && r.fees == Where(table, OwnedBy(studentId))
            && TotalPending(r.fees) == TotalBalance(Where(table, OwnedBy(studentId)))
  {
  }
}
