/** The administrators' fees screen (src/components/admin/FeesManagement.tsx): the fee
    form, which either adds a row or rewrites the one being edited, deletion, and the
    search-and-status filter over the listing. */
module FeesManagement {
  import opened Table
  import opened Text
  import opened Records

  predicate AllDigits(s: string) {
    forall i :: 0 <= i < |s| ==> IsDigit(s[i])
  }

  function DigitValue(c: char): nat
    requires IsDigit(c)
  {
    c as int - '0' as int
  }

  /** The decimals a `step="0.01"` box lets through: at least one digit, and only zeros
      after the second. */
  predicate IsCentsText(f: string) {
    |f| >= 1 && AllDigits(f) && forall k :: 2 <= k < |f| ==> f[k] == '0'
  }

  /** The decimals as hundredths: "5" is 50, "05" is 5. */
  function CentsValue(f: string): (c: nat)
    requires IsCentsText(f)
    ensures c < 100
  {
    10 * DigitValue(f[0]) + (if |f| >= 2 then DigitValue(f[1]) else 0)
  }

  /** A number box's text without its sign: whole digits, then optionally a point and
      decimals; the whole digits may be absent only before a point, as in ".5". */
  predicate IsUnsignedAmount(u: string) {
    if '.' in u then
      var i := IndexOf(u, '.');
      AllDigits(u[..i]) && IsCentsText(u[i + 1..])
    else
      u != [] && AllDigits(u)
  }

  /** The text of an amount box the browser submits: an optional minus sign (the boxes
      have no `min`) and an unsigned amount with at most two significant decimals. */
  predicate IsAmountText(s: string) {
    if s != [] && s[0] == '-' then IsUnsignedAmount(s[1..]) else IsUnsignedAmount(s)
  }

  function UnsignedValue(u: string): nat
    requires IsUnsignedAmount(u)
  {
    if '.' in u then
      var i := IndexOf(u, '.');
      100 * DigitsValue(u[..i]) + CentsValue(u[i + 1..])
    else
      100 * DigitsValue(u)
  }

  /** `parseFloat` of an amount box, in minor units (paise): "1500.50" is 150050. */
  function AmountValue(s: string): int
    requires IsAmountText(s)
  {
    if s != [] && s[0] == '-' then -(UnsignedValue(s[1..]) as int) else UnsignedValue(s)
  }

  /** `toString` of a non-negative amount given in minor units: the rupees, then the
      decimals without trailing zeros. */
  function UnsignedText(m: nat): (s: string)
    ensures s != [] && IsDigit(s[0])
    ensures '.' in s ==> s[|s| - 1] != '0'
  {
    var whole := Decimal(m / 100);
    var c := m % 100;
    if c == 0 then whole
    else if c % 10 == 0 then whole + "." + [DigitChar(c / 10)]
    else whole + "." + [DigitChar(c / 10), DigitChar(c % 10)]
  }

  /** Writing an amount out and reading it back loses nothing. */
  lemma UnsignedRoundTrip(m: nat)
    ensures IsUnsignedAmount(UnsignedText(m)) && UnsignedValue(UnsignedText(m)) == m
  {
    var whole := Decimal(m / 100);
    DecimalRoundTrip(m / 100);
    var c := m % 100;
    assert '.' !in whole;
    if c != 0 {
      var s := UnsignedText(m);
      var f := if c % 10 == 0 then [DigitChar(c / 10)] else [DigitChar(c / 10), DigitChar(c % 10)];
      assert s == whole + "." + f;
      assert s[|whole|] == '.' && s[..|whole|] == whole;
      IndexOfUnique(s, '.', |whole|);
      assert s[|whole| + 1..] == f;
    }
  }

  /** A minus sign in front of an unsigned amount negates it. */
  lemma NegatedText(t: string)
    requires IsUnsignedAmount(t)
    ensures IsAmountText("-" + t) && AmountValue("-" + t) == -(UnsignedValue(t) as int)
  {
    var s := "-" + t;
    assert s[0] == '-' && s[1..] == t;
  }

  /** Without a sign the text is read as it stands. */
  lemma UnsignedIsAmount(t: string)
    requires IsUnsignedAmount(t) && t != [] && IsDigit(t[0])
    ensures IsAmountText(t) && AmountValue(t) == UnsignedValue(t)
  {
  }

  /** `amount.toString()` for an amount in minor units: the shortest text that the amount
      box reads back as the same amount. */
  function AmountText(n: int): (s: string)
    ensures IsAmountText(s) && AmountValue(s) == n
    ensures '.' in s ==> s[|s| - 1] != '0'
  {
    var m: nat := if n < 0 then -n else n;
    var t := UnsignedText(m);
    UnsignedRoundTrip(m);
    if n < 0 then
      NegatedText(t);
      assert '.' in "-" + t ==> '.' in t;
      "-" + t
    else
      UnsignedIsAmount(t);
      t
  }

  /** A decimal amount is read as the browser submits it. */
  lemma DecimalAmountExample()
    ensures IsAmountText("1500.50") && AmountValue("1500.50") == 150050
  {
    var s := "1500.50";
    assert DigitsValue("1500") == 1500 by {
      assert "1500"[..3] == "150" && "150"[..2] == "15" && "15"[..1] == "1" && "1"[..0] == "";
    }
    assert '.' in s && IndexOf(s, '.') == 4 by {
      assert s[4] == '.' && s[..4] == "1500";
      IndexOfUnique(s, '.', 4);
    }
    assert s[..4] == "1500" && s[5..] == "50";
    calc {
      AmountValue(s);
      UnsignedValue(s);
      100 * DigitsValue("1500") + CentsValue("50");
      150050;
    }
  }

  /** A negative amount, which the box accepts since it sets no minimum. */
  lemma NegativeAmountExample()
    ensures IsAmountText("-100") && AmountValue("-100") == -10000
  {
    var t := "-100";
    assert t[1..] == "100" && '.' !in "100";
    assert "100"[..2] == "10" && "10"[..1] == "1" && "1"[..0] == "";
  }

  lemma DecimalOf1500()
    ensures Decimal(1500) == "1500"
  {
    assert Decimal(1) == "1" && Decimal(15) == "15" && Decimal(150) == "150";
  }

  lemma UnsignedTextOf150050()
    ensures UnsignedText(150050) == "1500.5"
  {
    var m := 150050;
    assert m / 100 == 1500 && m % 100 == 50 && 50 % 10 == 0 && 50 / 10 == 5;
    calc {
      UnsignedText(m);
      Decimal(1500) + "." + [DigitChar(5)];
      { DecimalOf1500(); }
      "1500" + "." + ['5'];
      "1500.5";
    }
  }

  /** A decimal amount is written back without its trailing zero. */
  lemma AmountTextExample()
    ensures AmountText(150050) == "1500.5"
  {
    UnsignedTextOf150050();
  }

  /** The fee form; the amounts are the text of their number boxes. */
  datatype FeeForm = FeeForm(
    studentId: string,
    feeType: string,
    amount: string,
    dueDate: string,
    paymentStatus: PaymentStatus,
    paidAmount: string,
    paymentMethod: string,
    transactionId: string,
    remarks: string)

  /** `resetForm`'s values: pending, nothing paid, today's due date. */
  function DefaultForm(today: string): FeeForm {
    FeeForm("", "", "", today, PaymentStatus.Pending, "0", "", "", "")
  }

  /** `feeData`: the amounts parsed, empty optional texts sent as null, and a paid date,
      today's, only for a paid fee. */
  function FeeRow(form: FeeForm, today: string): (f: Fee)
    requires IsAmountText(form.amount) && IsAmountText(form.paidAmount)
    ensures f.studentId == form.studentId && f.feeType == form.feeType
    ensures f.dueDate == form.dueDate && f.paymentStatus == form.paymentStatus
    ensures f.amount == AmountValue(form.amount) && f.paidAmount == AmountValue(form.paidAmount)
    ensures f.paidDate.Some? <==> form.paymentStatus == Paid
    ensures f.paidDate.Some? ==> f.paidDate.value == today
    ensures f.paymentMethod.None? <==> form.paymentMethod == ""
    ensures f.paymentMethod.Some? ==> f.paymentMethod.value == form.paymentMethod
    ensures f.transactionId.None? <==> form.transactionId == ""
    ensures f.transactionId.Some? ==> f.transactionId.value == form.transactionId
    ensures f.remarks.None? <==> form.remarks == ""
    ensures f.remarks.Some? ==> f.remarks.value == form.remarks
  {
    Fee(form.studentId, form.feeType, AmountValue(form.amount), form.dueDate, form.paymentStatus,
        AmountValue(form.paidAmount), NullIfEmpty(form.paymentMethod), NullIfEmpty(form.transactionId),
        NullIfEmpty(form.remarks), if form.paymentStatus == Paid then Some(today) else None)
  }

  /** `editFee`'s form: every column of the record, null read as the empty string. */
  function FormOf(fee: Fee): (form: FeeForm)
    ensures form.studentId == fee.studentId && form.feeType == fee.feeType
    ensures form.dueDate == fee.dueDate && form.paymentStatus == fee.paymentStatus
    ensures IsAmountText(form.amount) && AmountValue(form.amount) == fee.amount
    ensures IsAmountText(form.paidAmount) && AmountValue(form.paidAmount) == fee.paidAmount
  {
    FeeForm(fee.studentId, fee.feeType, AmountText(fee.amount), fee.dueDate, fee.paymentStatus,
            AmountText(fee.paidAmount), EmptyIfNull(fee.paymentMethod), EmptyIfNull(fee.transactionId),
            EmptyIfNull(fee.remarks))
  }

  /** Opening a record for editing and saving it unchanged writes the same record back,
      whatever its amounts, except that the paid date becomes today's for a paid fee and
      null otherwise. */
  lemma EditSaveRoundTrip(fee: Fee, today: string)
    requires fee.paymentMethod != Some("") && fee.transactionId != Some("") && fee.remarks != Some("")
    ensures FeeRow(FormOf(fee), today) ==
            fee.(paidDate := if fee.paymentStatus == Paid then Some(today) else None)
  {
    NullRoundTrip("", fee.paymentMethod);
    NullRoundTrip("", fee.transactionId);
    NullRoundTrip("", fee.remarks);
  }

  /** `.update(feeData)`: the form writes every column, so the row becomes `f`. */
  function Overwrite(f: Fee): Fee -> Fee {
    (_: Fee) => f
  }

  /** A row of the listing: the fee and the name of its student from the join, if any. */
  datatype Listing = Listing(row: Row<Fee>, fullName: Option<string>)

  /** The first student with this ID, as the join finds it. */
  function NameOf(students: seq<Student>, id: string): (r: Option<string>)
    ensures r.None? <==> forall i :: 0 <= i < |students| ==> students[i].studentId != id
    ensures r.Some? ==> exists i :: 0 <= i < |students| && students[i].studentId == id && students[i].fullName == r.value
  {
    if students == [] then None
    else if students[0].studentId == id then Some(students[0].fullName)
    else
      var r := NameOf(students[1..], id);
      assert forall i :: 0 <= i < |students| - 1 ==> students[1..][i] == students[i + 1];
      r
  }

  /** `loadFees`: every fee with its student's name. */
  function Listings(table: seq<Row<Fee>>, students: seq<Student>): (r: seq<Listing>)
    ensures |r| == |table|
    ensures forall i :: 0 <= i < |r| ==> r[i].row == table[i]
  {
    seq(|table|, i requires 0 <= i < |table| => Listing(table[i], NameOf(students, table[i].cols.studentId)))
  }

  /** The status drop-down: every status, or one of them. */
  datatype StatusFilter = All | Only(status: PaymentStatus)

  /** The search part of the filter: the term in the ID or in the name, ignoring case. */
  ghost predicate SearchHit(e: Listing, term: string) {
    Occurs(ToLower(e.row.cols.studentId), ToLower(term)) ||
    (e.fullName.Some? && Occurs(ToLower(e.fullName.value), ToLower(term)))
  }

  predicate StatusHit(e: Listing, filter: StatusFilter) {
    filter == All || e.row.cols.paymentStatus == filter.status
  }

  function Shown(term: string, filter: StatusFilter): Listing -> bool {
    (e: Listing) =>
      (Includes(ToLower(e.row.cols.studentId), ToLower(term)) ||
       (e.fullName.Some? && Includes(ToLower(e.fullName.value), ToLower(term))))
      && StatusHit(e, filter)
  }

  /** `filteredFees`: a fee is listed exactly when the search hits and the status passes. */
  function FilteredFees(fees: seq<Listing>, term: string, filter: StatusFilter): (r: seq<Listing>)
    ensures forall i :: 0 <= i < |r| ==> r[i] in fees && SearchHit(r[i], term) && StatusHit(r[i], filter)
    ensures forall i :: 0 <= i < |fees| && SearchHit(fees[i], term) && StatusHit(fees[i], filter) ==> fees[i] in r
  {
    Where(fees, Shown(term, filter))
  }

  /** With no search term and every status, the whole listing is shown. */
  lemma NoFilterShowsAll(fees: seq<Listing>)
    ensures FilteredFees(fees, "", All) == fees
  {
    forall i | 0 <= i < |fees| ensures Shown("", All)(fees[i]) {
      IncludesEmpty(ToLower(fees[i].row.cols.studentId));
    }
    WhereAll(fees, Shown("", All));
  }

  /** A status filter never lists a fee of another status. */
  lemma OnlyListsThatStatus(fees: seq<Listing>, term: string, s: PaymentStatus, i: nat)
    requires i < |FilteredFees(fees, term, Only(s))|
    ensures FilteredFees(fees, term, Only(s))[i].row.cols.paymentStatus == s
  {
  }

  class FeesScreen {
    var fees: seq<Listing>
    var students: seq<RosterEntry>
    var showForm: bool
    var editingFee: Option<Row<Fee>>
    var searchTerm: string
    var statusFilter: StatusFilter
    var formData: FeeForm

    constructor (today: string)
      ensures fees == [] && students == [] && !showForm && editingFee.None?
      ensures searchTerm == "" && statusFilter == All && formData == DefaultForm(today)
    {
      fees, students, showForm, editingFee := [], [], false, None;
      searchTerm, statusFilter, formData := "", All, DefaultForm(today);
    }

    /** `loadFees`, kept as it was when the query fails. */
    method LoadFees(table: seq<Row<Fee>>, studentTable: seq<Student>, fails: bool)
      modifies this`fees
      ensures fees == if fails then old(fees) else Listings(table, studentTable)
    {
      if !fails {
        fees := Listings(table, studentTable);
      }
    }

    method LoadStudents(table: seq<Student>, fails: bool)
      modifies this`students
      ensures students == if fails then old(students) else Roster(table)
    {
      if !fails {
        students := Roster(table);
      }
    }

    method SetSearchTerm(term: string)
      modifies this`searchTerm
      ensures searchTerm == term
    {
      searchTerm := term;
    }

    method SetStatusFilter(filter: StatusFilter)
      modifies this`statusFilter
      ensures statusFilter == filter
    {
      statusFilter := filter;
    }

    method SetForm(form: FeeForm)
      modifies this`formData
      ensures formData == form
    {
      formData := form;
    }

    /** The "Add Fee" button. */
    method ToggleForm()
      modifies this`showForm
      ensures showForm == !old(showForm)
    {
      showForm := !showForm;
    }

    /** `resetForm` */
    method ResetForm(today: string)
      modifies this`formData, this`editingFee, this`showForm
      ensures formData == DefaultForm(today) && editingFee.None? && !showForm
    {
      formData := DefaultForm(today);
      editingFee := None;
      showForm := false;
    }

    /** `editFee` */
    method EditFee(fee: Row<Fee>)
      modifies this`formData, this`editingFee, this`showForm
      ensures editingFee == Some(fee) && formData == FormOf(fee.cols) && showForm
    {
      editingFee := Some(fee);
      formData := FormOf(fee.cols);
      showForm := true;
    }

    /** `handleSubmit`: rewrite the row being edited, or add one row; on success the
        form is reset and the listing reloaded. */
    method HandleSubmit(table: seq<Row<Fee>>, studentTable: seq<Student>, error: Option<string>,
                        reloadFails: bool, today: string)
      returns (table': seq<Row<Fee>>, alert: string)
      requires IsAmountText(formData.amount) && IsAmountText(formData.paidAmount)
      modifies this`formData, this`editingFee, this`showForm, this`fees
      ensures error.Some? ==>
                table' == table && formData == old(formData) && editingFee == old(editingFee)
                && showForm == old(showForm) && fees == old(fees)
                && alert == (if old(editingFee).Some? then "Error updating fee: " else "Error adding fee: ") + error.value
      ensures error.None? && old(editingFee).Some? ==>
                table' == UpdateById(table, old(editingFee).value.id, Overwrite(FeeRow(old(formData), today)))
                && alert == "Fee updated successfully!"
      ensures error.None? && old(editingFee).None? ==>
                table' == Insert(table, [FeeRow(old(formData), today)]) && alert == "Fee added successfully!"
      ensures error.None? ==>
                formData == DefaultForm(today) && editingFee.None? && !showForm
                && fees == (if reloadFails then old(fees) else Listings(table', studentTable))
    {
      var row := FeeRow(formData, today);
      table' := table;
      if editingFee.Some? {
        if error.Some? {
          alert := "Error updating fee: " + error.value;
          return;
        }
        table' := UpdateById(table, editingFee.value.id, Overwrite(row));
        alert := "Fee updated successfully!";
      } else {
        if error.Some? {
          alert := "Error adding fee: " + error.value;
          return;
        }
        table' := Insert(table, [row]);
        alert := "Fee added successfully!";
      }
      ResetForm(today);
      LoadFees(table', studentTable, reloadFails);
    }

    /** `deleteFee`; `confirmed` is the answer to the confirmation dialog. */
    method DeleteFee(id: Id, confirmed: bool, table: seq<Row<Fee>>, studentTable: seq<Student>,
                     error: Option<string>, reloadFails: bool)
      returns (table': seq<Row<Fee>>, alert: Option<string>)
      modifies this`fees
      ensures !confirmed ==> table' == table && alert.None? && fees == old(fees)
      ensures confirmed && error.Some? ==>
                table' == table && alert == Some("Error deleting fee: " + error.value) && fees == old(fees)
      ensures confirmed && error.None? ==>
                table' == DeleteById(table, id) && alert == Some("Fee deleted successfully!")
                && fees == (if reloadFails then old(fees) else Listings(table', studentTable))
    {
      table' := table;
      alert := None;
      if !confirmed {
        return;
      }
      if error.Some? {
        alert := Some("Error deleting fee: " + error.value);
        return;
      }
      table' := DeleteById(table, id);
      alert := Some("Fee deleted successfully!");
      LoadFees(table', studentTable, reloadFails);
    }
  }
}
