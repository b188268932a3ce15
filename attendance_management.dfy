/** The administrators' attendance screen (src/components/admin/AttendanceManagement.tsx):
    the records of one date, editing and deleting a record, marking everyone present,
    and a per-student draft sheet saved in one insert. */
module AttendanceManagement {
  import opened Table
  import opened Text
  import opened Records

  /** One student's draft in the mark-attendance sheet; either part may be unset. */
  datatype Draft = Draft(status: Option<AttendanceStatus>, remarks: Option<string>)

  /** The two kinds of change `handleNewAttendanceChange` makes: a status button or the remarks box. */
  datatype DraftChange = SetStatus(status: AttendanceStatus) | SetRemarks(remarks: string)

  function Apply(d: Draft, c: DraftChange): Draft {
    match c
    case SetStatus(s) => d.(status := Some(s))
    case SetRemarks(r) => d.(remarks := Some(r))
  }

  /** The draft sheet: an object keyed by student ID, in key insertion order. */
  type Drafts = seq<(string, Draft)>

  predicate UniqueKeys(ds: Drafts) {
    forall i, j :: 0 <= i < j < |ds| ==> ds[i].0 != ds[j].0
  }

  function Keys(ds: Drafts): (r: seq<string>)
    ensures |r| == |ds| && forall i :: 0 <= i < |ds| ==> r[i] == ds[i].0
  {
    seq(|ds|, i requires 0 <= i < |ds| => ds[i].0)
  }

  /** `newAttendance[key]` */
  function Find(ds: Drafts, key: string): (r: Option<Draft>)
    ensures r.None? <==> forall i :: 0 <= i < |ds| ==> ds[i].0 != key
    ensures r.Some? ==> exists i :: 0 <= i < |ds| && ds[i] == (key, r.value)
  {
    if ds == [] then None
    else if ds[0].0 == key then Some(ds[0].1)
    else
      var r := Find(ds[1..], key);
      assert forall i :: 0 <= i < |ds| - 1 ==> ds[1..][i] == ds[i + 1];
      r
  }

  /** An array index in the ECMAScript sense: the canonical decimal text of an integer below
      2^32 - 1, such as the student ID "1001". An object lists such keys before all others. */
  predicate IsIndexKey(k: string) {
    (forall i :: 0 <= i < |k| ==> IsDigit(k[i])) && Decimal(DigitsValue(k)) == k
    && DigitsValue(k) < 0xFFFF_FFFF
  }

  /** Key `a` is listed before key `b` by value alone: `a` is an index key, and `b` is
      either not one or a larger one. */
  predicate ListedBefore(a: string, b: string) {
    IsIndexKey(a) && (!IsIndexKey(b) || DigitsValue(a) < DigitsValue(b))
  }

  /** The order in which an object holds its keys: every index key comes after only
      smaller index keys. The other keys keep their insertion order after them. */
  predicate ObjectOrder(ks: seq<string>) {
    forall i, j :: 0 <= i < j < |ks| && IsIndexKey(ks[j]) ==> ListedBefore(ks[i], ks[j])
  }

  /** Where a new index key is placed: after every key listed before it. */
  function IndexSlot(ks: seq<string>, key: string): (p: nat)
    ensures p <= |ks|
    ensures forall i :: 0 <= i < p ==> ListedBefore(ks[i], key)
    ensures p < |ks| ==> !ListedBefore(ks[p], key)
  {
    if ks == [] || !ListedBefore(ks[0], key) then 0
    else
      var p := IndexSlot(ks[1..], key);
      assert forall i :: 1 <= i < p + 1 ==> ks[i] == ks[1..][i - 1];
      p + 1
  }

  /** Changes the draft of a key already in the sheet, in place. */
  function Replace(ds: Drafts, key: string, c: DraftChange): (r: Drafts)
    ensures |r| == |ds|
  {
    if ds == [] then []
    else if ds[0].0 == key then [(key, Apply(ds[0].1, c))] + ds[1..]
    else [ds[0]] + Replace(ds[1..], key, c)
  }

  /** `{ ...prev, [key]: { ...prev[key], [field]: value } }`: an existing key keeps its place
      and its other part; a new key gets only the changed part and takes the place the
      object gives it, among the index keys by value or else last. */
  function Change(ds: Drafts, key: string, c: DraftChange): (r: Drafts)
    ensures |r| == |ds| || |r| == |ds| + 1
  {
    if Find(ds, key).Some? then Replace(ds, key, c)
    else
      var e := (key, Apply(Draft(None, None), c));
      if IsIndexKey(key) then
        var p := IndexSlot(Keys(ds), key);
        ds[..p] + [e] + ds[p..]
      else ds + [e]
  }

  lemma {:induction false} FindAppend(a: Drafts, b: Drafts, key: string)
    ensures Find(a + b, key) == if Find(a, key).Some? then Find(a, key) else Find(b, key)
  {
    if a != [] {
      assert (a + b)[1..] == a[1..] + b;
      FindAppend(a[1..], b, key);
    } else {
      assert a + b == b;
    }
  }

  lemma {:induction false} ReplaceFind(ds: Drafts, key: string, c: DraftChange)
    requires Find(ds, key).Some?
    ensures Find(Replace(ds, key, c), key) == Some(Apply(Find(ds, key).value, c))
    ensures forall k :: k != key ==> Find(Replace(ds, key, c), k) == Find(ds, k)
  {
    var r := Replace(ds, key, c);
    if ds[0].0 == key {
      assert r[0] == (key, Apply(ds[0].1, c)) && r[1..] == ds[1..];
    } else {
      ReplaceFind(ds[1..], key, c);
      assert r[0] == ds[0] && r[1..] == Replace(ds[1..], key, c);
    }
  }

  /** Placing an entry for a key absent from the sheet between two parts of it. */
  lemma PlacedFind(a: Drafts, e: (string, Draft), b: Drafts, k: string)
    requires Find(a + b, e.0).None?
    ensures Find(a + [e] + b, k) == if k == e.0 then Some(e.1) else Find(a + b, k)
  {
    assert a + [e] + b == a + ([e] + b);
    FindAppend(a, [e] + b, k);
    FindAppend(a, b, k);
    FindAppend(a, b, e.0);
    FindAppend([e], b, k);
  }

  /** The changed key's draft gets the change, created empty when absent; every other
      key's draft is untouched. */
  lemma ChangeFind(ds: Drafts, key: string, c: DraftChange)
    ensures Find(Change(ds, key, c), key) ==
            Some(Apply(if Find(ds, key).Some? then Find(ds, key).value else Draft(None, None), c))
    ensures forall k :: k != key ==> Find(Change(ds, key, c), k) == Find(ds, k)
  {
    if Find(ds, key).Some? {
      ReplaceFind(ds, key, c);
    } else {
      var e := (key, Apply(Draft(None, None), c));
      var p := if IsIndexKey(key) then IndexSlot(Keys(ds), key) else |ds|;
      assert ds[..p] + ds[p..] == ds;
      assert Change(ds, key, c) == ds[..p] + [e] + ds[p..];
      forall k
        ensures Find(Change(ds, key, c), k) == if k == key then Some(e.1) else Find(ds, k)
      {
        PlacedFind(ds[..p], e, ds[p..], k);
      }
    }
  }

  lemma KeysAppend(a: Drafts, b: Drafts)
    ensures Keys(a + b) == Keys(a) + Keys(b)
  {
    var l, m := Keys(a + b), Keys(a) + Keys(b);
    forall i | 0 <= i < |l|
      ensures l[i] == m[i]
    {
      if i >= |a| {
        assert (a + b)[i] == b[i - |a|];
      }
    }
  }

  lemma KeysCons(e: (string, Draft), ds: Drafts)
    ensures Keys([e] + ds) == [e.0] + Keys(ds)
  {
    var l, m := Keys([e] + ds), [e.0] + Keys(ds);
    forall i | 0 <= i < |l|
      ensures l[i] == m[i]
    {
      if i > 0 {
        assert ([e] + ds)[i] == ds[i - 1];
      }
    }
  }

  lemma {:induction false} ReplaceKeys(ds: Drafts, key: string, c: DraftChange)
    ensures Keys(Replace(ds, key, c)) == Keys(ds)
  {
    if ds != [] {
      assert ds == [ds[0]] + ds[1..];
      KeysCons(ds[0], ds[1..]);
      if ds[0].0 == key {
        KeysCons((key, Apply(ds[0].1, c)), ds[1..]);
      } else {
        ReplaceKeys(ds[1..], key, c);
        KeysCons(ds[0], Replace(ds[1..], key, c));
      }
    }
  }

  /** The keys of a sheet with one entry placed at `p`. */
  lemma KeysPlace(ds: Drafts, p: nat, e: (string, Draft))
    requires p <= |ds|
    ensures Keys(ds[..p] + [e] + ds[p..]) == Keys(ds)[..p] + [e.0] + Keys(ds)[p..]
  {
    var t := ds[..p] + [e] + ds[p..];
    var l, m := Keys(t), Keys(ds)[..p] + [e.0] + Keys(ds)[p..];
    forall i | 0 <= i < |l|
      ensures l[i] == m[i]
    {
      if i < p {
        assert t[i] == ds[i];
      } else if i > p {
        assert t[i] == ds[i - 1];
      }
    }
  }

  /** A present key keeps its place. A new key that is not an index goes last; a new index
      key goes after the index keys smaller than it and before every other key. */
  lemma ChangeKeys(ds: Drafts, key: string, c: DraftChange)
    ensures Find(ds, key).Some? ==> Keys(Change(ds, key, c)) == Keys(ds)
    ensures Find(ds, key).None? && !IsIndexKey(key) ==> Keys(Change(ds, key, c)) == Keys(ds) + [key]
    ensures Find(ds, key).None? && IsIndexKey(key) ==>
              var p := IndexSlot(Keys(ds), key);
              Keys(Change(ds, key, c)) == Keys(ds)[..p] + [key] + Keys(ds)[p..]
  {
    if Find(ds, key).Some? {
      ReplaceKeys(ds, key, c);
    } else if IsIndexKey(key) {
      var e := (key, Apply(Draft(None, None), c));
      KeysPlace(ds, IndexSlot(Keys(ds), key), e);
    } else {
      var e := (key, Apply(Draft(None, None), c));
      KeysAppend(ds, [e]);
      assert Keys([e]) == [key];
    }
  }

  /** A key that is not an index, added last, keeps the object's order. */
  lemma AppendKeepsObjectOrder(ks: seq<string>, key: string)
    requires ObjectOrder(ks) && !IsIndexKey(key)
    ensures ObjectOrder(ks + [key])
  {
    var t := ks + [key];
    forall i, j | 0 <= i < j < |t| && IsIndexKey(t[j])
      ensures ListedBefore(t[i], t[j])
    {
      assert t[i] == ks[i] && t[j] == ks[j];
    }
  }

  /** A new index key placed at its slot keeps the object's order. */
  lemma PlaceKeepsObjectOrder(ks: seq<string>, key: string)
    requires ObjectOrder(ks) && IsIndexKey(key) && key !in ks
    ensures var p := IndexSlot(ks, key); ObjectOrder(ks[..p] + [key] + ks[p..])
  {
    var p := IndexSlot(ks, key);
    var t := ks[..p] + [key] + ks[p..];
    forall i, j | 0 <= i < j < |t| && IsIndexKey(t[j])
      ensures ListedBefore(t[i], t[j])
    {
      if j < p {
        assert t[i] == ks[i] && t[j] == ks[j];
      } else if j == p {
        assert t[i] == ks[i] && t[j] == key;
      } else if i != p {
        assert t[i] == ks[if i < p then i else i - 1] && t[j] == ks[j - 1];
      } else {
        assert t[i] == key && t[j] == ks[j - 1];
        assert p == j - 1 || ListedBefore(ks[p], ks[j - 1]);
        assert ks[p] != key;
      }
    }
  }

  /** A change keeps the sheet in the order an object lists its keys. */
  lemma ChangeKeepsObjectOrder(ds: Drafts, key: string, c: DraftChange)
    requires ObjectOrder(Keys(ds))
    ensures ObjectOrder(Keys(Change(ds, key, c)))
  {
    ChangeKeys(ds, key, c);
    if Find(ds, key).None? {
      assert key !in Keys(ds);
      if IsIndexKey(key) {
        PlaceKeepsObjectOrder(Keys(ds), key);
      } else {
        AppendKeepsObjectOrder(Keys(ds), key);
      }
    }
  }

  lemma IndexKey1001()
    ensures IsIndexKey("1001")
  {
    assert "1001"[..3] == "100" && "100"[..2] == "10" && "10"[..1] == "1";
    assert DigitsValue("1001") == 1001;
    assert Decimal(1001) == Decimal(100) + ['1'];
    assert Decimal(100) == Decimal(10) + ['0'];
  }

  /** Marking "S1" and then "1001" lists "1001" first, as the object would. */
  lemma ObjectOrderExample()
    ensures Keys(Change(Change([], "S1", SetStatus(Present)), "1001", SetStatus(Late))) == ["1001", "S1"]
  {
    var one := Change([], "S1", SetStatus(Present));
    assert !IsDigit("S1"[0]);
    assert one == [("S1", Draft(Some(Present), None))];
    IndexKey1001();
    assert Keys(one) == ["S1"];
    assert IndexSlot(Keys(one), "1001") == 0;
    ChangeKeys(one, "1001", SetStatus(Late));
    assert Keys(one) == ["S1"];
  }

  lemma DistinctInsert(s: seq<string>, p: nat, x: string)
    requires p <= |s| && x !in s
    requires forall i, j :: 0 <= i < j < |s| ==> s[i] != s[j]
    ensures var t := s[..p] + [x] + s[p..]; forall i, j :: 0 <= i < j < |t| ==> t[i] != t[j]
  {
    var t := s[..p] + [x] + s[p..];
    forall i, j | 0 <= i < j < |t| ensures t[i] != t[j] {
      if i != p && j != p {
        assert t[i] == s[if i < p then i else i - 1] && t[j] == s[if j < p then j else j - 1];
      } else if i == p {
        assert t[j] == s[j - 1];
      } else {
        assert t[i] == s[i];
      }
    }
  }

  /** A change never duplicates a key. */
  lemma ChangeKeepsKeysUnique(ds: Drafts, key: string, c: DraftChange)
    requires UniqueKeys(ds)
    ensures UniqueKeys(Change(ds, key, c))
  {
    var r := Change(ds, key, c);
    ChangeKeys(ds, key, c);
    var ks, old_ks := Keys(r), Keys(ds);
    assert forall i :: 0 <= i < |r| ==> r[i].0 == ks[i];
    assert forall i :: 0 <= i < |ds| ==> ds[i].0 == old_ks[i];
    if Find(ds, key).None? {
      var p := if IsIndexKey(key) then IndexSlot(Keys(ds), key) else |ds|;
      assert old_ks[..p] + [key] + old_ks[p..] == ks;
      DistinctInsert(old_ks, p, key);
    }
  }

  predicate HasStatus(e: (string, Draft)) { e.1.status.Some? }

  /** The "Selected" figure under the sheet. */
  function SelectedCount(ds: Drafts): nat {
    Count(ds, HasStatus)
  }

  /** The figure is 0 exactly when no draft has a status, which is when saving is refused. */
  lemma SelectedCountZero(ds: Drafts)
    ensures SelectedCount(ds) <= |ds|
    ensures SelectedCount(ds) == 0 <==> forall i :: 0 <= i < |ds| ==> ds[i].1.status.None?
  {
    if forall i :: 0 <= i < |ds| ==> ds[i].1.status.None? {
      WhereNone(ds, HasStatus);
    }
  }

  /** The row saved for one draft entry: remarks default to the empty string. */
  function DraftRow(e: (string, Draft), date: string): Attendance
    requires e.1.status.Some?
  {
    Attendance(e.0, date, e.1.status.value, Some(EmptyIfNull(e.1.remarks)))
  }

  /** `recordsToInsert`: one row per entry with a status, in key order; entries with only
      remarks are dropped. As many rows as the "Selected" figure. */
  function DraftRows(ds: Drafts, date: string): (r: seq<Attendance>)
    ensures |r| == SelectedCount(ds)
    ensures forall i :: 0 <= i < |r| ==> r[i].date == date
  {
    if ds == [] then []
    else
      var rest := DraftRows(ds[1..], date);
      if ds[0].1.status.Some? then [DraftRow(ds[0], date)] + rest else rest
  }

  /** Every entry with a status is saved, with its status and its remarks or "". */
  lemma {:induction false} DraftRowsComplete(ds: Drafts, date: string, j: nat)
    requires j < |ds| && ds[j].1.status.Some?
    ensures DraftRow(ds[j], date) in DraftRows(ds, date)
    decreases |ds|
  {
    if j > 0 {
      assert ds[j] == ds[1..][j - 1];
      DraftRowsComplete(ds[1..], date, j - 1);
    }
  }

  /** Every saved row is the row of some entry of the sheet. */
  lemma {:induction false} DraftRowsSound(ds: Drafts, date: string, i: nat)
    requires i < |DraftRows(ds, date)|
    ensures exists j :: 0 <= j < |ds| && ds[j].1.status.Some? && DraftRows(ds, date)[i] == DraftRow(ds[j], date)
    decreases |ds|
  {
    var rest := DraftRows(ds[1..], date);
    if ds[0].1.status.Some? && i == 0 {
      assert DraftRows(ds, date)[0] == DraftRow(ds[0], date);
    } else {
      var k := if ds[0].1.status.Some? then i - 1 else i;
      assert DraftRows(ds, date)[i] == rest[k];
      DraftRowsSound(ds[1..], date, k);
      var j :| 0 <= j < |ds[1..]| && ds[1..][j].1.status.Some? && rest[k] == DraftRow(ds[1..][j], date);
      assert ds[1..][j] == ds[j + 1];
    }
  }

  lemma TailKeysUnique(ds: Drafts)
    requires ds != [] && UniqueKeys(ds)
    ensures UniqueKeys(ds[1..])
  {
    forall i, j | 0 <= i < j < |ds| - 1 ensures ds[1..][i].0 != ds[1..][j].0 {
      assert ds[1..][i] == ds[i + 1] && ds[1..][j] == ds[j + 1];
    }
  }

  predicate OnePerStudent(rows: seq<Attendance>) {
    forall i, j :: 0 <= i < j < |rows| ==> rows[i].studentId != rows[j].studentId
  }

  /** With distinct keys, the first entry's student has no row among the later entries' rows. */
  lemma HeadNotInTailRows(ds: Drafts, date: string)
    requires ds != [] && UniqueKeys(ds)
    ensures forall m :: 0 <= m < |DraftRows(ds[1..], date)| ==> DraftRows(ds[1..], date)[m].studentId != ds[0].0
  {
    var tail := ds[1..];
    var rest := DraftRows(tail, date);
    forall m | 0 <= m < |rest|
      ensures rest[m].studentId != ds[0].0
    {
      DraftRowsSound(tail, date, m);
      var k :| 0 <= k < |tail| && tail[k].1.status.Some? && rest[m] == DraftRow(tail[k], date);
      assert tail[k] == ds[k + 1];
    }
  }

  /** With distinct keys, no student gets two rows in one save. */
  lemma {:induction false} DraftRowsOnePerStudent(ds: Drafts, date: string)
    requires UniqueKeys(ds)
    ensures OnePerStudent(DraftRows(ds, date))
    decreases |ds|
  {
    if ds != [] {
      var tail := ds[1..];
      TailKeysUnique(ds);
      DraftRowsOnePerStudent(tail, date);
      var rest := DraftRows(tail, date);
      var r := DraftRows(ds, date);
      if ds[0].1.status.Some? {
        HeadNotInTailRows(ds, date);
        assert r == [DraftRow(ds[0], date)] + rest;
        forall i, j | 0 <= i < j < |r| ensures r[i].studentId != r[j].studentId {
          assert r[j] == rest[j - 1];
          if i > 0 {
            assert r[i] == rest[i - 1];
          }
        }
      } else {
        assert r == rest;
      }
    }
  }

  /** `markAllPresent`'s records: every roster student present on `date`, with empty remarks. */
  function MarkAllRows(roster: seq<RosterEntry>, date: string): (r: seq<Attendance>)
    ensures |r| == |roster|
    ensures forall i :: 0 <= i < |r| ==> r[i] == Attendance(roster[i].studentId, date, Present, Some(""))
  {
    seq(|roster|, i requires 0 <= i < |roster| => Attendance(roster[i].studentId, date, Present, Some("")))
  }

  function OnDate(date: string): Row<Attendance> -> bool {
    (r: Row<Attendance>) => r.cols.date == date
  }

  /** `loadAttendance`: the records of the selected date, in the store's order. */
  function RecordsOn(table: seq<Row<Attendance>>, date: string): (r: seq<Row<Attendance>>)
    ensures forall i :: 0 <= i < |r| ==> r[i] in table && r[i].cols.date == date
    ensures forall i :: 0 <= i < |table| && table[i].cols.date == date ==> table[i] in r
  {
    Where(table, OnDate(date))
  }

  /** After marking everyone present, the date's records hold a present row for every
      roster student. */
  lemma MarkAllShowsEveryone(table: seq<Row<Attendance>>, roster: seq<RosterEntry>, date: string, k: nat)
    requires k < |roster|
    ensures exists i :: 0 <= i < |RecordsOn(Insert(table, MarkAllRows(roster, date)), date)| &&
              RecordsOn(Insert(table, MarkAllRows(roster, date)), date)[i].cols ==
                Attendance(roster[k].studentId, date, Present, Some(""))
  {
    var t := Insert(table, MarkAllRows(roster, date));
    var row := t[|table| + k];
    assert row.cols == Attendance(roster[k].studentId, date, Present, Some(""));
    assert OnDate(date)(row);
    assert row in RecordsOn(t, date);
  }

  /** The edit form's patch. */
  function EditPatch(status: AttendanceStatus, remarks: string): Attendance -> Attendance {
    (a: Attendance) => a.(status := status, remarks := Some(remarks))
  }

  /** The edit form: a status (unset after cancelling) and remarks. */
  datatype EditForm = EditForm(status: Option<AttendanceStatus>, remarks: string)

  const Updated := "Attendance updated successfully!"
  const Deleted := "Attendance record deleted!"
  const AllMarked := "All students marked present!"
  const NothingMarked := "Please mark attendance for at least one student"

  function MarkedMessage(n: nat): string {
    "Attendance marked for " + Decimal(n) + " student(s)!"
  }

  class AttendanceScreen {
    var students: seq<RosterEntry>
    var selectedDate: string
    var attendanceRecords: seq<Row<Attendance>>
    var editingId: Option<Id>
    var editForm: EditForm
    var showMarkForm: bool
    var newAttendance: Drafts
    var successMessage: string
    var errorMessage: string

    /** `today` is the current date, `YYYY-MM-DD`. */
    constructor (today: string)
      ensures students == [] && selectedDate == today && attendanceRecords == [] && editingId == None
      ensures editForm == EditForm(None, "") && !showMarkForm && newAttendance == []
      ensures successMessage == "" && errorMessage == ""
    {
      students, selectedDate, attendanceRecords, editingId := [], today, [], None;
      editForm, showMarkForm, newAttendance := EditForm(None, ""), false, [];
      successMessage, errorMessage := "", "";
    }

    /** `loadStudents`: the trainee roster. */
    method LoadStudents(table: seq<Student>, fails: bool)
      modifies this`students
      ensures students == if fails then old(students) else Roster(table)
    {
      if !fails {
        students := Roster(table);
      }
    }

    /** `loadAttendance`: a failed query empties the list. */
    method LoadAttendance(table: seq<Row<Attendance>>, fails: bool)
      modifies this`attendanceRecords
      ensures attendanceRecords == if fails then [] else RecordsOn(table, selectedDate)
    {
      if fails {
        attendanceRecords := [];
      } else {
        attendanceRecords := RecordsOn(table, selectedDate);
      }
    }

    /** The date picker, which reloads the list. */
    method SelectDate(date: string, table: seq<Row<Attendance>>, fails: bool)
      modifies this`selectedDate, this`attendanceRecords
      ensures selectedDate == date
      ensures attendanceRecords == if fails then [] else RecordsOn(table, date)
    {
      selectedDate := date;
      LoadAttendance(table, fails);
    }

    method StartEdit(record: Row<Attendance>)
      modifies this`editingId, this`editForm
      ensures editingId == Some(record.id)
      ensures editForm == EditForm(Some(record.cols.status), EmptyIfNull(record.cols.remarks))
    {
      editingId := Some(record.id);
      editForm := EditForm(Some(record.cols.status), EmptyIfNull(record.cols.remarks));
    }

    method CancelEdit()
      modifies this`editingId, this`editForm
      ensures editingId == None && editForm == EditForm(None, "")
    {
      editingId := None;
      editForm := EditForm(None, "");
    }

    /** A status button of the edit form. */
    method SetEditStatus(status: AttendanceStatus)
      modifies this`editForm
      ensures editForm == old(editForm).(status := Some(status))
    {
      editForm := editForm.(status := Some(status));
    }

    method SetEditRemarks(remarks: string)
      modifies this`editForm
      ensures editForm == old(editForm).(remarks := remarks)
    {
      editForm := editForm.(remarks := remarks);
    }

    /** `saveEdit(id)`, offered only on the row being edited. `error` is the update's
        error message; on success the list is reloaded from `table'`. */
    method SaveEdit(id: Id, table: seq<Row<Attendance>>, error: Option<string>, reloadFails: bool)
      returns (table': seq<Row<Attendance>>)
      requires editingId == Some(id) && editForm.status.Some?
      modifies this`errorMessage, this`successMessage, this`editingId, this`attendanceRecords
      ensures error.Some? ==>
                table' == table && errorMessage == "Error updating attendance: " + error.value
                && successMessage == "" && editingId == old(editingId) && attendanceRecords == old(attendanceRecords)
      ensures error.None? ==>
                table' == UpdateById(table, id, EditPatch(editForm.status.value, editForm.remarks))
                && successMessage == Updated && errorMessage == "" && editingId == None
                && attendanceRecords == (if reloadFails then [] else RecordsOn(table', selectedDate))
    {
      errorMessage := "";
      successMessage := "";
      if error.None? {
        table' := UpdateById(table, id, EditPatch(editForm.status.value, editForm.remarks));
        successMessage := Updated;
        editingId := None;
        LoadAttendance(table', reloadFails);
      } else {
        table' := table;
        errorMessage := "Error updating attendance: " + error.value;
      }
    }

    /** `deleteRecord(id)`; `confirmed` is the answer to the confirmation dialog. */
    method DeleteRecord(id: Id, confirmed: bool, table: seq<Row<Attendance>>, error: Option<string>, reloadFails: bool)
      returns (table': seq<Row<Attendance>>)
      modifies this`errorMessage, this`successMessage, this`attendanceRecords
      ensures !confirmed ==>
                table' == table && errorMessage == old(errorMessage) && successMessage == old(successMessage)
                && attendanceRecords == old(attendanceRecords)
      ensures confirmed && error.Some? ==>
                table' == table && errorMessage == "Error deleting record: " + error.value
                && successMessage == old(successMessage) && attendanceRecords == old(attendanceRecords)
      ensures confirmed && error.None? ==>
                table' == DeleteById(table, id) && successMessage == Deleted && errorMessage == old(errorMessage)
                && attendanceRecords == (if reloadFails then [] else RecordsOn(table', selectedDate))
    {
      table' := table;
      if !confirmed {
        return;
      }
      if error.None? {
        table' := DeleteById(table, id);
        successMessage := Deleted;
        LoadAttendance(table', reloadFails);
      } else {
        errorMessage := "Error deleting record: " + error.value;
      }
    }

    /** `markAllPresent`; `confirmed` is the answer to the confirmation dialog. */
    method MarkAllPresent(confirmed: bool, table: seq<Row<Attendance>>, error: Option<string>, reloadFails: bool)
      returns (table': seq<Row<Attendance>>)
      modifies this`errorMessage, this`successMessage, this`attendanceRecords
      ensures !confirmed ==>
                table' == table && errorMessage == old(errorMessage) && successMessage == old(successMessage)
                && attendanceRecords == old(attendanceRecords)
      ensures confirmed && error.Some? ==>
                table' == table && errorMessage == "Error: " + error.value
                && successMessage == old(successMessage) && attendanceRecords == old(attendanceRecords)
      ensures confirmed && error.None? ==>
                table' == Insert(table, MarkAllRows(students, selectedDate))
                && successMessage == AllMarked && errorMessage == old(errorMessage)
                && attendanceRecords == (if reloadFails then [] else RecordsOn(table', selectedDate))
    {
      table' := table;
      if !confirmed {
        return;
      }
      var records := MarkAllRows(students, selectedDate);
      if error.None? {
        table' := Insert(table, records);
        successMessage := AllMarked;
        LoadAttendance(table', reloadFails);
      } else {
        errorMessage := "Error: " + error.value;
      }
    }

    /** `handleNewAttendanceChange(studentId, field, value)` */
    method HandleNewAttendanceChange(studentId: string, c: DraftChange)
      modifies this`newAttendance
      ensures newAttendance == Change(old(newAttendance), studentId, c)
      ensures UniqueKeys(old(newAttendance)) ==> UniqueKeys(newAttendance)
      ensures ObjectOrder(Keys(old(newAttendance))) ==> ObjectOrder(Keys(newAttendance))
    {
      if UniqueKeys(newAttendance) {
        ChangeKeepsKeysUnique(newAttendance, studentId, c);
      }
      if ObjectOrder(Keys(newAttendance)) {
        ChangeKeepsObjectOrder(newAttendance, studentId, c);
      }
      newAttendance := Change(newAttendance, studentId, c);
    }

    /** The button that opens or closes the sheet. */
    method ToggleMarkForm()
      modifies this`showMarkForm
      ensures showMarkForm == !old(showMarkForm)
    {
      showMarkForm := !showMarkForm;
    }

    /** `saveNewAttendance`: refuse an empty selection, else insert one row per entry
        with a status and report how many. */
    method SaveNewAttendance(table: seq<Row<Attendance>>, error: Option<string>, reloadFails: bool)
      returns (table': seq<Row<Attendance>>)
      modifies this`errorMessage, this`successMessage, this`newAttendance, this`showMarkForm, this`attendanceRecords
      ensures SelectedCount(old(newAttendance)) == 0 ==>
                table' == table && errorMessage == NothingMarked && successMessage == ""
                && newAttendance == old(newAttendance) && showMarkForm == old(showMarkForm)
                && attendanceRecords == old(attendanceRecords)
      ensures SelectedCount(old(newAttendance)) > 0 && error.Some? ==>
                table' == table && errorMessage == "Error: " + error.value && successMessage == ""
                && newAttendance == old(newAttendance) && showMarkForm == old(showMarkForm)
                && attendanceRecords == old(attendanceRecords)
      ensures SelectedCount(old(newAttendance)) > 0 && error.None? ==>
                table' == Insert(table, DraftRows(old(newAttendance), selectedDate))
                && successMessage == MarkedMessage(SelectedCount(old(newAttendance))) && errorMessage == ""
                && newAttendance == [] && !showMarkForm
                && attendanceRecords == (if reloadFails then [] else RecordsOn(table', selectedDate))
    {
      ghost var drafts := newAttendance;
      errorMessage := "";
      successMessage := "";
      table' := table;
      var records := DraftRows(newAttendance, selectedDate);
      assert |records| == SelectedCount(drafts);
      if |records| == 0 {
        errorMessage := NothingMarked;
        return;
      }
      if error.None? {
        table' := Insert(table, records);
        successMessage := MarkedMessage(|records|);
        newAttendance := [];
        showMarkForm := false;
        LoadAttendance(table', reloadFails);
      } else {
        errorMessage := "Error: " + error.value;
      }
    }

    /** The 2-second timer each success starts. */
    method MessageTimerElapsed()
      modifies this`successMessage
      ensures successMessage == ""
    {
      successMessage := "";
    }
  }
}
