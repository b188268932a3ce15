/** The student's attendance page (src/components/dashboard/DashboardAttendance.tsx):
    the student's records and a summary of them. */
module DashboardAttendance {
  import opened Table
  import opened Records
  import opened Percent

  datatype Stats = Stats(total: nat, present: nat, absent: nat, percentage: nat)

  /** The summary shown before the first load. */
  function InitialStats(): Stats {
    Stats(0, 0, 0, 0)
  }

  function IsPresent(a: Attendance): bool { a.status == Present }
  function IsAbsent(a: Attendance): bool { a.status == AttendanceStatus.Absent }
  function IsLate(a: Attendance): bool { a.status == Late }
  function NotPresent(a: Attendance): bool { a.status != Present }

  /** The summary of the loaded records: "absent" is every day not marked present,
      and the percentage is the rounded share of present days. */
  function Summarize(rows: seq<Attendance>): (s: Stats)
    ensures s.total == |rows| && s.present + s.absent == s.total
    ensures s.present == Count(rows, IsPresent) && s.absent == Count(rows, NotPresent)
    ensures s.percentage <= 100
    ensures s.total == 0 ==> s.percentage == 0
    ensures s.total > 0 ==> 200 * s.present - s.total < 2 * s.total * s.percentage <= 200 * s.present + s.total
  {
    var present := Count(rows, IsPresent);
    var total := |rows|;
    CountComplement(rows, IsPresent, NotPresent);
    Stats(total, present, total - present, Percentage(present, total))
  }

  /** The "absent" figure counts late days as well as absent ones. */
  lemma {:induction false} AbsentIncludesLate(rows: seq<Attendance>)
    ensures Summarize(rows).absent == Count(rows, IsAbsent) + Count(rows, IsLate)
  {
    CountSplit(rows, NotPresent, IsAbsent, IsLate);
  }

  /** A record set with every day present reads 100%. */
  lemma AllPresentIsHundred(rows: seq<Attendance>)
    requires rows != [] && forall i :: 0 <= i < |rows| ==> rows[i].status == Present
    ensures Summarize(rows).percentage == 100 && Summarize(rows).absent == 0
  {
    WhereAll(rows, IsPresent);
    PercentageEnds(|rows|);
  }

  /** The page's state. */
  datatype Screen = Screen(attendance: seq<Attendance>, stats: Stats)

  function InitialScreen(): Screen {
    Screen([], InitialStats())
  }

  function OfStudent(studentId: string): Attendance -> bool {
    (a: Attendance) => a.studentId == studentId
  }

  /** `loadAttendance`: the student's rows (in the order the store returns `table`) and
      their summary; when the query fails the page keeps what it showed. */
  function LoadAttendance(prev: Screen, studentId: string, table: seq<Attendance>, fails: bool): (r: Screen)
    ensures fails ==> r == prev
    ensures !fails ==> r.stats == Summarize(r.attendance)
    ensures !fails ==> forall i :: 0 <= i < |r.attendance| ==> r.attendance[i] in table && r.attendance[i].studentId == studentId
    ensures !fails ==> forall i :: 0 <= i < |table| && table[i].studentId == studentId ==> table[i] in r.attendance
  {
    if fails then prev
    else
      var data := Where(table, OfStudent(studentId));
      Screen(data, Summarize(data))
  }
}
