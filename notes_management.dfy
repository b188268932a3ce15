/** The administrators' notes screen (src/components/admin/NotesManagement.tsx):
    pick students, write one note, and send a copy of it to each of them. */
module NotesManagement {
  import opened Table
  import opened Text
  import opened Records
  import opened Selection

  /** The note form; `tags` is the comma-separated text box. */
  datatype NoteForm = NoteForm(title: string, content: string, tags: string, date: string)

  /** The form as it opens: empty fields and today's date. */
  function BlankForm(today: string): NoteForm {
    NoteForm("", "", "", today)
  }

  /** `records`: one note per selected student, in selection order, all sharing the
      title, content, parsed tags and date of the form. */
  function NoteRows(selected: seq<string>, form: NoteForm): (r: seq<Note>)
    ensures |r| == |selected|
    ensures forall i :: 0 <= i < |r| ==> r[i].studentId == selected[i]
    ensures forall i :: 0 <= i < |r| ==>
              r[i].title == form.title && r[i].content == form.content &&
              r[i].tags == ParseCommaList(form.tags) && r[i].date == form.date
  {
    var tags := ParseCommaList(form.tags);
    seq(|selected|, i requires 0 <= i < |selected| => Note(selected[i], form.title, form.content, tags, form.date))
  }

  /** Each selected student receives the note exactly once when the selection has no
      duplicates, and nobody else receives it. */
  lemma NoteRowsOnePerStudent(selected: seq<string>, form: NoteForm, x: string)
    requires Distinct(selected)
    ensures |set i | 0 <= i < |NoteRows(selected, form)| && NoteRows(selected, form)[i].studentId == x| ==
            if x in selected then 1 else 0
  {
    var r := NoteRows(selected, form);
    var hits := set i | 0 <= i < |r| && r[i].studentId == x;
    if x in selected {
      var k :| 0 <= k < |selected| && selected[k] == x;
      assert hits == {k};
    } else {
      assert hits == {};
    }
  }

  /** Every tag of the saved notes is a trimmed, non-empty piece without commas. */
  lemma TagsAreClean(selected: seq<string>, form: NoteForm, i: nat, k: nat)
    requires i < |selected| && k < |NoteRows(selected, form)[i].tags|
    ensures var t := NoteRows(selected, form)[i].tags[k]; t != "" && IsTrimmed(t) && ',' !in t
  {
  }

  const NoSelection := "Please select at least one student"

  function SentMessage(n: nat): string {
    "Note sent successfully to " + Decimal(n) + " student(s)!"
  }

  class NotesScreen {
    var students: seq<RosterEntry>
    var showForm: bool
    var selectedStudents: seq<string>
    var formData: NoteForm
    var successMessage: string
    var errorMessage: string

    constructor (today: string)
      ensures students == [] && !showForm && selectedStudents == [] && formData == BlankForm(today)
      ensures successMessage == "" && errorMessage == ""
    {
      students, showForm, selectedStudents := [], false, [];
      formData := BlankForm(today);
      successMessage, errorMessage := "", "";
    }

    /** `loadStudents`: the trainee roster, kept as it was when the query fails. */
    method LoadStudents(table: seq<Student>, fails: bool)
      modifies this`students
      ensures students == if fails then old(students) else Roster(table)
    {
      if !fails {
        students := Roster(table);
      }
    }

    /** `toggleStudent` */
    method ToggleStudent(id: string)
      modifies this`selectedStudents
      ensures selectedStudents == Toggle(old(selectedStudents), id)
      ensures id in selectedStudents <==> id !in old(selectedStudents)
      ensures Distinct(old(selectedStudents)) ==> Distinct(selectedStudents)
    {
      if Distinct(selectedStudents) {
        ToggleDistinct(selectedStudents, id);
      }
      selectedStudents := Toggle(selectedStudents, id);
    }

    /** `selectAll` */
    method SelectAll()
      modifies this`selectedStudents
      ensures selectedStudents == AllIds(students)
    {
      selectedStudents := AllIds(students);
    }

    /** `clearAll` */
    method ClearAll()
      modifies this`selectedStudents
      ensures selectedStudents == []
    {
      selectedStudents := [];
    }

    /** A form input's change handler. */
    method SetForm(form: NoteForm)
      modifies this`formData
      ensures formData == form
    {
      formData := form;
    }

    /** The "Create Note" button and the form's close button. */
    method SetShowForm(show: bool)
      modifies this`showForm
      ensures showForm == show
    {
      showForm := show;
    }

    /** `handleSubmit`: refuse an empty selection, else insert one note per selected
        student; `error` is the insert's error message, `today` the date the reset form
        gets. */
    method HandleSubmit(table: seq<Row<Note>>, error: Option<string>, today: string)
      returns (table': seq<Row<Note>>)
      modifies this`errorMessage, this`successMessage, this`formData, this`selectedStudents, this`showForm
      ensures old(selectedStudents) == [] ==>
                table' == table && errorMessage == NoSelection && successMessage == ""
                && formData == old(formData) && selectedStudents == [] && showForm == old(showForm)
      ensures old(selectedStudents) != [] && error.Some? ==>
                table' == table && errorMessage == "Error sending note: " + error.value && successMessage == ""
                && formData == old(formData) && selectedStudents == old(selectedStudents) && showForm == old(showForm)
      ensures old(selectedStudents) != [] && error.None? ==>
                table' == Insert(table, NoteRows(old(selectedStudents), old(formData)))
                && successMessage == SentMessage(|old(selectedStudents)|) && errorMessage == ""
                && formData == BlankForm(today) && selectedStudents == [] && !showForm
    {
      var selected, form := selectedStudents, formData;
      errorMessage := "";
      successMessage := "";
      table' := table;
      if |selected| == 0 {
        errorMessage := NoSelection;
        return;
      }
      if error.None? {
        var records := NoteRows(selected, form);
        table' := Insert(table, records);
        successMessage := SentMessage(|selected|);
        formData := BlankForm(today);
        selectedStudents := [];
        showForm := false;
      } else {
        errorMessage := "Error sending note: " + error.value;
      }
    }

    /** The 3-second timer a successful send starts. */
    method MessageTimerElapsed()
      modifies this`successMessage
      ensures successMessage == ""
    {
      successMessage := "";
    }
  }
}
