/** The student dashboard's resume builder (src/components/dashboard/DashboardResume.tsx):
    the personal details and skill list being edited, loading them, and saving them as the
    student's one resume row. */
module DashboardResume {
  import opened Table
  import opened Text
  import opened Records

  /** The resume being edited. */
  datatype ResumeData = ResumeData(info: PersonalInfo, skills: seq<string>)

  const BlankInfo := PersonalInfo("", "", "", "", "")
  const BlankResume := ResumeData(BlankInfo, [])

  /** `addSkill`: append the trimmed input and clear the box, or do nothing at all when the
      input is only whitespace. */
  function AddSkill(data: ResumeData, input: string): (r: (ResumeData, string))
    ensures AllSpace(input) ==> r == (data, input)
    ensures !AllSpace(input) ==> r == (data.(skills := data.skills + [Trim(input)]), "")
    ensures !AllSpace(input) ==> Trim(input) != "" && IsTrimmed(Trim(input))
  {
    TrimEmptyIffAllSpace(input);
    var t := Trim(input);
    if t != "" then (data.(skills := data.skills + [t]), "") else (data, input)
  }

  /** `skills.filter((_, i) => i !== index)` */
  function RemoveAt(s: seq<string>, index: int): (r: seq<string>)
    ensures 0 <= index < |s| ==> |r| == |s| - 1
    ensures 0 <= index < |s| ==> forall j :: 0 <= j < |r| ==> r[j] == if j < index then s[j] else s[j + 1]
    ensures !(0 <= index < |s|) ==> r == s
  {
    if 0 <= index < |s| then s[..index] + s[index + 1..] else s
  }

  /** Removing the skill just added gives the list back. */
  lemma RemoveLastAdded(data: ResumeData, input: string)
    requires !AllSpace(input)
    ensures RemoveAt(AddSkill(data, input).0.skills, |data.skills|) == data.skills
  {
    var s := AddSkill(data, input).0.skills;
    assert s[..|data.skills|] == data.skills;
  }

  /** Removing index `i` and putting the skill back at `i` restores the list. */
  lemma RemoveThenReinsert(s: seq<string>, i: nat)
    requires i < |s|
    ensures RemoveAt(s, i)[..i] + [s[i]] + RemoveAt(s, i)[i..] == s
  {
    var r := RemoveAt(s, i);
    assert r[..i] == s[..i];
    assert r[i..] == s[i + 1..];
  }

  function Owned(id: string): Row<Resume> -> bool {
    (r: Row<Resume>) => r.cols.studentId == id
  }

  /** The row as the update writes it: the edited details and skills. */
  function Write(data: ResumeData): Row<Resume> -> Row<Resume> {
    (r: Row<Resume>) => r.(cols := r.cols.(personalInfo := Some(data.info), skills := Some(data.skills)))
  }

  /** `loadResume`: a found row replaces the details (unless it has none) and the skills
      (missing skills read as none); no row or a failed lookup keeps what is shown. */
  function Loaded(current: ResumeData, table: seq<Row<Resume>>, id: string, lookupFails: bool): (r: ResumeData)
    ensures MaybeSingle(table, Owned(id), lookupFails).Found? ==>
              var row := MaybeSingle(table, Owned(id), lookupFails).row.cols;
              && r.info == (if row.personalInfo.Some? then row.personalInfo.value else current.info)
              && r.skills == (if row.skills.Some? then row.skills.value else [])
    ensures !MaybeSingle(table, Owned(id), lookupFails).Found? ==> r == current
  {
    match MaybeSingle(table, Owned(id), lookupFails)
    case Found(row) =>
      ResumeData(if row.cols.personalInfo.Some? then row.cols.personalInfo.value else current.info,
                 if row.cols.skills.Some? then row.cols.skills.value else [])
    case Absent => current
    case Failed => current
  }

  /** `handleSave`: look the student's row up; if found, rewrite the student's rows, else
      insert one. `writeFails` is an error of that write, which the handler ignores. */
  function Save(table: seq<Row<Resume>>, id: string, data: ResumeData, lookupFails: bool, writeFails: bool): (r: seq<Row<Resume>>)
    ensures writeFails ==> r == table
    ensures |r| == |table| || |r| == |table| + 1
    ensures forall i :: 0 <= i < |table| && table[i].cols.studentId != id ==> r[i] == table[i]
  {
    if writeFails then table
    else if MaybeSingle(table, Owned(id), lookupFails).Found? then Patch(table, Owned(id), Write(data))
    else Insert(table, [Resume(id, Some(data.info), Some(data.skills))])
  }

  /** Every row of the student holds the saved data. */
  predicate HoldsData(table: seq<Row<Resume>>, id: string, data: ResumeData) {
    forall i :: 0 <= i < |table| && table[i].cols.studentId == id ==>
      table[i].cols == Resume(id, Some(data.info), Some(data.skills))
  }

  /** Saving with at most one row already there leaves exactly one row for the student,
      holding what was saved, and no other student's row changes. */
  lemma SaveLeavesOneRow(table: seq<Row<Resume>>, id: string, data: ResumeData)
    requires Count(table, Owned(id)) <= 1
    ensures Count(Save(table, id, data, false, false), Owned(id)) == 1
    ensures HoldsData(Save(table, id, data, false, false), id, data)
    ensures forall i :: 0 <= i < |table| && table[i].cols.studentId != id ==> Save(table, id, data, false, false)[i] == table[i]
  {
    var r := Save(table, id, data, false, false);
    if MaybeSingle(table, Owned(id), false).Found? {
      PatchKeepsCount(table, Owned(id), Write(data));
    } else {
      var row := Row(NextId(table), Resume(id, Some(data.info), Some(data.skills)));
      assert r == table + [row];
      WhereAppend(table, [row], Owned(id));
      assert Where([row], Owned(id)) == [row];
    }
  }

  /** When the lookup fails although the row exists, the save inserts a second row. */
  lemma FailedLookupDuplicates(table: seq<Row<Resume>>, id: string, data: ResumeData)
    requires Count(table, Owned(id)) == 1
    ensures Count(Save(table, id, data, true, false), Owned(id)) == 2
  {
    var row := Row(NextId(table), Resume(id, Some(data.info), Some(data.skills)));
    assert Save(table, id, data, true, false) == table + [row];
    WhereAppend(table, [row], Owned(id));
    assert Where([row], Owned(id)) == [row];
  }

  class ResumeEditor {
    const studentId: string
    var resumeData: ResumeData
    var skillInput: string

    constructor (id: string)
      ensures studentId == id && resumeData == BlankResume && skillInput == ""
    {
      studentId := id;
      resumeData, skillInput := BlankResume, "";
    }

    /** `loadResume` */
    method LoadResume(table: seq<Row<Resume>>, lookupFails: bool)
      modifies this`resumeData
      ensures resumeData == Loaded(old(resumeData), table, studentId, lookupFails)
    {
      var found := MaybeSingle(table, Owned(studentId), lookupFails);
      if found.Found? {
        var info := if found.row.cols.personalInfo.Some? then found.row.cols.personalInfo.value else resumeData.info;
        var skills := if found.row.cols.skills.Some? then found.row.cols.skills.value else [];
        resumeData := ResumeData(info, skills);
      }
    }

    /** An input of the personal details. */
    method SetInfo(info: PersonalInfo)
      modifies this`resumeData
      ensures resumeData == old(resumeData).(info := info)
    {
      resumeData := resumeData.(info := info);
    }

    method SetSkillInput(text: string)
      modifies this`skillInput
      ensures skillInput == text
    {
      skillInput := text;
    }

    /** `addSkill`, from the Add button or the Enter key. */
    method AddSkillClicked()
      modifies this`resumeData, this`skillInput
      ensures (resumeData, skillInput) == AddSkill(old(resumeData), old(skillInput))
      ensures AllSpace(old(skillInput)) ==> resumeData == old(resumeData) && skillInput == old(skillInput)
      ensures !AllSpace(old(skillInput)) ==> resumeData.skills == old(resumeData).skills + [Trim(old(skillInput))] && skillInput == ""
    {
      var t := Trim(skillInput);
      TrimEmptyIffAllSpace(skillInput);
      if t != "" {
        resumeData := resumeData.(skills := resumeData.skills + [t]);
        skillInput := "";
      }
    }

    /** `removeSkill(index)` */
    method RemoveSkill(index: int)
      modifies this`resumeData
      ensures resumeData == old(resumeData).(skills := RemoveAt(old(resumeData).skills, index))
    {
      resumeData := resumeData.(skills := RemoveAt(resumeData.skills, index));
    }

    /** `handleSave`; the confirmation alert follows whatever happened. */
    method HandleSave(table: seq<Row<Resume>>, lookupFails: bool, writeFails: bool)
      returns (table': seq<Row<Resume>>, alert: string)
      ensures table' == Save(table, studentId, resumeData, lookupFails, writeFails)
      ensures alert == "Resume saved successfully!"
    {
      var existing := MaybeSingle(table, Owned(studentId), lookupFails);
      table' := table;
      if existing.Found? {
        if !writeFails {
          table' := Patch(table, Owned(studentId), Write(resumeData));
        }
      } else if !writeFails {
        table' := Insert(table, [Resume(studentId, Some(resumeData.info), Some(resumeData.skills))]);
      }
      alert := "Resume saved successfully!";
    }
  }
}
