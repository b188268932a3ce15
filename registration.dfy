/** The public registration form (src/components/RegistrationForm.tsx): six fields,
    one change handler keyed by field name, and one insert on submit. */
module Registration {
  import opened Text

  datatype Field = FullName | CollegeName | EducationQualification | MobileNumber | Cgpa | City

  datatype Form = Form(
    fullName: string,
    collegeName: string,
    educationQualification: string,
    mobileNumber: string,
    cgpa: string,
    city: string)

  function EmptyForm(): Form {
    Form("", "", "", "", "", "")
  }

  function Get(f: Form, field: Field): string {
    match field
    case FullName => f.fullName
    case CollegeName => f.collegeName
    case EducationQualification => f.educationQualification
    case MobileNumber => f.mobileNumber
    case Cgpa => f.cgpa
    case City => f.city
  }

  /** `{ ...formData, [name]: value }` */
  function With(f: Form, field: Field, value: string): (r: Form)
    ensures Get(r, field) == value
    ensures forall other :: other != field ==> Get(r, other) == Get(f, other)
  {
    match field
    case FullName => f.(fullName := value)
    case CollegeName => f.(collegeName := value)
    case EducationQualification => f.(educationQualification := value)
    case MobileNumber => f.(mobileNumber := value)
    case Cgpa => f.(cgpa := value)
    case City => f.(city := value)
  }

  /** A form is determined by its six fields. */
  lemma FormExtensional(f: Form, g: Form)
    requires forall field :: Get(f, field) == Get(g, field)
    ensures f == g
  {
    assert Get(f, FullName) == Get(g, FullName) && Get(f, CollegeName) == Get(g, CollegeName);
    assert Get(f, EducationQualification) == Get(g, EducationQualification);
    assert Get(f, MobileNumber) == Get(g, MobileNumber) && Get(f, Cgpa) == Get(g, Cgpa) && Get(f, City) == Get(g, City);
  }

  /** Writing a field's own value back changes nothing; a second write to a field wins. */
  lemma WithLaws(f: Form, field: Field, a: string, b: string)
    ensures With(f, field, Get(f, field)) == f
    ensures With(With(f, field, a), field, b) == With(f, field, b)
  {
    FormExtensional(With(f, field, Get(f, field)), f);
    FormExtensional(With(With(f, field, a), field, b), With(f, field, b));
  }

  /** The options of the qualification select. */
  function Qualifications(): seq<string> {
    ["Student", "Diploma", "BTech", "Bachelor's Degree", "Master's Degree", "PhD"]
  }

  /** `pattern="[0-9]{10}"` */
  predicate TenDigits(s: string) {
    |s| == 10 && forall i :: 0 <= i < |s| ==> IsDigit(s[i])
  }

  /** The browser's constraint validation, which must pass before the submit handler
      runs: every field is required, the qualification is one of the options and the
      mobile number matches its pattern. */
  predicate Submittable(f: Form) {
    && f.fullName != "" && f.collegeName != "" && f.cgpa != "" && f.city != ""
    && f.educationQualification in Qualifications()
    && TenDigits(f.mobileNumber)
  }

  /** The columns the insert writes. */
  datatype Applicant = Applicant(
    fullName: string,
    collegeName: string,
    educationQualification: string,
    mobileNumber: string,
    cgpa: string,
    city: string)

  function ToRow(f: Form): (a: Applicant)
    ensures a.fullName == Get(f, FullName) && a.collegeName == Get(f, CollegeName)
    ensures a.educationQualification == Get(f, EducationQualification)
    ensures a.mobileNumber == Get(f, MobileNumber) && a.cgpa == Get(f, Cgpa) && a.city == Get(f, City)
  {
    Applicant(f.fullName, f.collegeName, f.educationQualification, f.mobileNumber, f.cgpa, f.city)
  }

  /** Every row the form can insert carries a listed qualification and a ten-digit number. */
  lemma InsertedRowValid(f: Form)
    requires Submittable(f)
    ensures ToRow(f).educationQualification in Qualifications() && TenDigits(ToRow(f).mobileNumber)
  {
  }

  /** A blank-padded or short mobile number never reaches the handler. */
  lemma MobileExamples()
    ensures TenDigits("9876543210")
    ensures !TenDigits("98765 4321") && !TenDigits("987654321")
  {
    assert "98765 4321"[5] == ' ';
  }

  const SubmitFailed := "Failed to submit registration. Please try again."

  class RegistrationForm {
    var form: Form
    var isSubmitting: bool
    var isSuccess: bool
    var error: string

    constructor ()
      ensures form == EmptyForm() && !isSubmitting && !isSuccess && error == ""
    {
      form, isSubmitting, isSuccess, error := EmptyForm(), false, false, "";
    }

    /** `handleChange`: the named field takes the value and the error is cleared. */
    method HandleChange(field: Field, value: string)
      modifies this`form, this`error
      ensures form == With(old(form), field, value) && error == ""
    {
      form := With(form, field, value);
      error := "";
    }

    /** `handleSubmit`. `table` is `student_registrations` before the insert and `fails`
        an error of the insert; `closeScheduled` is the 2-second timer that closes the modal. */
    method HandleSubmit(table: seq<Applicant>, fails: bool) returns (table': seq<Applicant>, closeScheduled: bool)
      requires Submittable(form)
      modifies this`isSubmitting, this`isSuccess, this`error
      ensures !isSubmitting
      ensures !fails ==> table' == table + [ToRow(form)] && isSuccess && error == "" && closeScheduled
      ensures fails ==> table' == table && isSuccess == old(isSuccess) && error == SubmitFailed && !closeScheduled
    {
      isSubmitting := true;
      error := "";
      closeScheduled := false;
      if fails {
        table' := table;
        error := SubmitFailed;
      } else {
        table' := table + [ToRow(form)];
        isSuccess := true;
        closeScheduled := true;
      }
      isSubmitting := false;
    }
  }
}
