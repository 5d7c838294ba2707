/**
 * The Add Prospect page: a six-field form, a required-field check, and a
 * submit that asks the backend for the current user and inserts the form
 * as a new row owned by that user.
 */
module AddProspect {
  import opened Wrappers
  import opened Backend

  /** The keys of the form, `keyof ProspectForm`. */
  datatype Field = FullName | Email | Phone | Company | StageField | Notes

  datatype ProspectForm = ProspectForm(
    fullName: string,
    email: string,
    phone: string,
    company: string,
    stage: string,
    notes: string)
  {
    function Get(f: Field): string
    {
      match f
      case FullName => fullName
      case Email => email
      case Phone => phone
      case Company => company
      case StageField => stage
      case Notes => notes
    }

    /** `{ ...prev, [field]: value }`: `f` becomes `v` and every other field stays. */
    function With(f: Field, v: string): (r: ProspectForm)
      ensures r.Get(f) == v
      ensures forall g :: g != f ==> r.Get(g) == Get(g)
    {
      match f
      case FullName => this.(fullName := v)
      case Email => this.(email := v)
      case Phone => this.(phone := v)
      case Company => this.(company := v)
      case StageField => this.(stage := v)
      case Notes => this.(notes := v)
    }
  }

  /** The form as the page opens: every field empty, the stage 'new'. */
  const InitialForm := ProspectForm("", "", "", "", "new", "")

  lemma InitialFormFields(f: Field)
    ensures InitialForm.Get(f) == if f == StageField then "new" else ""
  {
  }

  /** Two forms with the same value in every field are the same form. */
  lemma FormsEqualByFields(a: ProspectForm, b: ProspectForm)
    requires forall f :: a.Get(f) == b.Get(f)
    ensures a == b
  {
    assert a.Get(FullName) == b.Get(FullName) && a.Get(Email) == b.Get(Email);
    assert a.Get(Phone) == b.Get(Phone) && a.Get(Company) == b.Get(Company);
    assert a.Get(StageField) == b.Get(StageField) && a.Get(Notes) == b.Get(Notes);
  }

  /** Writing a field twice keeps only the second value, and writing back a field's value changes nothing. */
  lemma WithOverwrites(form: ProspectForm, f: Field, v: string, w: string)
    ensures form.With(f, v).With(f, w) == form.With(f, w)
    ensures form.With(f, form.Get(f)) == form
  {
    FormsEqualByFields(form.With(f, v).With(f, w), form.With(f, w));
    FormsEqualByFields(form.With(f, form.Get(f)), form);
  }

  /** A stage the select offers: its stored value and its label (`label` in the source). */
  datatype StageOption = StageOption(value: string, caption: string)

  /** `stages`, in the order the select lists them. */
  const Stages: seq<StageOption> := [
    StageOption("new", "New"),
    StageOption("contacted", "Contacted"),
    StageOption("qualified", "Qualified"),
    StageOption("proposal", "Proposal"),
    StageOption("closed", "Closed")]

  function StageValues(options: seq<StageOption>): (r: seq<string>)
    ensures |r| == |options|
    ensures forall i :: 0 <= i < |r| ==> r[i] == options[i].value
  {
    seq(|options|, i requires 0 <= i < |options| => options[i].value)
  }

  /** The select offers five distinct stages, and the initial form's stage is the first. */
  lemma StagesAreFixed()
    ensures StageValues(Stages) == ["new", "contacted", "qualified", "proposal", "closed"]
    ensures forall i, j :: 0 <= i < j < |Stages| ==> Stages[i].value != Stages[j].value
    ensures InitialForm.stage == Stages[0].value
  {
    var v := StageValues(Stages);
    assert v[0] == "new" && v[1] == "contacted" && v[2] == "qualified";
    assert v[3] == "proposal" && v[4] == "closed";
  }

  /** The fields a submit requires. */
  const RequiredFields: set<Field> := {FullName, Email}

  /** The required-field check: every required field is non-empty. */
  predicate IsComplete(form: ProspectForm)
    ensures IsComplete(form) <==> forall f :: f in RequiredFields ==> form.Get(f) != ""
  {
    form.fullName != "" && form.email != ""
  }

  /** The initial form cannot be submitted; filling in name and email is what makes it pass. */
  lemma CompletenessOfFilledForm(name: string, email: string)
    ensures !IsComplete(InitialForm)
    ensures IsComplete(InitialForm.With(FullName, name).With(Email, email)) <==> name != "" && email != ""
  {
  }

  /** Editing any field but the name and the email does not change whether the form passes. */
  lemma OptionalFieldsDoNotGate(form: ProspectForm, f: Field, v: string)
    requires f != FullName && f != Email
    ensures IsComplete(form.With(f, v)) == IsComplete(form)
  {
    assert form.With(f, v).Get(FullName) == form.Get(FullName);
    assert form.With(f, v).Get(Email) == form.Get(Email);
  }

  /** The row sent to `insert`: `{ ...formData, user_id }`. */
  datatype NewRow = NewRow(
    fullName: string,
    email: string,
    phone: string,
    company: string,
    stage: string,
    notes: string,
    userId: string)

  /** The form fields a row carries besides its owner. */
  function FormOf(row: NewRow): ProspectForm
  {
    ProspectForm(row.fullName, row.email, row.phone, row.company, row.stage, row.notes)
  }

  /** The inserted row: the form's fields unchanged, owned by `userId`. */
  function RowFor(form: ProspectForm, userId: string): (r: NewRow)
    ensures FormOf(r) == form
    ensures r.userId == userId
  {
    NewRow(form.fullName, form.email, form.phone, form.company, form.stage, form.notes, userId)
  }

  /** A row is determined by its form fields and its owner. */
  lemma RowForFormOf(row: NewRow)
    ensures RowFor(FormOf(row), row.userId) == row
  {
  }

  /** The toast a submit ends with. */
  datatype Notice = ValidationError | AddFailed | Added

  /**
   * What a submit does: the row it asks the backend to insert (if it gets
   * that far), where it navigates, and the toast it shows.
   */
  datatype SubmitResult = SubmitResult(insertRequest: Option<NewRow>, navigateTo: Option<string>, notice: Notice)

  /**
   * The outcome of `handleSubmit` for a form, the user `getUser` reports and
   * the insert's error: an incomplete form stops before any backend call; no
   * user is an error with no insert; otherwise the form is inserted for the
   * user and the page moves to the list only if the insert succeeded.
   */
  function SubmitOutcome(form: ProspectForm, user: Option<User>, insertError: Option<string>): (r: SubmitResult)
    ensures r.notice == ValidationError <==> !IsComplete(form)
    ensures r.insertRequest.Some? <==> IsComplete(form) && user.Some?
    ensures r.insertRequest.Some? ==> r.insertRequest.value == RowFor(form, user.value.id)
    ensures r.navigateTo.Some? <==> IsComplete(form) && user.Some? && insertError.None?
    ensures r.navigateTo.Some? ==> r.navigateTo.value == "/prospects"
    ensures r.notice == Added <==> r.navigateTo.Some?
  {
    if !IsComplete(form) then SubmitResult(None, None, ValidationError)
    else if user.None? then SubmitResult(None, None, AddFailed)
    else
      var row := RowFor(form, user.value.id);
      if insertError.Some? then SubmitResult(Some(row), None, AddFailed)
      else SubmitResult(Some(row), Some("/prospects"), Added)
  }

  /** The page's state: `formData` and `loading`. */
  class AddProspectPage {
    var formData: ProspectForm
    var loading: bool

    constructor ()
      ensures formData == InitialForm && !loading
    {
      formData := InitialForm;
      loading := false;
    }

    /** `handleInputChange(field, value)`. */
    method HandleInputChange(field: Field, value: string)
      modifies this`formData
      ensures formData == old(formData).With(field, value)
    {
      formData := formData.With(field, value);
    }

    /**
     * `handleSubmit`, given what `getUser` and the insert would answer. The
     * form is left as it was. A form that fails the required-field check
     * never touches `loading`; every other submit leaves it false.
     */
    method HandleSubmit(user: Option<User>, insertError: Option<string>) returns (result: SubmitResult)
      modifies this`loading
      ensures result == SubmitOutcome(formData, user, insertError)
      ensures !IsComplete(formData) ==> loading == old(loading)
      ensures IsComplete(formData) ==> !loading
    {
      if !IsComplete(formData) {
        return SubmitResult(None, None, ValidationError);
      }
      loading := true;
      if user.None? {
        result := SubmitResult(None, None, AddFailed);
      } else {
        var row := RowFor(formData, user.value.id);
        if insertError.Some? {
          result := SubmitResult(Some(row), None, AddFailed);
        } else {
          result := SubmitResult(Some(row), Some("/prospects"), Added);
        }
      }
      loading := false;
    }
  }
}
