/**
 * The four-step profile wizard (`Wizard.tsx`): a step counter from 1 to 5, the
 * form's text fields, the per-step required-field check that stores its error
 * list, and the payload built from the form for the insights request.
 */
module Wizard {
  import opened Wrappers
  import Text

  /** The form's fields, in the order the component declares them. */
  datatype Field =
    | EducationLevel | Stream | Branch | InstitutionType | Marks10th | Marks12th | Cgpa
    | Name | Age | Skills | Interests | Traits
    | LongTermGoal | PreferredIndustry | PreferredLocation | Constraints

  const AllFields: set<Field> := {
    EducationLevel, Stream, Branch, InstitutionType, Marks10th, Marks12th, Cgpa,
    Name, Age, Skills, Interests, Traits,
    LongTermGoal, PreferredIndustry, PreferredLocation, Constraints
  }

  /** The form state: every field holds the text typed or selected for it. */
  type Form = map<Field, string>

  /** Every field has an entry. */
  predicate IsForm(form: Form) {
    forall f: Field :: f in form
  }

  lemma AllFieldsListed()
    ensures forall f: Field :: f in AllFields
  {
    forall f: Field ensures f in AllFields {
      match f
      case EducationLevel => case Stream => case Branch => case InstitutionType =>
      case Marks10th => case Marks12th => case Cgpa =>
      case Name => case Age => case Skills => case Interests => case Traits =>
      case LongTermGoal => case PreferredIndustry => case PreferredLocation => case Constraints =>
    }
  }

  /** The initial form: every field empty except the institution type, "Private". */
  function InitialForm(): (form: Form)
    ensures IsForm(form)
    ensures form[InstitutionType] == "Private"
    ensures forall f :: f in form && f != InstitutionType ==> form[f] == ""
  {
    AllFieldsListed();
    map f | f in AllFields :: if f == InstitutionType then "Private" else ""
  }

  /** The checks of `validateStep`, each a field and the message pushed when it is empty. */
  function Required(step: int): seq<(Field, string)> {
    if step == 1 then [(Age, "Age is required")]
    else if step == 2 then [
      (EducationLevel, "Education Level is required"),
      (Stream, "Stream/Major is required"),
      (Branch, "Branch is required"),
      (Marks10th, "10th Marks are required"),
      (Marks12th, "12th Marks are required"),
      (Cgpa, "CGPA is required")]
    else if step == 3 then [
      (Skills, "Skills are required"),
      (Interests, "Interests are required")]
    else if step == 4 then [
      (LongTermGoal, "Long Term Goal is required"),
      (PreferredIndustry, "Preferred Industry is required"),
      (PreferredLocation, "Preferred Location is required")]
    else []
  }

  /** The messages of the checks whose field is empty (falsy), in check order. */
  function Missing(form: Form, checks: seq<(Field, string)>): (errors: seq<string>)
    requires IsForm(form)
    ensures |errors| <= |checks|
    ensures errors == [] <==> forall i :: 0 <= i < |checks| ==> form[checks[i].0] != ""
  {
    if checks == [] then []
    else
      var rest := Missing(form, checks[1..]);
      assert forall i :: 0 < i < |checks| ==> checks[i] == checks[1..][i - 1];
      (if form[checks[0].0] == "" then [checks[0].1] else []) + rest
  }

  /** The error list `validateStep(step)` computes. */
  function StepErrors(form: Form, step: int): seq<string>
    requires IsForm(form)
  {
    Missing(form, Required(step))
  }

  /** Which fields each step requires, and that any other step requires nothing. */
  lemma StepErrorsEmptyIff(form: Form, step: int)
    requires IsForm(form)
    ensures step == 1 ==> (StepErrors(form, step) == [] <==> form[Age] != "")
    ensures step == 2 ==> (StepErrors(form, step) == [] <==>
      && form[EducationLevel] != "" && form[Stream] != "" && form[Branch] != ""
      && form[Marks10th] != "" && form[Marks12th] != "" && form[Cgpa] != "")
    ensures step == 3 ==> (StepErrors(form, step) == [] <==> form[Skills] != "" && form[Interests] != "")
    ensures step == 4 ==> (StepErrors(form, step) == [] <==>
      form[LongTermGoal] != "" && form[PreferredIndustry] != "" && form[PreferredLocation] != "")
    ensures !(1 <= step <= 4) ==> StepErrors(form, step) == []
  {
    var checks := Required(step);
    if step == 2 {
      assert checks[0].0 == EducationLevel && checks[1].0 == Stream && checks[2].0 == Branch;
      assert checks[3].0 == Marks10th && checks[4].0 == Marks12th && checks[5].0 == Cgpa;
    } else if step == 3 {
      assert checks[0].0 == Skills && checks[1].0 == Interests;
    } else if step == 4 {
      assert checks[0].0 == LongTermGoal && checks[1].0 == PreferredIndustry && checks[2].0 == PreferredLocation;
    }
  }

  /** A message is listed exactly when some check with that message finds its field empty. */
  lemma {:induction false} MissingMembers(form: Form, checks: seq<(Field, string)>, m: string)
    requires IsForm(form)
    ensures m in Missing(form, checks) <==>
      exists i :: 0 <= i < |checks| && checks[i].1 == m && form[checks[i].0] == ""
  {
    if checks != [] {
      MissingMembers(form, checks[1..], m);
      if exists i :: 0 <= i < |checks| && checks[i].1 == m && form[checks[i].0] == "" {
        var i :| 0 <= i < |checks| && checks[i].1 == m && form[checks[i].0] == "";
        if i > 0 {
          assert checks[1..][i - 1] == checks[i];
        }
      }
      if exists i :: 0 <= i < |checks[1..]| && checks[1..][i].1 == m && form[checks[1..][i].0] == "" {
        var i :| 0 <= i < |checks[1..]| && checks[1..][i].1 == m && form[checks[1..][i].0] == "";
        assert checks[i + 1] == checks[1..][i];
      }
    }
  }

  /** A message that only one check of the list carries is listed exactly when that check's field is empty. */
  lemma MissingMessage(form: Form, checks: seq<(Field, string)>, k: nat)
    requires IsForm(form) && k < |checks|
    requires forall i :: 0 <= i < |checks| && i != k ==> checks[i].1 != checks[k].1
    ensures checks[k].1 in Missing(form, checks) <==> form[checks[k].0] == ""
  {
    MissingMembers(form, checks, checks[k].1);
  }

  /** Which message each empty field gives on each step of `validateStep`. */
  lemma StepErrorMessages(form: Form, step: int)
    requires IsForm(form)
    ensures step == 1 ==> ("Age is required" in StepErrors(form, step) <==> form[Age] == "")
    ensures step == 2 ==> StepTwoMessages(form, StepErrors(form, step))
    ensures step == 3 ==>
      && ("Skills are required" in StepErrors(form, step) <==> form[Skills] == "")
      && ("Interests are required" in StepErrors(form, step) <==> form[Interests] == "")
    ensures step == 4 ==> StepFourMessages(form, StepErrors(form, step))
  {
    var checks := Required(step);
    if step == 1 {
      MissingMessage(form, checks, 0);
    } else if step == 2 {
      StepTwoErrors(form, step);
    } else if step == 3 {
      MissingMessage(form, checks, 0);
      MissingMessage(form, checks, 1);
    } else if step == 4 {
      StepFourErrors(form, step);
    }
  }

  /** The messages of the academic-details step, each present exactly when its field is empty. */
  predicate StepTwoMessages(form: Form, errors: seq<string>)
    requires IsForm(form)
  {
    && ("Education Level is required" in errors <==> form[EducationLevel] == "")
    && ("Stream/Major is required" in errors <==> form[Stream] == "")
    && ("Branch is required" in errors <==> form[Branch] == "")
    && ("10th Marks are required" in errors <==> form[Marks10th] == "")
    && ("12th Marks are required" in errors <==> form[Marks12th] == "")
    && ("CGPA is required" in errors <==> form[Cgpa] == "")
  }

  /** The messages of the goals step, each present exactly when its field is empty. */
  predicate StepFourMessages(form: Form, errors: seq<string>)
    requires IsForm(form)
  {
    && ("Long Term Goal is required" in errors <==> form[LongTermGoal] == "")
    && ("Preferred Industry is required" in errors <==> form[PreferredIndustry] == "")
    && ("Preferred Location is required" in errors <==> form[PreferredLocation] == "")
  }

  lemma StepTwoErrors(form: Form, step: int)
    requires IsForm(form) && step == 2
    ensures StepTwoMessages(form, StepErrors(form, step))
  {
    var checks := Required(step);
    MissingMessage(form, checks, 0);
    MissingMessage(form, checks, 1);
    MissingMessage(form, checks, 2);
    MissingMessage(form, checks, 3);
    MissingMessage(form, checks, 4);
    MissingMessage(form, checks, 5);
  }

  lemma StepFourErrors(form: Form, step: int)
    requires IsForm(form) && step == 4
    ensures StepFourMessages(form, StepErrors(form, step))
  {
    var checks := Required(step);
    MissingMessage(form, checks, 0);
    MissingMessage(form, checks, 1);
    MissingMessage(form, checks, 2);
  }

  /** The `academics` part of the payload; marks stay as typed (see README). */
  datatype Academics = Academics(
    educationLevel: string, stream: string, branch: string, institutionType: string,
    marks10th: string, marks12th: string, cgpa: string)

  datatype Profile = Profile(
    name: string, age: int, skills: seq<string>, interests: seq<string>, traits: seq<string>)

  datatype Goals = Goals(
    longTermGoal: string, preferredIndustry: string, preferredLocation: string, constraints: string)

  datatype Payload = Payload(academics: Academics, profile: Profile, goals: Goals)

  /** `parseInt(age) || 18`: `NaN` and zero are falsy, so both become 18. */
  function AgeOrDefault(text: string): (age: int)
    ensures age != 0
    ensures Text.ParseInt(text).None? || Text.ParseInt(text) == Some(0) ==> age == 18
    ensures Text.ParseInt(text).Some? && Text.ParseInt(text).value != 0 ==> age == Text.ParseInt(text).value
  {
    match Text.ParseInt(text)
    case None => 18
    case Some(v) => if v == 0 then 18 else v
  }

  /** A typed non-zero age is kept, sign included; zero and a blank field default to 18. */
  lemma AgeOfDecimal(n: nat)
    ensures AgeOrDefault(Text.DecimalText(n)) == if n == 0 then 18 else n
    ensures AgeOrDefault("-" + Text.DecimalText(n)) == if n == 0 then 18 else -(n as int)
    ensures AgeOrDefault("") == 18
  {
    Text.ParseIntOfDecimal(n);
    Text.ParseIntOfNegative(n);
  }

  /** `transformDataForApi`. */
  function Transform(form: Form): (p: Payload)
    requires IsForm(form)
    ensures p.profile.name == (if form[Name] == "" then "User" else form[Name])
    ensures p.profile.name != ""
    ensures p.profile.age == AgeOrDefault(form[Age])
    ensures p.profile.skills == Text.Items(form[Skills])
    ensures p.profile.interests == Text.Items(form[Interests])
    ensures p.profile.traits == Text.Items(form[Traits])
    ensures forall x :: x in p.profile.skills ==> Text.IsItem(x)
    ensures forall x :: x in p.profile.interests ==> Text.IsItem(x)
    ensures forall x :: x in p.profile.traits ==> Text.IsItem(x)
  {
    Payload(
      Academics(form[EducationLevel], form[Stream], form[Branch], form[InstitutionType],
                form[Marks10th], form[Marks12th], form[Cgpa]),
      Profile(if form[Name] == "" then "User" else form[Name],
              AgeOrDefault(form[Age]),
              Text.Items(form[Skills]), Text.Items(form[Interests]), Text.Items(form[Traits])),
      Goals(form[LongTermGoal], form[PreferredIndustry], form[PreferredLocation], form[Constraints]))
  }

  /** A skills list typed as `a,b,c` reaches the payload item for item. */
  lemma TransformKeepsSkills(form: Form, skills: seq<string>)
    requires IsForm(form)
    requires forall i :: 0 <= i < |skills| ==> Text.IsItem(skills[i])
    requires form[Skills] == Text.Join(skills, ',')
    ensures Transform(form).profile.skills == skills
  {
    Text.ItemsOfJoin(skills);
  }

  /** The insights response, kept opaque. */
  datatype Insights = Insights(summary: string, suggestions: seq<string>, marketReadiness: string)

  class ProfileWizard {
    var step: int
    var loading: bool
    var insights: Option<Insights>
    var errors: seq<string>
    var form: Form

    /** The step stays within 1..5 and only step 4 sends a request. */
    ghost predicate Valid()
      reads this
    {
      IsForm(form) && 1 <= step <= 5 && (loading ==> step == 4)
    }

    constructor ()
      ensures Valid()
      ensures step == 1 && !loading && insights == None && errors == [] && form == InitialForm()
    {
      step := 1;
      loading := false;
      insights := None;
      errors := [];
      form := InitialForm();
    }

    /** `validateStep`: stores the step's error list and reports whether it is empty. */
    method ValidateStep(currentStep: int) returns (ok: bool)
      requires Valid()
      modifies this`errors
      ensures Valid()
      ensures errors == StepErrors(form, currentStep)
      ensures ok <==> errors == []
    {
      errors := StepErrors(form, currentStep);
      ok := |errors| == 0;
    }

    /** The Next button, shown on steps 1 to 3: moves on only when the step is complete. */
    method Next()
      requires Valid()
      requires step < 4
      modifies this`errors, this`step
      ensures Valid()
      ensures errors == StepErrors(form, old(step))
      ensures step == if errors == [] then old(step) + 1 else old(step)
    {
      var ok := ValidateStep(step);
      if ok {
        step := step + 1;
      }
    }

    /** `updateField`: changes the named field only, and clears the errors. */
    method UpdateField(field: Field, value: string)
      requires Valid()
      modifies this`form, this`errors
      ensures Valid()
      ensures form == old(form)[field := value]
      ensures forall f :: f in form && f != field ==> form[f] == old(form)[f]
      ensures errors == []
    {
      form := form[field := value];
      if |errors| > 0 {
        errors := [];
      }
    }

    /** The Back button, disabled on step 1 and while loading. */
    method Back()
      requires Valid()
      requires step != 1 && !loading
      modifies this`errors, this`step
      ensures Valid()
      ensures errors == [] && step == old(step) - 1 && step >= 1
    {
      errors := [];
      step := step - 1;
    }

    /**
     * `fetchInsights` up to its `await`, from the Analyze button of step 4: an
     * incomplete step 4 only stores its errors; otherwise the errors are cleared and
     * the payload is sent.
     */
    method FetchInsights() returns (payload: Option<Payload>)
      requires Valid()
      requires step == 4 && !loading
      modifies this`errors, this`loading
      ensures Valid()
      ensures StepErrors(form, step) != [] ==> payload == None && !loading && errors == StepErrors(form, step)
      ensures StepErrors(form, step) == [] ==> payload == Some(Transform(form)) && loading && errors == []
    {
      var ok := ValidateStep(step);
      if !ok {
        return None;
      }
      loading := true;
      errors := [];
      payload := Some(Transform(form));
    }

    /** The rest of `fetchInsights`: success stores the insights and moves to step 5. */
    method CompleteFetch(reply: Reply<Insights>)
      requires Valid()
      requires loading
      modifies this`insights, this`step, this`errors, this`loading
      ensures Valid() && !loading
      ensures reply.Ok? ==> insights == Some(reply.body) && step == 5 && errors == old(errors)
      ensures !reply.Ok? ==>
        && insights == old(insights) && step == old(step)
        && errors == [FailureText(reply, "Failed to fetch insights", "Something went wrong")]
    {
      if reply.Ok? {
        insights := Some(reply.body);
        step := step + 1;
      } else {
        errors := [FailureText(reply, "Failed to fetch insights", "Something went wrong")];
      }
      loading := false;
    }

    /** `handleFinalSubmit`, the button of step 5: hands the payload to `onComplete`. */
    method FinalSubmit() returns (payload: Payload)
      requires Valid()
      requires step == 5
      ensures payload == Transform(form)
      ensures payload.profile.name != ""
    {
      payload := Transform(form);
    }
  }
}
