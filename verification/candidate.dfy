/**
 * The `Candidate` record: its enum tables, the industries list, the
 * validations run before it is saved, email normalisation and the small
 * derived values (`coordinates`, `fresh_experience?`, `experience_label`).
 */
module CandidateModel {
  import opened Wrappers
  import opened Strings
  import opened Seqs

  /** `enum :experience`: label and stored ordinal. */
  const EXPERIENCE_ENUM: seq<(string, int)> := [
    ("Fresh", 0), ("1-3 Years", 1), ("3-5 Years", 2), ("5-8 Years", 3),
    ("8-10 Years", 4), ("10-15 Years", 5), ("15-20 Years", 6), ("20+ Years", 7)]

  /** `enum :function`: label and stored ordinal. */
  const FUNCTION_ENUM: seq<(string, int)> := [
    ("marketing", 0), ("sales", 1), ("human_resources", 2), ("finance_and_accounting", 3),
    ("procurement_and_purchasing", 4), ("supply_chain", 5), ("logistics_and_warehouse", 6),
    ("it", 7), ("administration", 8), ("operations_management", 9),
    ("customer_service_and_support", 10), ("business_development", 11),
    ("legal_and_compliance", 12), ("product_management", 13), ("project_management", 14),
    ("research_and_development", 15), ("quality_assurance", 16), ("engineering", 17),
    ("design_and_creative", 18), ("consulting", 19), ("public_relations_and_communications", 20),
    ("demand_planning", 21), ("health_safety_and_environment", 22),
    ("corporate_social_responsibility_and_sustainability", 23), ("consumer_insight", 24),
    ("other_function", 25)]

  /** `enum :education`: label and stored ordinal. */
  const EDUCATION_ENUM: seq<(string, int)> := [
    ("matriculation_o_levels", 0), ("intermediate_a_levels", 1), ("diploma_certification", 2),
    ("bachelors_degree", 3), ("masters_degree", 4), ("mphil_ms", 5), ("phd", 6)]

  /** The closed list `INDUSTRIES`. */
  const INDUSTRIES: seq<string> := [
    "fast_moving_consumer_goods", "information_technology", "healthcare_and_pharmaceuticals",
    "banking_and_financial_services", "retail_and_electronic_commerce",
    "manufacturing_and_production", "telecommunications", "education_and_training",
    "media_and_entertainment", "real_estate_and_construction", "automotive",
    "energy_and_utilities", "logistics_and_transportation", "hospitality_and_tourism",
    "nonprofit_and_nongovernmental_organizations", "textile", "aviation",
    "financial_technology", "microfinance_and_electronic_banking", "agriculture",
    "energy_and_power_sector", "other"]

  /** `INDUSTRIES.include?(industry)` */
  predicate IsIndustry(industry: string)
  {
    industry in INDUSTRIES
  }

  /**
   * A candidate row with its attachment slots. Enum columns hold the stored
   * ordinal; nullable strings hold "" for nil; only the birth year of `dob`
   * is kept.
   */
  datatype Candidate = Candidate(
    id: nat,
    firstName: string, lastName: string, email: string, contactNumber: string,
    dobYear: Option<int>,
    education: Option<int>, experience: Option<int>,
    expectedSalary: string, careerPhase: string, additionalNotes: string,
    institute: string,
    currentlyEmployed: bool, currentSalary: string, currentEmployer: string,
    jobFunction: Option<int>,
    address: string, city: string, state: string,
    industries: seq<string>,
    latitude: Option<real>, longitude: Option<real>,
    createdAt: int, updatedAt: int,
    resume: bool, resumeImage: bool, photo: bool, introVideo: bool)

  /** The enum key whose value is `ordinal`, searching the table as a hash would. */
  function EnumKey(table: seq<(string, int)>, ordinal: int): (r: Option<string>)
    ensures r.Some? <==> exists i :: 0 <= i < |table| && table[i].1 == ordinal
    ensures r.Some? ==> exists i :: 0 <= i < |table| && table[i] == (r.value, ordinal)
  {
    if table == [] then None
    else if table[0].1 == ordinal then Some(table[0].0)
    else
      var r := EnumKey(table[1..], ordinal);
      assert forall i :: 1 <= i < |table| ==> table[i] == table[1..][i - 1];
      r
  }

  /** The tables above give each label its position as ordinal. */
  predicate Consecutive(table: seq<(string, int)>)
  {
    forall i :: 0 <= i < |table| ==> table[i].1 == i
  }

  /** Reading an enum column: the label stored at the ordinal's position, nil when out of range. */
  function EnumRead(table: seq<(string, int)>, stored: Option<int>): Option<string>
  {
    match stored
    case None => None
    case Some(o) => if 0 <= o < |table| then Some(table[o].0) else None
  }

  /** For a consecutive table, reading by position is the hash lookup by value. */
  lemma {:induction false} EnumReadIsKeyLookup(table: seq<(string, int)>, o: int)
    requires Consecutive(table)
    ensures EnumRead(table, Some(o)) == EnumKey(table, o)
  {
    if 0 <= o < |table| {
      assert table[o].1 == o;
      var k := EnumKey(table, o);
      var j :| 0 <= j < |table| && table[j] == (k.value, o);
      assert j == o;
    }
  }

  lemma ExperienceEnumConsecutive()
    ensures Consecutive(EXPERIENCE_ENUM)
  {
  }

  lemma FunctionEnumConsecutive()
    ensures Consecutive(FUNCTION_ENUM)
  {
  }

  lemma EducationEnumConsecutive()
    ensures Consecutive(EDUCATION_ENUM)
  {
  }

  function ExperienceName(c: Candidate): Option<string> { EnumRead(EXPERIENCE_ENUM, c.experience) }
  function FunctionName(c: Candidate): Option<string> { EnumRead(FUNCTION_ENUM, c.jobFunction) }
  function EducationName(c: Candidate): Option<string> { EnumRead(EDUCATION_ENUM, c.education) }

  /** The `experience_label` ransacker: a SQL CASE over the stored ordinal. */
  function ExperienceLabel(ordinal: int): (r: Option<string>)
    ensures r.Some? <==> 0 <= ordinal <= 7
  {
    if ordinal == 0 then Some("Fresh")
    else if ordinal == 1 then Some("1-3 Years")
    else if ordinal == 2 then Some("3-5 Years")
    else if ordinal == 3 then Some("5-8 Years")
    else if ordinal == 4 then Some("8-10 Years")
    else if ordinal == 5 then Some("10-15 Years")
    else if ordinal == 6 then Some("15-20 Years")
    else if ordinal == 7 then Some("20+ Years")
    else None
  }

  /** The sort label agrees with the enum's own table on every ordinal. */
  lemma ExperienceLabelMatchesEnum(ordinal: int)
    ensures ExperienceLabel(ordinal) == EnumKey(EXPERIENCE_ENUM, ordinal)
  {
    ExperienceEnumConsecutive();
    EnumReadIsKeyLookup(EXPERIENCE_ENUM, ordinal);
  }

  /** `fresh_experience?` */
  predicate FreshExperience(c: Candidate)
  {
    ExperienceName(c) == Some("Fresh")
  }

  lemma FreshIsOrdinalZero(c: Candidate)
    ensures FreshExperience(c) <==> c.experience == Some(0)
  {
  }

  /** `coordinates`: the pair only when both parts are present. */
  function Coordinates(c: Candidate): (r: Option<(real, real)>)
    ensures r.Some? <==> c.latitude.Some? && c.longitude.Some?
    ensures r.Some? ==> r.value.0 == c.latitude.value && r.value.1 == c.longitude.value
  {
    if c.latitude.Some? && c.longitude.Some? then Some((c.latitude.value, c.longitude.value)) else None
  }

  /** The attributes named in the model's presence validations. */
  datatype Attribute =
    | FirstName | LastName | Email | ContactNumber | Dob | Education | Experience
    | CareerPhase | Institute | Address | Industries | City | State
    | CurrentSalary | CurrentEmployer | Function | ExpectedSalary

  /** `presence: true` for one attribute: not blank (an array: not empty; an enum: a known label). */
  predicate AttributePresent(c: Candidate, a: Attribute)
  {
    match a
    case FirstName => Present(c.firstName)
    case LastName => Present(c.lastName)
    case Email => Present(c.email)
    case ContactNumber => Present(c.contactNumber)
    case Dob => c.dobYear.Some?
    case Education => EducationName(c).Some?
    case Experience => ExperienceName(c).Some?
    case CareerPhase => Present(c.careerPhase)
    case Institute => Present(c.institute)
    case Address => Present(c.address)
    case Industries => c.industries != []
    case City => Present(c.city)
    case State => Present(c.state)
    case CurrentSalary => Present(c.currentSalary)
    case CurrentEmployer => Present(c.currentEmployer)
    case Function => FunctionName(c).Some?
    case ExpectedSalary => Present(c.expectedSalary)
  }

  /** The unconditional presence list, in declaration order. */
  const ALWAYS_REQUIRED: seq<Attribute> := [
    FirstName, LastName, Email, ContactNumber, Dob, Education, Experience,
    CareerPhase, Institute, Address, Industries, City, State]

  datatype ValidationError =
    | CantBeBlank(attribute: Attribute)
    | EmailInvalid
    | EmailAlreadyUsed
    | PhotoNotAttached
    | BothResumes
    | NoResume
    | InvalidIndustry(industry: string)

  /** The message each error renders; an industry error's message starts with the tag it rejects. */
  function Message(e: ValidationError): (r: string)
    ensures e.InvalidIndustry? ==> |e.industry| < |r| && r[..|e.industry|] == e.industry
  {
    match e
    case CantBeBlank(_) => "can't be blank"
    case EmailInvalid => "is invalid"
    case EmailAlreadyUsed => "has already been used to submit an application"
    case PhotoNotAttached => "is not attached"
    case BothResumes => "Cannot attach both resume and captured resume. Please provide only one."
    case NoResume => "Either resume or captured resume must be attached."
    case InvalidIndustry(i) => i + " is not a valid industry"
  }

  /** Two different rejected tags never render the same message. */
  lemma IndustryMessagesDistinct(a: string, b: string)
    requires a != b
    ensures Message(InvalidIndustry(a)) != Message(InvalidIndustry(b))
  {
    var ma := Message(InvalidIndustry(a));
    var mb := Message(InvalidIndustry(b));
    if |a| != |b| {
      assert |ma| == |a| + |" is not a valid industry"|;
      assert |mb| == |b| + |" is not a valid industry"|;
    } else {
      assert ma[..|a|] != mb[..|b|];
    }
  }

  /** One blank error per listed attribute that is not present, in order. */
  function BlankErrors(c: Candidate, attrs: seq<Attribute>): (r: seq<ValidationError>)
    ensures r == [] <==> forall a :: a in attrs ==> AttributePresent(c, a)
    ensures forall a :: a in attrs && !AttributePresent(c, a) ==> CantBeBlank(a) in r
    ensures forall e :: e in r ==> e.CantBeBlank? && e.attribute in attrs && !AttributePresent(c, e.attribute)
  {
    if attrs == [] then []
    else
      var rest := BlankErrors(c, attrs[1..]);
      assert forall a :: a in attrs ==> a == attrs[0] || a in attrs[1..];
      (if AttributePresent(c, attrs[0]) then [] else [CantBeBlank(attrs[0])]) + rest
  }

  /** `validate_resume_attachment` */
  function ResumeErrors(c: Candidate): (r: seq<ValidationError>)
    ensures r == [] <==> (c.resume <==> !c.resumeImage)
    ensures r != [] ==> |r| == 1 && (r[0] == BothResumes <==> c.resume) && (r[0] == NoResume <==> !c.resume)
  {
    if c.resume && c.resumeImage then [BothResumes]
    else if !c.resume && !c.resumeImage then [NoResume]
    else []
  }

  /** The errors the loop of `validate_industries` pushes for `tags`, in order. */
  function InvalidIndustryErrors(tags: seq<string>): (r: seq<ValidationError>)
    ensures |r| <= |tags|
  {
    if tags == [] then []
    else
      var last := tags[|tags| - 1];
      InvalidIndustryErrors(tags[..|tags| - 1]) + (if IsIndustry(last) then [] else [InvalidIndustry(last)])
  }

  /** One more tag adds its own error, if any, after the earlier ones. */
  lemma IndustryErrorsStep(tags: seq<string>, i: nat)
    requires i < |tags|
    ensures InvalidIndustryErrors(tags[..i + 1]) ==
      InvalidIndustryErrors(tags[..i]) + (if IsIndustry(tags[i]) then [] else [InvalidIndustry(tags[i])])
  {
    assert tags[..i + 1][..i] == tags[..i];
  }

  /** `validate_industries`: skipped entirely for an empty list. */
  function IndustryErrors(tags: seq<string>): (r: seq<ValidationError>)
    ensures r == Map(Filter(tags, NotIndustry), IndustryError)
  {
    InvalidIndustryErrorsAreFilter(tags);
    if tags == [] then [] else InvalidIndustryErrors(tags)
  }

  /** The unconditional presence validations. */
  function PresenceErrors(c: Candidate): (r: seq<ValidationError>)
    ensures r == [] <==> forall a :: a in ALWAYS_REQUIRED ==> AttributePresent(c, a)
    ensures forall a :: a in ALWAYS_REQUIRED && !AttributePresent(c, a) ==> CantBeBlank(a) in r
    ensures forall e :: e in r ==> e.CantBeBlank? && e.attribute in ALWAYS_REQUIRED && !AttributePresent(c, e.attribute)
  {
    BlankErrors(c, ALWAYS_REQUIRED)
  }

  /** The email format and uniqueness validations. */
  function EmailErrors(email: string, takenEmails: set<string>): (r: seq<ValidationError>)
    ensures r == [] <==> MailtoEmail(email) && email !in takenEmails
    ensures EmailInvalid in r <==> !MailtoEmail(email)
    ensures EmailAlreadyUsed in r <==> email in takenEmails
  {
    (if MailtoEmail(email) then [] else [EmailInvalid])
    + (if email in takenEmails then [EmailAlreadyUsed] else [])
  }

  /** The presence validation of one attribute. */
  function BlankError(c: Candidate, a: Attribute): (r: seq<ValidationError>)
    ensures r == [] <==> AttributePresent(c, a)
    ensures !AttributePresent(c, a) ==> r == [CantBeBlank(a)]
  {
    if AttributePresent(c, a) then [] else [CantBeBlank(a)]
  }

  /** The presence validations guarded by `currently_employed?` and `fresh_experience?`. */
  function ConditionalErrors(c: Candidate): (r: seq<ValidationError>)
    ensures r == [] <==>
      (c.currentlyEmployed ==> Present(c.currentSalary) && Present(c.currentEmployer))
      && (FreshExperience(c) ==> FunctionName(c).Some? && Present(c.expectedSalary))
    ensures c.currentlyEmployed && !Present(c.currentSalary) ==> CantBeBlank(CurrentSalary) in r
    ensures c.currentlyEmployed && !Present(c.currentEmployer) ==> CantBeBlank(CurrentEmployer) in r
    ensures FreshExperience(c) && FunctionName(c).None? ==> CantBeBlank(Function) in r
    ensures FreshExperience(c) && !Present(c.expectedSalary) ==> CantBeBlank(ExpectedSalary) in r
    ensures forall e :: e in r ==>
      && e.CantBeBlank?
      && !AttributePresent(c, e.attribute)
      && ((c.currentlyEmployed && e.attribute in [CurrentSalary, CurrentEmployer])
          || (FreshExperience(c) && e.attribute in [Function, ExpectedSalary]))
  {
    (if c.currentlyEmployed then BlankError(c, CurrentSalary) + BlankError(c, CurrentEmployer) else [])
    + (if FreshExperience(c) then BlankError(c, Function) + BlankError(c, ExpectedSalary) else [])
  }

  /** `validates :photo, attached: true` */
  function PhotoErrors(c: Candidate): (r: seq<ValidationError>)
    ensures r == [] <==> c.photo
    ensures r != [] ==> r == [PhotoNotAttached]
  {
    if c.photo then [] else [PhotoNotAttached]
  }

  /** Every error pushed by one validation pass, in declaration order. */
  function Errors(c: Candidate, takenEmails: set<string>): seq<ValidationError>
  {
    PresenceErrors(c) + EmailErrors(c.email, takenEmails) + ConditionalErrors(c)
    + PhotoErrors(c) + ResumeErrors(c) + IndustryErrors(c.industries)
  }

  /** The record invariant the validations enforce, stated rule by rule. */
  predicate Valid(c: Candidate, takenEmails: set<string>)
  {
    && (forall a :: a in ALWAYS_REQUIRED ==> AttributePresent(c, a))
    && MailtoEmail(c.email)
    && c.email !in takenEmails
    && (c.currentlyEmployed ==> Present(c.currentSalary) && Present(c.currentEmployer))
    && (FreshExperience(c) ==> FunctionName(c).Some? && Present(c.expectedSalary))
    && c.photo
    && (c.resume <==> !c.resumeImage)
    && (forall t :: t in c.industries ==> IsIndustry(t))
  }

  /** An industry outside `INDUSTRIES`. */
  predicate NotIndustry(industry: string)
  {
    !IsIndustry(industry)
  }

  function IndustryError(industry: string): ValidationError
  {
    InvalidIndustry(industry)
  }

  /** Each tag outside the list adds exactly one error, naming it, in the order of the tags. */
  lemma {:induction false} InvalidIndustryErrorsAreFilter(tags: seq<string>)
    ensures InvalidIndustryErrors(tags) == Map(Filter(tags, NotIndustry), IndustryError)
  {
    if tags != [] {
      var init := tags[..|tags| - 1];
      var last := tags[|tags| - 1];
      var own := if NotIndustry(last) then [last] else [];
      InvalidIndustryErrorsAreFilter(init);
      OwnIndustryError(last);
      assert tags == init + [last];
      FilterSnoc(init, last, NotIndustry);
      MapConcat(Filter(init, NotIndustry), own, IndustryError);
      calc {
        InvalidIndustryErrors(tags);
        InvalidIndustryErrors(init) + Map(own, IndustryError);
        Map(Filter(init, NotIndustry), IndustryError) + Map(own, IndustryError);
        Map(Filter(init, NotIndustry) + own, IndustryError);
        Map(Filter(tags, NotIndustry), IndustryError);
      }
    }
  }

  /** The error of one tag, written as the map of the one-tag filter. */
  lemma OwnIndustryError(t: string)
    ensures Map(if NotIndustry(t) then [t] else [], IndustryError) == (if IsIndustry(t) then [] else [InvalidIndustry(t)])
  {
  }

  /** No error exactly when every tag is in the list; an error names a tag exactly when that tag is outside it. */
  lemma {:induction false} InvalidIndustryErrorsExact(tags: seq<string>)
    ensures InvalidIndustryErrors(tags) == [] <==> forall t :: t in tags ==> IsIndustry(t)
    ensures forall t :: InvalidIndustry(t) in InvalidIndustryErrors(tags) <==> t in tags && !IsIndustry(t)
    ensures forall e :: e in InvalidIndustryErrors(tags) ==> e.InvalidIndustry?
  {
    if tags != [] {
      var init := tags[..|tags| - 1];
      InvalidIndustryErrorsExact(init);
      assert tags == init + [tags[|tags| - 1]];
    }
  }

  /** A record passes every validation exactly when it satisfies `Valid`. */
  lemma ErrorsEmptyIffValid(c: Candidate, takenEmails: set<string>)
    ensures Errors(c, takenEmails) == [] <==> Valid(c, takenEmails)
  {
    InvalidIndustryErrorsExact(c.industries);
  }

  /** Both resume slots filled, or neither, is an error; so is a missing photo. */
  lemma AttachmentRules(c: Candidate, takenEmails: set<string>)
    ensures c.resume && c.resumeImage ==> BothResumes in Errors(c, takenEmails)
    ensures !c.resume && !c.resumeImage ==> NoResume in Errors(c, takenEmails)
    ensures !c.photo ==> PhotoNotAttached in Errors(c, takenEmails)
  {
  }

  /** The conditional presence rules for employed and fresh candidates. */
  lemma ConditionalPresence(c: Candidate, takenEmails: set<string>)
    ensures c.currentlyEmployed && !Present(c.currentSalary) ==> CantBeBlank(CurrentSalary) in Errors(c, takenEmails)
    ensures c.currentlyEmployed && !Present(c.currentEmployer) ==> CantBeBlank(CurrentEmployer) in Errors(c, takenEmails)
    ensures FreshExperience(c) && FunctionName(c).None? ==> CantBeBlank(Function) in Errors(c, takenEmails)
    ensures FreshExperience(c) && !Present(c.expectedSalary) ==> CantBeBlank(ExpectedSalary) in Errors(c, takenEmails)
  {
  }

  lemma {:induction false} BlankErrorAt(c: Candidate, attrs: seq<Attribute>, i: nat)
    requires i < |attrs| && !AttributePresent(c, attrs[i])
    ensures CantBeBlank(attrs[i]) in BlankErrors(c, attrs)
  {
    if i > 0 {
      BlankErrorAt(c, attrs[1..], i - 1);
    }
  }

  lemma PresenceErrorInErrors(c: Candidate, takenEmails: set<string>, e: ValidationError)
    requires e in PresenceErrors(c)
    ensures e in Errors(c, takenEmails)
  {
  }

  /** An empty industries list is left to the presence check. */
  lemma EmptyIndustriesCaughtByPresence(c: Candidate, takenEmails: set<string>)
    requires c.industries == []
    ensures IndustryErrors(c.industries) == []
    ensures CantBeBlank(Industries) in Errors(c, takenEmails)
  {
    assert ALWAYS_REQUIRED[10] == Industries;
    BlankErrorAt(c, ALWAYS_REQUIRED, 10);
    PresenceErrorInErrors(c, takenEmails, CantBeBlank(Industries));
  }

  /**
   * A candidate being saved: the record and its `errors` collection, which
   * the validators append to.
   */
  class CandidateForm {
    var record: Candidate
    var errors: seq<ValidationError>

    constructor (c: Candidate)
      ensures record == c && errors == []
    {
      record := c;
      errors := [];
    }

    /** `normalize_email` (a `before_validation` callback). */
    method NormalizeEmail()
      modifies this`record
      ensures record == old(record).(email := NormalizedEmail(old(record).email))
    {
      record := record.(email := NormalizedEmail(record.email));
    }

    /** `validates ..., presence: true` for the always-required attributes. */
    method ValidatePresence()
      modifies this`errors
      ensures errors == old(errors) + PresenceErrors(record)
    {
      errors := errors + BlankErrors(record, ALWAYS_REQUIRED);
    }

    /** `validates :email, format:` then `validates :email, uniqueness:`. */
    method ValidateEmail(takenEmails: set<string>)
      modifies this`errors
      ensures errors == old(errors) + EmailErrors(record.email, takenEmails)
    {
      var email := record.email;
      if !MailtoEmail(email) {
        errors := errors + [EmailInvalid];
      }
      if email in takenEmails {
        errors := errors + [EmailAlreadyUsed];
      }
    }

    /** The presence validations guarded by `if: :currently_employed?` and `if: :fresh_experience?`. */
    method ValidateConditionalPresence()
      modifies this`errors
      ensures errors == old(errors) + ConditionalErrors(record)
    {
      var c := record;
      if c.currentlyEmployed {
        errors := errors + BlankError(c, CurrentSalary) + BlankError(c, CurrentEmployer);
      }
      if FreshExperience(c) {
        errors := errors + BlankError(c, Function) + BlankError(c, ExpectedSalary);
      }
    }

    /** `validates :photo, attached: true` */
    method ValidatePhoto()
      modifies this`errors
      ensures errors == old(errors) + PhotoErrors(record)
    {
      if !record.photo {
        errors := errors + [PhotoNotAttached];
      }
    }

    /** `validate :validate_resume_attachment` */
    method ValidateResumeAttachment()
      modifies this`errors
      ensures errors == old(errors) + ResumeErrors(record)
    {
      var resumeAttached := record.resume;
      var resumeImageAttached := record.resumeImage;
      if resumeAttached && resumeImageAttached {
        errors := errors + [BothResumes];
      } else if !resumeAttached && !resumeImageAttached {
        errors := errors + [NoResume];
      }
    }

    /** `validate :validate_industries` */
    method ValidateIndustries()
      modifies this`errors
      ensures errors == old(errors) + IndustryErrors(record.industries)
    {
      var tags := record.industries;
      if tags == [] {
        return;
      }
      var i := 0;
      while i < |tags|
        invariant 0 <= i <= |tags|
        invariant errors == old(errors) + InvalidIndustryErrors(tags[..i])
      {
        IndustryErrorsStep(tags, i);
        if !IsIndustry(tags[i]) {
          errors := errors + [InvalidIndustry(tags[i])];
        }
        i := i + 1;
      }
      assert tags[..i] == tags;
    }

    /** `valid?`: clear the errors, normalise the email, then run every validation in declaration order. */
    method Validate(takenEmails: set<string>) returns (ok: bool)
      modifies this
      ensures record == old(record).(email := NormalizedEmail(old(record).email))
      ensures errors == Errors(record, takenEmails)
      ensures ok <==> Valid(record, takenEmails)
    {
      errors := [];
      NormalizeEmail();
      ghost var c := record;
      ValidatePresence();
      assert errors == PresenceErrors(c);
      ValidateEmail(takenEmails);
      ValidateConditionalPresence();
      ValidatePhoto();
      ValidateResumeAttachment();
      ValidateIndustries();
      assert errors == Errors(c, takenEmails);
      ErrorsEmptyIffValid(record, takenEmails);
      ok := errors == [];
    }
  }
}
