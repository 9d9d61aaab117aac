/**
 * Request bodies as the pydantic schemas of app/schemas/ receive them: a
 * JSON object whose values are null, strings or integers, and the outcome
 * of validating one.
 */
module RequestBodies {
  import opened Wrappers

  /** A JSON value of the kinds the schemas distinguish. */
  datatype Value = Null | Text(s: string) | Number(n: int)

  /** A JSON object: field name to value. */
  type Body = map<string, Value>

  /** Why a field was refused. */
  datatype Problem =
    | Missing        // a required field is absent
    | WrongType      // the value is not of the field's type
    | TooShort       // below the field's `min_length`
    | TooLong        // above the field's `max_length`
    | NotPositive    // refused by a `full_amount_positive` validator
    | Empty          // refused by `name_cannot_be_null`
    | Forbidden      // a field the schema does not declare, under `extra='forbid'`

  datatype FieldError = FieldError(field: string, problem: Problem)

  /**
   * The outcome of one field: its value, a validation error, or an exception
   * other than `ValueError` escaping a validator (pydantic does not turn
   * that into a validation error; the request fails).
   */
  datatype FieldResult<T> = Valid(value: T) | Invalid(problem: Problem) | Crashed

  /** The outcome of a whole body: the model, every field error, or an escaping exception. */
  datatype Parsed<T> = Accepted(value: T) | Rejected(errors: set<FieldError>) | Raised

  /** The value given for `field`, if the body has that key. */
  function Get(body: Body, field: string): (v: Option<Value>)
    ensures v.Some? <==> field in body
    ensures v.Some? ==> v.value == body[field]
  {
    if field in body then Some(body[field]) else None
  }

  /** The error a field contributes to the body's error list. */
  function ErrorsOf<T>(field: string, r: FieldResult<T>): (errors: set<FieldError>)
    ensures r.Invalid? ==> errors == {FieldError(field, r.problem)}
    ensures !r.Invalid? ==> errors == {}
  {
    match r
    case Invalid(problem) => {FieldError(field, problem)}
    case _ => {}
  }
}

/** app/schemas/charity_project.py: the Create and Update bodies of a project. */
module ProjectSchemas {
  import opened Wrappers
  import opened Models
  import opened RequestBodies

  /** The fields `CharityProjectBase` declares. */
  const ProjectFieldNames: set<string> := {"name", "description", "full_amount"}

  /** A validated body; in an Update every field may be None (not given). */
  datatype ProjectFields = ProjectFields(name: Option<string>, description: Option<string>, fullAmount: Option<int>)

  /**
   * `full_amount_positive`: a non-positive amount is refused and any other
   * returned unchanged. On None (an explicit null in an Update) the
   * comparison with 0 raises `TypeError`, which escapes.
   */
  function FullAmountPositive(value: Option<int>): (r: FieldResult<Option<int>>)
    ensures r.Crashed? <==> value.None?
    ensures r.Valid? <==> value.Some? && value.value > 0
    ensures r.Valid? ==> r.value == value
    ensures r.Invalid? ==> r.problem == NotPositive
  {
    match value
    case None => Crashed
    case Some(amount) => if amount <= 0 then Invalid(NotPositive) else Valid(value)
  }

  /** `name_cannot_be_null`: None and the empty string are refused, anything else returned unchanged. */
  function NameCannotBeNull(value: Option<string>): (r: FieldResult<Option<string>>)
    ensures r.Valid? <==> value.Some? && value.value != ""
    ensures r.Valid? ==> r.value == value
    ensures r.Invalid? ==> r.problem == Empty
    ensures !r.Crashed?
  {
    if value == None || value == Some("") then Invalid(Empty) else Valid(value)
  }

  /**
   * `name` or `description`: a string field with `min_length=1` and an
   * optional `max_length`, required in Create and defaulting to None in
   * Update; the length constraints are checked before the validator runs,
   * and the validator does not run on the default.
   */
  function TextField(v: Option<Value>, required: bool, maxLength: Option<nat>): (r: FieldResult<Option<string>>)
    ensures !r.Crashed?
    ensures r.Valid? <==> (v.None? && !required) || (v.Some? && FitsText(v.value, maxLength))
    ensures r.Valid? ==> (r.value.Some? <==> v.Some?) && (r.value.Some? ==> v.value == Text(r.value.value))
  {
    match v
    case None => if required then Invalid(Missing) else Valid(None)
    case Some(Null) => if required then Invalid(WrongType) else NameCannotBeNull(None)
    case Some(Number(_)) => Invalid(WrongType)
    case Some(Text(s)) =>
      if |s| < 1 then Invalid(TooShort)
      else if maxLength.Some? && |s| > maxLength.value then Invalid(TooLong)
      else NameCannotBeNull(Some(s))
  }

  /** A given value a text field accepts: a non-empty string within the maximum length. */
  predicate FitsText(v: Value, maxLength: Option<nat>) {
    v.Text? && 1 <= |v.s| && (maxLength.None? || |v.s| <= maxLength.value)
  }

  /**
   * `full_amount`: an integer, required in Create and defaulting to None in
   * Update, passed to `full_amount_positive` whenever it is given.
   */
  function AmountField(v: Option<Value>, required: bool): (r: FieldResult<Option<int>>)
    ensures r.Crashed? <==> !required && v == Some(Null)
    ensures r.Valid? <==> (v.None? && !required) || (v.Some? && v.value.Number? && v.value.n > 0)
    ensures r.Valid? ==> (r.value.Some? <==> v.Some?) && (r.value.Some? ==> v.value == Number(r.value.value))
  {
    match v
    case None => if required then Invalid(Missing) else Valid(None)
    case Some(Null) => if required then Invalid(WrongType) else FullAmountPositive(None)
    case Some(Text(_)) => Invalid(WrongType)
    case Some(Number(n)) => FullAmountPositive(Some(n))
  }

  /** A project body: every field checked, errors collected, undeclared fields refused. */
  function ParseProject(body: Body, required: bool): (r: Parsed<ProjectFields>)
    ensures r.Raised? <==> !required && Get(body, "full_amount") == Some(Null)
    ensures r.Accepted? ==> body.Keys <= ProjectFieldNames
    ensures r.Accepted? && required ==> r.value.name.Some? && r.value.description.Some? && r.value.fullAmount.Some?
    ensures r.Accepted? && r.value.name.Some? ==> r.value.name.value != "" && NameFitsColumn(r.value.name.value)
    ensures r.Accepted? && r.value.description.Some? ==> r.value.description.value != ""
    ensures r.Accepted? && r.value.fullAmount.Some? ==> r.value.fullAmount.value > 0
  {
    NoForbiddenWhenDeclared(body);
    var name := TextField(Get(body, "name"), required, Some(100));
    var description := TextField(Get(body, "description"), required, None);
    var amount := AmountField(Get(body, "full_amount"), required);
    if amount.Crashed? then Raised
    else
      var errors := ErrorsOf("name", name) + ErrorsOf("description", description) + ErrorsOf("full_amount", amount)
                    + (set k | k in body && k !in ProjectFieldNames :: FieldError(k, Forbidden));
      if errors == {} then Accepted(ProjectFields(name.value, description.value, amount.value))
      else Rejected(errors)
  }

  /** `CharityProjectCreate`: all three fields required. */
  function ParseCreate(body: Body): (r: Parsed<ProjectFields>)
    ensures !r.Raised?
    ensures r.Accepted? ==> r.value.name.Some? && r.value.description.Some? && r.value.fullAmount.Some?
  {
    ParseProject(body, true)
  }

  /** `CharityProjectUpdate`: all three fields optional. */
  function ParseUpdate(body: Body): (r: Parsed<ProjectFields>)
    ensures r.Raised? <==> "full_amount" in body && body["full_amount"] == Null
  {
    ParseProject(body, false)
  }

  /** A body `CharityProjectCreate` is meant to accept, stated field by field. */
  predicate CreateBody(body: Body) {
    && body.Keys == ProjectFieldNames
    && FitsText(body["name"], Some(100))
    && FitsText(body["description"], None)
    && body["full_amount"].Number? && body["full_amount"].n > 0
  }

  /** A body `CharityProjectUpdate` is meant to accept: only declared fields, each valid where given. */
  predicate UpdateBody(body: Body) {
    && body.Keys <= ProjectFieldNames
    && ("name" in body ==> FitsText(body["name"], Some(100)))
    && ("description" in body ==> FitsText(body["description"], None))
    && ("full_amount" in body ==> body["full_amount"].Number? && body["full_amount"].n > 0)
  }

  /** The body with the declared fields only has no forbidden-field error. */
  lemma NoForbiddenWhenDeclared(body: Body)
    ensures (set k | k in body && k !in ProjectFieldNames :: FieldError(k, Forbidden)) == {} <==> body.Keys <= ProjectFieldNames
  {
    var extras := set k | k in body && k !in ProjectFieldNames :: FieldError(k, Forbidden);
    if body.Keys <= ProjectFieldNames {
      assert forall k :: k in body ==> k in ProjectFieldNames;
      assert extras == {};
    } else {
      var k :| k in body && k !in ProjectFieldNames;
      assert FieldError(k, Forbidden) in extras;
    }
  }

  /**
   * Create accepts exactly the bodies with a name of 1 to 100 characters, a
   * non-empty description and a positive amount, and nothing else; the
   * accepted values are the given ones. It never raises.
   */
  lemma CreateAcceptsExactly(body: Body)
    ensures ParseCreate(body).Accepted? <==> CreateBody(body)
    ensures ParseCreate(body).Accepted? ==>
              ParseCreate(body).value == ProjectFields(Some(body["name"].s), Some(body["description"].s), Some(body["full_amount"].n))
    ensures !ParseCreate(body).Raised?
  {
    NoForbiddenWhenDeclared(body);
  }

  /**
   * Update accepts exactly the bodies whose given fields are valid and
   * declared; a field not given is None, a given one keeps its value. It
   * raises exactly on an explicit null `full_amount`.
   */
  lemma UpdateAcceptsExactly(body: Body)
    ensures ParseUpdate(body).Raised? <==> "full_amount" in body && body["full_amount"] == Null
    ensures ParseUpdate(body).Accepted? <==> UpdateBody(body)
    ensures ParseUpdate(body).Accepted? ==>
              var fields := ParseUpdate(body).value;
              && fields.name == (if "name" in body then Some(body["name"].s) else None)
              && fields.description == (if "description" in body then Some(body["description"].s) else None)
              && fields.fullAmount == (if "full_amount" in body then Some(body["full_amount"].n) else None)
  {
    NoForbiddenWhenDeclared(body);
  }

  /** Under either schema, a field the schema does not declare is reported unless the body raises. */
  lemma ExtraFieldReported(body: Body, required: bool, k: string)
    requires k in body && k !in ProjectFieldNames
    ensures ParseProject(body, required).Rejected? || ParseProject(body, required).Raised?
    ensures ParseProject(body, required).Rejected? ==> FieldError(k, Forbidden) in ParseProject(body, required).errors
  {
    NoForbiddenWhenDeclared(body);
    assert FieldError(k, Forbidden) in (set k | k in body && k !in ProjectFieldNames :: FieldError(k, Forbidden));
  }

  /**
   * An explicit null or empty name or description is refused under either
   * schema, as is a given amount that is not positive.
   */
  lemma EmptyOrNonPositiveRefused(body: Body, required: bool)
    requires || ("name" in body && body["name"] in {Null, Text("")})
             || ("description" in body && body["description"] in {Null, Text("")})
             || ("full_amount" in body && body["full_amount"].Number? && body["full_amount"].n <= 0)
    ensures !ParseProject(body, required).Accepted?
  {
  }
}

/** app/schemas/donation.py: the Create body of a donation and the two response views. */
module DonationSchemas {
  import opened Wrappers
  import opened Models
  import opened RequestBodies

  /** A validated `DonationCreate` body. */
  datatype DonationFields = DonationFields(fullAmount: int, comment: Option<string>)

  /** `DonationBase.full_amount_positive`: a non-positive amount is refused and any other returned unchanged. */
  function DonationAmountPositive(value: int): (r: FieldResult<int>)
    ensures r.Valid? <==> value > 0
    ensures r.Valid? ==> r.value == value
    ensures r.Invalid? ==> r.problem == NotPositive
    ensures !r.Crashed?
  {
    if value <= 0 then Invalid(NotPositive) else Valid(value)
  }

  /** `full_amount: int`, required. */
  function DonationAmountField(v: Option<Value>): (r: FieldResult<int>)
    ensures r.Valid? <==> v.Some? && v.value.Number? && v.value.n > 0
    ensures r.Valid? ==> v == Some(Number(r.value))
    ensures !r.Crashed?
  {
    match v
    case None => Invalid(Missing)
    case Some(Number(n)) => DonationAmountPositive(n)
    case Some(_) => Invalid(WrongType)
  }

  /** `comment: Optional[str] = None`. */
  function CommentField(v: Option<Value>): (r: FieldResult<Option<string>>)
    ensures r.Valid? <==> v.None? || !v.value.Number?
    ensures r.Valid? ==> (r.value.Some? <==> v.Some? && v.value.Text?)
    ensures r.Valid? && r.value.Some? ==> v == Some(Text(r.value.value))
    ensures !r.Crashed?
  {
    match v
    case None => Valid(None)
    case Some(Null) => Valid(None)
    case Some(Text(s)) => Valid(Some(s))
    case Some(Number(_)) => Invalid(WrongType)
  }

  /** `DonationCreate`: fields checked and errors collected; undeclared fields are ignored. */
  function ParseDonation(body: Body): (r: Parsed<DonationFields>)
    ensures !r.Raised?
  {
    var amount := DonationAmountField(Get(body, "full_amount"));
    var comment := CommentField(Get(body, "comment"));
    var errors := ErrorsOf("full_amount", amount) + ErrorsOf("comment", comment);
    if errors == {} then Accepted(DonationFields(amount.value, comment.value)) else Rejected(errors)
  }

  /** A donation body is accepted exactly when it gives a positive amount and no non-string comment; the values are kept. */
  lemma DonationAcceptsExactly(body: Body)
    ensures ParseDonation(body).Accepted? <==>
              && "full_amount" in body && body["full_amount"].Number? && body["full_amount"].n > 0
              && ("comment" in body ==> !body["comment"].Number?)
    ensures ParseDonation(body).Accepted? ==>
              && ParseDonation(body).value.fullAmount == body["full_amount"].n
              && ParseDonation(body).value.comment == (if "comment" in body && body["comment"].Text? then Some(body["comment"].s) else None)
  {
  }

  /** Fields the schema does not declare make no difference to the outcome. */
  lemma DonationIgnoresExtraFields(body: Body)
    ensures ParseDonation(body) == ParseDonation(map k | k in body && k in {"full_amount", "comment"} :: body[k])
  {
    var declared := map k | k in body && k in {"full_amount", "comment"} :: body[k];
    assert Get(declared, "full_amount") == Get(body, "full_amount");
    assert Get(declared, "comment") == Get(body, "comment");
  }

  /** `DonationDBShort`: what a user sees of a donation. */
  datatype DonationShort = DonationShort(fullAmount: int, comment: Option<string>, id: int, createDate: Time)

  /** `DonationDB`: the short view plus the owner and the funding columns. */
  datatype DonationFull = DonationFull(
    fullAmount: int, comment: Option<string>, id: int, createDate: Time,
    userId: int, investedAmount: int, fullyInvested: bool, closeDate: Option<Time>)

  /** The short view of a donation row. */
  function ShortView(d: Donation): (v: DonationShort)
    reads d
    ensures v.fullAmount == d.fullAmount && v.comment == d.comment && v.id == d.id && v.createDate == d.createDate
  {
    DonationShort(d.fullAmount, d.comment, d.id, d.createDate)
  }

  /** The full view of a donation row. */
  function FullView(d: Donation): (v: DonationFull)
    reads d
    ensures Funding(v.fullAmount, v.investedAmount, v.fullyInvested, v.closeDate) == d.View()
    ensures v.userId == d.userId
  {
    DonationFull(d.fullAmount, d.comment, d.id, d.createDate, d.userId, d.investedAmount, d.fullyInvested, d.closeDate)
  }

  /** The fields the full view shares with the short view. */
  function Shorten(v: DonationFull): DonationShort {
    DonationShort(v.fullAmount, v.comment, v.id, v.createDate)
  }

  /** The full view extends the short view: dropping its extra fields gives the short view. */
  lemma FullViewExtendsShort(d: Donation)
    ensures Shorten(FullView(d)) == ShortView(d)
  {
  }
}
