/** The contact form (`ContactForm`): its schema and the choice between
    updating and creating on submit. Whether zod's `.email()` accepts a
    text is a parameter (`isEmail`). */
module ContactForm {
  import opened JsValues
  import opened Validation

  const RELATIONSHIPS: seq<string> := ["father", "mother", "relative", "responsible", "other"]

  datatype ContactValues = ContactValues(
    id: Option<string>,
    name: string,
    cpf: string,
    relationship: string,
    email: string,
    phonePrimary: string,
    phoneSecondary: Option<string>,
    patientId: string)

  /** `ContactSchema`. */
  function ContactIssues(v: ContactValues, isEmail: string -> bool): seq<Issue>
  {
    At(Field("name"), MinLength(v.name, 1))
      + At(Field("cpf"), MinLength(v.cpf, 11) + MaxLength(v.cpf, 14))
      + At(Field("relationship"), OneOf(v.relationship, RELATIONSHIPS))
      + At(Field("email"), Check(isEmail(v.email), InvalidString))
      + At(Field("phone_primary"), MinLength(v.phonePrimary, 8))
      + At(Field("patient_id"), MinLength(v.patientId, 26) + MaxLength(v.patientId, 26))
  }

  /** A contact passes exactly when it is named, its CPF has 11 to 14
      characters, its relationship is one of the five, its e-mail is valid,
      its main phone has at least 8 characters and its patient id exactly 26;
      the id and the second phone are free. */
  lemma ContactSchemaAccepts(v: ContactValues, isEmail: string -> bool)
    ensures ContactIssues(v, isEmail) == [] <==>
      && v.name != ""
      && 11 <= |v.cpf| <= 14
      && v.relationship in {"father", "mother", "relative", "responsible", "other"}
      && isEmail(v.email)
      && |v.phonePrimary| >= 8
      && |v.patientId| == 26
  {
    assert v.relationship in RELATIONSHIPS <==> v.relationship in {"father", "mother", "relative", "responsible", "other"};
  }

  /** The optional fields never cause an issue. */
  lemma OptionalFieldsFree(v: ContactValues, isEmail: string -> bool, id: Option<string>, phone: Option<string>)
    ensures ContactIssues(v.(id := id, phoneSecondary := phone), isEmail) == ContactIssues(v, isEmail)
  {
  }

  /** Which action submitting calls, and with what. */
  datatype ContactSubmission =
    | UpdateContact(id: string, values: ContactValues, token: Option<string>)
    | CreateContact(values: ContactValues, token: Option<string>)

  /** `onSubmit`: update when the values carry a non-empty id, create
      otherwise; both send the values and the session's token. */
  function Submit(values: ContactValues, token: Option<string>): (r: ContactSubmission)
    ensures r.UpdateContact? <==> Truthy(values.id)
    ensures r.UpdateContact? ==> r.id == values.id.value
    ensures r.values == values && r.token == token
  {
    if Truthy(values.id) then UpdateContact(values.id.value, values, token) else CreateContact(values, token)
  }
}
