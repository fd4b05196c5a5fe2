/** A patient as the backend lists it, and the label the lists and the
    patient card show for its sex. */
module PatientTypes {
  import opened JsValues

  /** The fields of a patient the lists read. The sex is optional because
      the backend's data is not checked against the declared type. */
  datatype Patient = Patient(id: string, name: string, sex: Option<string>, birthDate: string)

  /** `sex === "male" ? "Masculino" : "Feminino"`: only the exact text
      "male" reads as male; any other value, and a missing one, as female. */
  function SexLabel(sex: Option<string>): (shown: string)
    ensures shown == "Masculino" <==> sex == Some("male")
    ensures shown in {"Masculino", "Feminino"}
  {
    if sex == Some("male") then "Masculino" else "Feminino"
  }
}
