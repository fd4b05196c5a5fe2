/** The two patient schemas: `patientSchema`, used when a patient is edited,
    and `createPatientSchema`, used when one is created. Whether
    `Date.parse` accepts a text is a parameter (`parses`), since date
    parsing is not modelled. */
module PatientSchema {
  import opened JsValues
  import opened JsStrings
  import opened Validation

  /** The largest image accepted, in bytes. */
  const MAX_FILE_SIZE: nat := 2 * 1024 * 1024

  /** A picked `File`: its MIME type (empty when the browser does not know
      it) and its size in bytes. */
  datatype FileInfo = FileInfo(mimeType: string, size: nat)

  /** The image field of `patientSchema`: the preview URL and the picked file. */
  datatype ImageValue = ImageValue(preview: string, file: Option<FileInfo>)

  datatype PatientValues = PatientValues(
    name: string, sex: string, birthDate: string, image: ImageValue, organizationId: Option<string>)

  datatype CreatePatientValues = CreatePatientValues(
    name: string, sex: string, birthDate: string, image: Option<FileInfo>, organizationId: Option<string>)

  /** `z.string().refine(val => !Number.isNaN(Date.parse(val)))`. */
  function BirthDateIssues(birthDate: string, parses: string -> bool): (r: seq<Issue>)
    ensures r == [] <==> parses(birthDate)
  {
    Check(parses(birthDate), Custom("Data de nascimento inválida"))
  }

  /** The three refinements of the image object; each runs whatever the
      others found. */
  function ImageIssues(image: ImageValue): seq<Issue>
  {
    Check(image.file.None? || Contains(image.file.value.mimeType, "image"),
      Custom("Apenas arquivos .jpg, .jpeg, .png e .webp são aceitos."))
    + Check(image.file.None? || image.file.value.size <= MAX_FILE_SIZE, Custom("Tamanho máximo"))
    + Check(!IsBlank(image.preview), Custom("Por favor, insira uma imagem"))
  }

  /** `patientSchema`. */
  function PatientIssues(v: PatientValues, parses: string -> bool): seq<Issue>
  {
    At(Field("name"), MinLength(v.name, 1))
      + At(Field("sex"), MinLength(v.sex, 1))
      + At(Field("birth_date"), BirthDateIssues(v.birthDate, parses))
      + At(Field("image"), ImageIssues(v.image))
  }

  /** `createPatientSchema`: the image is an optional file with no check. */
  function CreatePatientIssues(v: CreatePatientValues, parses: string -> bool): seq<Issue>
  {
    At(Field("name"), MinLength(v.name, 1))
      + At(Field("sex"), MinLength(v.sex, 1))
      + At(Field("birth_date"), BirthDateIssues(v.birthDate, parses))
  }

  /** An image passes when there is no file or the file's type mentions
      "image" and it is at most 2 MiB, and the preview is not blank. */
  lemma ImageAccepts(image: ImageValue)
    ensures ImageIssues(image) == [] <==>
      && (image.file.Some? ==> Contains(image.file.value.mimeType, "image") && image.file.value.size <= 2097152)
      && exists i :: 0 <= i < |image.preview| && !IsJsWhitespace(image.preview[i])
  {
    BlankIffAllWhitespace(image.preview);
  }

  /** `patientSchema` accepts exactly the patients with a name, a sex, a date
      `Date.parse` reads and an acceptable image; the organization is free. */
  lemma PatientSchemaAccepts(v: PatientValues, parses: string -> bool)
    ensures PatientIssues(v, parses) == [] <==>
      && v.name != "" && v.sex != "" && parses(v.birthDate)
      && (v.image.file.Some? ==> Contains(v.image.file.value.mimeType, "image") && v.image.file.value.size <= MAX_FILE_SIZE)
      && !IsBlank(v.image.preview)
  {
  }

  /** `createPatientSchema` accepts exactly the patients with a name, a sex
      and a date `Date.parse` reads: neither the image nor the organization
      can cause an issue. */
  lemma CreatePatientSchemaAccepts(v: CreatePatientValues, parses: string -> bool)
    ensures CreatePatientIssues(v, parses) == [] <==> v.name != "" && v.sex != "" && parses(v.birthDate)
    ensures forall image: Option<FileInfo> ::
      CreatePatientIssues(v.(image := image), parses) == CreatePatientIssues(v, parses)
  {
  }

  /** The edit schema is the stricter one: what it accepts, the create
      schema accepts with the same file. */
  lemma PatientSchemaImpliesCreate(v: PatientValues, parses: string -> bool)
    requires PatientIssues(v, parses) == []
    ensures CreatePatientIssues(CreatePatientValues(v.name, v.sex, v.birthDate, v.image.file, v.organizationId), parses) == []
  {
    PatientSchemaAccepts(v, parses);
  }
}
