/** The application form of the careers page: its state, its field handlers
    and the submission sequence validate, upload, resolve URL, insert, clear. */
module Careers {
  import opened Common
  import Phone
  import StorageKey

  /** The named inputs of the form that are wired to the change handler. */
  datatype Field = Name | Email | PhoneNumber | Position | LinkedIn

  datatype FormData = FormData(name: string, email: string, phone: string, position: string, linkedin: string)
  {
    function Get(f: Field): string {
      match f
      case Name => name
      case Email => email
      case PhoneNumber => phone
      case Position => position
      case LinkedIn => linkedin
    }

    /** `{ ...formData, [field]: value }`: the named field takes the value and
        every other field keeps its own. */
    function With(f: Field, value: string): (d: FormData)
      ensures d.Get(f) == value
      ensures forall g :: g != f ==> d.Get(g) == Get(g)
    {
      match f
      case Name => this.(name := value)
      case Email => this.(email := value)
      case PhoneNumber => this.(phone := value)
      case Position => this.(position := value)
      case LinkedIn => this.(linkedin := value)
    }
  }

  const EmptyForm := FormData("", "", "", "", "")

  /** A file chosen in the browser: its name and its bytes. */
  datatype File = File(name: string, content: seq<bv8>)

  /** The row inserted into the `applicants` table. */
  datatype ApplicantRow = ApplicantRow(name: string, email: string, phone: string, position: string,
                                       linkedin: string, cv_url: string)

  /** What the submission does that is visible outside the form state, in order. */
  datatype Step =
    | SetLoading(on: bool)
    | Upload(bucket: string, key: string, file: File)
    | GetPublicUrl(bucket: string, key: string)
    | Insert(table: string, rows: seq<ApplicantRow>)
    | Alert(message: string)

  const PhoneAlert := "Please enter a valid phone number (at least 10 digits)."
  const FileAlert := "Please upload your CV/Resume."
  const UploadErrorPrefix := "Upload Error: "
  const DatabaseErrorPrefix := "Database Error: "
  const ApplicantsTable := "applicants"

  class CareersForm {
    var formData: FormData
    var file: Option<File>
    var loading: bool
    var success: bool

    constructor ()
      ensures formData == EmptyForm && file == None && !loading && !success
    {
      formData := EmptyForm;
      file := None;
      loading := false;
      success := false;
    }

    /** `handleChange`: stores the typed value in the field the input names. */
    method HandleChange(field: Field, value: string)
      modifies this
      ensures formData == old(formData).With(field, value)
      ensures formData.Get(field) == value
      ensures forall g :: g != field ==> formData.Get(g) == old(formData).Get(g)
      ensures file == old(file) && loading == old(loading) && success == old(success)
    {
      formData := formData.With(field, value);
    }

    /** `handleFileChange`: takes the first selected file; an empty selection
        keeps the file chosen before. */
    method HandleFileChange(selected: seq<File>)
      modifies this
      ensures file == if selected == [] then old(file) else Some(selected[0])
      ensures formData == old(formData) && loading == old(loading) && success == old(success)
    {
      if selected != [] {
        file := Some(selected[0]);
      }
    }

    /** "Submit another application": leaves the confirmation and shows the form again. */
    method DismissSuccess()
      modifies this
      ensures !success
      ensures formData == old(formData) && file == old(file) && loading == old(loading)
    {
      success := false;
    }

    /** `handleSubmit`. `now` is the clock reading, `upload` and `insert` are
        the replies of the storage upload and the table insert, and
        `publicUrl` is the storage service's key-to-URL mapping. */
    method HandleSubmit(now: nat, upload: Reply<()>, publicUrl: string -> string, insert: Reply<()>)
      returns (trace: seq<Step>)
      modifies this
      // validation: phone first, then the file; nothing else happens
      ensures !Phone.PhoneRegexTest(old(formData).phone) ==>
        trace == [Alert(PhoneAlert)] && unchanged(this)
      ensures Phone.PhoneRegexTest(old(formData).phone) && old(file) == None ==>
        trace == [Alert(FileAlert)] && unchanged(this)
      // past validation: busy while the backend is called, idle afterwards
      ensures Phone.PhoneRegexTest(old(formData).phone) && old(file).Some? ==>
        var d, f := old(formData), old(file).value;
        var key := StorageKey.Key(now, d.name, f.name);
        var row := ApplicantRow(d.name, d.email, d.phone, d.position, d.linkedin, publicUrl(key));
        !loading &&
        (upload.Err? ==>
          trace == [SetLoading(true), Upload(StorageKey.Bucket, key, f),
                    Alert(UploadErrorPrefix + upload.message), SetLoading(false)] &&
          formData == d && file == old(file) && success == old(success)) &&
        (upload.Ok? && insert.Err? ==>
          trace == [SetLoading(true), Upload(StorageKey.Bucket, key, f), GetPublicUrl(StorageKey.Bucket, key),
                    Insert(ApplicantsTable, [row]), Alert(DatabaseErrorPrefix + insert.message), SetLoading(false)] &&
          formData == d && file == old(file) && success == old(success)) &&
        (upload.Ok? && insert.Ok? ==>
          trace == [SetLoading(true), Upload(StorageKey.Bucket, key, f), GetPublicUrl(StorageKey.Bucket, key),
                    Insert(ApplicantsTable, [row]), SetLoading(false)] &&
          formData == EmptyForm && file == None && success)
    {
      if !Phone.PhoneRegexTest(formData.phone) {
        trace := [Alert(PhoneAlert)];
        return;
      }
      if file == None {
        trace := [Alert(FileAlert)];
        return;
      }
      loading := true;
      trace := [SetLoading(true)];
      var key := StorageKey.Key(now, formData.name, file.value.name);
      trace := trace + [Upload(StorageKey.Bucket, key, file.value)];
      if upload.Err? {
        trace := trace + [Alert(UploadErrorPrefix + upload.message)];
      } else {
        trace := trace + [GetPublicUrl(StorageKey.Bucket, key)];
        var url := publicUrl(key);
        var row := ApplicantRow(formData.name, formData.email, formData.phone, formData.position,
                                formData.linkedin, url);
        trace := trace + [Insert(ApplicantsTable, [row])];
        if insert.Err? {
          trace := trace + [Alert(DatabaseErrorPrefix + insert.message)];
        } else {
          success := true;
          formData := EmptyForm;
          file := None;
        }
      }
      loading := false;
      trace := trace + [SetLoading(false)];
    }
  }

  predicate IsBackendCall(s: Step) {
    s.Upload? || s.GetPublicUrl? || s.Insert?
  }

  /** The backend calls of a trace, in order. */
  function BackendCalls(trace: seq<Step>): seq<Step> {
    if trace == [] then []
    else if trace[0].SetLoading? || trace[0].Alert? then BackendCalls(trace[1..])
    else [trace[0]] + BackendCalls(trace[1..])
  }

  /** The steps kept are exactly the upload, public-URL and insert steps of the trace. */
  lemma {:induction false} BackendCallsFilter(trace: seq<Step>)
    ensures forall s :: s in BackendCalls(trace) <==> s in trace && IsBackendCall(s)
    decreases |trace|
  {
    if trace != [] {
      BackendCallsFilter(trace[1..]);
      assert trace == [trace[0]] + trace[1..];
    }
  }

  /** The trace of a completed submission holds its three calls between the
      busy markers. */
  lemma CallsOfSubmission(upload: Step, url: Step, insert: Step)
    requires IsBackendCall(upload) && IsBackendCall(url) && IsBackendCall(insert)
    ensures BackendCalls([SetLoading(true), upload, url, insert, SetLoading(false)]) == [upload, url, insert]
  {
    var t := [SetLoading(true), upload, url, insert, SetLoading(false)];
    assert BackendCalls(t[4..]) == [];
    assert BackendCalls(t[3..]) == [insert];
    assert BackendCalls(t[2..]) == [url, insert];
    assert BackendCalls(t[1..]) == [upload, url, insert];
  }

  /** A user fills in the whole form, picks a file and submits; both backend
      calls succeed. */
  method ApplyOnce(d: FormData, f: File, now: nat, publicUrl: string -> string)
    returns (calls: seq<Step>, form: CareersForm)
    requires Phone.PhoneRegexTest(d.phone)
    ensures form.success && form.formData == EmptyForm && form.file == None && !form.loading
    ensures var key := StorageKey.Key(now, d.name, f.name);
      calls == [Upload(StorageKey.Bucket, key, f), GetPublicUrl(StorageKey.Bucket, key),
                Insert(ApplicantsTable, [ApplicantRow(d.name, d.email, d.phone, d.position, d.linkedin, publicUrl(key))])]
  {
    form := new CareersForm();
    form.HandleChange(Name, d.name);
    form.HandleChange(Email, d.email);
    form.HandleChange(PhoneNumber, d.phone);
    form.HandleChange(Position, d.position);
    form.HandleChange(LinkedIn, d.linkedin);
    assert form.formData == d;
    form.HandleFileChange([f]);
    var trace := form.HandleSubmit(now, Ok(()), publicUrl, Ok(()));
    var key := StorageKey.Key(now, d.name, f.name);
    var row := ApplicantRow(d.name, d.email, d.phone, d.position, d.linkedin, publicUrl(key));
    assert trace == [SetLoading(true), Upload(StorageKey.Bucket, key, f), GetPublicUrl(StorageKey.Bucket, key),
                     Insert(ApplicantsTable, [row]), SetLoading(false)];
    CallsOfSubmission(trace[1], trace[2], trace[3]);
    calls := BackendCalls(trace);
  }
}
