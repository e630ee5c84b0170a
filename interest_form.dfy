/**
 * The interest form: a draft of four text fields edited one input at a time,
 * and a submit handler that validates the draft, posts a six-field multipart
 * body to a form backend and reports the outcome through `alert`, the
 * `onSubmit` and `onClose` callbacks and the `isSubmitting` flag.
 *
 * The handler's observable behaviour is a sequence of events; `SubmitTrace`
 * gives that sequence as a function of the draft, the project title and the
 * backend's response, the lemmas below state what the form promises about it,
 * and the class `InterestForm` is proved to produce exactly it.
 */
module Interest {
  import opened EmailRegex

  datatype Option<T> = None | Some(value: T)

  /** The inputs of the form, by their `name` attribute. */
  datatype Field = Name | Email | Company | Role

  /** The draft `formData`. */
  datatype FormData = FormData(name: string, email: string, company: string, role: string)

  /** The draft a freshly opened form starts with. */
  const EmptyForm := FormData("", "", "", "")

  /** The value of one field of the draft. */
  function Get(d: FormData, f: Field): string {
    match f
    case Name => d.name
    case Email => d.email
    case Company => d.company
    case Role => d.role
  }

  /** `{ ...prev, [name]: value }`: the draft after the input `f` changed to `v`. */
  function Update(d: FormData, f: Field, v: string): (d': FormData)
    ensures Get(d', f) == v
    ensures forall g :: g != f ==> Get(d', g) == Get(d, g)
  {
    match f
    case Name => d.(name := v)
    case Email => d.(email := v)
    case Company => d.(company := v)
    case Role => d.(role := v)
  }

  /** Updating a field and reading the draft back: a field is overwritten, not
      merged, and writing back what a field already holds changes nothing. */
  lemma UpdateOverwrites(d: FormData, f: Field, v: string, w: string)
    ensures Update(Update(d, f, v), f, w) == Update(d, f, w)
    ensures Update(d, f, Get(d, f)) == d
  {
  }

  /** Updates of two different fields commute. */
  lemma UpdatesCommute(d: FormData, f: Field, g: Field, v: string, w: string)
    requires f != g
    ensures Update(Update(d, f, v), g, w) == Update(Update(d, g, w), f, v)
  {
  }

  /** One `name`/value pair of a multipart body. */
  type Entry = (string, string)

  const SubjectPrefix := "New Interest Form Submission for "

  /** The body posted to the backend, in the order the fields are appended.
      `company || ''` and `role || ''` leave a string field as it is. */
  function SubmissionPayload(d: FormData, title: string): seq<Entry> {
    [("name", d.name), ("email", d.email), ("company", d.company), ("role", d.role),
     ("project", title), ("_subject", SubjectPrefix + title)]
  }

  /** The names of a body's entries, in order. */
  function Keys(p: seq<Entry>): (ks: seq<string>)
    ensures |ks| == |p|
    ensures forall i :: 0 <= i < |p| ==> ks[i] == p[i].0
  {
    if p == [] then [] else [p[0].0] + Keys(p[1..])
  }

  /** The value of the first entry named `key`, as a form backend reads it. */
  function Lookup(p: seq<Entry>, key: string): (r: Option<string>)
  {
    if p == [] then None
    else if p[0].0 == key then Some(p[0].1)
    else Lookup(p[1..], key)
  }

  /** What a backend recovers from a body: the four fields and the project. */
  function ReadSubmission(p: seq<Entry>): Option<(FormData, string)> {
    match (Lookup(p, "name"), Lookup(p, "email"), Lookup(p, "company"), Lookup(p, "role"), Lookup(p, "project"))
    case (Some(n), Some(e), Some(c), Some(r), Some(t)) => Some((FormData(n, e, c, r), t))
    case _ => None
  }

  /** The body has the six fields in order, each once, and the backend reads
      back exactly the draft and the project title that were sent, with the
      subject line naming that project. */
  lemma PayloadRoundTrip(d: FormData, title: string)
    ensures Keys(SubmissionPayload(d, title)) == ["name", "email", "company", "role", "project", "_subject"]
    ensures ReadSubmission(SubmissionPayload(d, title)) == Some((d, title))
    ensures Lookup(SubmissionPayload(d, title), "_subject") == Some(SubjectPrefix + title)
  {
    var p := SubmissionPayload(d, title);
    var p1, p2, p3, p4, p5 := p[1..], p[2..], p[3..], p[4..], p[5..];
    assert p5[1..] == [];
    assert Keys(p5) == ["_subject"];
    assert Keys(p4) == ["project"] + Keys(p5);
    assert Keys(p3) == ["role"] + Keys(p4);
    assert Keys(p2) == ["company"] + Keys(p3);
    assert Keys(p1) == ["email"] + Keys(p2);
    assert Keys(p) == ["name"] + Keys(p1);
    assert "name"[0] != "role"[0] && "company"[0] != "project"[0];
    assert Lookup(p, "name") == Some(d.name);
    assert Lookup(p, "email") == Lookup(p1, "email") == Some(d.email);
    assert Lookup(p, "company") == Lookup(p1, "company") == Lookup(p2, "company") == Some(d.company);
    assert Lookup(p, "role") == Lookup(p1, "role") == Lookup(p2, "role") == Lookup(p3, "role") == Some(d.role);
    assert Lookup(p, "project") == Lookup(p1, "project") == Lookup(p2, "project") == Lookup(p3, "project") == Lookup(p4, "project") == Some(title);
    assert Lookup(p, "_subject") == Lookup(p1, "_subject") == Lookup(p2, "_subject") == Lookup(p3, "_subject") == Lookup(p4, "_subject") == Lookup(p5, "_subject") == Some(SubjectPrefix + title);
  }

  /** The outcome of `fetch` as the handler sees it. `NotOk` (a response whose
      `ok` is false) and `Threw` (a rejected fetch) both end in the `catch`. */
  datatype Response = Ok | NotOk | Threw

  /** The effects of the submit handler that a caller can observe. */
  datatype Event =
    | SetSubmitting(on: bool)
    | Alert(message: string)
    | Fetch(body: seq<Entry>)
    | OnSubmit(data: FormData)
    | OnClose

  const MissingFieldsMessage := "Please fill in your name and email address"
  const InvalidEmailMessage := "Please enter a valid email address"
  const FailureMessage := "There was an error submitting your form. Please try again or contact us directly."

  function ThanksMessage(title: string): string {
    "Thank you for your interest in " + title + "! We'll be in touch soon."
  }

  /** The draft passes both client-side checks. */
  ghost predicate Accepted(d: FormData) {
    d.name != "" && d.email != "" && ValidEmail(d.email)
  }

  /** The events of one run of `handleSubmit` on draft `d`, given the response
      the backend would give to this draft's body. */
  ghost function SubmitTrace(d: FormData, title: string, response: Response): seq<Event> {
    [SetSubmitting(true)] +
    if d.name == "" || d.email == "" then
      [Alert(MissingFieldsMessage), SetSubmitting(false)]
    else if !ValidEmail(d.email) then
      [Alert(InvalidEmailMessage), SetSubmitting(false)]
    else
      [Fetch(SubmissionPayload(d, title))] +
      if response == Ok then
        [Alert(ThanksMessage(title)), OnSubmit(d), SetSubmitting(false), OnClose]
      else
        [Alert(FailureMessage), SetSubmitting(false)]
  }

  /** The flag is raised first, and in a run that completes the last word on
      it is "false". */
  lemma SubmittingEndsCleared(d: FormData, title: string, response: Response)
    ensures var t := SubmitTrace(d, title, response);
      t[0] == SetSubmitting(true) &&
      exists j :: 0 < j < |t| && t[j] == SetSubmitting(false) &&
        forall k :: j < k < |t| ==> !t[k].SetSubmitting?
  {
    var t := SubmitTrace(d, title, response);
    if Accepted(d) && response == Ok {
      assert t[4] == SetSubmitting(false) && |t| == 6;
    } else {
      assert t[|t| - 1] == SetSubmitting(false);
    }
  }

  /** A missing name or email raises the missing-fields alert and never reaches
      the backend or either callback. */
  lemma MissingFieldsSkipBackend(d: FormData, title: string, response: Response)
    requires d.name == "" || d.email == ""
    ensures var t := SubmitTrace(d, title, response);
      Alert(MissingFieldsMessage) in t &&
      forall e :: e in t ==> !e.Fetch? && !e.OnSubmit? && !e.OnClose?
  {
  }

  /** An address the regex rejects raises the invalid-email alert and never
      reaches the backend or either callback. */
  lemma InvalidEmailSkipsBackend(d: FormData, title: string, response: Response)
    requires d.name != "" && d.email != "" && !ValidEmail(d.email)
    ensures var t := SubmitTrace(d, title, response);
      Alert(InvalidEmailMessage) in t &&
      forall e :: e in t ==> !e.Fetch? && !e.OnSubmit? && !e.OnClose?
  {
  }

  /** Validation precedes the network: the backend is called iff both checks
      pass, at most once, and with exactly this draft's body. */
  lemma BackendCalledIffAccepted(d: FormData, title: string, response: Response)
    ensures var t := SubmitTrace(d, title, response);
      (exists i :: 0 <= i < |t| && t[i].Fetch?) <==> Accepted(d)
    ensures var t := SubmitTrace(d, title, response);
      forall i, j :: 0 <= i < |t| && 0 <= j < |t| && t[i].Fetch? && t[j].Fetch? ==>
        i == j && t[i].body == SubmissionPayload(d, title)
  {
    var t := SubmitTrace(d, title, response);
    if Accepted(d) {
      assert t[1].Fetch?;
    }
  }

  /** On an OK response `onSubmit` gets the draft exactly once, then the flag
      is cleared, then `onClose` is called, last and once. */
  lemma SuccessCallsBackInOrder(d: FormData, title: string)
    requires Accepted(d)
    ensures var t := SubmitTrace(d, title, Ok);
      exists i, j :: 0 <= i < j < |t| - 1 &&
        t[i] == OnSubmit(d) && t[j] == SetSubmitting(false) && t[|t| - 1] == OnClose &&
        (forall m :: 0 <= m < |t| && t[m].OnSubmit? ==> m == i) &&
        (forall m :: 0 <= m < |t| && t[m].OnClose? ==> m == |t| - 1)
  {
    var t := SubmitTrace(d, title, Ok);
    assert t[3] == OnSubmit(d) && t[4] == SetSubmitting(false) && |t| == 6;
  }

  /** On a failed response or a thrown error the failure alert is raised and
      neither callback runs. */
  lemma FailureCallsNoCallback(d: FormData, title: string, response: Response)
    requires Accepted(d) && response != Ok
    ensures var t := SubmitTrace(d, title, response);
      Alert(FailureMessage) in t &&
      forall e :: e in t ==> !e.OnSubmit? && !e.OnClose?
  {
  }

  /** The `body` passed to `fetch`, built by successive `append` calls. */
  class MultipartBody {
    var entries: seq<Entry>

    constructor ()
      ensures entries == []
    {
      entries := [];
    }

    method Append(key: string, value: string)
      modifies this
      ensures entries == old(entries) + [(key, value)]
    {
      entries := entries + [(key, value)];
    }
  }

  /** The `new FormData()` and six `append` calls of the submit handler. */
  method BuildBody(d: FormData, title: string) returns (body: MultipartBody)
    ensures fresh(body)
    ensures body.entries == SubmissionPayload(d, title)
  {
    body := new MultipartBody();
    body.Append("name", d.name);
    body.Append("email", d.email);
    body.Append("company", d.company);
    body.Append("role", d.role);
    body.Append("project", title);
    body.Append("_subject", SubjectPrefix + title);
  }

  /** One mounted interest form: its draft, its flag, and a record of what it
      has done to the outside world. */
  class InterestForm {
    const projectTitle: string
    var formData: FormData
    var isSubmitting: bool
    ghost var log: seq<Event>

    constructor (projectTitle: string)
      ensures this.projectTitle == projectTitle
      ensures formData == EmptyForm && !isSubmitting && log == []
    {
      this.projectTitle := projectTitle;
      formData := EmptyForm;
      isSubmitting := false;
      log := [];
    }

    /** `handleInputChange`: the input `field` now holds `value`. */
    method HandleInputChange(field: Field, value: string)
      modifies this
      ensures formData == Update(old(formData), field, value)
      ensures isSubmitting == old(isSubmitting) && log == old(log)
    {
      formData := Update(formData, field, value);
    }

    /** `handleSubmit`, with `backend` standing for the form service: it maps
        the posted body to the response `fetch` settles with. The draft is
        kept whatever happens, and the flag ends cleared. */
    method HandleSubmit(backend: seq<Entry> -> Response)
      modifies this
      ensures formData == old(formData)
      ensures !isSubmitting
      ensures log == old(log) +
        SubmitTrace(formData, projectTitle, backend(SubmissionPayload(formData, projectTitle)))
    {
      isSubmitting := true;
      log := log + [SetSubmitting(true)];

      if formData.name == "" || formData.email == "" {
        log := log + [Alert(MissingFieldsMessage)];
        isSubmitting := false;
        log := log + [SetSubmitting(false)];
        return;
      }

      var emailOk := Matches(formData.email);
      if !emailOk {
        log := log + [Alert(InvalidEmailMessage)];
        isSubmitting := false;
        log := log + [SetSubmitting(false)];
        return;
      }

      var body := BuildBody(formData, projectTitle);
      var payload := body.entries;
      log := log + [Fetch(payload)];
      var response := backend(payload);
      if response == Ok {
        log := log + [Alert(ThanksMessage(projectTitle)), OnSubmit(formData)];
        isSubmitting := false;
        log := log + [SetSubmitting(false)];
        log := log + [OnClose];
      } else {
        log := log + [Alert(FailureMessage)];
        isSubmitting := false;
        log := log + [SetSubmitting(false)];
      }
    }
  }

  /** Jane Lee's draft passes both client-side checks. */
  lemma SampleDraftAccepted()
    ensures Accepted(FormData("Jane Lee", "jane@example.com", "Acme", "Engineer"))
  {
    assert ClassRun("jane") && ClassRun("example") && ClassRun("com");
    JoinMatches("jane", "example", "com");
    assert "jane" + "@" + "example" + "." + "com" == "jane@example.com";
  }

  /** The scenario of a valid submission: Jane Lee's draft reaches the backend
      and, on success, `onSubmit` receives exactly those fields. */
  lemma ValidSubmissionScenario(title: string)
    ensures var d := FormData("Jane Lee", "jane@example.com", "Acme", "Engineer");
      SubmitTrace(d, title, Ok) ==
        [SetSubmitting(true), Fetch(SubmissionPayload(d, title)), Alert(ThanksMessage(title)),
         OnSubmit(d), SetSubmitting(false), OnClose]
  {
    SampleDraftAccepted();
  }

  /** A failed submission keeps what was typed, so a retry sends the same body
      and, once the backend accepts it, reports that draft to `onSubmit`. */
  method RetryAfterFailure(title: string)
  {
    var form := new InterestForm(title);
    form.HandleInputChange(Name, "Jane Lee");
    form.HandleInputChange(Email, "jane@example.com");
    form.HandleInputChange(Company, "Acme");
    form.HandleInputChange(Role, "Engineer");
    ghost var d := FormData("Jane Lee", "jane@example.com", "Acme", "Engineer");
    assert form.formData == d;
    SampleDraftAccepted();
    FailureCallsNoCallback(d, title, NotOk);
    form.HandleSubmit(_ => NotOk);
    assert form.formData == d && !form.isSubmitting;
    assert OnSubmit(d) !in form.log;
    ghost var before := form.log;
    ValidSubmissionScenario(title);
    form.HandleSubmit(_ => Ok);
    assert form.log[|before| + 3] == OnSubmit(d);
    assert form.log[|form.log| - 1] == OnClose;
  }
}
