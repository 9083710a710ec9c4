/** The `POST /send-email` handler of server.js: the record it logs, the
    confirmation mail it sends, and the response it gives. */
module Server {
  import opened Wrappers
  import opened Records
  import opened Excel

  /** The six fields destructured from the JSON request body; a field the body
      lacks is `undefined`. */
  datatype RequestBody = RequestBody(
    fullName: Cell, email: Cell, phone: Cell,
    subject: Cell, message: Cell, preferredContact: Cell)

  /** The keys of a logged record, in the order the handler writes them. */
  const RecordKeys: seq<string> :=
    ["fullName", "email", "phone", "subject", "message", "preferredContact", "date"]

  /** The object passed to `appendToExcel`: the body's six fields and the
      submission time `date` (the server clock's locale string). */
  function BuildRecord(body: RequestBody, date: string): (r: Row)
    ensures Keys(r) == RecordKeys
    ensures DistinctKeys(r)
  {
    [ Field("fullName", body.fullName),
      Field("email", body.email),
      Field("phone", body.phone),
      Field("subject", body.subject),
      Field("message", body.message),
      Field("preferredContact", body.preferredContact),
      Field("date", Str(date)) ]
  }

  /** Each key of the logged record holds the body field of that name, and
      `date` holds the submission time. */
  lemma RecordTakesBodyFields(body: RequestBody, date: string)
    ensures var r := BuildRecord(body, date);
      && Lookup(r, "fullName") == body.fullName
      && Lookup(r, "email") == body.email
      && Lookup(r, "phone") == body.phone
      && Lookup(r, "subject") == body.subject
      && Lookup(r, "message") == body.message
      && Lookup(r, "preferredContact") == body.preferredContact
      && Lookup(r, "date") == Str(date)
  {
    var r := BuildRecord(body, date);
    LookupField(r, 0); LookupField(r, 1); LookupField(r, 2); LookupField(r, 3);
    LookupField(r, 4); LookupField(r, 5); LookupField(r, 6);
  }

  /** A template literal's `${value}`: `undefined` prints as "undefined". */
  function Interpolate(c: Cell): string
  {
    match c
    case Undefined => "undefined"
    case Str(s) => s
  }

  /** The message handed to the mail relay. */
  datatype Mail = Mail(from: Cell, to: Cell, subject: string, text: string)

  const SubjectPrefix: string := "Thank you for contacting us, "
  const SubjectSuffix: string := "!"
  const Greeting: string := "Hello "
  const Preamble: string :=
    ",\n\nThank you for reaching out. We will get back to you soon.\n\nYour Message:\n"
  const Closing: string := "\n\nBest regards,\nTeam_NCS"

  /** `sub` occurs in `s` starting at index `k`. */
  predicate OccursAt(sub: string, s: string, k: int)
  {
    0 <= k && k + |sub| <= |s| && s[k..k + |sub|] == sub
  }

  /** The confirmation mail for `body`, sent from the configured account `sender`. */
  function ConfirmationMail(sender: Cell, body: RequestBody): (m: Mail)
    ensures m.from == sender
    ensures m.to == body.email
    ensures OccursAt(SubjectPrefix, m.subject, 0)
    ensures OccursAt(Interpolate(body.fullName), m.subject, |SubjectPrefix|)
    ensures OccursAt(SubjectSuffix, m.subject, |SubjectPrefix| + |Interpolate(body.fullName)|)
    ensures |m.subject| == |SubjectPrefix| + |Interpolate(body.fullName)| + |SubjectSuffix|
    ensures OccursAt(Greeting + Interpolate(body.fullName), m.text, 0)
    ensures OccursAt(Preamble, m.text, |Greeting + Interpolate(body.fullName)|)
    ensures OccursAt(Interpolate(body.message), m.text, |Greeting + Interpolate(body.fullName) + Preamble|)
    ensures OccursAt(Closing, m.text, |Greeting + Interpolate(body.fullName) + Preamble| + |Interpolate(body.message)|)
    ensures |m.text| == |Greeting + Interpolate(body.fullName) + Preamble| + |Interpolate(body.message)| + |Closing|
  {
    var name := Interpolate(body.fullName);
    var message := Interpolate(body.message);
    var head := Greeting + name + Preamble;
    var text := head + message + Closing;
    assert text[|head|..|head| + |message|] == message;
    assert text[0..|Greeting + name|] == Greeting + name;
    var subject := SubjectPrefix + name + SubjectSuffix;
    assert subject[0..|SubjectPrefix|] == SubjectPrefix;
    assert subject[|SubjectPrefix|..|SubjectPrefix| + |name|] == name;
    Mail(sender, body.email, subject, text)
  }

  /** The name a confirmation subject thanks. */
  function ThankedName(subject: string): string
  {
    if |subject| >= |SubjectPrefix| + |SubjectSuffix|
    then subject[|SubjectPrefix|..|subject| - |SubjectSuffix|]
    else ""
  }

  /** The submitter's name can be read back from the subject line. */
  lemma SubjectNamesSubmitter(sender: Cell, body: RequestBody)
    ensures ThankedName(ConfirmationMail(sender, body).subject) == Interpolate(body.fullName)
  {
  }

  /** The submitter's message as quoted in a confirmation text addressed to `name`. */
  function QuotedMessage(text: string, name: string): string
  {
    var start := |Greeting + name + Preamble|;
    if start + |Closing| <= |text| then text[start..|text| - |Closing|] else ""
  }

  /** The submitter's message can be read back, unchanged, from the mail text. */
  lemma TextQuotesMessage(sender: Cell, body: RequestBody)
    ensures QuotedMessage(ConfirmationMail(sender, body).text, Interpolate(body.fullName)) == Interpolate(body.message)
  {
  }

  /** A sample submission: the mail goes to the submitter's address with the
      submitter's name in the subject, and when the file is missing the log
      afterwards holds just this record. */
  lemma ExampleSubmission(sender: Cell, date: string)
    ensures var body := RequestBody(Str("Jane Doe"), Str("jane@example.com"), Str("555-1234"),
                                    Str("Pricing"), Str("How much?"), Str("email"));
      && ConfirmationMail(sender, body).to == Str("jane@example.com")
      && ConfirmationMail(sender, body).subject == "Thank you for contacting us, Jane Doe!"
      && LoggedRows(Some(Appended(None, BuildRecord(body, date)))) == [BuildRecord(body, date)]
  {
  }

  /** An HTTP response: status code and the `message` of its JSON body. */
  datatype Response = Response(status: nat, message: string)

  const SuccessResponse: Response := Response(200, "Your message sent successfully!")
  const FailureResponse: Response := Response(500, "Failed to process request.")

  /** The `/send-email` handler. The spreadsheet file is `disk`; the mail
      relay delivers the mail it is handed exactly when `relayDelivers` holds;
      `sender` is the configured account. Returns the response, the file afterwards, and the
      mail handed to the relay, if any. */
  method SendEmail(body: RequestBody, date: string, sender: Cell, disk: Disk, relayDelivers: bool)
    returns (res: Response, file: Option<Workbook>, attempted: Option<Mail>)
    ensures res == SuccessResponse || res == FailureResponse
    ensures res == SuccessResponse <==> AppendSucceeds(disk) && relayDelivers
    ensures attempted.Some? <==> AppendSucceeds(disk)
    ensures attempted.Some? ==> attempted.value == ConfirmationMail(sender, body)
    ensures file == if AppendSucceeds(disk) then Some(Appended(disk.file, BuildRecord(body, date))) else disk.file
  {
    file, attempted := disk.file, None;
    var saved := AppendToExcel(disk, BuildRecord(body, date));
    if !saved.Saved? {
      return FailureResponse, file, attempted;
    }
    file := Some(saved.workbook);

    var mailOptions := ConfirmationMail(sender, body);
    attempted := Some(mailOptions);
    if !relayDelivers {
      return FailureResponse, file, attempted;
    }
    res := SuccessResponse;
  }
}
