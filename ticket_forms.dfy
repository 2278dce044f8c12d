/**
 * The category-specific ticket forms (tickets/forms.py). Each form validates its fields
 * (`Clean...`), then its `save` starts from the ticket the model form builds
 * (`super().save(commit=False)`), writes the structured `metadata`, sets the description
 * and, for the forms with a photo, the attachment, and persists only when `commit` is
 * true (`Commit`).
 */
module TicketForms {
  import opened Wrappers
  import opened Text
  import opened Choices
  import opened Fields
  import opened Directory
  import opened TicketModels
  import opened Schema
  import opened Store

  // ---- choice tables ----------------------------------------------------------------

  const TechnicalIssueChoices: ChoiceList :=
    [("login", "Login/Password Issue"), ("software", "Software/System Error"),
     ("hardware", "Device/Hardware Issue"), ("other", "Other")]

  const InquiryChoices: ChoiceList :=
    [("enrollment", "Enrollment / Registration"), ("grades", "Grades / Transcript"),
     ("schedule", "Schedule / Class Availability"), ("curriculum", "Curriculum / Course Requirements"),
     ("other", "Other")]

  const DepartmentChoices: ChoiceList := [("jhs", "JHS"), ("shs", "SHS"), ("college", "College")]

  const ContactChoices: ChoiceList := [("email", "Email"), ("phone", "Phone"), ("inperson", "In-Person")]

  const RequestChoices: ChoiceList :=
    [("academic", "Academic Stress / Guidance"), ("personal", "Personal / Emotional Support"),
     ("mental", "Mental Health Counselling"), ("peer", "Peer / Conflict Mediation"), ("other", "Other")]

  const FacilitiesIssueChoices: ChoiceList :=
    [("electrical", "Electrical / Lighting"), ("plumbing", "Plumbing / Water"),
     ("furniture", "Furniture / Fixtures"), ("it", "IT / AV Equipment"),
     ("safety", "Safety / Security"), ("other", "Other")]

  const UrgencyChoices: ChoiceList := [("low", "Low"), ("medium", "Medium"), ("high", "High")]

  /** No choice table repeats a code, so every code has exactly one label. */
  lemma ChoiceTablesDistinct()
    ensures DistinctCodes(TechnicalIssueChoices) && DistinctCodes(InquiryChoices) && DistinctCodes(DepartmentChoices)
    ensures DistinctCodes(ContactChoices) && DistinctCodes(RequestChoices)
    ensures DistinctCodes(FacilitiesIssueChoices) && DistinctCodes(UrgencyChoices)
  {
  }

  /** The accepted urgency codes. */
  lemma UrgencyCodes(code: string)
    ensures IsChoice(UrgencyChoices, code) <==> code in {"low", "medium", "high"}
  {
    if code in {"low", "medium", "high"} {
      assert code == UrgencyChoices[0].0 || code == UrgencyChoices[1].0 || code == UrgencyChoices[2].0;
    }
  }

  // ---- dates ------------------------------------------------------------------------

  datatype Date = Date(year: nat, month: nat, day: nat)
  datatype DateTime = DateTime(date: Date, hour: nat, minute: nat)

  /** What `DateField` and `DateTimeField` accept (calendar lengths of months are not modelled). */
  predicate ValidDate(d: Date) { 1 <= d.year < 10000 && 1 <= d.month <= 12 && 1 <= d.day <= 31 }
  predicate ValidDateTime(d: DateTime) { ValidDate(d.date) && d.hour < 24 && d.minute < 60 }

  /** `strftime('%Y-%m-%d')`: year, month and day as digit fields that read back as the date. */
  function FormatDate(d: Date): (r: string)
    requires ValidDate(d)
    ensures |r| == 10 && r[4] == '-' && r[7] == '-'
    ensures IsDigits(r[..4]) && IsDigits(r[5..7]) && IsDigits(r[8..])
    ensures DigitsValue(r[..4]) == d.year && DigitsValue(r[5..7]) == d.month && DigitsValue(r[8..]) == d.day
  {
    var r := Pad4(d.year) + "-" + Pad2(d.month) + "-" + Pad2(d.day);
    assert r[..4] == Pad4(d.year) && r[5..7] == Pad2(d.month) && r[8..] == Pad2(d.day);
    r
  }

  /** `strftime('%Y-%m-%d %H:%M')`: the date, a space, then hour and minute that read back as the time. */
  function FormatDateTime(d: DateTime): (r: string)
    requires ValidDateTime(d)
    ensures |r| == 16 && r[..10] == FormatDate(d.date) && r[10] == ' ' && r[13] == ':'
    ensures IsDigits(r[11..13]) && IsDigits(r[14..])
    ensures DigitsValue(r[11..13]) == d.hour && DigitsValue(r[14..]) == d.minute
  {
    var r := FormatDate(d.date) + " " + Pad2(d.hour) + ":" + Pad2(d.minute);
    assert r[..10] == FormatDate(d.date) && r[11..13] == Pad2(d.hour) && r[14..] == Pad2(d.minute);
    r
  }

  /** Two dates are formatted alike only when they are the same date. */
  lemma {:induction false} FormatDateInjective(d: Date, e: Date)
    requires ValidDate(d) && ValidDate(e) && FormatDate(d) == FormatDate(e)
    ensures d == e
  {
    var r := FormatDate(d);
    assert DigitsValue(r[..4]) == d.year && DigitsValue(r[..4]) == e.year;
  }

  // ---- TechnicalSupportForm ---------------------------------------------------------

  datatype TechnicalData = TechnicalData(title: string, description: string, issueType: string)

  function CleanTechnical(title: string, description: string, issueType: string): (r: Result<TechnicalData, FormError>)
    ensures r.Ok? <==>
      CleanCharField("title", title, Some(TitleMaxLength)).Ok? && CleanCharField("description", description, None).Ok? &&
      CleanChoice("issue_type", TechnicalIssueChoices, issueType).Ok?
    ensures r.Ok? ==> r.value == TechnicalData(Strip(title), Strip(description), issueType)
    ensures r.Ok? ==> IsChoice(TechnicalIssueChoices, r.value.issueType)
  {
    var t := CleanCharField("title", title, Some(TitleMaxLength));
    var d := CleanCharField("description", description, None);
    var i := CleanChoice("issue_type", TechnicalIssueChoices, issueType);
    if t.Err? then Err(t.error) else if d.Err? then Err(d.error) else if i.Err? then Err(i.error)
    else Ok(TechnicalData(t.value, d.value, i.value))
  }

  /** `TechnicalSupportForm.save(commit=False)`: metadata is exactly the issue type and its label. */
  method TechnicalSave(instance: Ticket, data: TechnicalData) returns (t: Ticket)
    requires IsChoice(TechnicalIssueChoices, data.issueType)
    ensures t.metadata.Keys == {"issue_type", "issue_type_display"}
    ensures t.metadata["issue_type"] == data.issueType
    ensures (data.issueType, t.metadata["issue_type_display"]) in TechnicalIssueChoices
    ensures t.title == data.title && t.description == data.description
    ensures t == instance.(title := data.title, description := data.description, metadata := t.metadata)
  {
    t := instance.(title := data.title, description := data.description);
    t := t.(metadata := map["issue_type" := data.issueType,
                            "issue_type_display" := Label(TechnicalIssueChoices, data.issueType)]);
  }

  // ---- AcademicSupportForm ----------------------------------------------------------

  const ProgramYearMaxLength := 50

  datatype AcademicData = AcademicData(title: string, programYear: string, inquiryType: string, question: string)

  function CleanAcademic(title: string, programYear: string, inquiryType: string, question: string): (r: Result<AcademicData, FormError>)
    ensures r.Ok? <==>
      CleanCharField("title", title, Some(TitleMaxLength)).Ok? &&
      CleanCharField("program_year", programYear, Some(ProgramYearMaxLength)).Ok? &&
      CleanChoice("inquiry_type", InquiryChoices, inquiryType).Ok? && CleanCharField("question", question, None).Ok?
    ensures r.Ok? ==> r.value == AcademicData(Strip(title), Strip(programYear), inquiryType, Strip(question))
    ensures r.Ok? ==> IsChoice(InquiryChoices, r.value.inquiryType) && |r.value.programYear| <= ProgramYearMaxLength
  {
    var t := CleanCharField("title", title, Some(TitleMaxLength));
    var p := CleanCharField("program_year", programYear, Some(ProgramYearMaxLength));
    var i := CleanChoice("inquiry_type", InquiryChoices, inquiryType);
    var q := CleanCharField("question", question, None);
    if t.Err? then Err(t.error) else if p.Err? then Err(p.error) else if i.Err? then Err(i.error)
    else if q.Err? then Err(q.error)
    else Ok(AcademicData(t.value, p.value, i.value, q.value))
  }

  /** `AcademicSupportForm.save(commit=False)`: the question replaces the description. */
  method AcademicSave(instance: Ticket, data: AcademicData) returns (t: Ticket)
    requires IsChoice(InquiryChoices, data.inquiryType)
    ensures t.metadata.Keys == {"program_year", "inquiry_type", "inquiry_type_display"}
    ensures t.metadata["program_year"] == data.programYear && t.metadata["inquiry_type"] == data.inquiryType
    ensures (data.inquiryType, t.metadata["inquiry_type_display"]) in InquiryChoices
    ensures t.title == data.title && t.description == data.question
    ensures t == instance.(title := data.title, description := data.question, metadata := t.metadata)
  {
    t := instance.(title := data.title);
    t := t.(metadata := map["program_year" := data.programYear,
                            "inquiry_type" := data.inquiryType,
                            "inquiry_type_display" := Label(InquiryChoices, data.inquiryType)]);
    t := t.(description := data.question);
  }

  // ---- LostAndFoundForm -------------------------------------------------------------

  const LocationMaxLength := 100
  const NotesSeparator: string := "\n\nNotes: "

  datatype LostFoundData = LostFoundData(
    title: string, attachment: Option<FileRef>, department: string, itemDescription: string,
    location: string, dateTime: DateTime, photo: Option<FileRef>, notes: string)

  function CleanLostFound(title: string, attachment: Option<FileRef>, department: string, itemDescription: string,
                          location: string, dateTime: Option<DateTime>, photo: Option<FileRef>, notes: string): (r: Result<LostFoundData, FormError>)
    ensures r.Ok? <==>
      CleanCharField("title", title, Some(TitleMaxLength)).Ok? &&
      CleanChoice("department", DepartmentChoices, department).Ok? &&
      CleanCharField("item_description", itemDescription, None).Ok? &&
      CleanCharField("location", location, Some(LocationMaxLength)).Ok? &&
      dateTime.Some? && ValidDateTime(dateTime.value)
    ensures r.Ok? ==> r.value == LostFoundData(Strip(title), attachment, department, Strip(itemDescription),
                                               Strip(location), dateTime.value, photo, Strip(notes))
    ensures r.Ok? ==> IsChoice(DepartmentChoices, r.value.department) && ValidDateTime(r.value.dateTime)
    ensures var others :=
        CleanCharField("title", title, Some(TitleMaxLength)).Ok? &&
        CleanChoice("department", DepartmentChoices, department).Ok? &&
        CleanCharField("item_description", itemDescription, None).Ok? &&
        CleanCharField("location", location, Some(LocationMaxLength)).Ok?;
      (others && dateTime.None? ==> r == Err(Required("date_time"))) &&
      (others && dateTime.Some? && !ValidDateTime(dateTime.value) ==> r == Err(InvalidValue("date_time")))
  {
    var t := CleanCharField("title", title, Some(TitleMaxLength));
    var d := CleanChoice("department", DepartmentChoices, department);
    var i := CleanCharField("item_description", itemDescription, None);
    var l := CleanCharField("location", location, Some(LocationMaxLength));
    if t.Err? then Err(t.error) else if d.Err? then Err(d.error) else if i.Err? then Err(i.error)
    else if l.Err? then Err(l.error)
    else if dateTime.None? then Err(Required("date_time"))
    else if !ValidDateTime(dateTime.value) then Err(InvalidValue("date_time"))
    else Ok(LostFoundData(t.value, attachment, d.value, i.value, l.value, dateTime.value, photo, Strip(notes)))
  }

  /**
   * `LostAndFoundForm.save(commit=False)`: the item description becomes the
   * description, with the notes appended only when there are any; a supplied photo
   * replaces the attachment.
   */
  method LostFoundSave(instance: Ticket, data: LostFoundData) returns (t: Ticket)
    requires IsChoice(DepartmentChoices, data.department) && ValidDateTime(data.dateTime)
    ensures t.metadata.Keys == {"department", "department_display", "location", "date_time"}
    ensures t.metadata["department"] == data.department && t.metadata["location"] == data.location
    ensures (data.department, t.metadata["department_display"]) in DepartmentChoices
    ensures t.metadata["date_time"] == FormatDateTime(data.dateTime)
    ensures data.notes == "" ==> t.description == data.itemDescription
    ensures data.notes != "" ==> t.description == data.itemDescription + NotesSeparator + data.notes
    ensures data.photo.Some? ==> t.attachment == data.photo
    ensures data.photo.None? ==> t.attachment == (if data.attachment.Some? then data.attachment else instance.attachment)
    ensures t.title == data.title
    ensures t == instance.(title := data.title, attachment := t.attachment, description := t.description, metadata := t.metadata)
  {
    t := instance.(title := data.title);
    if data.attachment.Some? {
      t := t.(attachment := data.attachment);
    }
    t := t.(metadata := map["department" := data.department,
                            "department_display" := Label(DepartmentChoices, data.department),
                            "location" := data.location,
                            "date_time" := FormatDateTime(data.dateTime)]);
    t := t.(description := data.itemDescription);
    if data.notes != "" {
      t := t.(description := t.description + NotesSeparator + data.notes);
    }
    if data.photo.Some? {
      t := t.(attachment := data.photo);
    }
  }

  // ---- WelfareForm ------------------------------------------------------------------

  datatype WelfareData = WelfareData(
    title: string, contactMethod: string, requestType: string, description: string, preferredDate: Option<Date>)

  function CleanWelfare(title: string, contactMethod: string, requestType: string, description: string,
                        preferredDate: Option<Date>): (r: Result<WelfareData, FormError>)
    ensures r.Ok? <==>
      CleanCharField("title", title, Some(TitleMaxLength)).Ok? &&
      CleanChoice("contact_method", ContactChoices, contactMethod).Ok? &&
      CleanChoice("request_type", RequestChoices, requestType).Ok? &&
      CleanCharField("description", description, None).Ok? &&
      (preferredDate.Some? ==> ValidDate(preferredDate.value))
    ensures r.Ok? ==> r.value == WelfareData(Strip(title), contactMethod, requestType, Strip(description), preferredDate)
    ensures r.Ok? ==> IsChoice(ContactChoices, r.value.contactMethod) && IsChoice(RequestChoices, r.value.requestType)
    ensures var others :=
        CleanCharField("title", title, Some(TitleMaxLength)).Ok? &&
        CleanChoice("contact_method", ContactChoices, contactMethod).Ok? &&
        CleanChoice("request_type", RequestChoices, requestType).Ok? &&
        CleanCharField("description", description, None).Ok?;
      others && preferredDate.Some? && !ValidDate(preferredDate.value) ==> r == Err(InvalidValue("preferred_date"))
  {
    var t := CleanCharField("title", title, Some(TitleMaxLength));
    var c := CleanChoice("contact_method", ContactChoices, contactMethod);
    var q := CleanChoice("request_type", RequestChoices, requestType);
    var d := CleanCharField("description", description, None);
    if t.Err? then Err(t.error) else if c.Err? then Err(c.error) else if q.Err? then Err(q.error)
    else if d.Err? then Err(d.error)
    else if preferredDate.Some? && !ValidDate(preferredDate.value) then Err(InvalidValue("preferred_date"))
    else Ok(WelfareData(t.value, c.value, q.value, d.value, preferredDate))
  }

  /** The metadata `WelfareForm.save` writes: `preferred_date` is there exactly when a date was given. */
  function WelfareMetadata(data: WelfareData): (m: map<string, string>)
    requires IsChoice(ContactChoices, data.contactMethod) && IsChoice(RequestChoices, data.requestType)
    requires data.preferredDate.Some? ==> ValidDate(data.preferredDate.value)
    ensures "preferred_date" in m <==> data.preferredDate.Some?
    ensures data.preferredDate.Some? ==> m["preferred_date"] == FormatDate(data.preferredDate.value)
    ensures m.Keys - {"preferred_date"} == {"contact_method", "contact_method_display", "request_type", "request_type_display"}
    ensures m["contact_method"] == data.contactMethod && m["request_type"] == data.requestType
    ensures (data.contactMethod, m["contact_method_display"]) in ContactChoices
    ensures (data.requestType, m["request_type_display"]) in RequestChoices
  {
    var base := map["contact_method" := data.contactMethod,
                    "contact_method_display" := Label(ContactChoices, data.contactMethod),
                    "request_type" := data.requestType,
                    "request_type_display" := Label(RequestChoices, data.requestType)];
    if data.preferredDate.Some? then base["preferred_date" := FormatDate(data.preferredDate.value)] else base
  }

  /** `WelfareForm.save(commit=False)`: title, description and the welfare metadata. */
  method WelfareSave(instance: Ticket, data: WelfareData) returns (t: Ticket)
    requires IsChoice(ContactChoices, data.contactMethod) && IsChoice(RequestChoices, data.requestType)
    requires data.preferredDate.Some? ==> ValidDate(data.preferredDate.value)
    ensures t.title == data.title && t.description == data.description
    ensures t == instance.(title := data.title, description := data.description, metadata := WelfareMetadata(data))
  {
    t := instance.(title := data.title);
    t := t.(metadata := WelfareMetadata(data));
    t := t.(description := data.description);
  }

  // ---- FacilitiesForm ---------------------------------------------------------------

  datatype FacilitiesData = FacilitiesData(
    title: string, attachment: Option<FileRef>, location: string, issueType: string,
    description: string, photo: Option<FileRef>, urgency: string)

  function CleanFacilities(title: string, attachment: Option<FileRef>, location: string, issueType: string,
                           description: string, photo: Option<FileRef>, urgency: string): (r: Result<FacilitiesData, FormError>)
    ensures r.Ok? <==>
      CleanCharField("title", title, Some(TitleMaxLength)).Ok? &&
      CleanCharField("location", location, Some(LocationMaxLength)).Ok? &&
      CleanChoice("issue_type", FacilitiesIssueChoices, issueType).Ok? &&
      CleanCharField("description", description, None).Ok? &&
      CleanChoice("urgency", UrgencyChoices, urgency).Ok?
    ensures r.Ok? ==> r.value == FacilitiesData(Strip(title), attachment, Strip(location), issueType, Strip(description), photo, urgency)
    ensures r.Ok? ==> IsChoice(FacilitiesIssueChoices, r.value.issueType) && IsChoice(UrgencyChoices, r.value.urgency)
  {
    var t := CleanCharField("title", title, Some(TitleMaxLength));
    var l := CleanCharField("location", location, Some(LocationMaxLength));
    var i := CleanChoice("issue_type", FacilitiesIssueChoices, issueType);
    var d := CleanCharField("description", description, None);
    var u := CleanChoice("urgency", UrgencyChoices, urgency);
    if t.Err? then Err(t.error) else if l.Err? then Err(l.error) else if i.Err? then Err(i.error)
    else if d.Err? then Err(d.error) else if u.Err? then Err(u.error)
    else Ok(FacilitiesData(t.value, attachment, l.value, i.value, d.value, photo, u.value))
  }

  /** `FacilitiesForm.save(commit=False)`: location, issue type, urgency and their labels. */
  method FacilitiesSave(instance: Ticket, data: FacilitiesData) returns (t: Ticket)
    requires IsChoice(FacilitiesIssueChoices, data.issueType) && IsChoice(UrgencyChoices, data.urgency)
    ensures t.metadata.Keys == {"location", "issue_type", "issue_type_display", "urgency", "urgency_display"}
    ensures t.metadata["location"] == data.location && t.metadata["issue_type"] == data.issueType
    ensures t.metadata["urgency"] == data.urgency && t.metadata["urgency"] in {"low", "medium", "high"}
    ensures (data.issueType, t.metadata["issue_type_display"]) in FacilitiesIssueChoices
    ensures (data.urgency, t.metadata["urgency_display"]) in UrgencyChoices
    ensures t.description == data.description && t.title == data.title
    ensures data.photo.Some? ==> t.attachment == data.photo
    ensures data.photo.None? ==> t.attachment == (if data.attachment.Some? then data.attachment else instance.attachment)
    ensures t == instance.(title := data.title, attachment := t.attachment, description := data.description, metadata := t.metadata)
  {
    UrgencyCodes(data.urgency);
    t := instance.(title := data.title);
    if data.attachment.Some? {
      t := t.(attachment := data.attachment);
    }
    t := t.(metadata := map["location" := data.location,
                            "issue_type" := data.issueType,
                            "issue_type_display" := Label(FacilitiesIssueChoices, data.issueType),
                            "urgency" := data.urgency,
                            "urgency_display" := Label(UrgencyChoices, data.urgency)]);
    t := t.(description := data.description);
    if data.photo.Some? {
      t := t.(attachment := data.photo);
    }
  }

  // ---- commit -----------------------------------------------------------------------

  /**
   * The end of every `save(commit)`: with `commit` false the ticket is returned and
   * nothing is written; with `commit` true it is saved once (hook included).
   */
  method Commit(db: Database, ticket: Ticket, commit: bool, now: Time) returns (t: Ticket)
    requires db.Valid()
    requires commit ==> ticket.createdBy in UserIds(db.users)
    requires commit && ticket.assignedTo.Some? ==> ticket.assignedTo.value in UserIds(db.users)
    modifies db`tickets, db`notifications, db`nextTicketId
    ensures db.Valid()
    ensures !commit ==> t == ticket && unchanged(db)
    ensures commit ==>
      t == SavedInstance(old(db.tickets), old(db.users), old(db.nextTicketId), ticket, now) &&
      db.tickets == WriteRow(old(db.tickets), t) &&
      db.notifications == old(db.notifications) + NoticeRows(old(db.tickets), old(db.users), ticket, t, now)
  {
    if commit {
      t := db.SaveTicket(ticket, now);
    } else {
      t := ticket;
    }
  }
}
