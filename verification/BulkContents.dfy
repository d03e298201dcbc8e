/** What a batch writes for each row: the verdict of the validator, the certificate and its fields, the email. */
module BulkContents {
  import opened Basics
  import opened Text
  import opened Calendar
  import opened IsoDates
  import opened Issuance
  import opened IssuanceRuns
  import opened IssuanceGuarantees
  import opened IssuanceContents
  import opened BulkIssuance
  import opened BulkGuarantees

  // -------------------------------------------------------------- validation

  /** The text, with slashes for dashes and cut after ten characters, spells the date. */
  predicate Spells(text: string, d: Date) {
    Valid(d) && (Normalized(text) == Joined(d, "-") || Normalized(text) == Joined(d, ""))
  }

  function ProblemRank(e: ItemError): int {
    if e == Problem(NameRequired) then 0 else if e == Problem(EmailInvalid) then 1 else 2
  }

  /** A row is told exactly what is wrong with it: a missing name, an email without @, a date that is none. */
  lemma RowErrorsDecided(mapped: map<string, string>)
    ensures Problem(NameRequired) in RowErrors(mapped) <==>
            Get(mapped, "recipient_name") == "" && Get(mapped, "name") == ""
    ensures Problem(EmailInvalid) in RowErrors(mapped) <==>
            Get(mapped, "email") != "" && '@' !in Get(mapped, "email")
    ensures Problem(DateInvalid) in RowErrors(mapped) <==>
            Get(mapped, "issue_date") != "" && forall d :: !Spells(Get(mapped, "issue_date"), d)
    ensures forall e | e in RowErrors(mapped) :: e in {Problem(NameRequired), Problem(EmailInvalid), Problem(DateInvalid)}
    ensures forall i, j | 0 <= i < j < |RowErrors(mapped)| ::
              ProblemRank(RowErrors(mapped)[i]) < ProblemRank(RowErrors(mapped)[j])
  {
    DateLooksWrongIff(mapped);
    hide DateLooksWrong, Spells;
    var errors := RowErrors(mapped);
    var a := if NameOf(mapped) == "" then [Problem(NameRequired)] else [];
    var b := if EmailLooksWrong(mapped) then [Problem(EmailInvalid)] else [];
    var c := if DateLooksWrong(mapped) then [Problem(DateInvalid)] else [];
    assert errors == a + b + c;
    assert forall e :: e in errors <==> e in a || e in b || e in c;
  }

  lemma DateLooksWrongIff(mapped: map<string, string>)
    ensures DateLooksWrong(mapped) <==>
            Get(mapped, "issue_date") != "" && forall d :: !Spells(Get(mapped, "issue_date"), d)
  {
    var text := Get(mapped, "issue_date");
    var read := FromIsoFormat(Normalized(text));
    hide FromIsoFormat, Normalized, Joined, Get;
    if read.Some? {
      ReadsExactly(Normalized(text), read.value);
      assert Spells(text, read.value);
    } else {
      forall d ensures !Spells(text, d) {
        if Valid(d) {
          ReadsExactly(Normalized(text), d);
        }
      }
    }
  }

  /** Reports follow the order of the rows. */
  lemma {:induction false} ReportConcat(a: seq<Item>, b: seq<Item>, good: ItemStatus)
    ensures Report(a + b, good) == Report(a, good) + Report(b, good)
  {
    if b == [] {
      assert a + b == a;
    } else {
      var n := |b| - 1;
      assert (a + b)[..|a + b| - 1] == a + b[..n];
      ReportConcat(a, b[..n], good);
    }
  }

  // ------------------------------------------------------------ certificates

  /** The certificate says what the row's mapped columns say. */
  predicate MadeFrom(spec: BatchSpec, db: Database, today: CalendarDate, mapped: map<string, string>, c: Certificate)
    requires spec.org in db.orgs && spec.template in db.templates
  {
    && c.org == spec.org && c.template == spec.template && c.batch == Some(spec.id) && c.idempotencyKey == ""
    && FirstOf([Get(mapped, "title"), spec.typeName, db.templates[spec.template].name], c.title)
    && FirstOf([Get(mapped, "issuer_name"), db.orgs[spec.org].name], c.issuerName)
    && c.courseName == Get(mapped, "course_name")
    && (if Get(mapped, "issue_date") == "" then c.issueDate == today else Spelled(Get(mapped, "issue_date"), c.issueDate))
    && c.expiryDate == None
  }

  predicate Spelled(text: string, d: Date) {
    Valid(d) && (text == Joined(d, "-") || text == Joined(d, ""))
  }

  /** Its recipient has the row's name, as hashed, and the row's email. */
  ghost predicate MadeFor(db: Database, mapped: map<string, string>, c: Certificate) {
    && (exists name :: FirstOf([Get(mapped, "recipient_name"), Get(mapped, "name")], name) && NameAtIssue(c) == Strip(name))
    && c.recipient < |db.recipients|
    && db.recipients[c.recipient].email == Lower(Strip(Get(mapped, "email")))
  }

  predicate GotCertificate(item: Item) {
    item.status == ItemIssued || Raised(item)
  }

  /** What row `i` of the run ends with. */
  ghost predicate RowTruth(spec: BatchSpec, setting: Setting, db: Database, row: Item, i: nat, item: Item) {
    var mapped := Mapped(row.payload, spec.mapping);
    && item.rowNumber == row.rowNumber && item.payload == row.payload
    && (GotCertificate(item) ==>
          && item.certificate.Some? && item.certificate.value < |db.certificates|
          && spec.org in db.orgs && spec.template in db.templates
          && MadeFrom(spec, db, setting.today, mapped, db.certificates[item.certificate.value])
          && MadeFor(db, mapped, db.certificates[item.certificate.value])
          && (Raised(item) <==> spec.sendEmail && setting.enqueueFails(i) && !AllSpace(Get(mapped, "email"))))
    && Verdict(RowErrors(mapped), row, item)
  }

  /** An invalid row keeps its problems, a failed one the reason, and an issued one has none left. */
  predicate Verdict(problems: seq<ItemError>, row: Item, item: Item) {
    && (item.status == ItemInvalid <==> problems != [])
    && (problems != [] ==> item.errors == problems)
    && (item.status == ItemIssued ==> item.errors == [])
    && (item.status in {ItemIssued, ItemFailed, ItemInvalid})
    && (!GotCertificate(item) ==>
          item.certificate == row.certificate
          && (problems == [] ==> item.status == ItemFailed && |item.errors| == 1 && item.errors[0].IssueFailed?))
  }

  /** The request a row makes, column by column. */
  lemma RowAsks(spec: BatchSpec, mapped: map<string, string>)
    ensures var q := RowRequest(spec, mapped);
            && FirstOf([Get(mapped, "recipient_name"), Get(mapped, "name")], q.fullName)
            && q.email == Get(mapped, "email") && q.title == Get(mapped, "title")
            && q.courseName == Get(mapped, "course_name") && q.issuerName == Get(mapped, "issuer_name")
            && q.issueDate == (if Get(mapped, "issue_date") == "" then NoDate else Raw(Get(mapped, "issue_date")))
            && q.expiryMode !in {"date", "days", "months", "years"}
            && q.org == spec.org && q.template == spec.template && q.typeName == spec.typeName
            && q.batch == Some(spec.id) && q.idempotencyKey == ""
  {
    FirstOfTwo(Get(mapped, "recipient_name"), Get(mapped, "name"));
  }

  lemma LandedRow(spec: BatchSpec, today: CalendarDate, d: Database, mapped: map<string, string>, e: Database)
    requires spec.org in d.orgs && spec.template in d.templates
    requires Landed(d, Ticket(RowRequest(spec, mapped), d.orgs[spec.org], d.templates[spec.template]), today, e)
    ensures e.orgs == d.orgs && e.templates == d.templates
    ensures e.certificates == d.certificates + [Newest(e)]
    ensures MadeFrom(spec, e, today, mapped, Newest(e)) && MadeFor(e, mapped, Newest(e))
    ensures RecipientWritten(d, RowRequest(spec, mapped), e)
  {
    var q := RowRequest(spec, mapped);
    var ticket := Ticket(q, d.orgs[spec.org], d.templates[spec.template]);
    RowAsks(spec, mapped);
    LandedShape(d, ticket, today, e);
    LandedRecipient(d, ticket, today, e);
    IssuedFields(d, ticket, today, e);
    IssuedDates(d, ticket, today, e);
    IssuedRecipient(d, ticket, today, e);
    hide Landed, RowRequest, FirstOf, Strip, Lower, Joined, Mapped;
    assert NameAtIssue(Newest(e)) == Strip(q.fullName);
  }

  lemma EmailBlankIff(email: string)
    ensures Lower(Strip(email)) == "" <==> AllSpace(email)
  {
    BlankIff(email);
    LowerLength(Strip(email));
  }

  /** What was true of an earlier row stays true when another certificate lands. */
  lemma TruthStays(spec: BatchSpec, setting: Setting, d: Database, e: Database, q: Request, row: Item, i: nat, item: Item)
    requires RowTruth(spec, setting, d, row, i, item)
    requires e.orgs == d.orgs && e.templates == d.templates
    requires e.certificates != [] && e.certificates == d.certificates + [Newest(e)] && RecipientWritten(d, q, e)
    ensures RowTruth(spec, setting, e, row, i, item)
  {
    hide Mapped, FirstOf, Strip, Lower, AllSpace, Raised, Spelled, Verdict;
    if GotCertificate(item) {
      assert e.certificates[item.certificate.value] == d.certificates[item.certificate.value];
    }
  }

  /** One turn of the loop as it bears on its own item. */
  lemma RowItem(spec: BatchSpec, setting: Setting, p: Progress, row: Item)
    ensures var q := ProcessRow(spec, setting, p, row);
            && q.items != [] && q.items == p.items + [LastItem(q)]
            && LastItem(q).rowNumber == row.rowNumber && LastItem(q).payload == row.payload
            && Verdict(RowErrors(Mapped(row.payload, spec.mapping)), row, LastItem(q))
            && (!GotCertificate(LastItem(q)) ==> q.db == p.db)
            && (GotCertificate(LastItem(q)) ==>
                  RowIssued(spec, setting.today, p, q, row, LastItem(q))
                  && (Raised(LastItem(q)) <==> EnqueueRaises(spec, setting, q.db, |p.db.certificates|, |p.items|)))
  {
    hide Issue, RowErrors, Mapped, EnqueueRaises, Landed, RowRequest;
    var mapped := Mapped(row.payload, spec.mapping);
    NoRaiseAmong(mapped);
    RequestHasNoKey(spec, mapped);
    IssueEffect(p.db, RowRequest(spec, mapped), setting.limit, setting.today);
  }

  lemma RequestHasNoKey(spec: BatchSpec, mapped: map<string, string>)
    ensures RowRequest(spec, mapped).idempotencyKey == "" && RowRequest(spec, mapped).org == spec.org
    ensures RowRequest(spec, mapped).template == spec.template
  {
  }

  /** The new row is told the truth. */
  lemma NewRowTruth(spec: BatchSpec, setting: Setting, p: Progress, row: Item)
    ensures var q := ProcessRow(spec, setting, p, row);
            q.items != [] && RowTruth(spec, setting, q.db, row, |p.items|, LastItem(q))
  {
    hide ProcessRow, Mapped, FirstOf, Strip, Lower, RowRequest, Landed, AllSpace, Raised;
    hide MadeFrom, MadeFor, Verdict;
    var q := ProcessRow(spec, setting, p, row);
    RowItem(spec, setting, p, row);
    if GotCertificate(LastItem(q)) {
      var mapped := Mapped(row.payload, spec.mapping);
      RequestHasNoKey(spec, mapped);
      LandedRow(spec, setting.today, p.db, mapped, q.db);
      NewRowEmail(spec, p.db, mapped, q.db);
    }
  }

  lemma NewRowEmail(spec: BatchSpec, d: Database, mapped: map<string, string>, e: Database)
    requires RecipientWritten(d, RowRequest(spec, mapped), e)
    ensures e.recipients[Newest(e).recipient].email != "" <==> !AllSpace(Get(mapped, "email"))
  {
    RowAsks(spec, mapped);
    EmailBlankIff(Get(mapped, "email"));
    hide Strip, Lower, AllSpace, RowRequest, FirstOf;
  }

  ghost predicate AllTruths(spec: BatchSpec, setting: Setting, rows: seq<Item>, p: Progress) {
    && |p.items| == |rows|
    && forall i | 0 <= i < |rows| :: RowTruth(spec, setting, p.db, rows[i], i, p.items[i])
  }

  lemma EarlierTruths(spec: BatchSpec, setting: Setting, rows: seq<Item>, p: Progress, row: Item)
    requires AllTruths(spec, setting, rows, p)
    ensures var q := ProcessRow(spec, setting, p, row);
            |q.items| == |rows| + 1
            && forall i | 0 <= i < |rows| :: q.items[i] == p.items[i] && RowTruth(spec, setting, q.db, rows[i], i, q.items[i])
  {
    hide ProcessRow, RowTruth, Landed, Mapped, RowRequest, Raised, RecipientWritten, MadeFrom, MadeFor;
    var q := ProcessRow(spec, setting, p, row);
    RowItem(spec, setting, p, row);
    if GotCertificate(LastItem(q)) {
      var mapped := Mapped(row.payload, spec.mapping);
      RequestHasNoKey(spec, mapped);
      LandedRow(spec, setting.today, p.db, mapped, q.db);
      forall i | 0 <= i < |rows| ensures RowTruth(spec, setting, q.db, rows[i], i, p.items[i]) {
        TruthStays(spec, setting, p.db, q.db, RowRequest(spec, mapped), rows[i], i, p.items[i]);
      }
    }
  }

  /**
   In every batch run each row keeps its number and payload. A row that was issued points at its own
   certificate, made from that row's columns: title, course, issuer, date, name and email; every other
   row keeps what was wrong with it. A row is told that its email could not be queued exactly when
   emails are sent, it has one and the queue refused.
   */
  lemma {:induction false} RowsGetTheirOwn(spec: BatchSpec, setting: Setting, db: Database, rows: seq<Item>)
    ensures AllTruths(spec, setting, rows, RunRows(spec, setting, db, rows))
  {
    if rows != [] {
      var n := |rows| - 1;
      var p := RunRows(spec, setting, db, rows[..n]);
      RowsGetTheirOwn(spec, setting, db, rows[..n]);
      EarlierTruths(spec, setting, rows[..n], p, rows[n]);
      NewRowTruth(spec, setting, p, rows[n]);
      hide ProcessRow, RowTruth;
      var q := RunRows(spec, setting, db, rows);
      assert q == ProcessRow(spec, setting, p, rows[n]);
      forall i | 0 <= i < |rows| ensures RowTruth(spec, setting, q.db, rows[i], i, q.items[i]) {
        if i < n {
          assert rows[..n][i] == rows[i];
        }
      }
    }
  }

  lemma OwnsBelow(spec: BatchSpec, setting: Setting, rows: seq<Item>, p: Progress, i: nat)
    requires AllTruths(spec, setting, rows, p) && i < |rows| && GotCertificate(p.items[i])
    ensures p.items[i].certificate.Some? && p.items[i].certificate.value < |p.db.certificates|
  {
    hide MadeFrom, MadeFor, Mapped, Raised;
    assert RowTruth(spec, setting, p.db, rows[i], i, p.items[i]);
  }

  /** Two issued rows of a run have different certificates, in row order. */
  lemma {:induction false} RowsDoNotShare(spec: BatchSpec, setting: Setting, db: Database, rows: seq<Item>, i: nat, j: nat)
    requires i < j < |rows|
    ensures var p := RunRows(spec, setting, db, rows);
            && |p.items| == |rows|
            && (GotCertificate(p.items[i]) && GotCertificate(p.items[j]) ==>
                  && p.items[i].certificate.Some? && p.items[j].certificate.Some?
                  && p.items[i].certificate.value < p.items[j].certificate.value)
  {
    hide RunRows, ProcessRow, Landed, Mapped, Raised, MadeFrom, MadeFor, RowTruth, RowRequest, EnqueueRaises;
    var before := RunRows(spec, setting, db, rows[..j]);
    RunLength(spec, setting, db, rows);
    RowStays(spec, setting, db, rows, i);
    RowStays(spec, setting, db, rows, j);
    RowStays(spec, setting, db, rows[..j], i);
    assert rows[..j][..i + 1] == rows[..i + 1];
    NextRow(spec, setting, db, rows, j);
    RowItem(spec, setting, before, rows[j]);
    RowsGetTheirOwn(spec, setting, db, rows[..j]);
    if GotCertificate(before.items[i]) {
      OwnsBelow(spec, setting, rows[..j], before, i);
    }
  }
}
