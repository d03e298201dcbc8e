/**
 The issuance transaction (certificates/services.py, certificates/numbering.py,
 billing/entitlements.py lines 42-63, billing/usage.py, certificates/models.py lines 214-244).

 `Database` is the set of tables an issuance touches. `Admit` is what the transaction decides
 from its first reads, `Commit` everything after that; a transaction that fails leaves the
 database as it was. `Issue` is the two in one go. `Store` holds the tables as fields and runs
 the transaction statement by statement.
 */
module Issuance {
  import opened Basics
  import opened Text
  import opened Numbering
  import opened Calendar
  import opened IsoDates

  datatype Organization = Organization(name: string, numberPrefix: string, issuanceEnabled: bool, suspended: bool)

  datatype Template = Template(name: string, currentVersion: Option<nat>)

  /** A saved canvas; the text stands for the stored JSON document. */
  datatype TemplateVersion = TemplateVersion(template: nat, version: nat, canvas: string)

  datatype Recipient = Recipient(org: nat, email: string, fullName: string)

  datatype CertificateStatus = Draft | Issued | Expired | Revoked | Void

  /** `canonical_payload`. */
  datatype Payload = Payload(
    certificateId: nat, recipient: string, course: string, issuer: string,
    issueDate: Date, expiryDate: Option<Date>, number: string)

  /** SHA-256 of the canonical JSON, taken as free of collisions. */
  datatype Digest = Sha256(payload: Payload)

  datatype Certificate = Certificate(
    org: nat, number: string, status: CertificateStatus, template: nat, templateVersion: nat,
    recipient: nat, title: string, courseName: string, issuerName: string,
    issueDate: CalendarDate, expiryDate: Option<Date>, issuedOn: CalendarDate,
    batch: Option<nat>, idempotencyKey: string, integrityHash: Digest,
    revokedAt: Option<int>, revokeReason: string)

  datatype EventKind = IssuedEvent | RevokedEvent

  datatype Event = Event(certificate: nat, kind: EventKind)

  datatype Period = Period(year: int, month: int)

  datatype Database = Database(
    orgs: map<nat, Organization>,
    templates: map<nat, Template>,
    versions: seq<TemplateVersion>,
    recipients: seq<Recipient>,
    certificates: seq<Certificate>,
    sequences: map<(nat, int), nat>,
    usage: map<(nat, Period), nat>,
    events: seq<Event>)

  /** A date field of the request: nothing, a date, or text still to be parsed. */
  datatype DateInput = NoDate | Given(date: CalendarDate) | Raw(text: string)

  datatype Request = Request(
    org: nat, fullName: string, email: string,
    title: string, courseName: string, issuerName: string,
    issueDate: DateInput, expiryMode: string, expiryValue: Option<int>, expiryDate: DateInput,
    template: nat, typeName: string, batch: Option<nat>, idempotencyKey: string)

  datatype IssueError =
    | UnknownRow | IssuanceDisabled | OrganizationSuspended | QuotaExhausted | NameMissing
    | NoActiveVersion | BadDate | DateOverflow | NumberTaken | KeyTaken | DraftNotRevocable

  function PeriodOf(today: CalendarDate): Period {
    Period(today.year, today.month)
  }

  function Count<K>(m: map<K, nat>, k: K): nat {
    if k in m then m[k] else 0
  }

  // ---------------------------------------------------------------- checks

  /** The first row for the organization's key, if there is one. */
  function FindKey(certificates: seq<Certificate>, org: nat, key: string): (r: Option<nat>)
    ensures r.Some? ==> r.value < |certificates| && certificates[r.value].org == org
                        && certificates[r.value].idempotencyKey == key
    ensures r.Some? ==> forall i | 0 <= i < r.value :: !(certificates[i].org == org && certificates[i].idempotencyKey == key)
    ensures r.None? ==>
              forall i | 0 <= i < |certificates| :: !(certificates[i].org == org && certificates[i].idempotencyKey == key)
  {
    if certificates == [] then None
    else
      var last := |certificates| - 1;
      var earlier := FindKey(certificates[..last], org, key);
      if earlier.Some? then earlier
      else if certificates[last].org == org && certificates[last].idempotencyKey == key then Some(last)
      else None
  }

  /** A limit of zero or less means no quota. */
  predicate WithinQuota(db: Database, org: nat, limit: int, today: CalendarDate) {
    limit <= 0 || Count(db.usage, (org, PeriodOf(today))) < limit
  }

  /** The organization and template version objects a running transaction works with. */
  datatype Ticket = Ticket(request: Request, organization: Organization, template: Template)

  datatype Admission = Refused(error: IssueError) | Replayed(certificate: nat) | Admitted(ticket: Ticket)

  function Admit(db: Database, request: Request, limit: int, today: CalendarDate): Admission {
    if request.org !in db.orgs || request.template !in db.templates then Refused(UnknownRow)
    else
      var organization := db.orgs[request.org];
      if !organization.issuanceEnabled then Refused(IssuanceDisabled)
      else if organization.suspended then Refused(OrganizationSuspended)
      else
        var existing :=
          if request.idempotencyKey == "" then None
          else FindKey(db.certificates, request.org, request.idempotencyKey);
        if existing.Some? then Replayed(existing.value)
        else if !WithinQuota(db, request.org, limit, today) then Refused(QuotaExhausted)
        else Admitted(Ticket(request, organization, db.templates[request.template]))
  }

  // --------------------------------------------------------------- writing

  function FindRecipient(recipients: seq<Recipient>, org: nat, email: string): (r: Option<nat>)
    ensures r.Some? ==> r.value < |recipients| && recipients[r.value].org == org && recipients[r.value].email == email
    ensures r.None? ==> forall i | 0 <= i < |recipients| :: !(recipients[i].org == org && recipients[i].email == email)
  {
    if recipients == [] then None
    else
      var last := |recipients| - 1;
      var earlier := FindRecipient(recipients[..last], org, email);
      if earlier.Some? then earlier
      else if recipients[last].org == org && recipients[last].email == email then Some(last)
      else None
  }

  /** Index of the recipient row and the rows after it is created or renamed. */
  function UpsertRecipient(recipients: seq<Recipient>, org: nat, email: string, fullName: string)
    : (r: (nat, seq<Recipient>))
    ensures r.0 < |r.1| && |recipients| <= |r.1|
    ensures r.1[r.0] == Recipient(org, email, fullName)
    ensures forall i | 0 <= i < |recipients| && i != r.0 :: r.1[i] == recipients[i]
    ensures r.0 < |recipients| ==> recipients[r.0].org == org && recipients[r.0].email == email != ""
  {
    var found := if email == "" then None else FindRecipient(recipients, org, email);
    match found
    case Some(i) => (i, recipients[i := recipients[i].(fullName := fullName)])
    case None => (|recipients|, recipients + [Recipient(org, email, fullName)])
  }

  function ResolveDate(input: DateInput): Result<Option<CalendarDate>, IssueError> {
    match input
    case NoDate => Ok(None)
    case Given(d) => Ok(Some(d))
    case Raw(text) =>
      if text == "" then Ok(None)
      else match FromIsoFormat(text)
           case Some(d) => Ok(Some(d))
           case None => Err(BadDate)
  }

  datatype Validity = Validity(issueDate: CalendarDate, expiryDate: Option<Date>)

  function ResolveValidity(request: Request, today: CalendarDate): Result<Validity, IssueError>
  {
    match ResolveDate(request.issueDate)
    case Err(e) => Err(e)
    case Ok(chosen) =>
      var issueDate := if chosen.Some? then chosen.value else today;
      match ResolveDate(request.expiryDate)
      case Err(e) => Err(e)
      case Ok(supplied) =>
        var mode := if request.expiryMode == "" then "none" else request.expiryMode;
        if mode == "date" then
          // An empty text is neither parsed nor dropped; the date column refuses it.
          if request.expiryDate == Raw("") then Err(BadDate) else Ok(Validity(issueDate, supplied))
        else match ComputeExpiryDate(Some(issueDate), mode, request.expiryValue)
             case Ok(expiry) => Ok(Validity(issueDate, expiry))
             case Err(_) => Err(DateOverflow)
  }

  predicate NumberUsed(certificates: seq<Certificate>, org: nat, number: string) {
    exists i | 0 <= i < |certificates| :: certificates[i].org == org && certificates[i].number == number
  }

  function CanonicalPayload(db: Database, id: nat): Payload
    requires id < |db.certificates| && db.certificates[id].recipient < |db.recipients|
  {
    var c := db.certificates[id];
    Payload(id, db.recipients[c.recipient].fullName, c.courseName,
            if c.issuerName != "" then c.issuerName else if c.org in db.orgs then db.orgs[c.org].name else "",
            c.issueDate, c.expiryDate, c.number)
  }

  function NewCertificate(
      id: nat, ticket: Ticket, recipient: nat, version: nat, validity: Validity, number: string, today: CalendarDate): Certificate
  {
    var q := ticket.request;
    var issuer := if q.issuerName != "" then q.issuerName else ticket.organization.name;
    var payload := Payload(id, Strip(q.fullName), q.courseName, issuer, validity.issueDate, validity.expiryDate, number);
    Certificate(
      q.org, number, Issued, q.template, version, recipient,
      if q.title != "" then q.title else if q.typeName != "" then q.typeName else ticket.template.name,
      q.courseName, issuer, validity.issueDate, validity.expiryDate, today,
      q.batch, q.idempotencyKey, Sha256(payload), None, "")
  }

  /** Everything after the admission, as one database transaction. */
  function Commit(db: Database, ticket: Ticket, today: CalendarDate): Result<Database, IssueError>
  {
    var q := ticket.request;
    var fullName := Strip(q.fullName);
    if fullName == "" then Err(NameMissing)
    else
      var (recipient, recipients) := UpsertRecipient(db.recipients, q.org, Lower(Strip(q.email)), fullName);
      if ticket.template.currentVersion.None? then Err(NoActiveVersion)
      else match ResolveValidity(q, today)
           case Err(e) => Err(e)
           case Ok(validity) =>
             var slot := (q.org, validity.issueDate.year);
             var value := Count(db.sequences, slot) + 1;
             var number := NumberText(EffectivePrefix(ticket.organization.numberPrefix), validity.issueDate.year, value);
             if NumberUsed(db.certificates, q.org, number) then Err(NumberTaken)
             else if q.idempotencyKey != "" && FindKey(db.certificates, q.org, q.idempotencyKey).Some? then Err(KeyTaken)
             else
               var id := |db.certificates|;
               var used := (q.org, PeriodOf(today));
               Ok(db.(
                 recipients := recipients,
                 sequences := db.sequences[slot := value],
                 certificates := db.certificates
                   + [NewCertificate(id, ticket, recipient, ticket.template.currentVersion.value, validity, number, today)],
                 events := db.events + [Event(id, IssuedEvent)],
                 usage := db.usage[used := Count(db.usage, used) + 1]))
  }

  datatype Issuing = Issuing(db: Database, outcome: Result<nat, IssueError>)

  /** One issuance that nothing interrupts. */
  function Issue(db: Database, request: Request, limit: int, today: CalendarDate): Issuing
  {
    match Admit(db, request, limit, today)
    case Refused(e) => Issuing(db, Err(e))
    case Replayed(id) => Issuing(db, Ok(id))
    case Admitted(ticket) =>
      match Commit(db, ticket, today)
      case Ok(after) => Issuing(after, Ok(|db.certificates|))
      case Err(e) => Issuing(db, Err(e))
  }

  // ------------------------------------------------------- later operations

  /** `revoke_certificate` with the status its caller's copy of the certificate shows. */
  function RevokeSeeing(db: Database, id: nat, seen: CertificateStatus, reason: string, now: int)
    : Result<Database, IssueError>
  {
    if id >= |db.certificates| then Err(UnknownRow)
    else if seen == Revoked then Ok(db)
    else if seen == Draft then Err(DraftNotRevocable)
    else
      var c := db.certificates[id];
      Ok(db.(certificates := db.certificates[id := c.(status := Revoked, revokedAt := Some(now), revokeReason := reason)],
             events := db.events + [Event(id, RevokedEvent)]))
  }

  /** Revocation through a freshly read row. */
  function Revoke(db: Database, id: nat, reason: string, now: int): Result<Database, IssueError> {
    RevokeSeeing(db, id, if id < |db.certificates| then db.certificates[id].status else Draft, reason, now)
  }

  /**
   Revoking a revoked certificate changes nothing exactly when the caller's copy already shows
   it revoked: a stale copy replaces reason and time and records a second event.
   */
  lemma RepeatedRevocation(db: Database, id: nat, seen: CertificateStatus, reason: string, now: int)
    requires id < |db.certificates| && db.certificates[id].status == Revoked && seen != Draft
    ensures RevokeSeeing(db, id, seen, reason, now) == Ok(db) <==> seen == Revoked
    ensures seen != Revoked ==>
              RevokeSeeing(db, id, seen, reason, now).value.certificates[id].revokeReason == reason
              && |RevokeSeeing(db, id, seen, reason, now).value.events| == |db.events| + 1
  {
    if seen != Revoked {
      assert |RevokeSeeing(db, id, seen, reason, now).value.events| == |db.events| + 1;
    }
  }

  function LastVersion(versions: seq<TemplateVersion>, template: nat): (n: nat)
    ensures forall i | 0 <= i < |versions| && versions[i].template == template :: versions[i].version <= n
  {
    if versions == [] then 0
    else
      var last := versions[|versions| - 1];
      var n := LastVersion(versions[..|versions| - 1], template);
      if last.template == template && last.version > n then last.version else n
  }

  /** `save_version`: a new version row, and the template points at it. */
  function SaveVersion(db: Database, template: nat, canvas: string): Database {
    if template !in db.templates then db
    else
      var id := |db.versions|;
      db.(versions := db.versions + [TemplateVersion(template, LastVersion(db.versions, template) + 1, canvas)],
          templates := db.templates[template := db.templates[template].(currentVersion := Some(id))])
  }

  datatype PublicStatus = Active | PublicExpired | PublicRevoked | PublicVoid | PublicDraft

  function PublicStatusOf(c: Certificate, today: CalendarDate): PublicStatus {
    if c.status == Revoked then PublicRevoked
    else if c.status == Void then PublicVoid
    else if c.status == Draft then PublicDraft
    else if c.expiryDate.Some? && Before(c.expiryDate.value, today) then PublicExpired
    else if c.status == Issued then Active
    else PublicExpired
  }

  // ---------------------------------------------------------------- store

  class Store {
    var orgs: map<nat, Organization>
    var templates: map<nat, Template>
    var versions: seq<TemplateVersion>
    var recipients: seq<Recipient>
    var certificates: seq<Certificate>
    var sequences: map<(nat, int), nat>
    var usage: map<(nat, Period), nat>
    var events: seq<Event>

    constructor (db: Database)
      ensures Tables() == db
    {
      orgs, templates, versions, recipients := db.orgs, db.templates, db.versions, db.recipients;
      certificates, sequences, usage, events := db.certificates, db.sequences, db.usage, db.events;
    }

    function Tables(): Database
      reads this
    {
      Database(orgs, templates, versions, recipients, certificates, sequences, usage, events)
    }

    /** Rolls the tables back to a savepoint. */
    method Restore(db: Database)
      modifies this
      ensures Tables() == db
    {
      orgs, templates, versions, recipients := db.orgs, db.templates, db.versions, db.recipients;
      certificates, sequences, usage, events := db.certificates, db.sequences, db.usage, db.events;
    }

    method NextCertificateNumber(org: nat, prefix: string, issuedOn: CalendarDate) returns (number: string)
      modifies this`sequences
      ensures sequences == old(sequences)[(org, issuedOn.year) := Count(old(sequences), (org, issuedOn.year)) + 1]
      ensures number == NumberText(EffectivePrefix(prefix), issuedOn.year, Count(sequences, (org, issuedOn.year)))
    {
      var slot := (org, issuedOn.year);
      if slot !in sequences {
        sequences := sequences[slot := 0];
      }
      sequences := sequences[slot := sequences[slot] + 1];
      number := NumberText(EffectivePrefix(prefix), issuedOn.year, sequences[slot]);
    }

    method IncrementUsage(org: nat, today: CalendarDate)
      modifies this`usage
      ensures usage == old(usage)[(org, PeriodOf(today)) := Count(old(usage), (org, PeriodOf(today))) + 1]
    {
      var row := (org, PeriodOf(today));
      if row !in usage {
        usage := usage[row := 1];
      } else {
        usage := usage[row := usage[row] + 1];
      }
    }

    /** Finds the recipient by email and renames it, or creates a new one. */
    method SaveRecipient(org: nat, email: string, fullName: string) returns (recipient: nat)
      modifies this`recipients
      ensures (recipient, recipients) == UpsertRecipient(old(recipients), org, email, fullName)
    {
      var found := None;
      if email != "" {
        found := FindRecipient(recipients, org, email);
      }
      match found
      case None =>
        recipient := |recipients|;
        recipients := recipients + [Recipient(org, email, fullName)];
      case Some(i) =>
        recipient := i;
        recipients := recipients[i := recipients[i].(fullName := fullName)];
    }

    /** Flags, idempotent replay and quota: the reads that come first. */
    method CheckAdmission(request: Request, limit: int, today: CalendarDate) returns (r: Admission)
      ensures r == Admit(Tables(), request, limit, today)
    {
      if request.org !in orgs || request.template !in templates {
        return Refused(UnknownRow);
      }
      var organization := orgs[request.org];
      if !organization.issuanceEnabled {
        return Refused(IssuanceDisabled);
      }
      if organization.suspended {
        return Refused(OrganizationSuspended);
      }
      if request.idempotencyKey != "" {
        var existing := FindKey(certificates, request.org, request.idempotencyKey);
        if existing.Some? {
          return Replayed(existing.value);
        }
      }
      if limit > 0 {
        var used := Count(usage, (request.org, PeriodOf(today)));
        if used >= limit {
          return Refused(QuotaExhausted);
        }
      }
      return Admitted(Ticket(request, organization, templates[request.template]));
    }

    /** Recipient, version, dates, number, certificate, event, usage; an error leaves the tables half written. */
    method WriteCertificate(ticket: Ticket, today: CalendarDate) returns (r: Result<nat, IssueError>)
      modifies this
      ensures match Commit(old(Tables()), ticket, today)
              case Ok(db) => Tables() == db && r == Ok(|old(certificates)|)
              case Err(e) => r == Err(e)
    {
      hide NumberText, EffectivePrefix, NewCertificate, UpsertRecipient, ResolveValidity, NumberUsed, FindKey, Strip, Lower;
      var request := ticket.request;
      var email := Lower(Strip(request.email));
      var fullName := Strip(request.fullName);
      if fullName == "" {
        return Err(NameMissing);
      }
      var recipient := SaveRecipient(request.org, email, fullName);
      if ticket.template.currentVersion.None? {
        return Err(NoActiveVersion);
      }
      var validity := ResolveValidity(request, today);
      if validity.Err? {
        return Err(validity.error);
      }
      var number := NextCertificateNumber(request.org, ticket.organization.numberPrefix, validity.value.issueDate);
      if NumberUsed(certificates, request.org, number) {
        return Err(NumberTaken);
      }
      if request.idempotencyKey != "" && FindKey(certificates, request.org, request.idempotencyKey).Some? {
        return Err(KeyTaken);
      }
      var id := |certificates|;
      certificates := certificates
        + [NewCertificate(id, ticket, recipient, ticket.template.currentVersion.value, validity.value, number, today)];
      events := events + [Event(id, IssuedEvent)];
      IncrementUsage(request.org, today);
      return Ok(id);
    }

    /** The atomic transaction: on an error everything written is rolled back. */
    method IssueCertificate(request: Request, limit: int, today: CalendarDate) returns (r: Result<nat, IssueError>)
      modifies this
      ensures Issuing(Tables(), r) == Issue(old(Tables()), request, limit, today)
      ensures r.Err? ==> Tables() == old(Tables())
    {
      var admission := CheckAdmission(request, limit, today);
      match admission
      case Refused(e) => r := Err(e);
      case Replayed(id) => r := Ok(id);
      case Admitted(ticket) =>
        var savepoint := Tables();
        r := WriteCertificate(ticket, today);
        if r.Err? {
          Restore(savepoint);
        }
    }

    method RevokeCertificate(id: nat, reason: string, now: int) returns (r: Result<nat, IssueError>)
      modifies this
      ensures r.Ok? <==> Revoke(old(Tables()), id, reason, now).Ok?
      ensures Tables() == match Revoke(old(Tables()), id, reason, now) case Ok(db) => db case Err(_) => old(Tables())
    {
      if id >= |certificates| {
        return Err(UnknownRow);
      }
      if certificates[id].status == Revoked {
        return Ok(id);
      }
      if certificates[id].status == Draft {
        return Err(DraftNotRevocable);
      }
      var c := certificates[id];
      c := c.(status := Revoked);
      c := c.(revokedAt := Some(now));
      c := c.(revokeReason := reason);
      certificates := certificates[id := c];
      events := events + [Event(id, RevokedEvent)];
      return Ok(id);
    }

    method SaveTemplateVersion(template: nat, canvas: string)
      modifies this
      ensures Tables() == SaveVersion(old(Tables()), template, canvas)
    {
      if template !in templates {
        return;
      }
      var number := LastVersion(versions, template) + 1;
      versions := versions + [TemplateVersion(template, number, canvas)];
      templates := templates[template := templates[template].(currentVersion := Some(|versions| - 1))];
    }
  }
}
