/**
 What an issuance, a revocation and a saved version write, field by field, in the terms of the
 request: dates, recipient, number, text fields and hash, and exactly when each is refused.
 */
module IssuanceContents {
  import opened Basics
  import opened Text
  import opened Calendar
  import opened IsoDates
  import opened Numbering
  import opened Issuance
  import opened IssuanceRuns
  import opened IssuanceGuarantees

  // ------------------------------------------------------------------ dates

  /** The date a field of the request names: the date itself, or the one its ISO text spells. */
  predicate Names(input: DateInput, d: Date) {
    match input
    case NoDate => false
    case Given(date) => d == date
    case Raw(text) => Valid(d) && (text == Joined(d, "-") || text == Joined(d, ""))
  }

  /** Nothing was sent, or an empty text. */
  predicate Absent(input: DateInput) {
    input == NoDate || input == Raw("")
  }

  lemma ResolvedDate(input: DateInput)
    ensures match ResolveDate(input)
            case Ok(None) => Absent(input)
            case Ok(Some(d)) => !Absent(input) && Names(input, d)
            case Err(e) => e == BadDate && !Absent(input) && forall d :: !Names(input, d)
  {
    hide FromIsoFormat, Joined;
    match input
    case Raw(text) =>
      if text == "" {
      } else if FromIsoFormat(text).Some? {
        ReadsExactly(text, FromIsoFormat(text).value);
      } else {
        forall d ensures !Names(input, d) {
          if Valid(d) {
            ReadsExactly(text, d);
          }
        }
      }
    case _ =>
  }

  predicate Counted(request: Request) {
    request.expiryMode in {"days", "months", "years"} && request.expiryValue.Some? && request.expiryValue.value != 0
  }

  /** The counted expiry: days on the day line, months and years on the month line. */
  predicate CountedFrom(issued: Date, request: Request, expiry: Date)
    requires Counted(request)
  {
    var v := request.expiryValue.value;
    && (request.expiryMode == "days" ==> Ordinal(expiry) == Ordinal(issued) + v)
    && (request.expiryMode == "months" ==> MonthsLater(issued, v, expiry))
    && (request.expiryMode == "years" ==> MonthsLater(issued, 12 * v, expiry))
  }

  /** Adding the period to the issue date leaves years 1 to 9999. */
  predicate CountsTooFar(issued: Date, request: Request)
    requires Counted(request)
  {
    var v := request.expiryValue.value;
    if request.expiryMode == "days" then !(1 <= Ordinal(issued) + v <= 3652059)
    else !(12 <= 12 * issued.year + issued.month - 1 + (if request.expiryMode == "years" then 12 * v else v) <= 12 * 9999 + 11)
  }

  /** The issue date is the one sent, or today. */
  predicate IssueDateIs(request: Request, today: CalendarDate, issued: Date) {
    if Absent(request.issueDate) then issued == today else Names(request.issueDate, issued)
  }

  predicate ExpiryIs(request: Request, issued: Date, expiry: Option<Date>) {
    if request.expiryMode == "date" then
      if request.expiryDate == NoDate then expiry == None else expiry.Some? && Names(request.expiryDate, expiry.value)
    else if Counted(request) then expiry.Some? && Valid(expiry.value) && CountedFrom(issued, request, expiry.value)
    else expiry == None
  }

  /** A date field holds text that is no date. */
  ghost predicate Unreadable(input: DateInput) {
    !Absent(input) && forall d :: !Names(input, d)
  }

  /** Both dates of an issuance, and the only reasons why there are none. */
  lemma ValidityDecided(request: Request, today: CalendarDate)
    ensures match ResolveValidity(request, today)
            case Ok(v) => IssueDateIs(request, today, v.issueDate) && ExpiryIs(request, v.issueDate, v.expiryDate)
            case Err(BadDate) =>
              || Unreadable(request.issueDate) || Unreadable(request.expiryDate)
              || (request.expiryMode == "date" && request.expiryDate == Raw(""))
            case Err(e) =>
              e == DateOverflow && Counted(request)
              && exists issued :: IssueDateIs(request, today, issued) && CountsTooFar(issued, request)
  {
    ResolvedDate(request.issueDate);
    ResolvedDate(request.expiryDate);
    var chosen := ResolveDate(request.issueDate);
    hide ResolveDate, ComputeExpiryDate, Names, Ordinal, MonthsLater, Valid;
    if chosen.Ok? {
      var issued: CalendarDate := if chosen.value.Some? then chosen.value.value else today;
      assert IssueDateIs(request, today, issued);
      var mode := if request.expiryMode == "" then "none" else request.expiryMode;
      CalendarDateIsValid(issued);
      ExpiryDecided(issued, mode, request.expiryValue);
      if ResolveValidity(request, today) == Err(DateOverflow) {
        assert CountsTooFar(issued, request);
      }
    }
  }

  lemma CalendarDateIsValid(d: CalendarDate)
    ensures Valid(d)
  {
  }

  /**
   The certificate of any landed issuance carries the issue date sent, or today; and the expiry its
   mode asks for, counted from that issue date. It has an expiry exactly when a date was supplied in
   mode "date", or a value other than 0 in days, months or years.
   */
  lemma IssuedDates(d: Database, ticket: Ticket, today: CalendarDate, e: Database)
    requires Landed(d, ticket, today, e)
    ensures e.certificates != []
    ensures var c, q := Newest(e), ticket.request;
            && IssueDateIs(q, today, c.issueDate)
            && ExpiryIs(q, c.issueDate, c.expiryDate)
            && (c.expiryDate.Some? <==> (q.expiryMode == "date" && q.expiryDate != NoDate) || Counted(q))
  {
    LandedShape(d, ticket, today, e);
    NewestDates(d, ticket, today, e);
    ValidityDecided(ticket.request, today);
    hide Landed, ResolveValidity, Names, CountedFrom;
  }

  lemma NewestDates(d: Database, ticket: Ticket, today: CalendarDate, e: Database)
    requires Landed(d, ticket, today, e) && e.certificates != []
    ensures ResolveValidity(ticket.request, today) == Ok(Validity(Newest(e).issueDate, Newest(e).expiryDate))
  {
    hide NumberText, EffectivePrefix, NumberUsed, FindKey, UpsertRecipient, ResolveValidity, Strip, Lower;
  }

  // ------------------------------------------------------------- text fields

  /** The first text that is not empty. */
  predicate FirstOf(texts: seq<string>, chosen: string) {
    if texts == [] then chosen == ""
    else if texts[0] != "" then chosen == texts[0]
    else FirstOf(texts[1..], chosen)
  }

  lemma {:induction false} FirstOfTwo(a: string, b: string)
    ensures FirstOf([a, b], if a != "" then a else b)
  {
    assert [a, b][1..] == [b] && [b][1..] == [];
  }

  lemma {:induction false} FirstOfThree(a: string, b: string, c: string)
    ensures FirstOf([a, b, c], if a != "" then a else if b != "" then b else c)
  {
    assert [a, b, c][1..] == [b, c];
    FirstOfTwo(b, c);
  }

  /** The printed fields come from the request, with the certificate type, template and organization as fallbacks. */
  lemma IssuedFields(d: Database, ticket: Ticket, today: CalendarDate, e: Database)
    requires Landed(d, ticket, today, e)
    ensures e.certificates == d.certificates + [Newest(e)]
    ensures var c, q := Newest(e), ticket.request;
            && FirstOf([q.title, q.typeName, ticket.template.name], c.title)
            && FirstOf([q.issuerName, ticket.organization.name], c.issuerName)
            && c.courseName == q.courseName && c.org == q.org && c.template == q.template
            && ticket.template.currentVersion == Some(c.templateVersion)
            && c.batch == q.batch && c.idempotencyKey == q.idempotencyKey && c.issuedOn == today
            && c.status == Issued && c.revokedAt == None && c.revokeReason == ""
  {
    LandedShape(d, ticket, today, e);
    var q := ticket.request;
    FirstOfThree(q.title, q.typeName, ticket.template.name);
    FirstOfTwo(q.issuerName, ticket.organization.name);
    hide NumberText, EffectivePrefix, NumberUsed, FindKey, UpsertRecipient, ResolveValidity, Strip, Lower, FirstOf;
  }

  /** Two emails are one to the recipient table: equal but for spaces around them and the case of letters. */
  predicate SameEmail(a: string, b: string) {
    var s, t := Strip(a), Strip(b);
    |s| == |t| && forall i | 0 <= i < |s| :: SameLetter(s[i], t[i])
  }

  /**
   The recipient is one of the organization with that email, renamed; without an email, or without
   such a recipient, a new one. Nobody else is touched, and no email changes.
   */
  ghost predicate RecipientWritten(d: Database, q: Request, e: Database) {
    e.certificates != [] &&
    var r := Newest(e).recipient;
    && r < |e.recipients| && |d.recipients| <= |e.recipients| <= |d.recipients| + 1
    && e.recipients[r].org == q.org && e.recipients[r].fullName == Strip(q.fullName) != ""
    && e.recipients[r].email == Lower(Strip(q.email))
    && (forall i | 0 <= i < |d.recipients| && i != r :: e.recipients[i] == d.recipients[i])
    && (r < |d.recipients| ==> d.recipients[r].email == e.recipients[r].email && d.recipients[r].org == q.org)
    && (r < |d.recipients| <==>
          Strip(q.email) != "" && exists i | 0 <= i < |d.recipients| ::
            d.recipients[i].org == q.org && d.recipients[i].email == Lower(Strip(q.email)))
  }

  lemma IssuedRecipient(d: Database, ticket: Ticket, today: CalendarDate, e: Database)
    requires Landed(d, ticket, today, e)
    ensures RecipientWritten(d, ticket.request, e)
  {
    LandedShape(d, ticket, today, e);
    LandedRecipient(d, ticket, today, e);
    var q := ticket.request;
    NewestRecipient(d, ticket, today, e);
    LowerLength(Strip(q.email));
    hide Landed, Commit, NumberText, EffectivePrefix, NumberUsed, FindKey, ResolveValidity, Strip, Lower, NewCertificate;
    UpsertDecided(d.recipients, q.org, Lower(Strip(q.email)), Strip(q.fullName));
  }

  lemma LowerLength(s: string)
    ensures |Lower(s)| == |s|
  {
  }

  lemma NewestRecipient(d: Database, ticket: Ticket, today: CalendarDate, e: Database)
    requires Landed(d, ticket, today, e) && e.certificates != []
    ensures var q := ticket.request;
            Strip(q.fullName) != ""
            && (Newest(e).recipient, e.recipients)
            == UpsertRecipient(d.recipients, q.org, Lower(Strip(q.email)), Strip(q.fullName))
  {
    hide NumberText, EffectivePrefix, NumberUsed, FindKey, UpsertRecipient, ResolveValidity, Strip, Lower;
  }

  lemma UpsertDecided(recipients: seq<Recipient>, org: nat, email: string, fullName: string)
    ensures var (r, after) := UpsertRecipient(recipients, org, email, fullName);
            && |recipients| <= |after| <= |recipients| + 1
            && (r < |recipients| <==>
                  email != "" && exists i | 0 <= i < |recipients| ::
                    recipients[i].org == org && recipients[i].email == email)
  {
  }

  /** Writing the email otherwise, in case or with spaces around it, finds the recipient again; another email never does. */
  lemma SameEmailSameRecipient(d: Database, q: Request, e: Database, again: Request, f: Database)
    requires RecipientWritten(d, q, e) && RecipientWritten(e, again, f) && q.org == again.org
    ensures SameEmail(q.email, again.email) && Strip(q.email) != "" ==>
              Newest(f).recipient < |e.recipients|
              && f.recipients[Newest(f).recipient].email == e.recipients[Newest(e).recipient].email
    ensures Newest(f).recipient == Newest(e).recipient ==> SameEmail(q.email, again.email)
  {
    LowerIff(Strip(q.email), Strip(again.email));
    LowerLength(Strip(q.email));
    LowerLength(Strip(again.email));
    hide Strip, Lower, SameLetter;
  }

  /** The number: the trimmed prefix or CERT-, the issue year, a dash and the next value, six digits or more. */
  lemma IssuedNumber(d: Database, ticket: Ticket, today: CalendarDate, e: Database)
    requires Landed(d, ticket, today, e)
    ensures e.certificates != []
    ensures var c, prefix := Newest(e), ticket.organization.numberPrefix;
            var value := Count(d.sequences, (c.org, c.issueDate.year)) + 1;
            && Count(e.sequences, (c.org, c.issueDate.year)) == value
            && c.number == (if AllSpace(prefix) then "CERT-" else Strip(prefix))
                           + Digits(c.issueDate.year) + "-" + ZeroPadded(value, 6)
  {
    LandedShape(d, ticket, today, e);
    PrefixIs(ticket.organization.numberPrefix);
    hide Landed, Digits, ZeroPadded, Strip, EffectivePrefix;
  }

  // ------------------------------------------------------------------- hash

  /**
   The hash commits to what is printed: two certificates, in whatever tables, have the same one
   exactly when recipient name, course, issuer, dates and number all agree, and it is the same
   certificate.
   */
  lemma HashCommits(d: Database, i: nat, e: Database, j: nat)
    requires i < |d.certificates| && d.certificates[i].recipient < |d.recipients|
    requires j < |e.certificates| && e.certificates[j].recipient < |e.recipients|
    requires d.certificates[i].issuerName != "" && e.certificates[j].issuerName != ""
    ensures var a, b := d.certificates[i], e.certificates[j];
            Sha256(CanonicalPayload(d, i)) == Sha256(CanonicalPayload(e, j)) <==>
            && i == j && d.recipients[a.recipient].fullName == e.recipients[b.recipient].fullName
            && a.courseName == b.courseName && a.issuerName == b.issuerName
            && a.issueDate == b.issueDate && a.expiryDate == b.expiryDate && a.number == b.number
  {
  }

  /** Altering a printed field of a certificate of any run breaks its hash. */
  lemma {:induction false} TamperingShows(k: nat, s: State, steps: seq<Step>, t: State, i: nat, altered: Certificate)
    requires Sound(s) && Execute(k, s, steps) == Some(t) && i < |t.db.certificates|
    requires altered.recipient < |t.db.recipients| && altered.issuerName != ""
    requires altered.integrityHash == t.db.certificates[i].integrityHash
    ensures var c, e := t.db.certificates[i], t.db.(certificates := t.db.certificates[i := altered]);
            HashMatches(e, i) <==>
            && t.db.recipients[altered.recipient].fullName == NameAtIssue(c)
            && altered.courseName == c.courseName && altered.issuerName == c.issuerName
            && altered.issueDate == c.issueDate && altered.expiryDate == c.expiryDate && altered.number == c.number
  {
    RunIsSound(k, s, steps, t);
    assert Sealed(t.db, i);
    hide Execute, Sound;
  }

  // -------------------------------------------------------------- admission

  /** The organization may issue at all. */
  predicate Open(db: Database, request: Request) {
    && request.org in db.orgs && request.template in db.templates
    && db.orgs[request.org].issuanceEnabled && !db.orgs[request.org].suspended
  }

  predicate KeyUsed(db: Database, request: Request) {
    request.idempotencyKey != "" && exists i | 0 <= i < |db.certificates| ::
      db.certificates[i].org == request.org && db.certificates[i].idempotencyKey == request.idempotencyKey
  }

  /** Certificates the organization committed this month; a limit of 0 or less is none. */
  predicate QuotaLeft(db: Database, request: Request, limit: int, today: CalendarDate) {
    limit <= 0 || Count(db.usage, (request.org, Period(today.year, today.month))) < limit
  }

  /** The first reads decide in this order: flags, then the key, then the quota. */
  lemma AdmissionDecided(db: Database, request: Request, limit: int, today: CalendarDate)
    ensures var a := Admit(db, request, limit, today);
            && (a.Admitted? <==> Open(db, request) && !KeyUsed(db, request) && QuotaLeft(db, request, limit, today))
            && (a.Replayed? <==> Open(db, request) && KeyUsed(db, request))
            && (a == Refused(QuotaExhausted) <==>
                  Open(db, request) && !KeyUsed(db, request) && !QuotaLeft(db, request, limit, today))
            && (a.Admitted? ==> a.ticket == Ticket(request, db.orgs[request.org], db.templates[request.template]))
            && (a.Replayed? ==> a.certificate < |db.certificates|
                                && db.certificates[a.certificate].org == request.org
                                && db.certificates[a.certificate].idempotencyKey == request.idempotencyKey)
  {
    hide FindKey;
  }

  /** The commit fails for exactly these reasons, the first that applies. */
  lemma CommitRefused(db: Database, ticket: Ticket, today: CalendarDate)
    ensures var r, q, v := Commit(db, ticket, today), ticket.request, ResolveValidity(ticket.request, today);
            && (r == Err(NameMissing) <==> AllSpace(q.fullName))
            && (r == Err(NoActiveVersion) <==> !AllSpace(q.fullName) && ticket.template.currentVersion.None?)
            && (r.Err? && r.error in {BadDate, DateOverflow} <==>
                  !AllSpace(q.fullName) && ticket.template.currentVersion.Some? && v.Err?)
            && (r.Err? ==> r.error in {NameMissing, NoActiveVersion, BadDate, DateOverflow, NumberTaken, KeyTaken})
            && (r == Err(KeyTaken) ==> KeyUsed(db, q))
            && (r.Ok? ==> !KeyUsed(db, q))
  {
    BlankIff(ticket.request.fullName);
    ResolutionErrors(ticket.request, today);
    hide NumberText, EffectivePrefix, UpsertRecipient, ResolveValidity, Strip, Lower, NewCertificate;
  }

  // --------------------------------------------------------------- versions

  /**
   A saved version carries the canvas and the template points at it. Its number is one more than the
   template's greatest, 1 for the first; everything else stays.
   */
  lemma VersionSaved(db: Database, template: nat, canvas: string)
    requires template in db.templates
    ensures var e, n := SaveVersion(db, template, canvas), |db.versions|;
            && |e.versions| == n + 1 && e.versions[..n] == db.versions
            && e.versions[n].template == template && e.versions[n].canvas == canvas
            && (forall i | 0 <= i < n && db.versions[i].template == template ::
                  db.versions[i].version < e.versions[n].version)
            && (e.versions[n].version == 1
                || exists i | 0 <= i < n :: db.versions[i].template == template
                                            && db.versions[i].version + 1 == e.versions[n].version)
            && template in e.templates && e.templates[template].currentVersion == Some(n)
            && e.templates[template].name == db.templates[template].name
            && (forall id | id in db.templates && id != template :: id in e.templates && e.templates[id] == db.templates[id])
            && e == db.(versions := e.versions, templates := e.templates)
  {
    LastVersionIsOne(db.versions, template);
  }

  lemma {:induction false} LastVersionIsOne(versions: seq<TemplateVersion>, template: nat)
    ensures var n := LastVersion(versions, template);
            n == 0 || exists i | 0 <= i < |versions| :: versions[i].template == template && versions[i].version == n
  {
    if versions != [] {
      var last := |versions| - 1;
      LastVersionIsOne(versions[..last], template);
      if LastVersion(versions, template) == LastVersion(versions[..last], template) != 0 {
        var i :| 0 <= i < last && versions[..last][i].template == template
                 && versions[..last][i].version == LastVersion(versions, template);
        assert versions[i].template == template;
      }
    }
  }

  /** What is issued after a save shows the saved canvas. */
  lemma SavedCanvasIsIssued(
      db: Database, canvas: string, request: Request, limit: int, today: CalendarDate)
    requires request.template in db.templates && request.idempotencyKey == ""
    ensures var e := SaveVersion(db, request.template, canvas);
            var r := Issue(e, request, limit, today);
            r.outcome.Ok? ==>
              && r.db.certificates != [] && Newest(r.db).templateVersion < |r.db.versions|
              && CanvasOf(r.db, |r.db.certificates| - 1) == canvas
  {
    var e := SaveVersion(db, request.template, canvas);
    VersionSaved(db, request.template, canvas);
    var r := Issue(e, request, limit, today);
    if r.outcome.Ok? {
      AdmissionDecided(e, request, limit, today);
      var ticket := Ticket(request, e.orgs[request.org], e.templates[request.template]);
      hide Commit, Admit, SaveVersion;
      assert Landed(e, ticket, today, r.db);
      LandedShape(e, ticket, today, r.db);
    }
  }

  // -------------------------------------------------------------- revocation

  /** A draft is not revocable; anything else that is not revoked becomes so, and only that changes. */
  lemma RevocationTakes(db: Database, id: nat, reason: string, now: int)
    requires id < |db.certificates| && db.certificates[id].status != Revoked
    ensures db.certificates[id].status == Draft <==> Revoke(db, id, reason, now).Err?
    ensures db.certificates[id].status != Draft ==>
              var e, c := Revoke(db, id, reason, now).value, db.certificates[id];
              && |e.certificates| == |db.certificates|
              && e.certificates[id].status == Revoked
              && e.certificates[id].revokedAt == Some(now) && e.certificates[id].revokeReason == reason
              && Identity(e.certificates[id]) == Identity(c)
              && (forall i | 0 <= i < |db.certificates| && i != id :: e.certificates[i] == db.certificates[i])
              && EventCount(e.events, Event(id, RevokedEvent)) == EventCount(db.events, Event(id, RevokedEvent)) + 1
              && (forall x | x != Event(id, RevokedEvent) :: EventCount(e.events, x) == EventCount(db.events, x))
              && e == db.(certificates := e.certificates, events := e.events)
  {
    hide EventCount;
    forall x ensures EventCount(db.events + [Event(id, RevokedEvent)], x)
                  == EventCount(db.events, x) + if x == Event(id, RevokedEvent) then 1 else 0
    {
      EventAdded(db.events, Event(id, RevokedEvent), x);
    }
  }

  /** After a revocation step the certificate reads revoked in every later state of every run. */
  lemma {:induction false} RevokedForGood(k: nat, s: State, before: seq<Step>, m: State, step: Step, after: seq<Step>, t: State)
    requires Sound(s) && Execute(k, s, before) == Some(m)
    requires Enabled(k, m, step) && step.RevokeOne? && Execute(k, Next(k, m, step), after) == Some(t)
    ensures var i := step.certificate;
            && i < |t.db.certificates|
            && t.db.certificates[i].status == Revoked && PublicStatusOf(t.db.certificates[i], t.today) == PublicRevoked
    ensures var i, n := step.certificate, Next(k, m, step);
            && (m.db.certificates[i].status != Revoked ==>
                  n.db.certificates[i].revokedAt == Some(step.now) && n.db.certificates[i].revokeReason == step.reason)
            && EventCount(n.db.events, Event(i, RevokedEvent)) > 0
  {
    var i, n := step.certificate, Next(k, m, step);
    RunIsSound(k, s, before, m);
    SoundStep(k, m, step);
    assert ProperStatus(m.db.certificates[i]);
    if m.db.certificates[i].status != Revoked {
      RevocationTakes(m.db, i, step.reason, step.now);
    } else {
      RevocationStep(k, m, step);
    }
    assert n.db.certificates[i].status == Revoked;
    assert EventCount(n.db.events, Event(i, RevokedEvent))
        == Owed(n.db.certificates, Event(i, RevokedEvent)) + Extra(n.rewrites, Event(i, RevokedEvent));
    RevocationRun(k, n, after, t);
    hide Execute, Sound, Next;
  }

  /** The public status of every stored status. */
  lemma PublicStatusTable(c: Certificate, today: CalendarDate)
    ensures c.status == Revoked <==> PublicStatusOf(c, today) == PublicRevoked
    ensures c.status == Void <==> PublicStatusOf(c, today) == PublicVoid
    ensures c.status == Draft <==> PublicStatusOf(c, today) == PublicDraft
    ensures c.status == Expired ==> PublicStatusOf(c, today) == PublicExpired
    ensures c.status == Issued ==> PublicStatusOf(c, today) in {Active, PublicExpired}
    ensures c.status == Issued && (c.expiryDate.Some? ==> Valid(c.expiryDate.value)) ==>
              (PublicStatusOf(c, today) == Active <==>
                 c.expiryDate.None? || Ordinal(today) <= Ordinal(c.expiryDate.value))
  {
    if c.expiryDate.Some? && Valid(c.expiryDate.value) {
      OrdinalOrder(c.expiryDate.value, today);
    }
  }
}
