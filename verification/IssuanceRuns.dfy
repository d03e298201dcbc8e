/**
 Everything that can happen to certificates, interleaved: issuances in flight between their
 first reads and their commit, revocations, new template versions, renamed organizations,
 changed prefixes and flags, and the calendar moving on. The theorems hold in every state any
 such run reaches.
 */
module IssuanceRuns {
  import opened Basics
  import opened Text
  import opened Numbering
  import opened Calendar
  import opened Issuance

  /** `rewrites` records each revocation of an already revoked certificate through a stale copy. */
  datatype State = State(db: Database, inFlight: seq<Ticket>, today: CalendarDate, rewrites: multiset<nat>)

  datatype Step =
    | Begin(request: Request, limit: int)
    | Land(ticket: nat)
    | Abort(ticket: nat)
    | RevokeOne(certificate: nat, seen: CertificateStatus, reason: string, now: int)
    | NewVersion(template: nat, canvas: string)
    | Configure(org: nat, organization: Organization)
    | NewDay(day: CalendarDate)

  /**
   At most `k` issuances are in flight; organization names are never empty; days do not go back.
   A revocation works on a copy that shows the present status or, when stale, the one of issue.
   */
  predicate Enabled(k: nat, s: State, step: Step) {
    match step
    case Begin(_, _) => |s.inFlight| < k
    case Land(i) => i < |s.inFlight|
    case Abort(i) => i < |s.inFlight|
    case RevokeOne(id, seen, _, _) => id < |s.db.certificates| && seen in {s.db.certificates[id].status, Issued}
    case NewVersion(_, _) => true
    case Configure(_, organization) => organization.name != ""
    case NewDay(day) => !Before(day, s.today)
  }

  function Kept(db: Database, r: Result<Database, IssueError>): Database {
    match r
    case Ok(after) => after
    case Err(_) => db
  }

  function Next(k: nat, s: State, step: Step): State
    requires Enabled(k, s, step)
  {
    match step
    case Begin(request, limit) =>
      (match Admit(s.db, request, limit, s.today)
       case Admitted(ticket) => s.(inFlight := s.inFlight + [ticket])
       case _ => s)
    case Land(i) =>
      s.(db := Kept(s.db, Commit(s.db, s.inFlight[i], s.today)), inFlight := RemoveAt(s.inFlight, i))
    case Abort(i) => s.(inFlight := RemoveAt(s.inFlight, i))
    case RevokeOne(id, seen, reason, now) =>
      var rewritten := s.db.certificates[id].status == Revoked && seen != Revoked;
      s.(db := Kept(s.db, RevokeSeeing(s.db, id, seen, reason, now)),
         rewrites := if rewritten then s.rewrites + multiset{id} else s.rewrites)
    case NewVersion(template, canvas) => s.(db := SaveVersion(s.db, template, canvas))
    case Configure(org, organization) => s.(db := s.db.(orgs := s.db.orgs[org := organization]))
    case NewDay(day) => s.(today := day)
  }

  function Execute(k: nat, s: State, steps: seq<Step>): Option<State>
    decreases |steps|
  {
    if steps == [] then Some(s)
    else if !Enabled(k, s, steps[0]) then None
    else Execute(k, Next(k, s, steps[0]), steps[1..])
  }

  // ------------------------------------------------- what a step can change

  /** A certificate without its revocation. */
  function Identity(c: Certificate): Certificate {
    c.(status := Issued, revokedAt := None, revokeReason := "")
  }

  ghost predicate SameCertificates(a: seq<Certificate>, b: seq<Certificate>) {
    |a| == |b| && forall i | 0 <= i < |a| :: Identity(a[i]) == Identity(b[i])
  }

  /** No issuance landed: certificates keep their identity, versions are only added. */
  ghost predicate Quiet(d: Database, e: Database) {
    && SameCertificates(d.certificates, e.certificates)
    && d.versions <= e.versions
    && d.recipients == e.recipients && d.sequences == e.sequences && d.usage == e.usage
  }

  ghost predicate Landed(d: Database, ticket: Ticket, today: CalendarDate, e: Database) {
    Commit(d, ticket, today) == Ok(e)
  }

  function Newest(db: Database): Certificate
    requires db.certificates != []
  {
    db.certificates[|db.certificates| - 1]
  }

  /** The parts of a landed issuance that the invariants need. */
  lemma LandedShape(d: Database, ticket: Ticket, today: CalendarDate, e: Database)
    requires Landed(d, ticket, today, e)
    ensures e.certificates != [] && e.certificates == d.certificates + [Newest(e)]
    ensures e.versions == d.versions && e.orgs == d.orgs && e.templates == d.templates
    ensures var c, q := Newest(e), ticket.request;
            && c.org == q.org && c.issuedOn == today && c.status == Issued && c.revokedAt == None
            && c.idempotencyKey == q.idempotencyKey && c.batch == q.batch
            && ticket.template.currentVersion == Some(c.templateVersion)
            && (ticket.organization.name != "" ==> c.issuerName != "")
    ensures var c := Newest(e);
            var slot, used := (c.org, c.issueDate.year), (c.org, PeriodOf(today));
            && e.sequences == d.sequences[slot := Count(d.sequences, slot) + 1]
            && e.usage == d.usage[used := Count(d.usage, used) + 1]
            && c.number == NumberText(EffectivePrefix(ticket.organization.numberPrefix), slot.1, Count(d.sequences, slot) + 1)
            && !NumberUsed(d.certificates, c.org, c.number)
            && (c.idempotencyKey != "" ==> FindKey(d.certificates, c.org, c.idempotencyKey).None?)
    ensures e.events == d.events + [Event(|d.certificates|, IssuedEvent)]
  {
    hide NumberText, EffectivePrefix, FindKey, FindRecipient, UpsertRecipient, NumberUsed, ResolveValidity, Strip, Lower;
  }

  /** The recipient of a landed issuance carries the issued name; every other recipient is untouched. */
  lemma LandedRecipient(d: Database, ticket: Ticket, today: CalendarDate, e: Database)
    requires Landed(d, ticket, today, e)
    ensures var c := Newest(e);
            && |d.recipients| <= |e.recipients| && c.recipient < |e.recipients|
            && e.recipients[c.recipient].fullName == c.integrityHash.payload.recipient
            && (forall i | 0 <= i < |d.recipients| && i != c.recipient :: e.recipients[i] == d.recipients[i])
            && (c.recipient < |d.recipients| ==>
                  && e.recipients[c.recipient].email == d.recipients[c.recipient].email != ""
                  && e.recipients[c.recipient].org == d.recipients[c.recipient].org)
    ensures var c := Newest(e);
            c.integrityHash.payload
            == Payload(|d.certificates|, c.integrityHash.payload.recipient, c.courseName, c.issuerName,
                       c.issueDate, c.expiryDate, c.number)
  {
    hide NumberText, EffectivePrefix, FindKey, FindRecipient, NumberUsed, ResolveValidity, Strip, Lower;
  }

  lemma StepShape(k: nat, s: State, step: Step)
    requires Enabled(k, s, step)
    ensures var t := Next(k, s, step);
            Quiet(s.db, t.db) || (step.Land? && Landed(s.db, s.inFlight[step.ticket], s.today, t.db))
  {
    hide NumberText, EffectivePrefix, FindKey, UpsertRecipient, NumberUsed, ResolveValidity, Admit;
  }

  // ---------------------------------------------------------------- numbers

  function SlotCount(certificates: seq<Certificate>, org: nat, year: int): nat {
    if certificates == [] then 0
    else
      var last := certificates[|certificates| - 1];
      SlotCount(certificates[..|certificates| - 1], org, year)
      + if last.org == org && last.issueDate.year == year then 1 else 0
  }

  lemma {:induction false} SlotCountSame(a: seq<Certificate>, b: seq<Certificate>, org: nat, year: int)
    requires SameCertificates(a, b)
    ensures SlotCount(a, org, year) == SlotCount(b, org, year)
  {
    if a != [] {
      var n := |a| - 1;
      assert Identity(a[n]) == Identity(b[n]);
      assert SameCertificates(a[..n], b[..n]);
      SlotCountSame(a[..n], b[..n], org, year);
    }
  }

  lemma {:induction false} SlotCountGrows(a: seq<Certificate>, i: nat, org: nat, year: int)
    requires i <= |a|
    ensures SlotCount(a[..i], org, year) <= SlotCount(a, org, year)
    decreases |a| - i
  {
    if i == |a| {
      assert a[..i] == a;
    } else {
      assert a[..i + 1][..i] == a[..i];
      SlotCountGrows(a, i + 1, org, year);
    }
  }

  /** The sequence value certificate `i` must carry: its place among its organization and year. */
  function Place(certificates: seq<Certificate>, i: nat): nat
    requires i < |certificates|
  {
    SlotCount(certificates[..i], certificates[i].org, certificates[i].issueDate.year) + 1
  }

  ghost predicate HasNumber(c: Certificate, value: nat) {
    exists prefix :: c.number == NumberText(prefix, c.issueDate.year, value)
  }

  /** Every certificate carries the value of its place. */
  ghost predicate InPlace(certificates: seq<Certificate>) {
    certificates == [] ||
    var n := |certificates| - 1;
    HasNumber(certificates[n], Place(certificates, n)) && InPlace(certificates[..n])
  }

  lemma {:induction false} InPlaceAt(certificates: seq<Certificate>, i: nat)
    requires InPlace(certificates) && i < |certificates|
    ensures HasNumber(certificates[i], Place(certificates, i))
  {
    hide HasNumber;
    var n := |certificates| - 1;
    if i < n {
      InPlaceAt(certificates[..n], i);
      assert certificates[..n][..i] == certificates[..i];
    }
  }

  lemma {:induction false} InPlaceSame(a: seq<Certificate>, b: seq<Certificate>)
    requires InPlace(a) && SameCertificates(a, b)
    ensures InPlace(b)
  {
    hide NumberText;
    if a != [] {
      var n := |a| - 1;
      assert Identity(a[n]) == Identity(b[n]);
      assert SameCertificates(a[..n], b[..n]);
      SlotCountSame(a[..n], b[..n], a[n].org, a[n].issueDate.year);
      InPlaceSame(a[..n], b[..n]);
    }
  }

  ghost predicate Numbered(db: Database) {
    && InPlace(db.certificates)
    && (forall org: nat, year: int :: Count(db.sequences, (org, year)) == SlotCount(db.certificates, org, year))
  }

  lemma QuietNumbers(d: Database, e: Database)
    requires Numbered(d) && Quiet(d, e)
    ensures Numbered(e)
  {
    hide NumberText;
    InPlaceSame(d.certificates, e.certificates);
    hide InPlace;
    forall org: nat, year: int
      ensures Count(e.sequences, (org, year)) == SlotCount(e.certificates, org, year)
    {
      SlotCountSame(d.certificates, e.certificates, org, year);
      assert Count(d.sequences, (org, year)) == SlotCount(d.certificates, org, year);
    }
  }

  lemma {:induction false} AppendedSlots(a: seq<Certificate>, c: Certificate, before: map<(nat, int), nat>, org: nat, year: int)
    requires Count(before, (org, year)) == SlotCount(a, org, year)
    requires Count(before, (c.org, c.issueDate.year)) == SlotCount(a, c.org, c.issueDate.year)
    ensures var slot := (c.org, c.issueDate.year);
            Count(before[slot := Count(before, slot) + 1], (org, year)) == SlotCount(a + [c], org, year)
  {
    assert (a + [c])[..|a|] == a;
  }

  lemma {:induction false} AppendedInPlace(a: seq<Certificate>, c: Certificate)
    requires InPlace(a) && HasNumber(c, SlotCount(a, c.org, c.issueDate.year) + 1)
    ensures InPlace(a + [c])
  {
    hide HasNumber, SlotCount;
    assert (a + [c])[..|a|] == a;
  }

  lemma AppendedNumbers(d: Database, e: Database, c: Certificate)
    requires Numbered(d) && e.certificates == d.certificates + [c]
    requires var slot := (c.org, c.issueDate.year);
             && e.sequences == d.sequences[slot := Count(d.sequences, slot) + 1]
             && HasNumber(c, Count(d.sequences, slot) + 1)
    ensures Numbered(e)
  {
    hide HasNumber, SlotCount, InPlace, Count;
    assert Count(d.sequences, (c.org, c.issueDate.year)) == SlotCount(d.certificates, c.org, c.issueDate.year);
    AppendedInPlace(d.certificates, c);
    forall org: nat, year: int
      ensures Count(e.sequences, (org, year)) == SlotCount(e.certificates, org, year)
    {
      assert Count(d.sequences, (org, year)) == SlotCount(d.certificates, org, year);
      AppendedSlots(d.certificates, c, d.sequences, org, year);
    }
  }

  lemma LandedSequence(d: Database, ticket: Ticket, today: CalendarDate, e: Database)
    requires Landed(d, ticket, today, e)
    ensures e.certificates != [] && e.certificates == d.certificates + [Newest(e)]
    ensures var c := Newest(e);
            var slot := (c.org, c.issueDate.year);
            && e.sequences == d.sequences[slot := Count(d.sequences, slot) + 1]
            && HasNumber(c, Count(d.sequences, slot) + 1)
  {
    LandedShape(d, ticket, today, e);
    hide NumberText, Commit, Landed, EffectivePrefix, NumberUsed, FindKey, Count;
  }

  lemma LandedNumbers(d: Database, ticket: Ticket, today: CalendarDate, e: Database)
    requires Numbered(d) && Landed(d, ticket, today, e)
    ensures Numbered(e)
  {
    LandedSequence(d, ticket, today, e);
    hide Commit, Landed, Numbered, Count, HasNumber;
    AppendedNumbers(d, e, Newest(e));
  }

  // ------------------------------------------------------------------- keys

  ghost predicate UniqueKeys(certificates: seq<Certificate>) {
    forall i, j | 0 <= i < j < |certificates| ::
      certificates[i].org == certificates[j].org && certificates[i].idempotencyKey == certificates[j].idempotencyKey
      ==> certificates[i].idempotencyKey == ""
  }

  lemma QuietKeys(d: Database, e: Database)
    requires UniqueKeys(d.certificates) && Quiet(d, e)
    ensures UniqueKeys(e.certificates)
  {
    assert forall i | 0 <= i < |d.certificates| :: Identity(d.certificates[i]) == Identity(e.certificates[i]);
  }

  lemma LandedKeys(d: Database, ticket: Ticket, today: CalendarDate, e: Database)
    requires UniqueKeys(d.certificates) && Landed(d, ticket, today, e)
    ensures UniqueKeys(e.certificates)
  {
    LandedShape(d, ticket, today, e);
    hide Commit;
  }

  // ------------------------------------------------------------------ usage

  function PeriodCount(certificates: seq<Certificate>, org: nat, period: Period): nat {
    if certificates == [] then 0
    else
      var last := certificates[|certificates| - 1];
      PeriodCount(certificates[..|certificates| - 1], org, period)
      + if last.org == org && PeriodOf(last.issuedOn) == period then 1 else 0
  }

  lemma {:induction false} PeriodCountSame(a: seq<Certificate>, b: seq<Certificate>, org: nat, period: Period)
    requires SameCertificates(a, b)
    ensures PeriodCount(a, org, period) == PeriodCount(b, org, period)
  {
    if a != [] {
      var n := |a| - 1;
      assert Identity(a[n]) == Identity(b[n]);
      assert SameCertificates(a[..n], b[..n]);
      PeriodCountSame(a[..n], b[..n], org, period);
    }
  }

  lemma {:induction false} NothingCounted(a: seq<Certificate>, org: nat, period: Period)
    requires forall i | 0 <= i < |a| :: PeriodOf(a[i].issuedOn) != period
    ensures PeriodCount(a, org, period) == 0
  {
    if a != [] {
      NothingCounted(a[..|a| - 1], org, period);
    }
  }

  /** The counter of a period is the number of certificates committed in it, and none lies in the future. */
  ghost predicate Metered(db: Database, today: CalendarDate) {
    && (forall org: nat, period: Period :: Count(db.usage, (org, period)) == PeriodCount(db.certificates, org, period))
    && (forall i | 0 <= i < |db.certificates| :: !Before(today, db.certificates[i].issuedOn))
  }

  lemma QuietMeter(d: Database, e: Database, today: CalendarDate)
    requires Metered(d, today) && Quiet(d, e)
    ensures Metered(e, today)
  {
    assert forall i | 0 <= i < |d.certificates| :: Identity(d.certificates[i]) == Identity(e.certificates[i]);
    forall org: nat, period: Period
      ensures Count(e.usage, (org, period)) == PeriodCount(e.certificates, org, period)
    {
      PeriodCountSame(d.certificates, e.certificates, org, period);
      assert Count(d.usage, (org, period)) == PeriodCount(d.certificates, org, period);
    }
  }

  lemma {:induction false} AppendedPeriods(
      a: seq<Certificate>, c: Certificate, before: map<(nat, Period), nat>, org: nat, period: Period)
    requires Count(before, (org, period)) == PeriodCount(a, org, period)
    requires Count(before, (c.org, PeriodOf(c.issuedOn))) == PeriodCount(a, c.org, PeriodOf(c.issuedOn))
    ensures var used := (c.org, PeriodOf(c.issuedOn));
            Count(before[used := Count(before, used) + 1], (org, period)) == PeriodCount(a + [c], org, period)
  {
    assert (a + [c])[..|a|] == a;
  }

  lemma AppendedMeter(d: Database, e: Database, c: Certificate, today: CalendarDate)
    requires Metered(d, today) && e.certificates == d.certificates + [c] && c.issuedOn == today
    requires var used := (c.org, PeriodOf(today)); e.usage == d.usage[used := Count(d.usage, used) + 1]
    ensures Metered(e, today)
  {
    hide PeriodCount, Count;
    assert Count(d.usage, (c.org, PeriodOf(today))) == PeriodCount(d.certificates, c.org, PeriodOf(today));
    forall org: nat, period: Period
      ensures Count(e.usage, (org, period)) == PeriodCount(e.certificates, org, period)
    {
      assert Count(d.usage, (org, period)) == PeriodCount(d.certificates, org, period);
      AppendedPeriods(d.certificates, c, d.usage, org, period);
    }
  }

  lemma LandedUsage(d: Database, ticket: Ticket, today: CalendarDate, e: Database)
    requires Landed(d, ticket, today, e)
    ensures e.certificates != [] && e.certificates == d.certificates + [Newest(e)] && Newest(e).issuedOn == today
    ensures var used := (Newest(e).org, PeriodOf(today)); e.usage == d.usage[used := Count(d.usage, used) + 1]
  {
    LandedShape(d, ticket, today, e);
    hide Commit, Landed, NumberText, EffectivePrefix, NumberUsed, FindKey, Count;
  }

  lemma LandedMeter(d: Database, ticket: Ticket, today: CalendarDate, e: Database)
    requires Metered(d, today) && Landed(d, ticket, today, e)
    ensures Metered(e, today)
  {
    LandedUsage(d, ticket, today, e);
    hide Commit, Landed, Metered, Count, PeriodOf;
    AppendedMeter(d, e, Newest(e), today);
  }

  // ------------------------------------------------------- hashes and canvas

  /** The recipient name the certificate was issued, and hashed, with. */
  function NameAtIssue(c: Certificate): string {
    c.integrityHash.payload.recipient
  }

  /** Every field of the hashed payload but the recipient's name still reads the same. */
  ghost predicate Sealed(db: Database, i: nat)
    requires i < |db.certificates|
  {
    var c := db.certificates[i];
    && c.recipient < |db.recipients| && c.templateVersion < |db.versions| && c.issuerName != ""
    && c.integrityHash.payload == CanonicalPayload(db, i).(recipient := NameAtIssue(c))
  }

  predicate LatestForRecipient(certificates: seq<Certificate>, i: nat)
    requires i < |certificates|
  {
    forall j | i < j < |certificates| :: certificates[j].recipient != certificates[i].recipient
  }

  /** The recipient still has the name the certificate was issued with. */
  predicate NameIsCurrent(db: Database, i: nat)
    requires i < |db.certificates|
  {
    var c := db.certificates[i];
    c.recipient < |db.recipients| && db.recipients[c.recipient].fullName == NameAtIssue(c)
  }

  /** All certificates are sealed, and a recipient's name is the one on its latest certificate. */
  ghost predicate Hashed(db: Database) {
    && (forall i | 0 <= i < |db.certificates| :: Sealed(db, i))
    && (forall i | 0 <= i < |db.certificates| && LatestForRecipient(db.certificates, i) ::
          NameIsCurrent(db, i))
  }

  lemma QuietHashes(d: Database, e: Database)
    requires Hashed(d) && Quiet(d, e)
    ensures Hashed(e)
  {
    assert forall i | 0 <= i < |d.certificates| :: Identity(d.certificates[i]) == Identity(e.certificates[i]);
    forall i | 0 <= i < |e.certificates| ensures Sealed(e, i) {
      assert Sealed(d, i);
    }
    forall i | 0 <= i < |e.certificates| && LatestForRecipient(e.certificates, i) ensures NameIsCurrent(e, i) {
      assert LatestForRecipient(d.certificates, i) && NameIsCurrent(d, i);
    }
  }

  lemma LandedSealed(d: Database, ticket: Ticket, today: CalendarDate, e: Database)
    requires Hashed(d) && Landed(d, ticket, today, e)
    requires ticket.organization.name != ""
    requires ticket.template.currentVersion.Some? ==> ticket.template.currentVersion.value < |d.versions|
    ensures forall i | 0 <= i < |e.certificates| :: Sealed(e, i)
  {
    LandedShape(d, ticket, today, e);
    LandedRecipient(d, ticket, today, e);
    hide Commit, NumberText, EffectivePrefix, NumberUsed, FindKey, Strip, Landed, LatestForRecipient;
    forall i | 0 <= i < |e.certificates| ensures Sealed(e, i) {
      if i < |d.certificates| {
        assert e.certificates[i] == d.certificates[i];
        assert Sealed(d, i);
      }
    }
  }

  lemma LandedHashes(d: Database, ticket: Ticket, today: CalendarDate, e: Database)
    requires Hashed(d) && Landed(d, ticket, today, e)
    requires ticket.organization.name != ""
    requires ticket.template.currentVersion.Some? ==> ticket.template.currentVersion.value < |d.versions|
    ensures Hashed(e)
  {
    LandedSealed(d, ticket, today, e);
    LandedShape(d, ticket, today, e);
    LandedRecipient(d, ticket, today, e);
    hide Commit, NumberText, EffectivePrefix, NumberUsed, FindKey, Strip, Landed, Sealed, LatestForRecipient;
    forall i | 0 <= i < |e.certificates| && LatestForRecipient(e.certificates, i) ensures NameIsCurrent(e, i) {
      if i < |d.certificates| {
        StillLatest(d.certificates, e.certificates, i);
        assert NameIsCurrent(d, i);
      }
    }
  }

  lemma StillLatest(a: seq<Certificate>, b: seq<Certificate>, i: nat)
    requires b != [] && a == b[..|b| - 1] && i < |a| && LatestForRecipient(b, i)
    ensures LatestForRecipient(a, i) && a[i].recipient != b[|a|].recipient && a[i] == b[i]
  {
    assert forall j | i < j < |a| :: a[j] == b[j];
  }

  // -------------------------------------------------------------- revocation

  function EventCount(events: seq<Event>, e: Event): nat {
    if events == [] then 0
    else EventCount(events[..|events| - 1], e) + if events[|events| - 1] == e then 1 else 0
  }

  predicate ProperStatus(c: Certificate) {
    (c.status == Issued || c.status == Revoked) && (c.status == Revoked <==> c.revokedAt.Some?)
  }

  /** How often an event must have been recorded. */
  function Owed(certificates: seq<Certificate>, e: Event): nat {
    if e.certificate >= |certificates| then 0
    else if e.kind == IssuedEvent || certificates[e.certificate].status == Revoked then 1
    else 0
  }

  /** Revocations of a certificate that was revoked already. */
  function Extra(rewrites: multiset<nat>, e: Event): nat {
    if e.kind == RevokedEvent then rewrites[e.certificate] else 0
  }

  /** A certificate is issued or revoked, and its events say so once, and once more for each rewrite. */
  ghost predicate Logged(db: Database, rewrites: multiset<nat>) {
    && (forall i | 0 <= i < |db.certificates| :: ProperStatus(db.certificates[i]))
    && (forall e :: EventCount(db.events, e) == Owed(db.certificates, e) + Extra(rewrites, e))
  }

  lemma {:induction false} EventAdded(events: seq<Event>, added: Event, e: Event)
    ensures EventCount(events + [added], e) == EventCount(events, e) + if added == e then 1 else 0
  {
    assert (events + [added])[..|events|] == events;
  }

  /** One certificate gets a new status and one event; only a revoked one is rewritten. */
  lemma LogsGrow(d: Database, e: Database, i: nat, kind: EventKind, before: multiset<nat>, after: multiset<nat>)
    requires Logged(d, before) && i <= |d.certificates|
    requires |e.certificates| == (if i < |d.certificates| then |d.certificates| else i + 1)
    requires forall j | 0 <= j < |d.certificates| && j != i :: e.certificates[j] == d.certificates[j]
    requires ProperStatus(e.certificates[i]) && (e.certificates[i].status == Revoked <==> kind == RevokedEvent)
    requires kind == IssuedEvent <==> i == |d.certificates|
    requires after == if i < |d.certificates| && d.certificates[i].status == Revoked then before + multiset{i} else before
    requires e.events == d.events + [Event(i, kind)]
    ensures Logged(e, after)
  {
    hide EventCount;
    forall x ensures EventCount(e.events, x) == Owed(e.certificates, x) + Extra(after, x) {
      EventAdded(d.events, Event(i, kind), x);
    }
  }

  lemma RevokeLogs(k: nat, s: State, step: Step)
    requires Logged(s.db, s.rewrites) && Enabled(k, s, step) && step.RevokeOne?
    ensures Logged(Next(k, s, step).db, Next(k, s, step).rewrites)
  {
    var t := Next(k, s, step);
    assert ProperStatus(s.db.certificates[step.certificate]);
    hide EventCount, Logged;
    if t.db != s.db {
      LogsGrow(s.db, t.db, step.certificate, RevokedEvent, s.rewrites, t.rewrites);
    } else {
      RevocationRecorded(k, s, step);
    }
  }

  /** A revocation that changes no table is no rewrite. */
  lemma RevocationRecorded(k: nat, s: State, step: Step)
    requires Enabled(k, s, step) && step.RevokeOne?
    ensures var t := Next(k, s, step); t.db == s.db ==> t.rewrites == s.rewrites
  {
    var t := Next(k, s, step);
    if t.rewrites != s.rewrites {
      assert |t.db.events| == |s.db.events| + 1;
    }
  }

  lemma LandedLogs(d: Database, ticket: Ticket, today: CalendarDate, after: Database, rewrites: multiset<nat>)
    requires Logged(d, rewrites) && Landed(d, ticket, today, after)
    ensures Logged(after, rewrites)
  {
    LandedShape(d, ticket, today, after);
    hide Commit, Landed, NumberText, EffectivePrefix, NumberUsed, FindKey, EventCount, Logged;
    LogsGrow(d, after, |d.certificates|, IssuedEvent, rewrites, rewrites);
  }

  lemma StepLogs(k: nat, s: State, step: Step)
    requires Logged(s.db, s.rewrites) && Enabled(k, s, step)
    ensures Logged(Next(k, s, step).db, Next(k, s, step).rewrites)
  {
    hide Admit, Commit, Logged, RevokeSeeing;
    match step
    case RevokeOne(_, _, _, _) => RevokeLogs(k, s, step);
    case Land(i) =>
      var r := Commit(s.db, s.inFlight[i], s.today);
      if r.Ok? {
        LandedLogs(s.db, s.inFlight[i], s.today, r.value, s.rewrites);
      }
    case NewVersion(template, canvas) => LogsFrame(s.db, SaveVersion(s.db, template, canvas), s.rewrites);
    case Configure(org, organization) => LogsFrame(s.db, s.db.(orgs := s.db.orgs[org := organization]), s.rewrites);
    case _ =>
  }

  lemma LogsFrame(d: Database, e: Database, rewrites: multiset<nat>)
    requires Logged(d, rewrites) && e.events == d.events && e.certificates == d.certificates
    ensures Logged(e, rewrites)
  {
  }

  /** One uninterrupted issuance is a begin and a landing in the run. */
  lemma IssueIsARun(db: Database, request: Request, limit: int, today: CalendarDate) returns (steps: seq<Step>)
    ensures Execute(1, State(db, [], today, multiset{}), steps)
         == Some(State(Issue(db, request, limit, today).db, [], today, multiset{}))
  {
    var s := State(db, [], today, multiset{});
    var begin := Begin(request, limit);
    hide Admit, Commit;
    match Admit(db, request, limit, today)
    case Admitted(ticket) =>
      steps := [begin, Land(0)];
      var mid := Next(1, s, begin);
      assert mid.inFlight == [ticket] && RemoveAt([ticket], 0) == [];
      assert steps[1..] == [Land(0)];
      assert Execute(1, mid, [Land(0)]) == Execute(1, Next(1, mid, Land(0)), []);
    case _ =>
      steps := [begin];
      assert Next(1, s, begin) == s;
  }
}
