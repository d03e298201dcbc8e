/** What holds of certificates in every state that any run of `IssuanceRuns` reaches. */
module IssuanceGuarantees {
  import opened Basics
  import opened Text
  import opened Numbering
  import opened Calendar
  import opened Issuance
  import opened IssuanceRuns

  /** Template versions in use exist, and no organization is nameless. */
  ghost predicate References(s: State) {
    && (forall id | id in s.db.templates && s.db.templates[id].currentVersion.Some? ::
          s.db.templates[id].currentVersion.value < |s.db.versions|)
    && (forall id | id in s.db.orgs :: s.db.orgs[id].name != "")
    && (forall i | 0 <= i < |s.inFlight| ::
          && s.inFlight[i].organization.name != ""
          && (s.inFlight[i].template.currentVersion.Some? ==>
                s.inFlight[i].template.currentVersion.value < |s.db.versions|))
  }

  ghost predicate Sound(s: State) {
    && References(s)
    && Numbered(s.db)
    && UniqueKeys(s.db.certificates)
    && Metered(s.db, s.today)
    && Hashed(s.db)
    && Logged(s.db, s.rewrites)
  }

  /** Certificates are only added, keep their identity, and the versions they use stay. */
  ghost predicate Grows(d: Database, e: Database) {
    && |d.certificates| <= |e.certificates|
    && (forall i | 0 <= i < |d.certificates| :: Identity(d.certificates[i]) == Identity(e.certificates[i]))
    && d.versions <= e.versions
  }

  lemma ReferencesStep(k: nat, s: State, step: Step)
    requires References(s) && Enabled(k, s, step)
    ensures References(Next(k, s, step))
  {
    hide RevokeSeeing;
    match step
    case Land(i) => LandReferences(k, s, i);
    case RevokeOne(id, seen, reason, now) => RevokeShape(s.db, id, seen, reason, now);
    case NewVersion(template, canvas) =>
      assert forall i | 0 <= i < |s.inFlight| :: s.inFlight[i] == Next(k, s, step).inFlight[i];
    case _ =>
  }

  lemma RevokeShape(db: Database, id: nat, seen: CertificateStatus, reason: string, now: int)
    ensures var e := Kept(db, RevokeSeeing(db, id, seen, reason, now));
            e.templates == db.templates && e.versions == db.versions && e.orgs == db.orgs
  {
  }

  lemma LandKeepsTables(db: Database, ticket: Ticket, today: CalendarDate)
    ensures var e := Kept(db, Commit(db, ticket, today));
            e.templates == db.templates && e.versions == db.versions && e.orgs == db.orgs
  {
    var r := Commit(db, ticket, today);
    if r.Ok? {
      LandedShape(db, ticket, today, r.value);
    }
    hide Commit;
  }

  lemma LandReferences(k: nat, s: State, i: nat)
    requires References(s) && i < |s.inFlight|
    ensures References(Next(k, s, Land(i)))
  {
    LandKeepsTables(s.db, s.inFlight[i], s.today);
    hide Commit;
    var t := Next(k, s, Land(i));
    forall j | 0 <= j < |t.inFlight| ensures t.inFlight[j] in s.inFlight {
      assert t.inFlight[j] == if j < i then s.inFlight[j] else s.inFlight[j + 1];
    }
  }

  lemma DatabaseStep(k: nat, s: State, step: Step)
    requires Sound(s) && Enabled(k, s, step)
    ensures var t := Next(k, s, step);
            Numbered(t.db) && UniqueKeys(t.db.certificates) && Metered(t.db, s.today) && Hashed(t.db)
            && Grows(s.db, t.db)
  {
    var t := Next(k, s, step);
    StepShape(k, s, step);
    hide Next, Numbered, UniqueKeys, Metered, Hashed, Logged;
    if Quiet(s.db, t.db) {
      QuietNumbers(s.db, t.db);
      QuietKeys(s.db, t.db);
      QuietMeter(s.db, t.db, s.today);
      QuietHashes(s.db, t.db);
    } else {
      var ticket := s.inFlight[step.ticket];
      LandedNumbers(s.db, ticket, s.today, t.db);
      LandedKeys(s.db, ticket, s.today, t.db);
      LandedMeter(s.db, ticket, s.today, t.db);
      LandedHashes(s.db, ticket, s.today, t.db);
      LandedShape(s.db, ticket, s.today, t.db);
    }
  }

  lemma LaterDayMeters(db: Database, today: CalendarDate, day: CalendarDate)
    requires Metered(db, today) && !Before(day, today)
    ensures Metered(db, day)
  {
  }

  lemma SoundStep(k: nat, s: State, step: Step)
    requires Sound(s) && Enabled(k, s, step)
    ensures Sound(Next(k, s, step)) && Grows(s.db, Next(k, s, step).db)
  {
    DatabaseStep(k, s, step);
    ReferencesStep(k, s, step);
    StepLogs(k, s, step);
    if step.NewDay? {
      LaterDayMeters(s.db, s.today, step.day);
    }
    hide References, Numbered, UniqueKeys, Metered, Hashed, Logged, Admit, Commit, RevokeSeeing, SaveVersion, Grows;
  }

  lemma {:induction false} RunIsSound(k: nat, s: State, steps: seq<Step>, t: State)
    requires Sound(s) && Execute(k, s, steps) == Some(t)
    ensures Sound(t) && Grows(s.db, t.db)
    decreases |steps|
  {
    if steps != [] {
      var mid := Next(k, s, steps[0]);
      SoundStep(k, s, steps[0]);
      hide Sound, Next, Enabled, Identity;
      RunIsSound(k, mid, steps[1..], t);
    }
  }

  /** No certificate yet; organizations, templates with their versions, and recipients may exist. */
  ghost predicate NothingIssued(db: Database) {
    && db.certificates == [] && db.events == []
    && (forall slot | slot in db.sequences :: db.sequences[slot] == 0)
    && (forall used | used in db.usage :: db.usage[used] == 0)
    && (forall id | id in db.orgs :: db.orgs[id].name != "")
    && (forall id | id in db.templates && db.templates[id].currentVersion.Some? ::
          db.templates[id].currentVersion.value < |db.versions|)
  }

  lemma EmptyIsSound(db: Database, today: CalendarDate)
    requires NothingIssued(db)
    ensures Sound(State(db, [], today, multiset{}))
  {
  }

  // ---------------------------------------------------------------- numbers

  lemma PlacesIncrease(certificates: seq<Certificate>, i: nat, j: nat)
    requires i < j < |certificates|
    requires certificates[i].org == certificates[j].org
    requires certificates[i].issueDate.year == certificates[j].issueDate.year
    ensures Place(certificates, i) < Place(certificates, j)
  {
    var front := certificates[..j];
    assert front[..i + 1][..i] == certificates[..i];
    SlotCountGrows(front, i + 1, certificates[i].org, certificates[i].issueDate.year);
  }

  lemma {:induction false} PlaceTaken(certificates: seq<Certificate>, org: nat, year: int, value: nat) returns (i: nat)
    requires 1 <= value <= SlotCount(certificates, org, year)
    ensures i < |certificates| && certificates[i].org == org && certificates[i].issueDate.year == year
    ensures Place(certificates, i) == value
  {
    var n := |certificates| - 1;
    if value <= SlotCount(certificates[..n], org, year) {
      i := PlaceTaken(certificates[..n], org, year, value);
      assert certificates[..n][..i] == certificates[..i];
    } else {
      i := n;
    }
  }

  lemma CarriedValue(db: Database, i: nat)
    requires Numbered(db) && i < |db.certificates|
    ensures ValueOf(db.certificates[i].number) == Place(db.certificates, i)
  {
    InPlaceAt(db.certificates, i);
    var c := db.certificates[i];
    var prefix :| c.number == NumberText(prefix, c.issueDate.year, Place(db.certificates, i));
    ValueOfNumber(prefix, c.issueDate.year, Place(db.certificates, i));
  }

  predicate InSlot(c: Certificate, org: nat, year: int) {
    c.org == org && c.issueDate.year == year
  }

  ghost predicate Carried(certificates: seq<Certificate>, org: nat, year: int, value: nat) {
    exists i | 0 <= i < |certificates| :: InSlot(certificates[i], org, year) && ValueOf(certificates[i].number) == value
  }

  lemma ValueInRange(db: Database, i: nat)
    requires Numbered(db) && i < |db.certificates|
    ensures var c := db.certificates[i];
            1 <= ValueOf(c.number) <= Count(db.sequences, (c.org, c.issueDate.year))
  {
    CarriedValue(db, i);
    hide ValueOf, InPlace;
    var cs, c := db.certificates, db.certificates[i];
    assert cs[..i + 1][..i] == cs[..i];
    SlotCountGrows(cs, i + 1, c.org, c.issueDate.year);
    assert Count(db.sequences, (c.org, c.issueDate.year)) == SlotCount(cs, c.org, c.issueDate.year);
  }

  lemma ValuesIncrease(db: Database, i: nat, j: nat)
    requires Numbered(db) && i < j < |db.certificates|
    requires InSlot(db.certificates[i], db.certificates[j].org, db.certificates[j].issueDate.year)
    ensures ValueOf(db.certificates[i].number) < ValueOf(db.certificates[j].number)
  {
    CarriedValue(db, i);
    CarriedValue(db, j);
    PlacesIncrease(db.certificates, i, j);
  }

  lemma ValueIsCarried(db: Database, org: nat, year: int, value: nat)
    requires Numbered(db) && 1 <= value <= Count(db.sequences, (org, year))
    ensures Carried(db.certificates, org, year, value)
  {
    assert Count(db.sequences, (org, year)) == SlotCount(db.certificates, org, year);
    var i := PlaceTaken(db.certificates, org, year, value);
    CarriedValue(db, i);
  }

  /**
   The values of an organization's year are exactly 1..last_value, each on one certificate, in
   order of issue: failed issuances leave no gap.
   */
  lemma {:induction false} SequencesHaveNoGaps(k: nat, s: State, steps: seq<Step>, t: State, org: nat, year: int)
    requires Sound(s) && Execute(k, s, steps) == Some(t)
    ensures forall i | 0 <= i < |t.db.certificates| && InSlot(t.db.certificates[i], org, year) ::
              1 <= ValueOf(t.db.certificates[i].number) <= Count(t.db.sequences, (org, year))
    ensures forall i, j | 0 <= i < j < |t.db.certificates|
                          && InSlot(t.db.certificates[i], org, year) && InSlot(t.db.certificates[j], org, year) ::
              ValueOf(t.db.certificates[i].number) < ValueOf(t.db.certificates[j].number)
    ensures forall value: nat :: 1 <= value <= Count(t.db.sequences, (org, year)) ==>
              Carried(t.db.certificates, org, year, value)
  {
    RunIsSound(k, s, steps, t);
    hide ValueOf, Execute, Numbered, Carried, Metered, Hashed, Logged;
    forall i | 0 <= i < |t.db.certificates| && InSlot(t.db.certificates[i], org, year)
      ensures 1 <= ValueOf(t.db.certificates[i].number) <= Count(t.db.sequences, (org, year))
    {
      ValueInRange(t.db, i);
    }
    forall i, j | 0 <= i < j < |t.db.certificates|
                  && InSlot(t.db.certificates[i], org, year) && InSlot(t.db.certificates[j], org, year)
      ensures ValueOf(t.db.certificates[i].number) < ValueOf(t.db.certificates[j].number)
    {
      ValuesIncrease(t.db, i, j);
    }
    forall value: nat
      ensures 1 <= value <= Count(t.db.sequences, (org, year)) ==> Carried(t.db.certificates, org, year, value)
    {
      if 1 <= value <= Count(t.db.sequences, (org, year)) {
        ValueIsCarried(t.db, org, year, value);
      }
    }
  }

  lemma NumbersDiffer(db: Database, i: nat, j: nat)
    requires Numbered(db) && i < j < |db.certificates|
    requires db.certificates[i].org == db.certificates[j].org
    requires db.certificates[i].issueDate.year >= 1000 && db.certificates[j].issueDate.year >= 1000
    ensures db.certificates[i].number != db.certificates[j].number
  {
    InPlaceAt(db.certificates, i);
    InPlaceAt(db.certificates, j);
    var a, b := db.certificates[i], db.certificates[j];
    var p :| a.number == NumberText(p, a.issueDate.year, Place(db.certificates, i));
    var q :| b.number == NumberText(q, b.issueDate.year, Place(db.certificates, j));
    if a.number == b.number {
      NumberDetermines(p, a.issueDate.year, Place(db.certificates, i), q, b.issueDate.year, Place(db.certificates, j));
      PlacesIncrease(db.certificates, i, j);
    }
  }

  /**
   In years 1000 to 9999 the allocated number is always free, whatever prefixes were in use
   before: the uniqueness constraint on numbers never refuses an issuance.
   */
  lemma {:induction false} NumberAlwaysFree(k: nat, s: State, steps: seq<Step>, t: State, ticket: Ticket)
    requires Sound(s) && Execute(k, s, steps) == Some(t)
    requires forall i | 0 <= i < |t.db.certificates| && t.db.certificates[i].org == ticket.request.org ::
               t.db.certificates[i].issueDate.year >= 1000
    requires var v := ResolveValidity(ticket.request, t.today); v.Ok? ==> v.value.issueDate.year >= 1000
    ensures Commit(t.db, ticket, t.today) != Err(NumberTaken)
    ensures forall i, j | 0 <= i < j < |t.db.certificates|
                          && t.db.certificates[i].org == t.db.certificates[j].org == ticket.request.org ::
              t.db.certificates[i].number != t.db.certificates[j].number
  {
    RunIsSound(k, s, steps, t);
    hide Execute, Commit, Numbered, Metered, Hashed, Logged, References, ResolveValidity;
    NextNumberFree(t.db, ticket, t.today);
    forall i, j | 0 <= i < j < |t.db.certificates|
                  && t.db.certificates[i].org == t.db.certificates[j].org == ticket.request.org
      ensures t.db.certificates[i].number != t.db.certificates[j].number
    {
      NumbersDiffer(t.db, i, j);
    }
  }

  lemma NextNumberFree(db: Database, ticket: Ticket, today: CalendarDate)
    requires Numbered(db)
    requires forall i | 0 <= i < |db.certificates| && db.certificates[i].org == ticket.request.org ::
               db.certificates[i].issueDate.year >= 1000
    requires var v := ResolveValidity(ticket.request, today); v.Ok? ==> v.value.issueDate.year >= 1000
    ensures Commit(db, ticket, today) != Err(NumberTaken)
  {
    hide Numbered, NumberText, EffectivePrefix, NumberUsed, FindKey, UpsertRecipient, ResolveValidity, Strip, Lower, NewCertificate;
    var validity := ResolveValidity(ticket.request, today);
    if validity.Ok? {
      FreeNumber(db, ticket.request.org, EffectivePrefix(ticket.organization.numberPrefix), validity.value.issueDate.year);
    }
    ResolutionErrors(ticket.request, today);
  }

  lemma ResolutionErrors(request: Request, today: CalendarDate)
    ensures ResolveValidity(request, today).Err? ==> ResolveValidity(request, today).error in {BadDate, DateOverflow}
  {
    hide ComputeExpiryDate;
  }

  lemma FreeNumber(db: Database, org: nat, prefix: string, year: nat)
    requires Numbered(db) && 1000 <= year <= 9999
    requires forall i | 0 <= i < |db.certificates| && db.certificates[i].org == org :: db.certificates[i].issueDate.year >= 1000
    ensures !NumberUsed(db.certificates, org, NumberText(prefix, year, Count(db.sequences, (org, year)) + 1))
  {
    var value := Count(db.sequences, (org, year)) + 1;
    assert Count(db.sequences, (org, year)) == SlotCount(db.certificates, org, year);
    hide NumberText;
    forall i | 0 <= i < |db.certificates| && db.certificates[i].org == org
      ensures db.certificates[i].number != NumberText(prefix, year, value)
    {
      NumberBeyond(db, i, prefix, year, value);
    }
  }

  lemma NumberBeyond(db: Database, i: nat, prefix: string, year: nat, value: nat)
    requires Numbered(db) && i < |db.certificates| && 1000 <= year <= 9999
    requires db.certificates[i].issueDate.year >= 1000
    requires value == Count(db.sequences, (db.certificates[i].org, year)) + 1
    ensures db.certificates[i].number != NumberText(prefix, year, value)
  {
    InPlaceAt(db.certificates, i);
    hide NumberText, InPlace;
    var c := db.certificates[i];
    var p :| c.number == NumberText(p, c.issueDate.year, Place(db.certificates, i));
    if c.number == NumberText(prefix, year, value) {
      NumberDetermines(p, c.issueDate.year, Place(db.certificates, i), prefix, year, value);
      assert Count(db.sequences, (c.org, year)) == SlotCount(db.certificates, c.org, year);
      assert db.certificates[..i + 1][..i] == db.certificates[..i];
      SlotCountGrows(db.certificates, i + 1, c.org, year);
    }
  }

  // ------------------------------------------------------------------- keys

  /**
   An idempotency key owns one certificate of its organization, and asking again returns it and
   changes nothing, whatever the limit says.
   */
  lemma {:induction false} RepeatReturnsTheSame(
      k: nat, s: State, steps: seq<Step>, t: State, i: nat, request: Request, limit: int, today: CalendarDate)
    requires Sound(s) && Execute(k, s, steps) == Some(t) && i < |t.db.certificates|
    requires request.idempotencyKey != "" && request.idempotencyKey == t.db.certificates[i].idempotencyKey
    requires request.org == t.db.certificates[i].org && request.org in t.db.orgs && request.template in t.db.templates
    requires t.db.orgs[request.org].issuanceEnabled && !t.db.orgs[request.org].suspended
    ensures Issue(t.db, request, limit, today) == Issuing(t.db, Ok(i))
    ensures forall j | 0 <= j < |t.db.certificates| && t.db.certificates[j].org == request.org
                       && t.db.certificates[j].idempotencyKey == request.idempotencyKey :: j == i
  {
    RunIsSound(k, s, steps, t);
    var found := FindKey(t.db.certificates, request.org, request.idempotencyKey);
    assert found == Some(i);
    hide FindKey;
  }

  // ------------------------------------------------------------------ quota

  function TicketsOf(tickets: seq<Ticket>, org: nat): (n: nat)
    ensures n <= |tickets|
  {
    if tickets == [] then 0
    else (if tickets[0].request.org == org then 1 else 0) + TicketsOf(tickets[1..], org)
  }

  lemma {:induction false} TicketsConcat(a: seq<Ticket>, b: seq<Ticket>, org: nat)
    ensures TicketsOf(a + b, org) == TicketsOf(a, org) + TicketsOf(b, org)
  {
    if a == [] {
      assert a + b == b;
    } else {
      assert (a + b)[1..] == a[1..] + b;
      TicketsConcat(a[1..], b, org);
    }
  }

  lemma {:induction false} TicketsRemove(tickets: seq<Ticket>, i: nat, org: nat)
    requires i < |tickets|
    ensures TicketsOf(tickets, org)
         == TicketsOf(RemoveAt(tickets, i), org) + if tickets[i].request.org == org then 1 else 0
  {
    assert tickets == tickets[..i] + ([tickets[i]] + tickets[i + 1..]);
    TicketsConcat(tickets[..i], [tickets[i]] + tickets[i + 1..], org);
    TicketsConcat([tickets[i]], tickets[i + 1..], org);
    TicketsConcat(tickets[..i], tickets[i + 1..], org);
  }

  function UsedIn(db: Database, org: nat, today: CalendarDate): nat {
    Count(db.usage, (org, PeriodOf(today)))
  }

  function Used(s: State, org: nat): nat {
    UsedIn(s.db, org, s.today)
  }

  /** All issuances of the organization run under one positive limit. */
  predicate FixedLimit(steps: seq<Step>, org: nat, limit: int) {
    forall i | 0 <= i < |steps| && steps[i].Begin? && steps[i].request.org == org :: steps[i].limit == limit
  }

  predicate WithinBound(k: nat, s: State, org: nat, limit: int) {
    |s.inFlight| <= k && Used(s, org) + TicketsOf(s.inFlight, org) <= limit + k - 1
  }

  /** A new month starts with an empty counter. */
  lemma NewMonthIsEmpty(s: State, day: CalendarDate, org: nat)
    requires Metered(s.db, s.today) && !Before(day, s.today) && PeriodOf(day) != PeriodOf(s.today)
    ensures Count(s.db.usage, (org, PeriodOf(day))) == 0
  {
    NothingCounted(s.db.certificates, org, PeriodOf(day));
    assert Count(s.db.usage, (org, PeriodOf(day))) == PeriodCount(s.db.certificates, org, PeriodOf(day));
  }

  lemma LandUsage(k: nat, s: State, i: nat, org: nat)
    requires i < |s.inFlight|
    ensures var t := Next(k, s, Land(i));
            Used(t, org) <= Used(s, org) + if s.inFlight[i].request.org == org then 1 else 0
  {
    var r := Commit(s.db, s.inFlight[i], s.today);
    if r.Ok? {
      LandedShape(s.db, s.inFlight[i], s.today, r.value);
    }
    hide Commit, NumberText;
  }

  lemma OtherUsage(k: nat, s: State, step: Step, org: nat)
    requires Enabled(k, s, step) && !step.Land? && !step.NewDay?
    ensures Used(Next(k, s, step), org) == Used(s, org)
  {
    hide Admit;
  }

  lemma BoundStep(k: nat, s: State, step: Step, org: nat, limit: int)
    requires k >= 1 && limit >= 1 && Enabled(k, s, step) && Metered(s.db, s.today)
    requires WithinBound(k, s, org, limit)
    requires step.Begin? && step.request.org == org ==> step.limit == limit
    ensures WithinBound(k, Next(k, s, step), org, limit)
  {
    match step
    case Begin(request, _) =>
      OtherUsage(k, s, step, org);
      var admission := Admit(s.db, request, step.limit, s.today);
      if admission.Admitted? {
        TicketsConcat(s.inFlight, [admission.ticket], org);
        assert TicketsOf([admission.ticket], org) == if request.org == org then 1 else 0;
      }
    case Land(i) =>
      LandUsage(k, s, i, org);
      TicketsRemove(s.inFlight, i, org);
      hide Commit;
    case Abort(i) =>
      OtherUsage(k, s, step, org);
      TicketsRemove(s.inFlight, i, org);
    case NewDay(day) =>
      if PeriodOf(day) != PeriodOf(s.today) {
        NewMonthIsEmpty(s, day, org);
      }
    case _ =>
      OtherUsage(k, s, step, org);
      hide RevokeSeeing, SaveVersion;
  }

  lemma {:induction false} BoundRun(k: nat, s: State, steps: seq<Step>, t: State, org: nat, limit: int)
    requires k >= 1 && limit >= 1 && Sound(s) && WithinBound(k, s, org, limit)
    requires FixedLimit(steps, org, limit) && Execute(k, s, steps) == Some(t)
    ensures WithinBound(k, t, org, limit)
    decreases |steps|
  {
    if steps != [] {
      var mid := Next(k, s, steps[0]);
      BoundStep(k, s, steps[0], org, limit);
      SoundStep(k, s, steps[0]);
      assert FixedLimit(steps[1..], org, limit);
      hide Sound, Next, Enabled, WithinBound;
      BoundRun(k, mid, steps[1..], t, org, limit);
    }
  }

  /**
   With at most k issuances in flight the month's counter stays at or below limit + k - 1, also
   when a month ends between check and commit; one at a time it never passes the limit. The
   counter is the number of certificates committed in the month.
   */
  lemma {:induction false} QuotaHolds(k: nat, s: State, steps: seq<Step>, t: State, org: nat, limit: int)
    requires k >= 1 && limit >= 1 && Sound(s) && s.inFlight == [] && Used(s, org) <= limit
    requires FixedLimit(steps, org, limit) && Execute(k, s, steps) == Some(t)
    ensures Used(t, org) <= limit + k - 1
    ensures k == 1 ==> Used(t, org) <= limit
    ensures Used(t, org) == PeriodCount(t.db.certificates, org, PeriodOf(t.today))
  {
    BoundRun(k, s, steps, t, org, limit);
    RunIsSound(k, s, steps, t);
    hide Execute, Hashed, Numbered, Logged;
    assert Count(t.db.usage, (org, PeriodOf(t.today))) == PeriodCount(t.db.certificates, org, PeriodOf(t.today));
  }

  // ------------------------------------------------ the bound is reached

  /** Every date in play lies in years 1000 to 9999. */
  predicate ModernDates(db: Database, org: nat) {
    forall i | 0 <= i < |db.certificates| && db.certificates[i].org == org :: db.certificates[i].issueDate.year >= 1000
  }

  /** With a free number the commit succeeds exactly when name, version and dates are in order. */
  lemma CommitDecided(db: Database, ticket: Ticket, today: CalendarDate)
    requires ticket.request.idempotencyKey == ""
    requires var v := ResolveValidity(ticket.request, today);
             v.Ok? ==> !NumberUsed(db.certificates, ticket.request.org,
                                   NumberText(EffectivePrefix(ticket.organization.numberPrefix), v.value.issueDate.year,
                                              Count(db.sequences, (ticket.request.org, v.value.issueDate.year)) + 1))
    ensures Commit(db, ticket, today).Ok? <==>
            && Strip(ticket.request.fullName) != "" && ticket.template.currentVersion.Some?
            && ResolveValidity(ticket.request, today).Ok?
  {
    hide NumberText, EffectivePrefix, NumberUsed, FindKey, UpsertRecipient, ResolveValidity, Strip, Lower, NewCertificate;
  }

  lemma LandedYear(db: Database, ticket: Ticket, today: CalendarDate, after: Database)
    requires Landed(db, ticket, today, after) && after.certificates != []
    ensures var v := ResolveValidity(ticket.request, today); v.Ok? && Newest(after).issueDate == v.value.issueDate
  {
    hide NumberText, EffectivePrefix, NumberUsed, FindKey, UpsertRecipient, ResolveValidity, Strip, Lower;
  }

  lemma QuotaLanded(db: Database, request: Request, today: CalendarDate, after: Database)
    requires Numbered(db) && ModernDates(db, request.org)
    requires request.org in db.orgs && request.template in db.templates
    requires Landed(db, Ticket(request, db.orgs[request.org], db.templates[request.template]), today, after)
    requires var v := ResolveValidity(request, today); v.Ok? ==> v.value.issueDate.year >= 1000
    ensures Numbered(after) && ModernDates(after, request.org)
    ensures after.orgs == db.orgs && after.templates == db.templates
    ensures |after.certificates| == |db.certificates| + 1
    ensures UsedIn(after, request.org, today) == UsedIn(db, request.org, today) + 1
  {
    var ticket := Ticket(request, db.orgs[request.org], db.templates[request.template]);
    LandedShape(db, ticket, today, after);
    LandedNumbers(db, ticket, today, after);
    LandedYear(db, ticket, today, after);
    hide Numbered, Landed, NumberText, NumberUsed, FindKey, ResolveValidity;
  }

  /** A request that fails for no reason but the quota, again and again. */
  predicate Repeatable(db: Database, request: Request, today: CalendarDate) {
    && request.idempotencyKey == ""
    && request.org in db.orgs && db.orgs[request.org].issuanceEnabled && !db.orgs[request.org].suspended
    && request.template in db.templates && db.templates[request.template].currentVersion.Some?
    && Strip(request.fullName) != ""
    && ModernDates(db, request.org)
    && var v := ResolveValidity(request, today); v.Ok? && v.value.issueDate.year >= 1000
  }

  function TicketFor(db: Database, request: Request): Ticket
    requires request.org in db.orgs && request.template in db.templates
  {
    Ticket(request, db.orgs[request.org], db.templates[request.template])
  }

  lemma RepeatableLands(db: Database, request: Request, today: CalendarDate)
    requires Numbered(db) && Repeatable(db, request, today)
    ensures var r := Commit(db, TicketFor(db, request), today);
            && r.Ok? && Numbered(r.value) && Repeatable(r.value, request, today)
            && TicketFor(r.value, request) == TicketFor(db, request)
            && UsedIn(r.value, request.org, today) == UsedIn(db, request.org, today) + 1
  {
    hide NumberText, Strip, FindKey, NumberUsed, Commit, ResolveValidity, UsedIn;
    var ticket, validity := TicketFor(db, request), ResolveValidity(request, today);
    FreeNumber(db, request.org, EffectivePrefix(ticket.organization.numberPrefix), validity.value.issueDate.year);
    CommitDecided(db, ticket, today);
    hide ModernDates, Numbered;
    QuotaLanded(db, request, today, Commit(db, ticket, today).value);
  }

  /** The state is ready to issue the request, with some copies of its ticket in flight. */
  ghost predicate Ready(s: State, request: Request) {
    && Numbered(s.db) && Repeatable(s.db, request, s.today)
    && forall i | 0 <= i < |s.inFlight| :: s.inFlight[i] == TicketFor(s.db, request)
  }

  lemma {:induction false} OneStep(k: nat, s: State, step: Step, rest: seq<Step>)
    requires Enabled(k, s, step)
    ensures Execute(k, s, [step] + rest) == Execute(k, Next(k, s, step), rest)
  {
    assert ([step] + rest)[1..] == rest;
  }

  lemma {:induction false} ExecuteTwice(k: nat, s: State, first: seq<Step>, mid: State, second: seq<Step>)
    requires Execute(k, s, first) == Some(mid)
    ensures Execute(k, s, first + second) == Execute(k, mid, second)
    decreases |first|
  {
    hide Next, Enabled;
    if first == [] {
      assert first + second == second;
    } else {
      assert (first + second)[1..] == first[1..] + second;
      ExecuteTwice(k, Next(k, s, first[0]), first[1..], mid, second);
    }
  }

  /** While quota is left, any number of issuances can begin before one lands. */
  lemma {:induction false} BeginMany(k: nat, s: State, request: Request, limit: int, n: nat)
      returns (steps: seq<Step>, t: State)
    requires Ready(s, request) && Used(s, request.org) < limit && |s.inFlight| + n <= k
    ensures Execute(k, s, steps) == Some(t) && FixedLimit(steps, request.org, limit)
    ensures Ready(t, request) && |t.inFlight| == |s.inFlight| + n && Used(t, request.org) == Used(s, request.org)
    decreases n
  {
    steps, t := [], s;
    if n > 0 {
      var begin := Begin(request, limit);
      var next := s.(inFlight := s.inFlight + [TicketFor(s.db, request)]);
      assert Next(k, s, begin) == next;
      hide Next, Repeatable, Numbered;
      var rest;
      rest, t := BeginMany(k, next, request, limit, n - 1);
      OneStep(k, s, begin, rest);
      steps := [begin] + rest;
    }
  }

  lemma LandFirst(k: nat, s: State, request: Request)
    requires Ready(s, request) && s.inFlight != []
    ensures var t := Next(k, s, Land(0));
            && Ready(t, request) && |t.inFlight| == |s.inFlight| - 1
            && Used(t, request.org) == Used(s, request.org) + 1
  {
    RepeatableLands(s.db, request, s.today);
    hide Commit, Repeatable, Numbered, UsedIn;
    var t := Next(k, s, Land(0));
    assert forall i | 0 <= i < |t.inFlight| :: t.inFlight[i] == s.inFlight[i + 1];
  }

  /** Every issuance that began lands and counts, whatever the counter reads by then. */
  lemma {:induction false} LandAll(k: nat, s: State, request: Request) returns (steps: seq<Step>, t: State)
    requires Ready(s, request)
    ensures Execute(k, s, steps) == Some(t) && forall i | 0 <= i < |steps| :: !steps[i].Begin?
    ensures Ready(t, request) && t.inFlight == [] && Used(t, request.org) == Used(s, request.org) + |s.inFlight|
    decreases |s.inFlight|
  {
    steps, t := [], s;
    if s.inFlight != [] {
      LandFirst(k, s, request);
      assert Enabled(k, s, Land(0));
      hide Next, Ready;
      var rest;
      rest, t := LandAll(k, Next(k, s, Land(0)), request);
      OneStep(k, s, Land(0), rest);
      steps := [Land(0)] + rest;
    }
  }

  lemma IssueTogether(k: nat, s: State, request: Request, limit: int, n: nat) returns (steps: seq<Step>, t: State)
    requires Ready(s, request) && s.inFlight == [] && Used(s, request.org) < limit && n <= k
    ensures Execute(k, s, steps) == Some(t) && FixedLimit(steps, request.org, limit)
    ensures Ready(t, request) && t.inFlight == [] && Used(t, request.org) == Used(s, request.org) + n
  {
    var begins, mid := BeginMany(k, s, request, limit, n);
    var lands;
    lands, t := LandAll(k, mid, request);
    ExecuteTwice(k, s, begins, mid, lands);
    steps := begins + lands;
  }

  /**
   `QuotaHolds` is exact: from any sound state with quota left, some run with k issuances in flight
   brings the counter to limit + k - 1.
   */
  lemma {:induction false} QuotaBoundReached(k: nat, s: State, request: Request, limit: int)
      returns (steps: seq<Step>, t: State)
    requires k >= 1 && Ready(s, request) && s.inFlight == [] && Used(s, request.org) < limit
    ensures Execute(k, s, steps) == Some(t) && FixedLimit(steps, request.org, limit)
    ensures Used(t, request.org) == limit + k - 1
    decreases limit - Used(s, request.org)
  {
    if Used(s, request.org) == limit - 1 {
      steps, t := IssueTogether(k, s, request, limit, k);
    } else {
      var one, mid := IssueTogether(k, s, request, limit, 1);
      var rest;
      rest, t := QuotaBoundReached(k, mid, request, limit);
      ExecuteTwice(k, s, one, mid, rest);
      steps := one + rest;
    }
  }

  // ------------------------------------------------------- hashes and canvas

  /** The stored hash equals the one recomputed from today's rows. */
  predicate HashMatches(db: Database, i: nat)
    requires i < |db.certificates| && db.certificates[i].recipient < |db.recipients|
  {
    db.certificates[i].integrityHash == Sha256(CanonicalPayload(db, i))
  }

  lemma {:induction false} LatestExists(certificates: seq<Certificate>, i: nat) returns (j: nat)
    requires i < |certificates|
    ensures i <= j < |certificates| && certificates[j].recipient == certificates[i].recipient
    ensures LatestForRecipient(certificates, j)
    decreases |certificates| - i
  {
    if LatestForRecipient(certificates, i) {
      j := i;
    } else {
      var m :| i < m < |certificates| && certificates[m].recipient == certificates[i].recipient;
      j := LatestExists(certificates, m);
    }
  }

  /**
   The hash verifies exactly while the recipient still has the name of issue, through renamed
   organizations, new prefixes, new template versions and revocations. When it does not, a later
   certificate of the same recipient carries the new name.
   */
  lemma {:induction false} HashBreaksOnlyByRename(k: nat, s: State, steps: seq<Step>, t: State, i: nat)
    requires Sound(s) && Execute(k, s, steps) == Some(t) && i < |t.db.certificates|
    ensures t.db.certificates[i].recipient < |t.db.recipients|
    ensures HashMatches(t.db, i) <==> NameIsCurrent(t.db, i)
    ensures !HashMatches(t.db, i) ==>
              exists j | i < j < |t.db.certificates| ::
                && t.db.certificates[j].recipient == t.db.certificates[i].recipient
                && NameIsCurrent(t.db, j)
                && NameAtIssue(t.db.certificates[j]) != NameAtIssue(t.db.certificates[i])
  {
    RunIsSound(k, s, steps, t);
    hide Execute, Numbered, Metered, Logged;
    assert Sealed(t.db, i);
    var j := LatestExists(t.db.certificates, i);
    assert NameIsCurrent(t.db, j);
  }

  function CanvasOf(db: Database, i: nat): string
    requires i < |db.certificates| && db.certificates[i].templateVersion < |db.versions|
  {
    db.versions[db.certificates[i].templateVersion].canvas
  }

  /** An issued certificate keeps its number, recipient, dates, hash and the canvas it was issued with. */
  lemma {:induction false} CertificateKeepsCanvas(k: nat, s: State, steps: seq<Step>, t: State, i: nat)
    requires Sound(s) && Execute(k, s, steps) == Some(t) && i < |s.db.certificates|
    ensures i < |t.db.certificates| && Identity(t.db.certificates[i]) == Identity(s.db.certificates[i])
    ensures s.db.certificates[i].templateVersion < |s.db.versions|
    ensures t.db.certificates[i].templateVersion < |t.db.versions|
    ensures CanvasOf(t.db, i) == CanvasOf(s.db, i)
  {
    RunIsSound(k, s, steps, t);
    hide Execute, Numbered, Metered, Logged;
    assert Sealed(s.db, i) && Sealed(t.db, i);
    assert Identity(t.db.certificates[i]) == Identity(s.db.certificates[i]);
  }

  // ----------------------------------------------------------- public status

  function Rank(p: PublicStatus): int {
    match p
    case Active => 0
    case PublicExpired => 1
    case _ => 2
  }

  /** A revoked certificate stays revoked, with its reason and time while it is not rewritten. */
  ghost predicate RevocationKept(s: State, t: State) {
    && |s.db.certificates| <= |t.db.certificates| && s.rewrites <= t.rewrites
    && forall i | 0 <= i < |s.db.certificates| && s.db.certificates[i].status == Revoked ::
         && t.db.certificates[i].status == Revoked
         && (s.rewrites[i] == t.rewrites[i] ==> t.db.certificates[i] == s.db.certificates[i])
  }

  lemma RevocationStep(k: nat, s: State, step: Step)
    requires Enabled(k, s, step)
    ensures RevocationKept(s, Next(k, s, step)) && !Before(Next(k, s, step).today, s.today)
  {
    if step.Land? {
      var r := Commit(s.db, s.inFlight[step.ticket], s.today);
      if r.Ok? {
        LandedShape(s.db, s.inFlight[step.ticket], s.today, r.value);
      }
      hide Commit;
    } else {
      hide Admit;
    }
  }

  lemma KeptTwice(s: State, mid: State, t: State)
    requires RevocationKept(s, mid) && RevocationKept(mid, t)
    ensures RevocationKept(s, t)
  {
    forall i | 0 <= i < |s.db.certificates| && s.db.certificates[i].status == Revoked
      ensures t.db.certificates[i].status == Revoked
      ensures s.rewrites[i] == t.rewrites[i] ==> t.db.certificates[i] == s.db.certificates[i]
    {
      assert mid.db.certificates[i].status == Revoked;
      assert s.rewrites[i] <= mid.rewrites[i] <= t.rewrites[i];
    }
  }

  lemma {:induction false} RevocationRun(k: nat, s: State, steps: seq<Step>, t: State)
    requires Execute(k, s, steps) == Some(t)
    ensures RevocationKept(s, t) && !Before(t.today, s.today)
    decreases |steps|
  {
    if steps != [] {
      var mid := Next(k, s, steps[0]);
      RevocationStep(k, s, steps[0]);
      hide Next, Enabled, RevocationKept;
      RevocationRun(k, mid, steps[1..], t);
      KeptTwice(s, mid, t);
    }
  }

  /** Revoked wins; otherwise the status is expired from the day after the expiry day. */
  lemma PublicStatusMeaning(c: Certificate, today: CalendarDate)
    requires ProperStatus(c)
    ensures PublicStatusOf(c, today) in {Active, PublicExpired, PublicRevoked}
    ensures PublicStatusOf(c, today) == PublicRevoked <==> c.status == Revoked
    ensures PublicStatusOf(c, today) == PublicExpired <==>
              c.status != Revoked && c.expiryDate.Some? && Before(c.expiryDate.value, today)
  {
  }

  lemma LaterRank(c: Certificate, later: Certificate, today: CalendarDate, day: CalendarDate)
    requires ProperStatus(c) && ProperStatus(later) && Identity(later) == Identity(c)
    requires c.status == Revoked ==> later.status == Revoked
    requires !Before(day, today)
    ensures Rank(PublicStatusOf(c, today)) <= Rank(PublicStatusOf(later, day))
  {
  }

  /**
   The public status only moves from active over expired to revoked, and a certificate reads expired
   exactly after its expiry day unless it is revoked. A revocation keeps its reason and time until a
   stale copy rewrites it, and the revoked events are the first revocation plus those rewrites: one
   event exactly when there was none.
   */
  lemma {:induction false} PublicStatusMovesForward(k: nat, s: State, steps: seq<Step>, t: State, i: nat)
    requires Sound(s) && Execute(k, s, steps) == Some(t) && i < |s.db.certificates|
    ensures i < |t.db.certificates|
    ensures Rank(PublicStatusOf(s.db.certificates[i], s.today)) <= Rank(PublicStatusOf(t.db.certificates[i], t.today))
    ensures PublicStatusOf(t.db.certificates[i], t.today) in {Active, PublicExpired, PublicRevoked}
    ensures PublicStatusOf(t.db.certificates[i], t.today) == PublicExpired <==>
              var c := t.db.certificates[i];
              c.status != Revoked && c.expiryDate.Some? && Before(c.expiryDate.value, t.today)
    ensures s.db.certificates[i].status == Revoked && t.rewrites[i] == s.rewrites[i] ==>
              t.db.certificates[i].revokedAt == s.db.certificates[i].revokedAt
              && t.db.certificates[i].revokeReason == s.db.certificates[i].revokeReason
    ensures EventCount(t.db.events, Event(i, RevokedEvent))
         == t.rewrites[i] + if t.db.certificates[i].status == Revoked then 1 else 0
  {
    RunIsSound(k, s, steps, t);
    RevocationRun(k, s, steps, t);
    var revoked := Event(i, RevokedEvent);
    assert EventCount(t.db.events, revoked) == Owed(t.db.certificates, revoked) + Extra(t.rewrites, revoked);
    assert ProperStatus(s.db.certificates[i]) && ProperStatus(t.db.certificates[i]);
    assert Identity(t.db.certificates[i]) == Identity(s.db.certificates[i]);
    hide Execute, Sound, EventCount, PublicStatusOf, Identity, Before;
    PublicStatusMeaning(t.db.certificates[i], t.today);
    LaterRank(s.db.certificates[i], t.db.certificates[i], s.today, t.today);
  }
}
