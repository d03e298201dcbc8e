/** What one run of a batch leaves behind: exact accounts, and exactly the rows the quota allows. */
module BulkGuarantees {
  import opened Basics
  import opened Text
  import opened Calendar
  import opened IsoDates
  import opened Numbering
  import opened Issuance
  import opened IssuanceRuns
  import opened IssuanceGuarantees
  import opened BulkIssuance

  predicate Raised(item: Item) {
    item.status == ItemFailed && item.errors == [EnqueueFailed]
  }

  function IssuedCount(items: seq<Item>): (n: nat)
    ensures n <= |items|
  {
    if items == [] then 0
    else IssuedCount(items[..|items| - 1]) + if items[|items| - 1].status == ItemIssued then 1 else 0
  }

  function RaisedCount(items: seq<Item>): nat {
    if items == [] then 0
    else RaisedCount(items[..|items| - 1]) + if Raised(items[|items| - 1]) then 1 else 0
  }

  function BatchCount(certificates: seq<Certificate>, id: nat): nat {
    if certificates == [] then 0
    else BatchCount(certificates[..|certificates| - 1], id)
         + if certificates[|certificates| - 1].batch == Some(id) then 1 else 0
  }

  /** A request without a key either fails and changes nothing or lands one new certificate. */
  lemma IssueEffect(db: Database, request: Request, limit: int, today: CalendarDate)
    requires request.idempotencyKey == ""
    ensures var r := Issue(db, request, limit, today);
            match r.outcome
            case Err(_) => r.db == db
            case Ok(id) =>
              && id == |db.certificates|
              && request.org in db.orgs && request.template in db.templates
              && Landed(db, Ticket(request, db.orgs[request.org], db.templates[request.template]), today, r.db)
  {
    hide Commit, FindKey;
  }

  lemma NoRaiseAmong(mapped: map<string, string>)
    ensures RowErrors(mapped) != [EnqueueFailed]
  {
    if RowErrors(mapped) != [] {
      assert RowErrors(mapped)[0].Problem?;
    }
  }

  /** The ticket a row's issuance works with. */
  function RowTicket(spec: BatchSpec, db: Database, item: Item): Ticket
    requires spec.org in db.orgs && spec.template in db.templates
  {
    Ticket(RowRequest(spec, Mapped(item.payload, spec.mapping)), db.orgs[spec.org], db.templates[spec.template])
  }

  /** The row was not issued: no table changed. */
  predicate RowRefused(p: Progress, q: Progress, done: Item) {
    && q.db == p.db && q.success == p.success && q.errors == p.errors + 1
    && done.status != ItemIssued && !Raised(done)
  }

  /** The row was issued; it counts as an error as well when the email enqueue raised. */
  ghost predicate RowIssued(spec: BatchSpec, today: CalendarDate, p: Progress, q: Progress, item: Item, done: Item) {
    && spec.org in p.db.orgs && spec.template in p.db.templates
    && Landed(p.db, RowTicket(spec, p.db, item), today, q.db)
    && done.certificate == Some(|p.db.certificates|)
    && q.success == p.success + 1
    && ((done.status == ItemIssued && q.errors == p.errors) || (Raised(done) && q.errors == p.errors + 1))
  }

  function LastItem(p: Progress): Item
    requires p.items != []
  {
    p.items[|p.items| - 1]
  }

  lemma RowEffect(spec: BatchSpec, setting: Setting, p: Progress, item: Item)
    ensures var q := ProcessRow(spec, setting, p, item);
            && q.items != [] && q.items == p.items + [LastItem(q)]
            && (RowRefused(p, q, LastItem(q)) || RowIssued(spec, setting.today, p, q, item, LastItem(q)))
    ensures var mapped := Mapped(item.payload, spec.mapping);
            ProcessRow(spec, setting, p, item).success == p.success + 1 <==>
            RowErrors(mapped) == [] && Issue(p.db, RowRequest(spec, mapped), setting.limit, setting.today).outcome.Ok?
  {
    hide Issue, RowErrors, Mapped, EnqueueRaises, Landed;
    var mapped := Mapped(item.payload, spec.mapping);
    NoRaiseAmong(mapped);
    IssueEffect(p.db, RowRequest(spec, mapped), setting.limit, setting.today);
  }

  // --------------------------------------------------------------- accounts

  /** The books of a batch after any number of rows. */
  ghost predicate Balanced(spec: BatchSpec, db: Database, p: Progress) {
    && p.success == IssuedCount(p.items) + RaisedCount(p.items)
    && p.errors == |p.items| - IssuedCount(p.items)
    && |p.db.certificates| == |db.certificates| + p.success
    && BatchCount(p.db.certificates, spec.id) == BatchCount(db.certificates, spec.id) + p.success
    && (forall i | 0 <= i < |p.items| && p.items[i].status == ItemIssued ::
          && p.items[i].certificate.Some?
          && |db.certificates| <= p.items[i].certificate.value < |p.db.certificates|
          && p.db.certificates[p.items[i].certificate.value].batch == Some(spec.id))
  }

  lemma {:induction false} ItemAdded(items: seq<Item>, item: Item)
    ensures IssuedCount(items + [item]) == IssuedCount(items) + if item.status == ItemIssued then 1 else 0
    ensures RaisedCount(items + [item]) == RaisedCount(items) + if Raised(item) then 1 else 0
  {
    assert (items + [item])[..|items|] == items;
  }

  lemma {:induction false} CertificateAdded(certificates: seq<Certificate>, c: Certificate, id: nat)
    ensures BatchCount(certificates + [c], id) == BatchCount(certificates, id) + if c.batch == Some(id) then 1 else 0
  {
    assert (certificates + [c])[..|certificates|] == certificates;
  }

  lemma BalancedRow(spec: BatchSpec, setting: Setting, db: Database, p: Progress, item: Item)
    requires Balanced(spec, db, p)
    ensures Balanced(spec, db, ProcessRow(spec, setting, p, item))
  {
    hide ProcessRow, Landed, IssuedCount, RaisedCount, BatchCount, Raised, Issue, RowErrors, Mapped;
    var q := ProcessRow(spec, setting, p, item);
    RowEffect(spec, setting, p, item);
    ItemAdded(p.items, LastItem(q));
    if RowIssued(spec, setting.today, p, q, item, LastItem(q)) {
      LandedShape(p.db, RowTicket(spec, p.db, item), setting.today, q.db);
      hide NumberText, NumberUsed, FindKey, Mapped;
      CertificateAdded(p.db.certificates, Newest(q.db), spec.id);
      StatusExcludesRaise(LastItem(q));
    }
  }

  lemma StatusExcludesRaise(item: Item)
    ensures item.status == ItemIssued ==> !Raised(item)
  {
  }

  lemma {:induction false} BalancedRun(spec: BatchSpec, setting: Setting, db: Database, items: seq<Item>)
    ensures Balanced(spec, db, RunRows(spec, setting, db, items))
  {
    hide ProcessRow;
    if items != [] {
      var front := items[..|items| - 1];
      BalancedRun(spec, setting, db, front);
      BalancedRow(spec, setting, db, RunRows(spec, setting, db, front), items[|items| - 1]);
    }
  }

  lemma {:induction false} ReportLength(items: seq<Item>)
    ensures |Report(items, ItemIssued)| == |items| - IssuedCount(items)
  {
    if items != [] {
      ReportLength(items[..|items| - 1]);
    }
  }

  /** The report names exactly the rows without the good status, each with its own errors. */
  lemma {:induction false} ReportLists(items: seq<Item>, good: ItemStatus, line: ReportLine)
    ensures line in Report(items, good) <==>
            exists i | 0 <= i < |items| :: items[i].status != good && line == ReportLine(items[i].rowNumber, items[i].errors)
  {
    if items != [] {
      var n := |items| - 1;
      ReportLists(items[..n], good, line);
      assert forall i | 0 <= i < n :: items[..n][i] == items[i];
    }
  }

  /**
   Exact accounts of a batch. A row whose email enqueue raised counts as a success and as an
   error, has a certificate, and is not ISSUED; every other row counts once. The report has one
   line for every row that is not ISSUED.
   */
  lemma {:induction false} BatchAccounts(spec: BatchSpec, setting: Setting, db: Database, items: seq<Item>)
    ensures var p := RunRows(spec, setting, db, items);
            && |p.items| == |items|
            && p.success == IssuedCount(p.items) + RaisedCount(p.items)
            && p.success + p.errors == |items| + RaisedCount(p.items)
            && BatchCount(p.db.certificates, spec.id) == BatchCount(db.certificates, spec.id) + p.success
            && |Report(p.items, ItemIssued)| == p.errors
            && (FinalStatus(p) == Completed <==> forall i | 0 <= i < |p.items| :: p.items[i].status == ItemIssued)
            && (FinalStatus(p) == BatchFailed <==> p.errors > 0 && |p.db.certificates| == |db.certificates|)
  {
    var p := RunRows(spec, setting, db, items);
    BalancedRun(spec, setting, db, items);
    RunLength(spec, setting, db, items);
    ReportLength(p.items);
    AllIssued(p.items);
  }

  lemma {:induction false} AllIssued(items: seq<Item>)
    ensures IssuedCount(items) == |items| <==> forall i | 0 <= i < |items| :: items[i].status == ItemIssued
  {
    if items != [] {
      var n := |items| - 1;
      AllIssued(items[..n]);
      assert forall i | 0 <= i < n :: items[..n][i] == items[i];
    }
  }

  lemma {:induction false} NoneRaised(spec: BatchSpec, setting: Setting, db: Database, items: seq<Item>)
    requires !spec.sendEmail || forall row :: !setting.enqueueFails(row)
    ensures RaisedCount(RunRows(spec, setting, db, items).items) == 0
  {
    if items != [] {
      var front := items[..|items| - 1];
      NoneRaised(spec, setting, db, front);
      var p := RunRows(spec, setting, db, front);
      var q := ProcessRow(spec, setting, p, items[|items| - 1]);
      RowEffect(spec, setting, p, items[|items| - 1]);
      ItemAdded(p.items, LastItem(q));
      RowNotRaised(spec, setting, p, items[|items| - 1]);
      hide ProcessRow, RaisedCount, Raised;
      assert q == RunRows(spec, setting, db, items);
    }
  }

  lemma RowNotRaised(spec: BatchSpec, setting: Setting, p: Progress, item: Item)
    requires !spec.sendEmail || !setting.enqueueFails(|p.items|)
    ensures ProcessRow(spec, setting, p, item).items != [] && !Raised(LastItem(ProcessRow(spec, setting, p, item)))
  {
    NoRaiseAmong(Mapped(item.payload, spec.mapping));
    hide Issue, RowErrors, Mapped;
  }

  /** When no enqueue raises, every row counts exactly once and success is the issued items and the new certificates. */
  lemma {:induction false} QuietBatchAccounts(spec: BatchSpec, setting: Setting, db: Database, items: seq<Item>)
    requires !spec.sendEmail || forall row :: !setting.enqueueFails(row)
    requires BatchCount(db.certificates, spec.id) == 0
    ensures var p := RunRows(spec, setting, db, items);
            && p.success + p.errors == |items|
            && p.success == IssuedCount(p.items) == BatchCount(p.db.certificates, spec.id)
  {
    NoneRaised(spec, setting, db, items);
    BatchAccounts(spec, setting, db, items);
  }

  // ------------------------------------------------------------------ quota

  /** The row would be issued if there were quota: it validates, its raw date parses, and nothing else forbids it. */
  predicate Issuable(spec: BatchSpec, db: Database, today: CalendarDate, item: Item) {
    var mapped := Mapped(item.payload, spec.mapping);
    && RowErrors(mapped) == []
    && spec.org in db.orgs && db.orgs[spec.org].issuanceEnabled && !db.orgs[spec.org].suspended
    && spec.template in db.templates && db.templates[spec.template].currentVersion.Some?
    && Strip(NameOf(mapped)) != ""
    && ResolveValidity(RowRequest(spec, mapped), today).Ok?
  }

  function IssuableCount(spec: BatchSpec, db: Database, today: CalendarDate, items: seq<Item>): nat {
    if items == [] then 0
    else IssuableCount(spec, db, today, items[..|items| - 1])
         + if Issuable(spec, db, today, items[|items| - 1]) then 1 else 0
  }

  predicate ModernRow(spec: BatchSpec, today: CalendarDate, item: Item) {
    var v := ResolveValidity(RowRequest(spec, Mapped(item.payload, spec.mapping)), today);
    v.Ok? ==> v.value.issueDate.year >= 1000
  }

  /** Certificates the organization may still issue this month. */
  function Remaining(spec: BatchSpec, setting: Setting, db: Database): nat {
    var used := UsedIn(db, spec.org, setting.today);
    if used < setting.limit then setting.limit - used else 0
  }

  /** Without a key an issuance succeeds exactly when it is admitted and its commit succeeds. */
  lemma IssueDecided(db: Database, request: Request, limit: int, today: CalendarDate)
    requires request.idempotencyKey == "" && limit > 0
    ensures Issue(db, request, limit, today).outcome.Ok? <==>
            && request.org in db.orgs && request.template in db.templates
            && db.orgs[request.org].issuanceEnabled && !db.orgs[request.org].suspended
            && UsedIn(db, request.org, today) < limit
            && Commit(db, Ticket(request, db.orgs[request.org], db.templates[request.template]), today).Ok?
  {
    hide Commit, FindKey;
  }

  lemma RowCommitDecided(spec: BatchSpec, db: Database, today: CalendarDate, item: Item)
    requires Numbered(db) && ModernDates(db, spec.org) && ModernRow(spec, today, item)
    requires spec.org in db.orgs && spec.template in db.templates
    ensures var ticket := RowTicket(spec, db, item);
            Commit(db, ticket, today).Ok? <==>
            && Strip(ticket.request.fullName) != "" && ticket.template.currentVersion.Some?
            && ResolveValidity(ticket.request, today).Ok?
  {
    hide NumberText, Strip, Mapped, NameOf, FindKey, NumberUsed, Commit;
    var ticket := RowTicket(spec, db, item);
    var validity := ResolveValidity(ticket.request, today);
    if validity.Ok? {
      FreeNumber(db, spec.org, EffectivePrefix(ticket.organization.numberPrefix), validity.value.issueDate.year);
    }
    CommitDecided(db, ticket, today);
  }

  /** With quota to spare an issuable row is issued, and otherwise nothing is. */
  lemma RowDecided(spec: BatchSpec, db: Database, today: CalendarDate, limit: int, item: Item)
    requires Numbered(db) && ModernDates(db, spec.org) && ModernRow(spec, today, item) && limit > 0
    requires RowErrors(Mapped(item.payload, spec.mapping)) == []
    ensures var r := Issue(db, RowRequest(spec, Mapped(item.payload, spec.mapping)), limit, today);
            r.outcome.Ok? <==> Issuable(spec, db, today, item) && UsedIn(db, spec.org, today) < limit
  {
    hide Issue, Commit, Strip, Mapped, NameOf, ResolveValidity, RowErrors, Numbered;
    IssueDecided(db, RowRequest(spec, Mapped(item.payload, spec.mapping)), limit, today);
    if spec.org in db.orgs && spec.template in db.templates {
      RowCommitDecided(spec, db, today, item);
    }
  }

  /** The tables after some rows: as many numbers and counted issuances more as there were successes. */
  ghost predicate Advanced(spec: BatchSpec, today: CalendarDate, db: Database, p: Progress) {
    && Numbered(p.db) && ModernDates(p.db, spec.org)
    && p.db.orgs == db.orgs && p.db.templates == db.templates
    && |p.db.certificates| == |db.certificates| + p.success
    && UsedIn(p.db, spec.org, today) == UsedIn(db, spec.org, today) + p.success
  }

  /** State of the run after some rows, against the quota left at its start. */
  ghost predicate OnQuota(spec: BatchSpec, setting: Setting, db: Database, rows: seq<Item>, p: Progress) {
    && Advanced(spec, setting.today, db, p)
    && p.success == Min(Remaining(spec, setting, db),
                          IssuableCount(spec, db, setting.today, rows))
  }

  lemma SameOrganization(spec: BatchSpec, d: Database, e: Database, today: CalendarDate, item: Item)
    requires d.orgs == e.orgs && d.templates == e.templates
    ensures Issuable(spec, d, today, item) == Issuable(spec, e, today, item)
  {
  }

  lemma {:induction false} IssuableAdded(spec: BatchSpec, db: Database, today: CalendarDate, rows: seq<Item>, item: Item)
    ensures IssuableCount(spec, db, today, rows + [item])
         == IssuableCount(spec, db, today, rows) + if Issuable(spec, db, today, item) then 1 else 0
  {
    assert (rows + [item])[..|rows|] == rows;
    hide Issuable;
  }

  /** A row is issued if and only if it is issuable and the counter is below the limit. */
  lemma RowIssuedIff(spec: BatchSpec, setting: Setting, db: Database, p: Progress, item: Item)
    requires Numbered(p.db) && ModernDates(p.db, spec.org) && setting.limit > 0
    requires p.db.orgs == db.orgs && p.db.templates == db.templates
    requires ModernRow(spec, setting.today, item)
    ensures ProcessRow(spec, setting, p, item).success == p.success + 1 <==>
            Issuable(spec, db, setting.today, item) && UsedIn(p.db, spec.org, setting.today) < setting.limit
  {
    hide ProcessRow, Issue, Mapped, Numbered, UsedIn, RowErrors, ResolveValidity, Strip, NameOf, RowRequest;
    SameOrganization(spec, p.db, db, setting.today, item);
    RowEffect(spec, setting, p, item);
    if RowErrors(Mapped(item.payload, spec.mapping)) == [] {
      RowDecided(spec, p.db, setting.today, setting.limit, item);
    }
  }

  lemma AdvancedRow(spec: BatchSpec, setting: Setting, db: Database, p: Progress, item: Item)
    requires Advanced(spec, setting.today, db, p) && ModernRow(spec, setting.today, item)
    ensures Advanced(spec, setting.today, db, ProcessRow(spec, setting, p, item))
    ensures var q := ProcessRow(spec, setting, p, item);
            q.success == p.success + 1 || (q.success == p.success && q.db == p.db)
  {
    hide ProcessRow, Numbered, UsedIn, Landed, Raised, ModernDates, Issue, RowErrors, Mapped, ResolveValidity;
    var q := ProcessRow(spec, setting, p, item);
    RowEffect(spec, setting, p, item);
    if RowIssued(spec, setting.today, p, q, item, LastItem(q)) {
      QuotaLanded(p.db, RowTicket(spec, p.db, item).request, setting.today, q.db);
    }
  }

  /** One row keeps the books against the quota. */
  lemma {:induction false} QuotaRow(spec: BatchSpec, setting: Setting, db: Database, rows: seq<Item>, p: Progress, item: Item)
    requires OnQuota(spec, setting, db, rows, p) && setting.limit > 0
    requires ModernRow(spec, setting.today, item)
    ensures OnQuota(spec, setting, db, rows + [item], ProcessRow(spec, setting, p, item))
    ensures ProcessRow(spec, setting, p, item).success == p.success + 1 <==>
            Issuable(spec, db, setting.today, item)
            && IssuableCount(spec, db, setting.today, rows) < Remaining(spec, setting, db)
  {
    hide ProcessRow, Issuable, Numbered, UsedIn, IssuableCount, ModernDates, ModernRow;
    IssuableAdded(spec, db, setting.today, rows, item);
    AdvancedRow(spec, setting, db, p, item);
    RowIssuedIff(spec, setting, db, p, item);
  }

  /** Row `i` is issuable, and fewer issuable rows come before it than quota was left at the start. */
  predicate QuotaReaches(spec: BatchSpec, setting: Setting, db: Database, items: seq<Item>, i: nat)
    requires i < |items|
  {
    && Issuable(spec, db, setting.today, items[i])
    && IssuableCount(spec, db, setting.today, items[..i]) < Remaining(spec, setting, db)
  }

  lemma {:induction false} QuotaRun(spec: BatchSpec, setting: Setting, db: Database, items: seq<Item>)
    requires Numbered(db) && ModernDates(db, spec.org) && setting.limit > 0
    requires forall i | 0 <= i < |items| :: ModernRow(spec, setting.today, items[i])
    ensures OnQuota(spec, setting, db, items, RunRows(spec, setting, db, items))
  {
    hide ProcessRow, ModernRow, Numbered, ModernDates, Issuable, UsedIn;
    if items != [] {
      var n := |items| - 1;
      QuotaRun(spec, setting, db, items[..n]);
      hide OnQuota;
      QuotaRow(spec, setting, db, items[..n], RunRows(spec, setting, db, items[..n]), items[n]);
      assert items[..n] + [items[n]] == items;
    }
  }

  lemma RowAppends(spec: BatchSpec, setting: Setting, p: Progress, item: Item)
    ensures var q := ProcessRow(spec, setting, p, item);
            q.items != [] && q.items[..|q.items| - 1] == p.items
  {
    hide Issue, RowErrors, Mapped, EnqueueRaises;
  }

  /** Later rows leave the items of earlier rows as they are. */
  lemma {:induction false} RowStays(spec: BatchSpec, setting: Setting, db: Database, items: seq<Item>, i: nat)
    requires i < |items|
    ensures |RunRows(spec, setting, db, items).items| == |items|
    ensures |RunRows(spec, setting, db, items[..i + 1]).items| == i + 1
    ensures RunRows(spec, setting, db, items).items[i] == LastItem(RunRows(spec, setting, db, items[..i + 1]))
  {
    hide ProcessRow;
    var n := |items| - 1;
    var q := RunRows(spec, setting, db, items);
    RowAppends(spec, setting, RunRows(spec, setting, db, items[..n]), items[n]);
    hide RunRows;
    if i < n {
      RowStays(spec, setting, db, items[..n], i);
      assert items[..n][..i + 1] == items[..i + 1];
      assert q.items[..|q.items| - 1][i] == q.items[i];
    } else {
      RunLength(spec, setting, db, items);
      assert items[..i + 1] == items;
    }
  }

  lemma {:induction false} RunLength(spec: BatchSpec, setting: Setting, db: Database, items: seq<Item>)
    ensures |RunRows(spec, setting, db, items).items| == |items|
  {
    hide ProcessRow;
    if items != [] {
      var n := |items| - 1;
      RunLength(spec, setting, db, items[..n]);
      RowAppends(spec, setting, RunRows(spec, setting, db, items[..n]), items[n]);
    }
  }

  lemma QuotaAt(spec: BatchSpec, setting: Setting, db: Database, items: seq<Item>, i: nat, p: Progress)
    requires i < |items| && OnQuota(spec, setting, db, items[..i], p)
    requires setting.limit > 0 && ModernRow(spec, setting.today, items[i])
    ensures var q := ProcessRow(spec, setting, p, items[i]);
            && q.items != []
            && ((LastItem(q).status == ItemIssued || Raised(LastItem(q))) <==> QuotaReaches(spec, setting, db, items, i))
  {
    hide ProcessRow, OnQuota, Issuable, IssuableCount, ModernRow, Landed, Issue, RowErrors, Mapped, UsedIn, Raised;
    QuotaRow(spec, setting, db, items[..i], p, items[i]);
    RowEffect(spec, setting, p, items[i]);
    StatusExcludesRaise(LastItem(ProcessRow(spec, setting, p, items[i])));
  }

  /**
   With a fixed positive limit and no other issuer, a batch issues min(remaining, issuable)
   certificates, and row `i` gets one exactly when it is issuable and fewer issuable rows came
   before it than quota remained: the first issuable rows, in row order.
   */
  lemma {:induction false} BatchFillsQuota(spec: BatchSpec, setting: Setting, db: Database, items: seq<Item>, i: nat)
    requires Numbered(db) && ModernDates(db, spec.org) && setting.limit > 0
    requires forall j | 0 <= j < |items| :: ModernRow(spec, setting.today, items[j])
    requires i < |items|
    ensures var p := RunRows(spec, setting, db, items);
            && |p.items| == |items|
            && p.success == Min(Remaining(spec, setting, db),
                                  IssuableCount(spec, db, setting.today, items))
            && ((p.items[i].status == ItemIssued || Raised(p.items[i])) <==> QuotaReaches(spec, setting, db, items, i))
  {
    hide ProcessRow, RunRows, QuotaReaches, Raised, IssuableCount, ModernRow, UsedIn, Numbered, ModernDates, Advanced;
    QuotaRun(spec, setting, db, items);
    RowStays(spec, setting, db, items, i);
    NextRow(spec, setting, db, items, i);
    QuotaRun(spec, setting, db, items[..i]);
    QuotaAt(spec, setting, db, items, i, RunRows(spec, setting, db, items[..i]));
  }

  /** A row that is not issued, for whatever reason, leaves every table as it was: no quota, no number. */
  lemma RefusedRowsCostNothing(spec: BatchSpec, setting: Setting, p: Progress, item: Item)
    requires var q := ProcessRow(spec, setting, p, item);
             q.items != [] && LastItem(q).status != ItemIssued && !Raised(LastItem(q))
    ensures ProcessRow(spec, setting, p, item).db == p.db
  {
    hide ProcessRow, Landed, Raised, Issue, RowErrors, Mapped;
    RowEffect(spec, setting, p, item);
  }

  /** An issue date that does not parse fails the issuance, whatever else holds. */
  lemma UnreadableDateFails(db: Database, request: Request, limit: int, today: CalendarDate)
    requires request.idempotencyKey == ""
    requires request.issueDate.Raw? && request.issueDate.text != "" && FromIsoFormat(request.issueDate.text).None?
    ensures Issue(db, request, limit, today).outcome.Err? && Issue(db, request, limit, today).db == db
  {
    hide FromIsoFormat, UpsertRecipient, FindKey, Strip, Lower;
  }

  /**
   A validated row whose date needed normalising fails in every run: issuing reads the raw text.
   It costs nothing and reports one error.
   */
  lemma NormalisedDatesFail(spec: BatchSpec, setting: Setting, p: Progress, item: Item)
    requires RowErrors(Mapped(item.payload, spec.mapping)) == []
    requires var raw := Get(Mapped(item.payload, spec.mapping), "issue_date"); Normalized(raw) != raw
    ensures !Issuable(spec, p.db, setting.today, item)
    ensures exists e ::
              ProcessRow(spec, setting, p, item)
              == Progress(p.db, p.items + [item.(status := ItemFailed, errors := [IssueFailed(e)])], p.success, p.errors + 1)
  {
    var mapped := Mapped(item.payload, spec.mapping);
    var raw := Get(mapped, "issue_date");
    ValidatedButUnreadable(raw);
    hide FromIsoFormat, Normalized, Mapped;
    var request := RowRequest(spec, mapped);
    UnreadableDateFails(p.db, request, setting.limit, setting.today);
    var e := Issue(p.db, request, setting.limit, setting.today).outcome.error;
    hide Issue;
    assert ProcessRow(spec, setting, p, item)
        == Progress(p.db, p.items + [item.(status := ItemFailed, errors := [IssueFailed(e)])], p.success, p.errors + 1);
  }
}
