/**
 Bulk issuance (certificates/bulk.py lines 74-111, certificates/tasks.py lines 16-109).

 A batch runs one issuance per row and counts outcomes. `ProcessRow` is one turn of the loop,
 `RunRows` the loop as a function, `Batch.Process` the loop itself.
 */
module BulkIssuance {
  import opened Basics
  import opened Text
  import opened IsoDates
  import opened Calendar
  import opened Issuance

  /** One entry of the column mapping, in order. */
  datatype ColumnMap = ColumnMap(column: string, field: string)

  datatype RowProblem = NameRequired | EmailInvalid | DateInvalid

  datatype ItemError = Problem(problem: RowProblem) | IssueFailed(error: IssueError) | EnqueueFailed

  datatype ItemStatus = ItemPending | ItemValid | ItemInvalid | ItemIssued | ItemFailed

  datatype Item = Item(
    rowNumber: nat, payload: map<string, string>, status: ItemStatus, errors: seq<ItemError>, certificate: Option<nat>)

  datatype BatchStatus = Processing | Completed | Partial | BatchFailed

  datatype ReportLine = ReportLine(row: nat, errors: seq<ItemError>)

  /** `dict.get` with the empty text for a missing key. */
  function Get(m: map<string, string>, key: string): (text: string)
    ensures key in m ==> text == m[key]
    ensures key !in m ==> text == ""
  {
    if key in m then m[key] else ""
  }

  function Or(a: string, b: string): string {
    if a != "" then a else b
  }

  // ------------------------------------------------------------- validation

  function Mapped(payload: map<string, string>, mapping: seq<ColumnMap>): map<string, string> {
    if mapping == [] then map[]
    else
      var front, last := Mapped(payload, mapping[..|mapping| - 1]), mapping[|mapping| - 1];
      if last.field == "" then front else front[last.field := Strip(Get(payload, last.column))]
  }

  /** The last column mapped to a field gives its text. */
  lemma {:induction false} LastColumnWins(payload: map<string, string>, mapping: seq<ColumnMap>, i: nat)
    requires i < |mapping| && mapping[i].field != ""
    requires forall j | i < j < |mapping| :: mapping[j].field != mapping[i].field
    ensures mapping[i].field in Mapped(payload, mapping)
    ensures Mapped(payload, mapping)[mapping[i].field] == Strip(Get(payload, mapping[i].column))
  {
    hide Strip, Get;
    if i < |mapping| - 1 {
      LastColumnWins(payload, mapping[..|mapping| - 1], i);
    }
  }

  /** A field no column maps to is absent; the empty field name never appears. */
  lemma {:induction false} UnmappedFieldAbsent(payload: map<string, string>, mapping: seq<ColumnMap>, field: string)
    requires field == "" || forall j | 0 <= j < |mapping| :: mapping[j].field != field
    ensures field !in Mapped(payload, mapping)
  {
    hide Strip, Get;
    if mapping != [] {
      UnmappedFieldAbsent(payload, mapping[..|mapping| - 1], field);
    }
  }

  method ApplyMapping(payload: map<string, string>, mapping: seq<ColumnMap>) returns (mapped: map<string, string>)
    ensures mapped == Mapped(payload, mapping)
  {
    mapped := map[];
    for i := 0 to |mapping|
      invariant mapped == Mapped(payload, mapping[..i])
    {
      assert mapping[..i + 1][..i] == mapping[..i];
      if mapping[i].field != "" {
        mapped := mapped[mapping[i].field := Strip(Get(payload, mapping[i].column))];
      }
    }
    assert mapping[..|mapping|] == mapping;
  }

  function NameOf(mapped: map<string, string>): string {
    Or(Get(mapped, "recipient_name"), Get(mapped, "name"))
  }

  predicate EmailLooksWrong(mapped: map<string, string>) {
    Get(mapped, "email") != "" && '@' !in Get(mapped, "email")
  }

  predicate DateLooksWrong(mapped: map<string, string>) {
    Get(mapped, "issue_date") != "" && FromIsoFormat(Normalized(Get(mapped, "issue_date"))).None?
  }

  method ValidateMappedRow(mapped: map<string, string>) returns (errors: seq<ItemError>)
    ensures errors == RowErrors(mapped)
  {
    hide NameOf, EmailLooksWrong, DateLooksWrong;
    errors := [];
    if NameOf(mapped) == "" {
      errors := errors + [Problem(NameRequired)];
    }
    if EmailLooksWrong(mapped) {
      errors := errors + [Problem(EmailInvalid)];
    }
    if DateLooksWrong(mapped) {
      errors := errors + [Problem(DateInvalid)];
    }
  }

  function RowErrors(mapped: map<string, string>): (errors: seq<ItemError>)
    ensures errors == [] <==> NameOf(mapped) != "" && !EmailLooksWrong(mapped) && !DateLooksWrong(mapped)
  {
    (if NameOf(mapped) == "" then [Problem(NameRequired)] else [])
    + (if EmailLooksWrong(mapped) then [Problem(EmailInvalid)] else [])
    + (if DateLooksWrong(mapped) then [Problem(DateInvalid)] else [])
  }

  function Checked(item: Item, mapping: seq<ColumnMap>): Item {
    var errors := RowErrors(Mapped(item.payload, mapping));
    item.(status := if errors == [] then ItemValid else ItemInvalid, errors := errors)
  }

  /** A loop that has rewritten the first rows rewrites the next one. */
  lemma Rewritten<T>(whole: seq<T>, done: seq<T>, rows: seq<T>, x: T)
    requires |done| < |rows| && whole == done + rows[|done|..]
    ensures whole[|done|] == rows[|done|]
    ensures whole[|done| := x] == (done + [x]) + rows[|done| + 1..]
  {
  }

  /** `validate_batch_items`: marks every item and reports the invalid ones. */
  method ValidateBatchItems(items: array<Item>, mapping: seq<ColumnMap>) returns (report: seq<ReportLine>)
    modifies items
    ensures forall i | 0 <= i < items.Length ::
              var errors := RowErrors(Mapped(old(items[i]).payload, mapping));
              items[i] == old(items[i]).(status := if errors == [] then ItemValid else ItemInvalid, errors := errors)
    ensures report == Report(items[..], ItemValid)
  {
    hide RowErrors, Mapped, Report;
    NothingToReport(ItemValid);
    report := [];
    ghost var rows, done := items[..], [];
    for i := 0 to items.Length
      invariant |done| == i && items[..] == done + rows[i..]
      invariant forall j | 0 <= j < i :: done[j] == Checked(rows[j], mapping)
      invariant report == Report(done, ItemValid)
    {
      ghost var whole := items[..];
      Rewritten(whole, done, rows, Checked(rows[i], mapping));
      var mapped := ApplyMapping(items[i].payload, mapping);
      var errors := ValidateMappedRow(mapped);
      items[i] := items[i].(errors := errors);
      items[i] := items[i].(status := if errors != [] then ItemInvalid else ItemValid);
      if errors != [] {
        report := report + [ReportLine(items[i].rowNumber, errors)];
      }
      assert items[..] == whole[i := Checked(rows[i], mapping)];
      ReportNext(done, items[i], ItemValid);
      done := done + [items[i]];
    }
    assert items[..] == done;
  }

  /** Row numbers and errors of the items that do not have the given status, in order. */
  function Report(items: seq<Item>, good: ItemStatus): seq<ReportLine> {
    if items == [] then []
    else
      var front, last := Report(items[..|items| - 1], good), items[|items| - 1];
      if last.status == good then front else front + [ReportLine(last.rowNumber, last.errors)]
  }

  lemma {:induction false} NothingToReport(good: ItemStatus)
    ensures Report([], good) == []
  {
  }

  lemma {:induction false} ReportNext(items: seq<Item>, last: Item, good: ItemStatus)
    ensures Report(items + [last], good)
         == if last.status == good then Report(items, good) else Report(items, good) + [ReportLine(last.rowNumber, last.errors)]
  {
    assert (items + [last])[..|items|] == items;
  }

  // -------------------------------------------------------------- processing

  datatype BatchSpec = BatchSpec(
    id: nat, org: nat, template: nat, typeName: string, mapping: seq<ColumnMap>, sendEmail: bool)

  /** What the run meets outside the database: quota, date, and whether an email enqueue raises. */
  datatype Setting = Setting(limit: int, today: CalendarDate, enqueueFails: nat -> bool)

  function RowRequest(spec: BatchSpec, mapped: map<string, string>): Request {
    Request(
      spec.org, NameOf(mapped), Get(mapped, "email"),
      Get(mapped, "title"), Get(mapped, "course_name"), Get(mapped, "issuer_name"),
      if Get(mapped, "issue_date") == "" then NoDate else Raw(Get(mapped, "issue_date")), "none", None, NoDate,
      spec.template, spec.typeName, Some(spec.id), "")
  }

  datatype Progress = Progress(db: Database, items: seq<Item>, success: nat, errors: nat)

  /** The row's certificate exists but its email could not be queued. */
  predicate EnqueueRaises(spec: BatchSpec, setting: Setting, db: Database, id: nat, row: nat) {
    && spec.sendEmail && setting.enqueueFails(row)
    && id < |db.certificates| && db.certificates[id].recipient < |db.recipients|
    && db.recipients[db.certificates[id].recipient].email != ""
  }

  function ProcessRow(spec: BatchSpec, setting: Setting, p: Progress, item: Item): Progress {
    var row := |p.items|;
    var mapped := Mapped(item.payload, spec.mapping);
    var problems := RowErrors(mapped);
    if problems != [] then
      Progress(p.db, p.items + [item.(status := ItemInvalid, errors := problems)], p.success, p.errors + 1)
    else
      var issuing := Issue(p.db, RowRequest(spec, mapped), setting.limit, setting.today);
      match issuing.outcome
      case Err(e) =>
        Progress(p.db, p.items + [item.(status := ItemFailed, errors := [IssueFailed(e)])], p.success, p.errors + 1)
      case Ok(id) =>
        var issued := item.(status := ItemIssued, certificate := Some(id), errors := []);
        if EnqueueRaises(spec, setting, issuing.db, id, row) then
          Progress(issuing.db, p.items + [issued.(status := ItemFailed, errors := [EnqueueFailed])],
                   p.success + 1, p.errors + 1)
        else
          Progress(issuing.db, p.items + [issued], p.success + 1, p.errors)
  }

  function RunRows(spec: BatchSpec, setting: Setting, db: Database, items: seq<Item>): Progress {
    if items == [] then Progress(db, [], 0, 0)
    else ProcessRow(spec, setting, RunRows(spec, setting, db, items[..|items| - 1]), items[|items| - 1])
  }

  lemma {:induction false} NoRows(spec: BatchSpec, setting: Setting, db: Database)
    ensures RunRows(spec, setting, db, []) == Progress(db, [], 0, 0)
  {
  }

  lemma {:induction false} NextRow(spec: BatchSpec, setting: Setting, db: Database, items: seq<Item>, i: nat)
    requires i < |items|
    ensures RunRows(spec, setting, db, items[..i + 1])
         == ProcessRow(spec, setting, RunRows(spec, setting, db, items[..i]), items[i])
  {
    hide ProcessRow;
    assert items[..i + 1][..i] == items[..i];
  }

  function FinalStatus(p: Progress): BatchStatus {
    if p.errors == 0 then Completed else if p.success > 0 then Partial else BatchFailed
  }

  class Batch {
    const spec: BatchSpec
    const items: array<Item>
    var status: BatchStatus
    var processedRows: nat
    var successCount: nat
    var errorCount: nat
    var errorReport: seq<ReportLine>

    constructor (spec: BatchSpec, items: array<Item>)
      ensures this.spec == spec && this.items == items
    {
      this.spec, this.items := spec, items;
      status, processedRows, successCount, errorCount, errorReport := Processing, 0, 0, 0, [];
    }

    /** One turn of the loop; `p` is what the earlier rows left. */
    method ProcessItem(store: Store, setting: Setting, row: nat, item: Item, ghost p: Progress)
        returns (done: Item, issued: bool, failed: bool)
      requires p.db == store.Tables() && |p.items| == row
      modifies store
      ensures ProcessRow(spec, setting, p, item)
           == Progress(store.Tables(), p.items + [done],
                       p.success + (if issued then 1 else 0), p.errors + (if failed then 1 else 0))
    {
      hide Issue, RowRequest, Mapped, RowErrors, EnqueueRaises;
      issued, failed := false, false;
      var mapped := ApplyMapping(item.payload, spec.mapping);
      var rowErrors := ValidateMappedRow(mapped);
      if rowErrors != [] {
        done := item.(status := ItemInvalid, errors := rowErrors);
        failed := true;
        return;
      }
      var r := store.IssueCertificate(RowRequest(spec, mapped), setting.limit, setting.today);
      match r
      case Ok(id) =>
        done := item.(status := ItemIssued, certificate := Some(id), errors := []);
        issued := true;
        if EnqueueRaises(spec, setting, store.Tables(), id, row) {
          done := done.(status := ItemFailed, errors := [EnqueueFailed]);
          failed := true;
        }
      case Err(e) =>
        done := item.(status := ItemFailed, errors := [IssueFailed(e)]);
        failed := true;
    }

    /** `process_issuance_batch`; the saved counters are those of the last row. */
    method Process(store: Store, setting: Setting)
      modifies this, items, store
      ensures var p := RunRows(spec, setting, old(store.Tables()), old(items[..]));
              && store.Tables() == p.db && items[..] == p.items
              && (items.Length > 0 ==>
                    successCount == p.success && errorCount == p.errors && processedRows == items.Length)
              && status == FinalStatus(p) && errorReport == Report(p.items, ItemIssued)
    {
      hide ProcessRow, Report, RunRows;
      var success, errors := 0, 0;
      ghost var db0, rows, done := store.Tables(), items[..], [];
      NoRows(spec, setting, db0);
      for index := 0 to items.Length
        modifies this, items, store
        invariant |done| == index && items[..] == done + rows[index..]
        invariant Progress(store.Tables(), done, success, errors) == RunRows(spec, setting, db0, rows[..index])
        invariant index > 0 ==> successCount == success && errorCount == errors && processedRows == index
      {
        NextRow(spec, setting, db0, rows, index);
        ghost var whole := items[..];
        var item, issued, failed :=
          ProcessItem(store, setting, index, items[index], Progress(store.Tables(), done, success, errors));
        Rewritten(whole, done, rows, item);
        items[index] := item;
        assert items[..] == whole[index := item];
        done := done + [item];
        if issued {
          success := success + 1;
        }
        if failed {
          errors := errors + 1;
        }
        processedRows, successCount, errorCount := index + 1, success, errors;
      }
      assert rows[..items.Length] == rows && items[..] == done;
      status := if errors == 0 then Completed else if success > 0 then Partial else BatchFailed;
      errorReport := Report(items[..], ItemIssued);
    }
  }
}
