/**
 * The subscription-row sync: read every maintenance (customer subscription)
 * record of one product from the support portal, page by page; derive the
 * version and deployment architecture from each record's free-form
 * elements; find the company's row in the Bitable; create the row when there
 * is none, update it when a tracked field differs, leave it alone otherwise;
 * and finally tell the chat group that the sync is done.
 */
module MaintenanceSync {
  import opened Text
  import opened Remote

  // ---------------------------------------------------------------------------
  // Records from the support portal
  // ---------------------------------------------------------------------------

  datatype SalesUser = SalesUser(name: string)

  datatype Customer = Customer(name: string, abbreviatedName: string)

  datatype Subscription = Subscription(
    amount: int,
    deploymentTime: int,
    serviceType: string,
    startDate: int,
    endDate: int,
    supportEndDate: int,
    expired: bool,
    customer: Customer,
    salesUser: SalesUser)

  /** One entry of a record's free-form element list: a title and its first value. */
  datatype Element = Element(title: string, value1: string)

  datatype Maintenance = Maintenance(
    id: int,
    recordId: string,
    serial: int,
    creatorName: string,
    version: string,
    deployArch: string,
    subscription: Subscription,
    elements: seq<Element>)

  // ---------------------------------------------------------------------------
  // Same: the nine tracked fields
  // ---------------------------------------------------------------------------

  /** The fields the sync keeps in step with the table. */
  datatype Tracked = Tracked(
    creatorName: string,
    version: string,
    amount: int,
    startDate: int,
    endDate: int,
    salesName: string,
    customerName: string,
    abbreviatedName: string,
    supportEndDate: int)

  function TrackedOf(m: Maintenance): Tracked {
    Tracked(m.creatorName, m.version, m.subscription.amount, m.subscription.startDate,
            m.subscription.endDate, m.subscription.salesUser.name, m.subscription.customer.name,
            m.subscription.customer.abbreviatedName, m.subscription.supportEndDate)
  }

  /**
   * Two records are the same for the sync when they agree on all nine
   * tracked fields; id, serial, record id, deployment architecture, service
   * type and the rest are ignored.
   */
  predicate Same(m: Maintenance, other: Maintenance): (r: bool)
    ensures r <==> TrackedOf(m) == TrackedOf(other)
  {
    if other.creatorName != m.creatorName then false
    else if other.version != m.version then false
    else if other.subscription.amount != m.subscription.amount then false
    else if other.subscription.startDate != m.subscription.startDate then false
    else if other.subscription.endDate != m.subscription.endDate then false
    else if other.subscription.salesUser.name != m.subscription.salesUser.name then false
    else if other.subscription.customer.name != m.subscription.customer.name then false
    else if other.subscription.customer.abbreviatedName != m.subscription.customer.abbreviatedName then false
    else if other.subscription.supportEndDate != m.subscription.supportEndDate then false
    else true
  }

  /** `Same` is an equivalence. */
  lemma SameIsEquivalence(a: Maintenance, b: Maintenance, c: Maintenance)
    ensures Same(a, a)
    ensures Same(a, b) <==> Same(b, a)
    ensures Same(a, b) && Same(b, c) ==> Same(a, c)
  {
  }

  // ---------------------------------------------------------------------------
  // FitData: derived fields from the element list
  // ---------------------------------------------------------------------------

  const VersionTitle := "version"
  const DeployArchTitle := "form1prop11"

  /**
   * The value of the last element titled `title`, or `default` when no
   * element has that title.
   */
  function LastValue(es: seq<Element>, title: string, default: string): (r: string)
    ensures (forall k :: 0 <= k < |es| ==> es[k].title != title) ==> r == default
    ensures (exists k :: 0 <= k < |es| && es[k].title == title) ==>
      exists k :: 0 <= k < |es| && es[k].title == title && r == es[k].value1 &&
        forall j :: k < j < |es| ==> es[j].title != title
  {
    if |es| == 0 then default
    else if es[|es| - 1].title == title then es[|es| - 1].value1
    else LastValue(es[..|es| - 1], title, default)
  }

  /** The record after FitData: version and deployment architecture taken from the elements, nothing else touched. */
  function Fitted(m: Maintenance): Maintenance {
    m.(version := LastValue(m.elements, VersionTitle, m.version),
       deployArch := LastValue(m.elements, DeployArchTitle, m.deployArch))
  }

  /** FitData walks the elements in order; each "version" or "form1prop11" element overwrites its field. */
  method FitData(m: Maintenance) returns (r: Maintenance)
    ensures r == Fitted(m)
  {
    r := m;
    for i := 0 to |m.elements|
      invariant r == m.(version := LastValue(m.elements[..i], VersionTitle, m.version),
                        deployArch := LastValue(m.elements[..i], DeployArchTitle, m.deployArch))
    {
      assert m.elements[..i + 1][..i] == m.elements[..i];
      var ele := m.elements[i];
      if ele.title == VersionTitle {
        r := r.(version := ele.value1);
      } else if ele.title == DeployArchTitle {
        r := r.(deployArch := ele.value1);
      }
    }
    assert m.elements[..|m.elements|] == m.elements;
  }

  // ---------------------------------------------------------------------------
  // Reading a row back
  // ---------------------------------------------------------------------------

  /** The version a row shows: the first text of 系统版本, or "" when it has none. */
  function VersionOf(f: Fields): string {
    if |f.productVersion| > 0 then f.productVersion[0].text else ""
  }

  /**
   * The record a table row stands for. 规格 is read with `strconv.Atoi`, its
   * error ignored; the company name is the first text of 客户全称, which the
   * caller must make sure exists (the source indexes it unchecked).
   */
  function RowToMaintenance(rec: Record): (m: Maintenance)
    requires |rec.fields.companyFullName| > 0
    ensures m.recordId == rec.recordId && m.serial == rec.fields.serial
    ensures m.subscription.amount == Atoi(rec.fields.amount).value
    ensures m.version == VersionOf(rec.fields)
  {
    var f := rec.fields;
    Maintenance(0, rec.recordId, f.serial, f.creatorName, VersionOf(f),
      "", Subscription(Atoi(f.amount).value, 0, "", f.startDate, f.endDate, f.supportEndDate, false,
                       Customer(f.companyFullName[0].text, f.abbreviatedName), SalesUser(f.saleUser)), [])
  }

  /** 规格 text that does not start with a digit (after an optional sign) reads as amount 0. */
  lemma NonNumericAmountIsZero(s: string)
    requires var rest := if |s| > 0 && (s[0] == '-' || s[0] == '+') then s[1..] else s;
      |rest| == 0 || !IsDigit(rest[0])
    ensures Atoi(s).value == 0 && !Atoi(s).ok
  {
    var rest := if |s| > 0 && (s[0] == '-' || s[0] == '+') then s[1..] else s;
    assert DigitPrefix(rest) == "";
  }

  /** What looking up a company's row yields. */
  datatype Lookup =
    | Existing(m: Maintenance)   // the row (or the placeholder) read as a record
    | LookupError                // the search failed
    | IndexPanic                 // a row came back without a 客户全称 text: the source panics

  /** Look up the company's row and read it as a record (`getFeishuMaintenance`). */
  function GetFeishuMaintenance(companyName: string, search: SearchOutcome): (r: Lookup)
    ensures r.LookupError? <==> search.SearchFailed?
    ensures search == Found([]) ==>
      && r.Existing? && r.m.recordId == "" && r.m.serial == 0
      && r.m.subscription.customer.name == companyName && r.m.version == "" && r.m.subscription.amount == 0
  {
    match GetFeishuRecord(companyName, search)
    case None => LookupError
    case Some(rec) =>
      if |rec.fields.companyFullName| == 0 then IndexPanic
      else Existing(RowToMaintenance(rec))
  }

  // ---------------------------------------------------------------------------
  // The reconciler
  // ---------------------------------------------------------------------------

  /** The columns every create and update of this sync carries. */
  function SyncFields(m: Maintenance, serial: int): (f: RowFields)
    ensures ColSerial !in f && ColMaintenanceRecords !in f
    ensures ColFinalName in f && ColCompanyFullName in f && ColAmount in f
    ensures f[ColFinalName] == Str(Itoa(serial) + "-" + m.subscription.customer.abbreviatedName)
    ensures f[ColCompanyFullName] == Str(m.subscription.customer.name)
    ensures f[ColAmount] == Str(Itoa(m.subscription.amount))
  {
    var s := m.subscription;
    map[ColFinalName := Str(Itoa(serial) + "-" + s.customer.abbreviatedName),
        ColCompanyFullName := Str(s.customer.name),
        ColAbbreviatedName := Str(s.customer.abbreviatedName),
        ColSales := Str(s.salesUser.name),
        ColCreator := Str(m.creatorName),
        ColVersion := Str(m.version),
        ColDeployArch := Str(m.deployArch),
        ColServiceType := Str(s.serviceType),
        ColAmount := Str(Itoa(s.amount)),
        ColStartDate := Num(s.startDate),
        ColEndDate := Num(s.endDate),
        ColSupportEndDate := Num(s.supportEndDate)]
  }

  /** Why reconciling one record failed. */
  datatype SyncError =
    | LookupFailed(companyName: string)   // "update <name> failed: <lookup error>"
    | CreateFailed(companyName: string)   // the create call itself failed
    | UpdateFailed(companyName: string)   // the update call itself failed
    | ErrorResponse                       // the table answered a write unsuccessfully

  /** The error a write reports, if any. */
  function WriteError(outcome: WriteOutcome, onTransport: SyncError): Option<SyncError> {
    match outcome
    case Written => None
    case TransportFailed => Some(onTransport)
    case Rejected => Some(ErrorResponse)
  }

  /** The result of reconciling one record: the calls made and the error returned, or a panic. */
  datatype Reconciled = Reconciled(calls: seq<Call>, err: Option<SyncError>) | Panicked(calls: seq<Call>)

  /**
   * `updateOrCreateFeishuRecord`: skip a record without a company name; look
   * up the company's row; create a row when the lookup gave the placeholder
   * (its serial is 0, so the name column reads "0-<abbreviation>"); update the
   * row when a tracked field differs; otherwise write nothing.
   */
  function UpdateOrCreate(m: Maintenance, search: SearchOutcome, write: WriteOutcome): (r: Reconciled)
    ensures var name := m.subscription.customer.name;
      && (name == "" ==> r == Reconciled([], None))
      && (name != "" ==> |r.calls| >= 1 && r.calls[0] == Search(ByCompany(name)) && |r.calls| <= 2)
      && (name != "" && search.SearchFailed? ==> r == Reconciled([Search(ByCompany(name))], Some(LookupFailed(name))))
      && (name != "" && search == Found([]) ==>
            r == Reconciled([Search(ByCompany(name)), Create(SyncFields(m, 0))],
                            WriteError(write, CreateFailed(name))))
    ensures |r.calls| == 2 ==> r.Reconciled? && IsWrite(r.calls[1])
    ensures |r.calls| == 2 && r.calls[1].Update? ==> r.calls[1].recordId != ""
  {
    var name := m.subscription.customer.name;
    if name == "" then Reconciled([], None)
    else
      var lookup := Search(ByCompany(name));
      match GetFeishuMaintenance(name, search)
      case LookupError => Reconciled([lookup], Some(LookupFailed(name)))
      case IndexPanic => Panicked([lookup])
      case Existing(existing) =>
        var fields := SyncFields(m, existing.serial);
        if existing.recordId == "" then
          Reconciled([lookup, Create(fields)], WriteError(write, CreateFailed(name)))
        else if !Same(m, existing) then
          Reconciled([lookup, Update(existing.recordId, fields)], WriteError(write, UpdateFailed(name)))
        else Reconciled([lookup], None)
  }

  /** Reconciling one record makes at most one create or update, and only after the lookup. */
  lemma ReconcileWritesAtMostOnce(m: Maintenance, search: SearchOutcome, write: WriteOutcome)
    ensures var r := UpdateOrCreate(m, search, write);
      WriteCount(r.calls) <= 1 && (|r.calls| > 0 ==> !IsWrite(r.calls[0]))
  {
    var r := UpdateOrCreate(m, search, write);
    if |r.calls| == 2 {
      assert r.calls[..1][..0] == [];
    } else if |r.calls| == 1 {
      assert r.calls[..0] == [];
    }
  }

  /**
   * A row shows what a sync wrote for `m`: the table reads back each tracked
   * column as it was written (text columns as text, dates as numbers,
   * 客户全称 and 系统版本 as lists whose first text is the value).
   */
  predicate Mirrors(rec: Record, m: Maintenance) {
    var f := rec.fields;
    && |f.companyFullName| > 0 && f.companyFullName[0].text == m.subscription.customer.name
    && VersionOf(f) == m.version
    && f.amount == Itoa(m.subscription.amount)
    && f.creatorName == m.creatorName
    && f.saleUser == m.subscription.salesUser.name
    && f.abbreviatedName == m.subscription.customer.abbreviatedName
    && f.startDate == m.subscription.startDate
    && f.endDate == m.subscription.endDate
    && f.supportEndDate == m.subscription.supportEndDate
  }

  /** A mirrored row reads back as a record with the same tracked fields. */
  lemma MirroredRowReadsBack(rec: Record, m: Maintenance)
    requires Mirrors(rec, m) && InInt64(m.subscription.amount)
    ensures TrackedOf(RowToMaintenance(rec)) == TrackedOf(m)
  {
    AtoiItoa(m.subscription.amount);
  }

  /**
   * Idempotence: once the row mirrors what the sync wrote for `m`,
   * reconciling `m` again makes the lookup and nothing else.
   */
  lemma SecondPassWritesNothing(m: Maintenance, rec: Record, rest: seq<Record>, write: WriteOutcome)
    requires m.subscription.customer.name != "" && InInt64(m.subscription.amount)
    requires rec.recordId != "" && Mirrors(rec, m)
    ensures UpdateOrCreate(m, Found([rec] + rest), write) ==
      Reconciled([Search(ByCompany(m.subscription.customer.name))], None)
  {
    MirroredRowReadsBack(rec, m);
  }

  /**
   * Change detection: when the row mirrors an earlier version `before` of the
   * record and a tracked field has changed since, reconciling makes exactly
   * one update, to that row, with the full column set.
   */
  lemma ChangedRecordUpdatesOnce(m: Maintenance, before: Maintenance, rec: Record, rest: seq<Record>, write: WriteOutcome)
    requires m.subscription.customer.name != ""
    requires InInt64(before.subscription.amount)
    requires rec.recordId != "" && Mirrors(rec, before) && TrackedOf(m) != TrackedOf(before)
    ensures UpdateOrCreate(m, Found([rec] + rest), write) ==
      Reconciled([Search(ByCompany(m.subscription.customer.name)), Update(rec.recordId, SyncFields(m, rec.fields.serial))],
                 WriteError(write, UpdateFailed(m.subscription.customer.name)))
  {
    MirroredRowReadsBack(rec, before);
    var e := RowToMaintenance(rec);
    assert GetFeishuMaintenance(m.subscription.customer.name, Found([rec] + rest)) == Existing(e);
    assert !Same(m, e);
    assert e.serial == rec.fields.serial && e.recordId == rec.recordId;
  }

  // ---------------------------------------------------------------------------
  // One pass over the fetched records
  // ---------------------------------------------------------------------------

  /** The calls and logged errors of reconciling a run of records, and whether it panicked. */
  datatype Pass = Pass(calls: seq<Call>, errors: seq<SyncError>, panicked: bool)

  /**
   * The pass made of the reconciliations `rs`, in order: the calls are
   * concatenated and the errors collected while the pass goes on; a panic
   * ends it.
   */
  function Tally(rs: seq<Reconciled>): Pass {
    if |rs| == 0 then Pass([], [], false)
    else
      var p := Tally(rs[..|rs| - 1]);
      if p.panicked then p
      else match rs[|rs| - 1]
        case Reconciled(calls, err) =>
          Pass(p.calls + calls, p.errors + (if err.Some? then [err.value] else []), false)
        case Panicked(calls) => Pass(p.calls + calls, p.errors, true)
  }

  /** What reconciling each record after FitData gives, record `i` seeing `search(i)` and `write(i)`. */
  function Outcomes(records: seq<Maintenance>, search: nat -> SearchOutcome, write: nat -> WriteOutcome): (rs: seq<Reconciled>)
    ensures |rs| == |records|
    ensures forall i :: 0 <= i < |records| ==> rs[i] == UpdateOrCreate(Fitted(records[i]), search(i), write(i))
  {
    seq(|records|, i requires 0 <= i < |records| => UpdateOrCreate(Fitted(records[i]), search(i), write(i)))
  }

  /** The pass `Execute` makes over the fetched records. */
  function SyncPass(records: seq<Maintenance>, search: nat -> SearchOutcome, write: nat -> WriteOutcome): Pass {
    Tally(Outcomes(records, search, write))
  }

  /** A pass whose steps each write at most once writes at most once per step. */
  lemma {:induction false} TallyWritesAtMostOncePerStep(rs: seq<Reconciled>)
    requires forall i :: 0 <= i < |rs| ==> WriteCount(rs[i].calls) <= 1
    ensures WriteCount(Tally(rs).calls) <= |rs|
  {
    if |rs| > 0 {
      var prefix := rs[..|rs| - 1];
      TallyWritesAtMostOncePerStep(prefix);
      if !Tally(prefix).panicked {
        WriteCountAppend(Tally(prefix).calls, rs[|rs| - 1].calls);
      }
    }
  }

  /** A pass over the records writes at most once per record. */
  lemma PassWritesAtMostOncePerRecord(records: seq<Maintenance>, search: nat -> SearchOutcome, write: nat -> WriteOutcome)
    ensures WriteCount(SyncPass(records, search, write).calls) <= |records|
  {
    var rs := Outcomes(records, search, write);
    forall i | 0 <= i < |rs| ensures WriteCount(rs[i].calls) <= 1 {
      ReconcileWritesAtMostOnce(Fitted(records[i]), search(i), write(i));
    }
    TallyWritesAtMostOncePerStep(rs);
  }

  /** A pass whose steps all succeed without writing writes nothing and logs nothing. */
  lemma {:induction false} QuietTally(rs: seq<Reconciled>)
    requires forall i :: 0 <= i < |rs| ==> rs[i].Reconciled? && rs[i].err.None? && WriteCount(rs[i].calls) == 0
    ensures WriteCount(Tally(rs).calls) == 0 && Tally(rs).errors == [] && !Tally(rs).panicked
  {
    if |rs| > 0 {
      var prefix := rs[..|rs| - 1];
      QuietTally(prefix);
      WriteCountAppend(Tally(prefix).calls, rs[|rs| - 1].calls);
    }
  }

  /** The lookup for a record finds a row that already mirrors it. */
  predicate AlreadySynced(m: Maintenance, search: SearchOutcome) {
    && search.Found? && |search.records| > 0
    && search.records[0].recordId != ""
    && Mirrors(search.records[0], m)
    && InInt64(m.subscription.amount)
  }

  /** A record whose row already mirrors it is reconciled without a write or an error. */
  lemma SyncedRecordIsQuiet(m: Maintenance, search: SearchOutcome, write: WriteOutcome)
    requires AlreadySynced(m, search)
    ensures var r := UpdateOrCreate(m, search, write);
      r.Reconciled? && r.err.None? && WriteCount(r.calls) == 0
  {
    if m.subscription.customer.name != "" {
      var rec := search.records[0];
      assert search == Found([rec] + search.records[1..]);
      SecondPassWritesNothing(m, rec, search.records[1..], write);
      var r := UpdateOrCreate(m, search, write);
      assert r.calls[..0] == [];
    }
  }

  /**
   * Cycle idempotence: when every record's row already mirrors it, a pass
   * writes nothing and logs no error.
   */
  lemma SyncedPassWritesNothing(records: seq<Maintenance>, search: nat -> SearchOutcome, write: nat -> WriteOutcome)
    requires forall i :: 0 <= i < |records| ==> AlreadySynced(Fitted(records[i]), search(i))
    ensures var p := SyncPass(records, search, write);
      WriteCount(p.calls) == 0 && p.errors == [] && !p.panicked
  {
    var rs := Outcomes(records, search, write);
    forall i | 0 <= i < |rs| ensures rs[i].Reconciled? && rs[i].err.None? && WriteCount(rs[i].calls) == 0 {
      SyncedRecordIsQuiet(Fitted(records[i]), search(i), write(i));
    }
    QuietTally(rs);
  }

  /** After a panic the pass takes no further step. */
  lemma {:induction false} PanicEndsPass(rs: seq<Reconciled>, k: nat, n: nat)
    requires k <= n <= |rs|
    requires Tally(rs[..k]).panicked
    ensures Tally(rs[..n]) == Tally(rs[..k])
    decreases n - k
  {
    if k < n {
      PanicEndsPass(rs, k, n - 1);
      assert rs[..n][..n - 1] == rs[..n - 1];
    }
  }

  // ---------------------------------------------------------------------------
  // The task
  // ---------------------------------------------------------------------------

  /** The marker a request carries: none on the first request, else the previous page's unless it is 0. */
  function PreviousMarker(pages: seq<PageOutcome<Maintenance>>, i: nat): Option<int>
    requires i <= |pages|
  {
    if i == 0 then None
    else if pages[i - 1].Page? then MarkerParam(pages[i - 1].marker)
    else None
  }

  /** The text of the "sync done" message. */
  function DoneMessage(timestamp: string): string {
    "[" + timestamp + "] 完成 Support 门户客户记录同步"
  }

  /** How one run of the task ends. */
  datatype RunOutcome =
    | Completed     // Execute returned nil
    | FetchAborted  // Execute returned the fetch error
    | Stalled       // the page oracle ran out before marker -1: the source is still paginating
    | Crashed       // a panic while reconciling ended the process
    | Exited        // log.Fatalf after five undelivered notifications ended the process

  /**
   * The notification loop: up to five POSTs of the "sync done" message,
   * stopping at the first answered with HTTP 200; after the fifth failure
   * the process exits.
   */
  method SendMsgToWecom(post: nat -> PostOutcome, timestamp: string) returns (posts: seq<Call>, fatal: bool)
    ensures |posts| == AttemptsFrom(post, 0)
    ensures forall c :: c in posts ==> c == Post(DoneMessage(timestamp), None)
    ensures fatal <==> !Delivered(post(|posts| - 1))
    ensures fatal ==> |posts| == MaxAttempts
  {
    var msg := Post(DoneMessage(timestamp), None);
    posts, fatal := [], false;
    var i := 0;
    while i < 5
      invariant 0 <= i <= 5 && |posts| == i
      invariant forall c :: c in posts ==> c == msg
      invariant forall j :: 0 <= j < i ==> !Delivered(post(j))
      invariant !fatal
    {
      posts := posts + [msg];
      if Delivered(post(i)) {
        return;
      }
      if i == 4 {
        fatal := true;
        return;
      }
      i := i + 1;
    }
  }

  /**
   * The loop of `Execute` over the fetched records: FitData, then
   * reconcile, logging an error and going on; a panic stops it.
   */
  method ReconcileAll(records: seq<Maintenance>, search: nat -> SearchOutcome, write: nat -> WriteOutcome)
    returns (calls: seq<Call>, errors: seq<SyncError>, panicked: bool)
    ensures Pass(calls, errors, panicked) == SyncPass(records, search, write)
  {
    ghost var rs := Outcomes(records, search, write);
    calls, errors, panicked := [], [], false;
    var i := 0;
    while i < |records|
      invariant 0 <= i <= |records|
      invariant Tally(rs[..i]) == Pass(calls, errors, false)
    {
      assert rs[..i + 1][..i] == rs[..i];
      var m := FitData(records[i]);
      match UpdateOrCreate(m, search(i), write(i))
      case Panicked(c) =>
        calls := calls + c;
        PanicEndsPass(rs, i + 1, |records|);
        assert rs[..|records|] == rs;
        return calls, errors, true;
      case Reconciled(c, err) =>
        calls := calls + c;
        if err.Some? {
          errors := errors + [err.value];
        }
      i := i + 1;
    }
    assert rs[..|records|] == rs;
  }

  class MaintenanceToFeishuTask {
    const productName: string
    const maxValue: int
    var executeTimes: nat

    constructor (productName: string, maxValue: int)
      ensures this.productName == productName && this.maxValue == maxValue && executeTimes == 0
    {
      this.productName := productName;
      this.maxValue := maxValue;
      executeTimes := 0;
    }

    /**
     * `getMaintenances`: request pages of `maxValue` records, each after the
     * first carrying the previous page's marker unless it is 0, until a page
     * carries marker -1; the result is every page's records in request order.
     * A failed request returns nothing. Each page read counts one execution.
     */
    method GetMaintenances(pages: seq<PageOutcome<Maintenance>>) returns (fetched: Fetched<Maintenance>, requests: seq<PageRequest>)
      modifies this
      ensures fetched == FetchAll(pages)
      ensures executeTimes == old(executeTimes) + PagesRead(pages)
      ensures |requests| == PagesAsked(pages)
      ensures forall i :: 0 <= i < |requests| ==> requests[i] == PageRequest(maxValue, PreviousMarker(pages, i))
    {
      var records: seq<Maintenance> := [];
      var previous := 0;
      requests := [];
      var i := 0;
      while i < |pages|
        invariant 0 <= i <= StopIndex(pages)
        invariant records == Concat(pages[..i])
        invariant executeTimes == old(executeTimes) + i
        invariant previous == if i == 0 then 0 else pages[i - 1].marker
        invariant |requests| == i
        invariant forall j :: 0 <= j < i ==> requests[j] == PageRequest(maxValue, PreviousMarker(pages, j))
      {
        requests := requests + [PageRequest(maxValue, MarkerParam(previous))];
        match pages[i]
        case FetchFailed =>
          return FetchError, requests;
        case Page(data, marker) =>
          executeTimes := executeTimes + 1;
          ConcatSnoc(pages, i);
          records := records + data;
          if marker == -1 {
            return Complete(records), requests;
          }
          previous := marker;
          i := i + 1;
      }
      return Unfinished, requests;
    }

    /**
     * `Execute`: fetch every record; reconcile each after FitData, logging
     * per-record errors and going on; then send the "sync done" message. A
     * fetch error is the only error returned.
     */
    method Execute(pages: seq<PageOutcome<Maintenance>>, search: nat -> SearchOutcome, write: nat -> WriteOutcome,
                   post: nat -> PostOutcome, timestamp: string)
      returns (outcome: RunOutcome, calls: seq<Call>, errors: seq<SyncError>, requests: seq<PageRequest>)
      modifies this
      ensures executeTimes == old(executeTimes) + PagesRead(pages)
      ensures |requests| == PagesAsked(pages)
      ensures forall i :: 0 <= i < |requests| ==> requests[i] == PageRequest(maxValue, PreviousMarker(pages, i))
      ensures FetchAll(pages).FetchError? ==> outcome == FetchAborted && calls == [] && errors == []
      ensures FetchAll(pages).Unfinished? ==> outcome == Stalled && calls == [] && errors == []
      ensures FetchAll(pages).Complete? ==>
        var records := FetchAll(pages).records;
        var p := SyncPass(records, search, write);
        && errors == p.errors
        && (p.panicked ==> outcome == Crashed && calls == p.calls)
        && (!p.panicked ==>
              && |calls| == |p.calls| + AttemptsFrom(post, 0)
              && calls[..|p.calls|] == p.calls
              && (forall c :: c in calls[|p.calls|..] ==> c == Post(DoneMessage(timestamp), None))
              && (outcome == Completed <==> Delivered(post(|calls| - |p.calls| - 1)))
              && (outcome != Completed ==> outcome == Exited))
    {
      var fetched;
      fetched, requests := GetMaintenances(pages);
      calls, errors := [], [];
      match fetched
      case FetchError => return FetchAborted, calls, errors, requests;
      case Unfinished => return Stalled, calls, errors, requests;
      case Complete(records) =>
        var panicked;
        calls, errors, panicked := ReconcileAll(records, search, write);
        if panicked {
          return Crashed, calls, errors, requests;
        }
        var posts, fatal := SendMsgToWecom(post, timestamp);
        assert (calls + posts)[..|calls|] == calls;
        assert (calls + posts)[|calls|..] == posts;
        calls := calls + posts;
        outcome := if fatal then Exited else Completed;
    }
  }
}
