/**
 * The remote side of the synchronisation engine, seen from the engine: the
 * rows of the Feishu Bitable as the search call returns them, the answers
 * the support portal, the Bitable and the chat webhook give (these are the
 * model's oracle inputs), and the calls the engine makes (its output trace).
 * Also the two pieces of behaviour every task shares: the portal's
 * marker-driven pagination protocol and the row locator `GetFeishuRecord`.
 */
module Remote {
  import opened Text

  // ---------------------------------------------------------------------------
  // Bitable columns and rows
  // ---------------------------------------------------------------------------

  /** The Bitable columns the engine reads or writes. */
  datatype Column =
    | ColSerial | ColCreator | ColCompanyFullName | ColAbbreviatedName | ColVersion
    | ColSupportEndDate | ColAmount | ColStartDate | ColEndDate | ColSales
    | ColMaintenanceRecords | ColFinalName | ColDeployArch | ColServiceType

  /** The title of a column, which is how requests name it. */
  function ColumnName(c: Column): string {
    match c
    case ColSerial => "编号"
    case ColCreator => "交付负责人"
    case ColCompanyFullName => "客户全称"
    case ColAbbreviatedName => "简称"
    case ColVersion => "系统版本"
    case ColSupportEndDate => "维保结束时间"
    case ColAmount => "规格"
    case ColStartDate => "订阅开始时间"
    case ColEndDate => "订阅结束时间"
    case ColSales => "销售"
    case ColMaintenanceRecords => "维护记录"
    case ColFinalName => "最终客户名称"
    case ColDeployArch => "部署架构"
    case ColServiceType => "订阅类型"
  }

  /** One cell of a multi-valued text column, as the search call returns it. */
  datatype TypeTextField = TypeTextField(kind: string, text: string)

  /** The columns of a row that the engine reads back. */
  datatype Fields = Fields(
    serial: int,
    creatorName: string,
    companyFullName: seq<TypeTextField>,
    serviceStatus: string,
    abbreviatedName: string,
    productVersion: seq<TypeTextField>,
    supportEndDate: int,
    amount: string,
    startDate: int,
    endDate: int,
    saleUser: string,
    maintenanceRecords: seq<TypeTextField>)

  /** A row of the table; an empty `recordId` means "no row yet". */
  datatype Record = Record(fields: Fields, recordId: string)

  /** A value written into a column: the engine writes strings and integers. */
  datatype FieldValue = Str(s: string) | Num(n: int)

  /** The column map of a create or update request, keyed by column (whose title `ColumnName` gives). */
  type RowFields = map<Column, FieldValue>

  // ---------------------------------------------------------------------------
  // Oracle answers
  // ---------------------------------------------------------------------------

  /**
   * The answer to one Bitable search: any failure (transport error, an
   * unsuccessful response, a body that does not decode) or the rows found.
   */
  datatype SearchOutcome = SearchFailed | Found(records: seq<Record>)

  /** The answer to one create or update: success, a transport error, or an unsuccessful response. */
  datatype WriteOutcome = Written | TransportFailed | Rejected

  /** The answer to one webhook POST: a transport error or an HTTP status. */
  datatype PostOutcome = PostFailed | Responded(status: int)

  predicate Delivered(o: PostOutcome) { o.Responded? && o.status == 200 }

  /** The number of attempts a webhook loop allows. */
  const MaxAttempts: nat := 5

  /**
   * The number of POSTs a five-attempt webhook loop makes from attempt `i`
   * on, when attempt `j` is answered with `post(j)`: it stops right after the
   * first delivered POST, and after the fifth attempt in any case.
   */
  function AttemptsFrom(post: nat -> PostOutcome, i: nat): (n: nat)
    requires i < MaxAttempts
    ensures i < n <= MaxAttempts
    ensures forall j :: i <= j < n - 1 ==> !Delivered(post(j))
    ensures n < MaxAttempts ==> Delivered(post(n - 1))
    decreases MaxAttempts - i
  {
    if Delivered(post(i)) || i == MaxAttempts - 1 then i + 1 else AttemptsFrom(post, i + 1)
  }

  /** An endpoint that never answers 200 receives exactly five POSTs. */
  lemma NeverDeliveredMeansFivePosts(post: nat -> PostOutcome)
    requires forall j :: !Delivered(post(j))
    ensures AttemptsFrom(post, 0) == MaxAttempts
  {
  }

  /**
   * The answer to one page request to the support portal. `FetchFailed`
   * covers what the portal client reports as an error: a transport error, a
   * status other than 200, or a body that does not decode.
   */
  datatype PageOutcome<T> = FetchFailed | Page(data: seq<T>, marker: int)

  // ---------------------------------------------------------------------------
  // Output trace
  // ---------------------------------------------------------------------------

  /** What a search asks for. */
  datatype Query =
    | ByCompany(companyName: string)                               // exact match on 客户全称
    | TopSerials(pageSize: int, sortField: Column, descending: bool) // one sorted page

  /** A call the engine makes to the Bitable or to a chat webhook. */
  datatype Call =
    | Search(query: Query)
    | Create(fields: RowFields)
    | Update(recordId: string, fields: RowFields)
    | Post(content: string, mentions: Option<seq<string>>)

  predicate IsWrite(c: Call) { c.Create? || c.Update? }

  /** The number of creates and updates in a trace. */
  function WriteCount(calls: seq<Call>): (n: nat)
    ensures n <= |calls|
  {
    if |calls| == 0 then 0
    else WriteCount(calls[..|calls| - 1]) + (if IsWrite(calls[|calls| - 1]) then 1 else 0)
  }

  lemma {:induction false} WriteCountAppend(a: seq<Call>, b: seq<Call>)
    ensures WriteCount(a + b) == WriteCount(a) + WriteCount(b)
    decreases |b|
  {
    if |b| == 0 {
      assert a + b == a;
    } else {
      assert (a + b)[..|a + b| - 1] == a + b[..|b| - 1];
      WriteCountAppend(a, b[..|b| - 1]);
    }
  }

  /** A page request to the support portal: the page size and the marker, if one is sent. */
  datatype PageRequest = PageRequest(max: int, marker: Option<int>)

  /** The marker parameter a request carries: none when the marker is 0. */
  function MarkerParam(marker: int): (r: Option<int>)
    ensures r.None? <==> marker == 0
    ensures r.Some? ==> r.value == marker
  {
    if marker != 0 then Some(marker) else None
  }

  // ---------------------------------------------------------------------------
  // The pagination protocol
  // ---------------------------------------------------------------------------

  /**
   * The index of the page at which a fetch loop stops: the first page that
   * failed or carries marker -1, or `|pages|` when the oracle runs out first.
   */
  function StopIndex<T>(pages: seq<PageOutcome<T>>): (k: nat)
    ensures k <= |pages|
    ensures forall i :: 0 <= i < k ==> pages[i].Page? && pages[i].marker != -1
    ensures k < |pages| ==> pages[k].FetchFailed? || pages[k].marker == -1
  {
    if |pages| == 0 then 0
    else if pages[0].FetchFailed? || pages[0].marker == -1 then 0
    else 1 + StopIndex(pages[1..])
  }

  /** The records of a run of successful pages, in request order. */
  function Concat<T>(pages: seq<PageOutcome<T>>): seq<T>
    requires forall i :: 0 <= i < |pages| ==> pages[i].Page?
  {
    if |pages| == 0 then [] else Concat(pages[..|pages| - 1]) + pages[|pages| - 1].data
  }

  /** How a fetch of all pages ends. */
  datatype Fetched<T> =
    | Complete(records: seq<T>)   // the page with marker -1 was reached
    | FetchError                  // a page request failed; nothing is returned
    | Unfinished                  // the oracle ran out of pages before marker -1

  /** What fetching `pages` returns, by the portal's protocol. */
  function FetchAll<T>(pages: seq<PageOutcome<T>>): (r: Fetched<T>)
    ensures r.Complete? <==> StopIndex(pages) < |pages| && pages[StopIndex(pages)].Page?
    ensures r.Complete? ==> pages[StopIndex(pages)].marker == -1
    ensures r.FetchError? <==> StopIndex(pages) < |pages| && pages[StopIndex(pages)].FetchFailed?
  {
    var k := StopIndex(pages);
    if k == |pages| then Unfinished
    else if pages[k].FetchFailed? then FetchError
    else Complete(Concat(pages[..k + 1]))
  }

  /** The number of page requests a fetch loop makes: up to and including the one it stops at. */
  function PagesAsked<T>(pages: seq<PageOutcome<T>>): (n: nat)
    ensures n <= |pages|
  {
    if StopIndex(pages) < |pages| then StopIndex(pages) + 1 else |pages|
  }

  /** The number of pages a fetch loop reads successfully before it stops. */
  function PagesRead<T>(pages: seq<PageOutcome<T>>): (n: nat)
    ensures n <= |pages|
  {
    var k := StopIndex(pages);
    if k < |pages| && pages[k].Page? then k + 1 else k
  }

  /** Concatenating one more successful page appends its records. */
  lemma ConcatSnoc<T>(pages: seq<PageOutcome<T>>, i: nat)
    requires i < |pages|
    requires forall j :: 0 <= j <= i ==> pages[j].Page?
    ensures Concat(pages[..i + 1]) == Concat(pages[..i]) + pages[i].data
  {
    assert pages[..i + 1][..i] == pages[..i];
  }

  /**
   * A source that answers three requests with markers 7, 12 and -1 yields
   * exactly the three pages' records, in order, and is read three times.
   */
  lemma ThreePagesExample<T>(a: seq<T>, b: seq<T>, c: seq<T>, more: seq<PageOutcome<T>>)
    ensures var pages := [Page(a, 7), Page(b, 12), Page(c, -1)] + more;
      FetchAll(pages) == Complete(a + b + c) && PagesRead(pages) == 3
  {
    var pages := [Page(a, 7), Page(b, 12), Page(c, -1)] + more;
    assert pages[1..][1..][1..] == more;
    assert StopIndex(pages[1..][1..]) == 0;
    var first := pages[..3];
    assert first == [Page(a, 7), Page(b, 12), Page(c, -1)];
    assert first[..2][..1][..0] == [];
    assert Concat(first[..2][..1]) == a;
    assert Concat(first[..2]) == a + b;
    assert Concat(first) == a + b + c;
  }

  // ---------------------------------------------------------------------------
  // The row locator
  // ---------------------------------------------------------------------------

  /** The row `GetFeishuRecord` makes up when no row matches: no record id, serial 0, only the company name. */
  function Placeholder(companyName: string): (r: Record)
    ensures r.recordId == "" && r.fields.serial == 0
    ensures r.fields.companyFullName == [TypeTextField("", companyName)]
    ensures r.fields.productVersion == [] && r.fields.maintenanceRecords == [] && r.fields.amount == ""
  {
    Record(Fields(0, "", [TypeTextField("", companyName)], "", "", [], 0, "", 0, 0, "", []), "")
  }

  /**
   * Look up the row for a company: a failed search is an error (`None`), no
   * match gives the placeholder, otherwise the first row found.
   */
  function GetFeishuRecord(companyName: string, search: SearchOutcome): (r: Option<Record>)
    ensures r.None? <==> search.SearchFailed?
    ensures search.Found? && |search.records| == 0 ==> r == Some(Placeholder(companyName))
    ensures search.Found? && |search.records| > 0 ==> r == Some(search.records[0])
  {
    match search
    case SearchFailed => None
    case Found(records) => if |records| < 1 then Some(Placeholder(companyName)) else Some(records[0])
  }
}
