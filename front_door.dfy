/**
 * The web front door's one business operation: registering a new customer
 * company. The handler reads the request body, gives the company the next
 * free serial (one more than the largest serial found in the Bitable), writes
 * the new row, and announces the new support group to a chat webhook with up
 * to five attempts. The Bitable search and create and the webhook POSTs are
 * oracle inputs; the calls made and the HTTP responses written are outputs.
 */
module FrontDoor {
  import opened Text
  import opened Remote

  // ---------------------------------------------------------------------------
  // The largest serial
  // ---------------------------------------------------------------------------

  /** The search that looks for the largest serial: one page of ten rows, only 编号, sorted by it descending. */
  const SerialQuery: Query := TopSerials(10, ColSerial, true)

  /**
   * The largest serial among `records`, counting from 0: never negative, at
   * least every serial found, and either 0 or one of those serials.
   */
  function MaxSerial(records: seq<Record>): (m: int)
    ensures m >= 0
    ensures forall k :: 0 <= k < |records| ==> records[k].fields.serial <= m
    ensures m == 0 || exists k :: 0 <= k < |records| && records[k].fields.serial == m
  {
    if |records| == 0 then 0
    else
      var rest := MaxSerial(records[..|records| - 1]);
      var last := records[|records| - 1].fields.serial;
      if last > rest then last else rest
  }

  /**
   * Ask the Bitable for the largest serial. A failed search (transport error,
   * unsuccessful answer, undecodable body) gives 0 and an error.
   */
  method GetMaxSerialFromFeishu(search: SearchOutcome) returns (calls: seq<Call>, maxNumber: int, failed: bool)
    ensures calls == [Search(SerialQuery)]
    ensures failed <==> search.SearchFailed?
    ensures failed ==> maxNumber == 0
    ensures !failed ==> maxNumber == MaxSerial(search.records)
  {
    calls := [Search(SerialQuery)];
    if search.SearchFailed? {
      return calls, 0, true;
    }
    var records := search.records;
    maxNumber, failed := 0, false;
    for i := 0 to |records|
      invariant maxNumber == MaxSerial(records[..i])
    {
      assert records[..i + 1][..i] == records[..i];
      if records[i].fields.serial > maxNumber {
        maxNumber := records[i].fields.serial;
      }
    }
    assert records[..|records|] == records;
  }

  /**
   * Ten rows are enough when the Bitable honours the sort: if the table is
   * sorted by serial descending and the search returns its first rows, the
   * largest serial of the page is at least every serial in the table, so
   * one more than it is a serial no row has.
   */
  lemma SortedPageHoldsMaximum(table: seq<Record>, page: seq<Record>)
    requires forall i, j :: 0 <= i <= j < |table| ==> table[j].fields.serial <= table[i].fields.serial
    requires |page| >= 1 && page <= table
    ensures forall k :: 0 <= k < |table| ==> table[k].fields.serial < MaxSerial(page) + 1
  {
    assert page[0] == table[0];
    forall k | 0 <= k < |table| ensures table[k].fields.serial < MaxSerial(page) + 1 {
      assert table[k].fields.serial <= table[0].fields.serial;
    }
  }

  // ---------------------------------------------------------------------------
  // The new row
  // ---------------------------------------------------------------------------

  /** The final customer name of a new company: `"<serial>-<company name>"`. */
  function FullName(serial: int, companyName: string): string {
    Itoa(serial) + "-" + companyName
  }

  /** The columns of the new row: 最终客户名称, 编号 and 客户全称, and nothing else. */
  function NewRow(serial: int, companyName: string): (r: RowFields)
    ensures r.Keys == {ColFinalName, ColSerial, ColCompanyFullName}
  {
    map[ColFinalName := Str(FullName(serial, companyName)), ColSerial := Num(serial), ColCompanyFullName := Str(companyName)]
  }

  /** The serial in front of a full name reads back: the text before its first `-` is the serial. */
  lemma FullNameParsesBack(serial: int, companyName: string)
    requires 0 <= serial <= MaxInt64
    ensures Before(FullName(serial, companyName), "-") == Itoa(serial)
    ensures Atoi(Before(FullName(serial, companyName), "-")) == AtoiResult(serial, true)
  {
    var digits := Itoa(serial);
    assert digits == NatToString(serial);
    DigitsHaveNoDash(digits);
    SeparableSingle(digits, "-");
    BeforeJoined(digits, "-", companyName);
    AtoiItoa(serial);
  }

  /** Two companies with different serials, or different names, never get the same full name. */
  lemma FullNameInjective(s1: int, n1: string, s2: int, n2: string)
    requires 0 <= s1 <= MaxInt64 && 0 <= s2 <= MaxInt64
    requires FullName(s1, n1) == FullName(s2, n2)
    ensures s1 == s2 && n1 == n2
  {
    FullNameParsesBack(s1, n1);
    FullNameParsesBack(s2, n2);
    ItoaInjective(s1, s2);
    var prefix := Itoa(s1) + "-";
    assert FullName(s1, n1)[|prefix|..] == n1;
    assert FullName(s2, n2)[|prefix|..] == n2;
  }

  /** What inserting a company can come to: the full name of the new row, or the step that failed. */
  datatype InsertResult = Inserted(fullName: string) | SerialFailed | CreateFailed

  /**
   * Insert a row for a new company: serial = largest serial + 1, full name
   * `"<serial>-<company name>"`. A failed serial query stops before any
   * create; a create that fails is an error.
   */
  method InsertRecordToFeishu(companyName: string, search: SearchOutcome, write: WriteOutcome)
    returns (calls: seq<Call>, result: InsertResult)
    ensures search.SearchFailed? ==> calls == [Search(SerialQuery)] && result == SerialFailed
    ensures search.Found? ==>
      var serial := MaxSerial(search.records) + 1;
      calls == [Search(SerialQuery), Create(NewRow(serial, companyName))] &&
      result == (if write == Written then Inserted(FullName(serial, companyName)) else CreateFailed)
  {
    var serial, failed;
    calls, serial, failed := GetMaxSerialFromFeishu(search);
    if failed {
      return calls, SerialFailed;
    }
    var companySerial := serial + 1;
    var fullName := FullName(companySerial, companyName);
    calls := calls + [Create(NewRow(companySerial, companyName))];
    if write != Written {
      return calls, CreateFailed;
    }
    result := Inserted(fullName);
  }

  // ---------------------------------------------------------------------------
  // The handler
  // ---------------------------------------------------------------------------

  /** The body of a create-company request. */
  datatype CompanyRequest = CompanyRequest(companyName: string, productName: string)

  /** The request body as JSON binding sees it: the bound request, or the binding error's text. */
  datatype Bind = BindFailed(detail: string) | Bound(request: CompanyRequest)

  /**
   * A JSON body the handler writes: `{"error": detail}` for a body that does
   * not bind, `{"error": …}` with the insert error's text, `{"error": "Call
   * wechat robot webhook failed."}`, or `{"message": "提交成功"}`.
   */
  datatype Body = BindError(detail: string) | InsertError | WebhookError | Submitted

  datatype Response = Response(status: int, body: Body)

  const StatusOK: int := 200
  const StatusBadRequest: int := 400

  /** The announcement sent to the chat group: `"<full name>-<product>-支持群"`. */
  function GroupMessage(fullName: string, productName: string): string {
    fullName + "-" + productName + "-支持群"
  }

  /**
   * The responses the handler writes once the row is inserted, when the
   * webhook answers attempt `j` with `post(j)`: a 400 if all five attempts
   * fail, and then the 200 in every case.
   */
  function WebhookResponses(post: nat -> PostOutcome): (r: seq<Response>)
    ensures 1 <= |r| <= 2 && r[|r| - 1] == Response(StatusOK, Submitted)
    ensures |r| == 2 <==> forall j :: 0 <= j < MaxAttempts ==> !Delivered(post(j))
    ensures |r| == 2 ==> r[0] == Response(StatusBadRequest, WebhookError)
  {
    var n := AttemptsFrom(post, 0);
    (if Delivered(post(n - 1)) then [] else [Response(StatusBadRequest, WebhookError)]) + [Response(StatusOK, Submitted)]
  }

  /**
   * The webhook loop of the handler: POST `message` until the first 200, at
   * most five times, writing the 400 after the fifth failure and the 200 at
   * the end in every case.
   */
  method AnnounceGroup(message: Call, post: nat -> PostOutcome) returns (posts: seq<Call>, responses: seq<Response>)
    ensures |posts| == AttemptsFrom(post, 0)
    ensures forall k :: 0 <= k < |posts| ==> posts[k] == message
    ensures responses == WebhookResponses(post)
  {
    posts, responses := [], [];
    var i := 0;
    while i < 5
      invariant 0 <= i <= 5 && |posts| == i
      invariant forall k :: 0 <= k < i ==> posts[k] == message
      invariant forall j :: 0 <= j < i ==> !Delivered(post(j))
      invariant responses == if i == 5 then [Response(StatusBadRequest, WebhookError)] else []
    {
      posts := posts + [message];
      if Delivered(post(i)) {
        break;
      }
      if i == 4 {
        responses := responses + [Response(StatusBadRequest, WebhookError)];
      }
      i := i + 1;
    }
    responses := responses + [Response(StatusOK, Submitted)];
  }

  /**
   * `POST /companies`. A body that does not bind is answered 400 with no
   * insert; a failed insert is answered 400 with no webhook POST; otherwise
   * the group message, mentioning the comma-separated phone numbers, is
   * POSTed until the first 200, at most five times, and the handler answers
   * as `WebhookResponses` says.
   */
  method CreateCompany(bind: Bind, phones: string, search: SearchOutcome, write: WriteOutcome, post: nat -> PostOutcome)
    returns (calls: seq<Call>, responses: seq<Response>)
    ensures bind.BindFailed? ==> calls == [] && responses == [Response(StatusBadRequest, BindError(bind.detail))]
    ensures bind.Bound? && search.SearchFailed? ==>
      calls == [Search(SerialQuery)] && responses == [Response(StatusBadRequest, InsertError)]
    ensures bind.Bound? && search.Found? ==>
      var serial := MaxSerial(search.records) + 1;
      |calls| >= 2 && calls[..2] == [Search(SerialQuery), Create(NewRow(serial, bind.request.companyName))]
    ensures bind.Bound? && search.Found? && write != Written ==>
      |calls| == 2 && responses == [Response(StatusBadRequest, InsertError)]
    ensures bind.Bound? && search.Found? && write == Written ==>
      var fullName := FullName(MaxSerial(search.records) + 1, bind.request.companyName);
      var message := Post(GroupMessage(fullName, bind.request.productName), Some(Split(phones, ",")));
      |calls| == 2 + AttemptsFrom(post, 0) &&
      (forall k :: 2 <= k < |calls| ==> calls[k] == message) &&
      responses == WebhookResponses(post)
  {
    if bind.BindFailed? {
      return [], [Response(StatusBadRequest, BindError(bind.detail))];
    }
    var companyReq := bind.request;
    var remindPhones := Split(phones, ",");
    var result;
    calls, result := InsertRecordToFeishu(companyReq.companyName, search, write);
    if !result.Inserted? {
      return calls, [Response(StatusBadRequest, InsertError)];
    }
    var message := Post(GroupMessage(result.fullName, companyReq.productName), Some(remindPhones));
    var posts;
    posts, responses := AnnounceGroup(message, post);
    calls := calls + posts;
  }
}
