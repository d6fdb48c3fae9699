/**
 * The maintenance-log sync: read the new maintenance log entries from the
 * support portal, resuming from the pagination cursor kept in the durable
 * cache, and merge each entry into the 维护记录 column of its company's row.
 * The column holds the log as items separated by `SplitFlag`; an item is
 * recognised by the integer before its first `-`.
 */
module RecordSync {
  import opened Text
  import opened Remote
  import opened Store

  const SplitFlag := "\n----------\n"
  const LastMarkerKey := "MaintenanceRecordLastMarker"

  /** One maintenance log entry from the support portal. */
  datatype MaintenanceRecord = MaintenanceRecord(
    id: int,
    companyName: string,
    maintenanceTime: int,       // milliseconds since the epoch
    maintenanceTypes: string,
    maintenanceContext: string,
    modifiedByName: string)

  /**
   * The item text of a log entry, `<id>-[<types>]-[<date>]-[<modified by>]-[<context>]`;
   * `date` is the entry's time as the source formats it (China Standard Time,
   * `2006-01-02 15:04:05`).
   */
  function Entry(mr: MaintenanceRecord, date: string): (r: string)
    ensures Itoa(mr.id) + "-[" <= r && r[|r| - 1] == ']'
    ensures 0 <= mr.id ==> Head(r) == Itoa(mr.id)
  {
    var digits := Itoa(mr.id);
    var rest := "[" + mr.maintenanceTypes + "]-[" + date + "]-[" + mr.modifiedByName + "]-[" + mr.maintenanceContext + "]";
    if 0 <= mr.id then
      HeadOfJoined(digits, rest);
      digits + "-" + rest
    else digits + "-" + rest
  }

  // ---------------------------------------------------------------------------
  // Items of the log column
  // ---------------------------------------------------------------------------

  /** The text of an item before its first `-` (`strings.Split(item, "-")[0]`, see `HeadIsBefore`). */
  function Head(item: string): string {
    if |item| == 0 || item[0] == '-' then "" else [item[0]] + Head(item[1..])
  }

  /** `Head` stops at the first `-` or at the end, and has no `-` in it. */
  lemma {:induction false} HeadShape(item: string)
    ensures Head(item) <= item
    ensures forall k :: 0 <= k < |Head(item)| ==> Head(item)[k] != '-'
    ensures Head(item) == item || item[|Head(item)|] == '-'
  {
    if |item| > 0 && item[0] != '-' {
      HeadShape(item[1..]);
    }
  }

  /** A text without `-`, followed by `-`, is the head. */
  lemma {:induction false} HeadOfJoined(a: string, b: string)
    requires forall k :: 0 <= k < |a| ==> a[k] != '-'
    ensures Head(a + "-" + b) == a
  {
    if |a| > 0 {
      assert (a + "-" + b)[1..] == a[1..] + "-" + b;
      HeadOfJoined(a[1..], b);
    }
  }

  /** The head has no `-` in it. */
  lemma HeadHasNoDash(item: string)
    ensures !Contains(Head(item), "-")
  {
    var h := Head(item);
    HeadShape(item);
    forall p | 0 <= p < |h| ensures !OccursAt(h, "-", p) {
      assert h[p..p + 1][0] == h[p];
    }
  }

  /** `Head` is the first piece of splitting at `-`. */
  lemma HeadIsBefore(item: string)
    ensures Head(item) == Before(item, "-")
  {
    var h := Head(item);
    HeadShape(item);
    HeadHasNoDash(item);
    if h != item {
      var b := item[|h| + 1..];
      assert item == h + "-" + b;
      SeparableSingle(h, "-");
      BeforeJoined(h, "-", b);
    } else {
      BeforeWhole(item, "-");
    }
  }

  /** An item as the merge reads it: its text and what `strconv.Atoi` makes of its head. */
  datatype Piece = Piece(text: string, key: AtoiResult)

  function PieceOf(item: string): Piece { Piece(item, Atoi(Head(item))) }

  /** Each piece is what `PieceOf` reads from its own text. */
  ghost predicate Faithful(ps: seq<Piece>) {
    forall k :: 0 <= k < |ps| ==> ps[k] == PieceOf(ps[k].text)
  }

  function PiecesOf(items: seq<string>): seq<Piece> {
    seq(|items|, k requires 0 <= k < |items| => PieceOf(items[k]))
  }

  function TextsOf(ps: seq<Piece>): seq<string> {
    seq(|ps|, k requires 0 <= k < |ps| => ps[k].text)
  }

  /** Reading items and reading their texts back round-trips. */
  lemma PiecesOfFaithful(items: seq<string>)
    ensures Faithful(PiecesOf(items)) && TextsOf(PiecesOf(items)) == items
  {
  }

  /** The texts of one more piece. */
  lemma TextsSnoc(ps: seq<Piece>, x: Piece)
    ensures TextsOf(ps + [x]) == TextsOf(ps) + [x.text]
  {
    assert TextsOf(ps + [x])[|ps|] == x.text;
  }

  /** An empty item has no identifier. */
  lemma EmptyItemHasNoKey()
    ensures PieceOf("").key == AtoiResult(0, false)
  {
    assert Head("") == "";
  }

  /** Reading back the texts of faithful pieces gives the same pieces. */
  lemma FaithfulReadBack(ps: seq<Piece>)
    requires Faithful(ps)
    ensures PiecesOf(TextsOf(ps)) == ps
  {
  }

  /** The pieces the merge keeps: those whose head reads as an integer, in their order. */
  function Kept(ps: seq<Piece>): (r: seq<Piece>)
    ensures |r| <= |ps|
  {
    if |ps| == 0 then [] else Kept(ps[..|ps| - 1]) + (if ps[|ps| - 1].key.ok then [ps[|ps| - 1]] else [])
  }

  /** `Kept` keeps exactly the pieces whose head reads as an integer. */
  lemma {:induction false} KeptMembers(ps: seq<Piece>)
    ensures forall p :: p in Kept(ps) <==> p in ps && p.key.ok
  {
    if |ps| > 0 {
      var init := ps[..|ps| - 1];
      KeptMembers(init);
      assert ps == init + [ps[|ps| - 1]];
    }
  }

  /** One more piece is kept at the end exactly when its head reads as an integer. */
  lemma KeptSnoc(ps: seq<Piece>, i: nat)
    requires i < |ps|
    ensures Kept(ps[..i + 1]) == Kept(ps[..i]) + (if ps[i].key.ok then [ps[i]] else [])
  {
    assert ps[..i + 1][..i] == ps[..i];
  }

  /** The identifiers of some pieces. */
  function IdSet(ps: seq<Piece>): set<int> {
    set p | p in ps :: p.key.value
  }

  /** Pieces that are all kept are kept as they are. */
  lemma {:induction false} KeptOfKept(ps: seq<Piece>)
    requires forall k :: 0 <= k < |ps| ==> ps[k].key.ok
    ensures Kept(ps) == ps
  {
    if |ps| > 0 {
      KeptOfKept(ps[..|ps| - 1]);
    }
  }

  /** The pieces of a faithful list are faithful. */
  lemma KeptIsFaithful(ps: seq<Piece>)
    requires Faithful(ps)
    ensures Faithful(Kept(ps))
  {
    var r := Kept(ps);
    KeptMembers(ps);
    forall k | 0 <= k < |r| ensures r[k] == PieceOf(r[k].text) {
      assert r[k] in r;
    }
  }

  /** The entry of a record with a non-negative int64 id is kept and read back with that id. */
  lemma EntryIdRoundTrip(mr: MaintenanceRecord, date: string)
    requires 0 <= mr.id <= MaxInt64
    ensures PieceOf(Entry(mr, date)).key == AtoiResult(mr.id, true)
  {
    AtoiItoa(mr.id);
  }

  // ---------------------------------------------------------------------------
  // MaintenanceRecordManage
  // ---------------------------------------------------------------------------

  predicate HasDash(item: string) { IndexOf(item, "-").Some? }

  /**
   * The identifiers `Parse` collects from pieces: a piece counts when its
   * text has a `-` and its head reads as an integer.
   */
  function IdsOf(ps: seq<Piece>): set<int> {
    if |ps| == 0 then {}
    else
      var last := ps[|ps| - 1];
      IdsOf(ps[..|ps| - 1]) + (if HasDash(last.text) && last.key.ok then {last.key.value} else {})
  }

  /** `IdsOf` collects exactly the ids of the pieces with a `-` whose head reads as an integer. */
  lemma {:induction false} IdsOfMembers(ps: seq<Piece>)
    ensures forall id :: id in IdsOf(ps) <==>
      exists k :: 0 <= k < |ps| && HasDash(ps[k].text) && ps[k].key.ok && ps[k].key.value == id
  {
    if |ps| > 0 {
      var init := ps[..|ps| - 1];
      IdsOfMembers(init);
      assert forall k :: 0 <= k < |init| ==> init[k] == ps[k];
    }
  }

  /** One more piece adds its id exactly when its text has a `-` and its head reads as an integer. */
  lemma IdsOfSnoc(ps: seq<Piece>, i: nat)
    requires i < |ps|
    ensures IdsOf(ps[..i + 1])
      == IdsOf(ps[..i]) + (if HasDash(ps[i].text) && ps[i].key.ok then {ps[i].key.value} else {})
  {
    assert ps[..i + 1][..i] == ps[..i];
  }

  /** The identifiers `Parse` collects from a log column. */
  function ParsedIds(records: string): set<int> {
    IdsOf(PiecesOf(Split(records, SplitFlag)))
  }

  /** Up to its first `-`, an item is its head. */
  lemma HeadAtDash(item: string, dash: nat)
    requires IndexOf(item, "-") == Some(dash)
    ensures Head(item) == item[..dash]
  {
    HeadShape(item);
    forall p | 0 <= p < dash ensures item[p] != '-' {
      assert !OccursAt(item, "-", p);
      assert item[p..p + 1] == [item[p]];
    }
    assert item[dash..dash + 1] == "-";
  }

  class MaintenanceRecordManage {
    var ids: set<int>

    constructor ()
      ensures ids == {}
    {
      ids := {};
    }

    /** Add the identifier of every recognisable item of a log column to the set. */
    method Parse(records: string)
      modifies this
      ensures ids == old(ids) + ParsedIds(records)
    {
      var items := Split(records, SplitFlag);
      ghost var ps := PiecesOf(items);
      for i := 0 to |items|
        invariant ids == old(ids) + IdsOf(ps[..i])
      {
        IdsOfSnoc(ps, i);
        var item := items[i];
        assert ps[i] == PieceOf(item);
        match IndexOf(item, "-")
        case None =>
        case Some(dash) =>
          HeadAtDash(item, dash);
          var id := Atoi(item[..dash]);
          assert id == ps[i].key;
          if id.ok {
            ids := ids + {id.value};
          }
      }
      assert ps[..|items|] == ps;
    }

    method Exist(id: int) returns (ok: bool)
      ensures ok <==> id in ids
    {
      ok := id in ids;
    }
  }

  /** Every identifier `Parse` collects is one the merge keeps. */
  lemma ParsedIdsAreKept(records: string)
    ensures ParsedIds(records) <= IdSet(Kept(PiecesOf(Split(records, SplitFlag))))
  {
    var ps := PiecesOf(Split(records, SplitFlag));
    KeptMembers(ps);
    IdsOfMembers(ps);
    forall id | id in ParsedIds(records) ensures id in IdSet(Kept(ps)) {
      var k :| 0 <= k < |ps| && HasDash(ps[k].text) && ps[k].key.ok && ps[k].key.value == id;
      assert ps[k] in ps;
      assert ps[k] in Kept(ps);
    }
  }

  /** A text in which the separator's first character never occurs is separable. */
  lemma SeparableFromFirstChar(a: string, sep: string)
    requires |sep| > 0 && forall k :: 0 <= k < |a| ==> a[k] != sep[0]
    ensures Separable(a, sep)
  {
    forall p | 0 <= p < |a| ensures !OccursAt(a + sep, sep, p) {
      assert (a + sep)[p..p + |sep|][0] == a[p];
    }
  }

  /** The converse fails: the item "5" has no `-`, so the merge keeps it but `Parse` skips it. */
  lemma ParseSkipsItemsWithoutDash()
    ensures 5 in IdSet(Kept(PiecesOf(Split("5", SplitFlag)))) && 5 !in ParsedIds("5")
  {
    SeparableFromFirstChar("5", SplitFlag);
    SplitJoin(["5"], SplitFlag);
    assert Split("5", SplitFlag) == ["5"];
    DigitsHaveNoDash("5");
    assert Head("5") == "5";
    AtoiItoa(5);
    assert Itoa(5) == "5";
    var ps := PiecesOf(["5"]);
    assert ps[0] == Piece("5", AtoiResult(5, true));
    assert ps[..0] == [];
    assert Kept(ps) == [ps[0]];
  }

  // ---------------------------------------------------------------------------
  // The merge of updateDataToFeishu
  // ---------------------------------------------------------------------------

  /**
   * The item list the merge loop builds from the kept pieces: when the first
   * kept piece has another id than the new entry, the entry goes right after
   * it; otherwise the kept items are left as they are.
   */
  function Inserted(kept: seq<Piece>, id: int, entry: string): seq<string> {
    if |kept| == 0 then []
    else if kept[0].key.value == id then TextsOf(kept)
    else [kept[0].text, entry] + TextsOf(kept[1..])
  }

  /**
   * Keeping one more piece appends its text; the entry follows it when it is the first kept piece and has another id.
   */
  lemma InsertedSnoc(kept: seq<Piece>, x: Piece, id: int, entry: string)
    ensures Inserted(kept + [x], id, entry)
      == Inserted(kept, id, entry) + [x.text] + (if |kept| == 0 && x.key.value != id then [entry] else [])
  {
    if |kept| > 0 {
      assert (kept + [x])[1..] == kept[1..] + [x];
      TextsSnoc(kept, x);
      TextsSnoc(kept[1..], x);
    } else {
      assert kept + [x] == [x];
      assert [x][1..] == [];
    }
  }

  /** One step of the merge loop: the item at `i` is kept or skipped. */
  lemma MergeStep(ps: seq<Piece>, i: nat, id: int, entry: string)
    requires i < |ps|
    ensures !ps[i].key.ok ==> Kept(ps[..i + 1]) == Kept(ps[..i])
    ensures ps[i].key.ok ==>
      && |Kept(ps[..i + 1])| > 0
      && Inserted(Kept(ps[..i + 1]), id, entry)
         == Inserted(Kept(ps[..i]), id, entry) + [ps[i].text]
            + (if |Kept(ps[..i])| == 0 && ps[i].key.value != id then [entry] else [])
  {
    KeptSnoc(ps, i);
    if ps[i].key.ok {
      InsertedSnoc(Kept(ps[..i]), ps[i], id, entry);
    }
  }

  /** The item list `updateDataToFeishu` writes back, as the source computes it. */
  function MergeAsWritten(content: string, id: int, entry: string): seq<string> {
    if content == "" then [entry]
    else Inserted(Kept(PiecesOf(Split(content, SplitFlag))), id, entry)
  }

  /** The id the merge reads from an item: `strconv.Atoi` of the text before its first `-`. */
  method ItemId(item: string) returns (itemId: AtoiResult)
    ensures itemId == PieceOf(item).key
  {
    HeadIsBefore(item);
    itemId := Atoi(Before(item, "-"));
  }

  /**
   * The merge loop: an empty column gets the entry alone; otherwise each
   * item is kept or skipped, and after each kept item the entry is added
   * when its id has not been seen yet.
   */
  method MergeRecords(content: string, id: int, entry: string) returns (newRecords: seq<string>)
    ensures newRecords == MergeAsWritten(content, id, entry)
  {
    if content == "" {
      return [entry];
    }
    var items := Split(content, SplitFlag);
    ghost var ps := PiecesOf(items);
    ghost var kept: seq<Piece> := [];
    var recordSet: set<int> := {};
    newRecords := [];
    for i := 0 to |items|
      invariant kept == Kept(ps[..i])
      invariant newRecords == Inserted(kept, id, entry)
      invariant |kept| == 0 ==> recordSet == {}
      invariant |kept| > 0 ==> id in recordSet
    {
      MergeStep(ps, i, id, entry);
      var item := items[i];
      var itemId := ItemId(item);
      assert ps[i] == PieceOf(item);
      if itemId.ok {
        newRecords := newRecords + [item];
        recordSet := recordSet + {itemId.value};
        if |kept| == 0 {
          assert recordSet == {itemId.value};
        } else {
          assert id in recordSet;
        }
        if id !in recordSet {
          newRecords := newRecords + [entry];
          recordSet := recordSet + {id};
        }
        kept := Kept(ps[..i + 1]);
      }
    }
    assert ps[..|items|] == ps;
  }

  /**
   * What the merge keeps: the kept items, in order, with at most the new
   * entry added; the entry is added right after the first kept item exactly
   * when that item has another id.
   */
  lemma MergeKeepsItemsAddsAtMostOne(content: string, id: int, entry: string)
    requires content != ""
    ensures var kept := Kept(PiecesOf(Split(content, SplitFlag)));
      var r := MergeAsWritten(content, id, entry);
      && |r| <= |kept| + 1
      && (|kept| > 0 && kept[0].key.value != id ==> r[..1] + r[2..] == TextsOf(kept) && r[1] == entry)
      && (|kept| == 0 || kept[0].key.value == id ==> r == TextsOf(kept))
  {
    var kept := Kept(PiecesOf(Split(content, SplitFlag)));
    if |kept| > 0 && kept[0].key.value != id {
      var r := MergeAsWritten(content, id, entry);
      assert r[..1] + r[2..] == TextsOf(kept);
    }
  }

  /** A non-empty column none of whose items is recognisable is erased, and the new entry is lost. */
  lemma UnrecognisedColumnIsErased(content: string, id: int, entry: string)
    requires content != "" && Kept(PiecesOf(Split(content, SplitFlag))) == []
    ensures MergeAsWritten(content, id, entry) == []
    ensures Join(MergeAsWritten(content, id, entry), SplitFlag) == ""
  {
  }

  /** Concrete instance: the column "abc" merged with any entry is written back empty. */
  lemma UnrecognisedColumnExample(id: int, entry: string)
    ensures MergeAsWritten("abc", id, entry) == []
  {
    SeparableFromFirstChar("abc", SplitFlag);
    SplitJoin(["abc"], SplitFlag);
    assert Split("abc", SplitFlag) == ["abc"];
    assert Head("abc") == "abc";
    assert DigitPrefix("abc") == "";
    var ps := PiecesOf(["abc"]);
    assert !ps[0].key.ok;
    assert ps[..0] == [];
  }

  /**
   * The merge as written is not idempotent: merging an entry into a column
   * whose first item has another id adds it after that item; merging the same
   * entry into the result adds it a second time.
   */
  lemma AsWrittenMergeDuplicates(first: string, id: int, entry: string)
    requires PieceOf(first).key.ok && PieceOf(first).key.value != id
    requires PieceOf(entry).key == AtoiResult(id, true)
    requires Separable(first, SplitFlag) && Separable(entry, SplitFlag)
    ensures MergeAsWritten(first, id, entry) == [first, entry]
    ensures MergeAsWritten(Join([first, entry], SplitFlag), id, entry) == [first, entry, entry]
  {
    MergeIntoOne(first, id, entry);
    MergeIntoTwo(first, entry, id, entry);
  }

  /** A column of one recognisable item with another id gets the entry after it. */
  lemma MergeIntoOne(first: string, id: int, entry: string)
    requires PieceOf(first).key.ok && PieceOf(first).key.value != id
    requires Separable(first, SplitFlag)
    ensures MergeAsWritten(first, id, entry) == [first, entry]
  {
    EmptyItemHasNoKey();
    assert first != "";
    SplitJoin([first], SplitFlag);
    var one := PiecesOf([first]);
    assert one == [PieceOf(first)];
    KeptOfKept(one);
  }

  /** A column of two recognisable items, the first with another id, gets the entry after the first. */
  lemma MergeIntoTwo(first: string, second: string, id: int, entry: string)
    requires PieceOf(first).key.ok && PieceOf(first).key.value != id
    requires PieceOf(second).key.ok
    requires Separable(first, SplitFlag) && Separable(second, SplitFlag)
    ensures MergeAsWritten(Join([first, second], SplitFlag), id, entry) == [first, entry, second]
  {
    JoinTwo(first, second, SplitFlag);
    MergeOfJoin([first, second], id, entry);
    KeptTwo(first, second, id, entry);
  }

  /** Two recognisable items, the first with another id: the entry goes between them. */
  lemma KeptTwo(first: string, second: string, id: int, entry: string)
    requires PieceOf(first).key.ok && PieceOf(first).key.value != id
    requires PieceOf(second).key.ok
    ensures Inserted(Kept(PiecesOf([first, second])), id, entry) == [first, entry, second]
  {
    var two := [PieceOf(first), PieceOf(second)];
    assert PiecesOf([first, second]) == two;
    KeptOfKept(two);
    InsertedTwo(two, id, entry);
  }

  /** The merge of a column written as separable items reads those items back. */
  lemma MergeOfJoin(items: seq<string>, id: int, entry: string)
    requires |items| >= 1 && Join(items, SplitFlag) != ""
    requires forall k :: 0 <= k < |items| ==> Separable(items[k], SplitFlag)
    ensures MergeAsWritten(Join(items, SplitFlag), id, entry) == Inserted(Kept(PiecesOf(items)), id, entry)
  {
    SplitJoin(items, SplitFlag);
  }

  /** Two kept pieces, the first with another id: the entry goes between them. */
  lemma InsertedTwo(two: seq<Piece>, id: int, entry: string)
    requires |two| == 2 && two[0].key.value != id
    ensures Inserted(two, id, entry) == [two[0].text, entry, two[1].text]
  {
    assert TextsOf(two[1..]) == [two[1].text];
  }

  /** The same on concrete text: the column "1-a" merged twice with entry "2-b" (id 2). */
  lemma AsWrittenMergeExample()
    ensures MergeAsWritten("1-a", 2, "2-b") == ["1-a", "2-b"]
    ensures MergeAsWritten("1-a" + SplitFlag + "2-b", 2, "2-b") == ["1-a", "2-b", "2-b"]
  {
    SeparableFromFirstChar("1-a", SplitFlag);
    SeparableFromFirstChar("2-b", SplitFlag);
    HeadOfJoined("1", "a");
    HeadOfJoined("2", "b");
    assert "1-a" == "1" + "-" + "a";
    assert "2-b" == "2" + "-" + "b";
    AtoiItoa(1);
    AtoiItoa(2);
    assert Itoa(1) == "1" && Itoa(2) == "2";
    assert Join(["1-a", "2-b"], SplitFlag) == "1-a" + SplitFlag + "2-b";
    AsWrittenMergeDuplicates("1-a", 2, "2-b");
  }

  /** The merge as evidently intended, on the kept pieces: append the entry unless its id is already there. */
  function MergeKept(kept: seq<Piece>, id: int, entry: string): seq<string> {
    if id in IdSet(kept) then TextsOf(kept) else TextsOf(kept) + [entry]
  }

  function CorrectedMerge(content: string, id: int, entry: string): seq<string> {
    MergeKept(Kept(PiecesOf(Split(content, SplitFlag))), id, entry)
  }

  /** Merging into kept pieces keeps their texts in order and adds the entry exactly when its id is new. */
  lemma MergeKeptShape(kept: seq<Piece>, id: int, entry: string)
    ensures var r := MergeKept(kept, id, entry);
      && r[..|kept|] == TextsOf(kept)
      && |r| <= |kept| + 1
      && (id in IdSet(kept) <==> |r| == |kept|)
  {
    var r := MergeKept(kept, id, entry);
    assert r[..|kept|] == TextsOf(kept);
  }

  /** After merging, some item reads back with the entry's id. */
  lemma MergeKeptHasEntry(kept: seq<Piece>, id: int, entry: string)
    requires Faithful(kept)
    requires forall p :: p in kept ==> p.key.ok
    requires PieceOf(entry).key == AtoiResult(id, true)
    ensures var r := MergeKept(kept, id, entry);
      exists k :: 0 <= k < |r| && PieceOf(r[k]).key == AtoiResult(id, true)
  {
    var r := MergeKept(kept, id, entry);
    if id in IdSet(kept) {
      var p :| p in kept && p.key.value == id;
      var k :| 0 <= k < |kept| && kept[k] == p;
      var texts := TextsOf(kept);
      assert r == texts;
      assert texts[k] == p.text;
      assert kept[k] == PieceOf(kept[k].text);
      assert r[k] == kept[k].text;
      assert PieceOf(r[k]).key == AtoiResult(id, true);
    } else {
      assert r[|kept|] == entry;
      assert PieceOf(r[|kept|]).key == AtoiResult(id, true);
    }
  }

  /**
   * The corrected merge keeps every recognisable item in order, adds at
   * most the entry, and afterwards the column holds an item with the new
   * entry's id.
   */
  lemma CorrectedMergeRecordsEntry(content: string, id: int, entry: string)
    requires PieceOf(entry).key == AtoiResult(id, true)
    ensures var kept := Kept(PiecesOf(Split(content, SplitFlag)));
      var r := CorrectedMerge(content, id, entry);
      && r[..|kept|] == TextsOf(kept)
      && |r| <= |kept| + 1
      && (exists k :: 0 <= k < |r| && PieceOf(r[k]).key == AtoiResult(id, true))
      && (id in IdSet(kept) <==> |r| == |kept|)
      && (id !in IdSet(kept) ==> r[|kept|] == entry)
  {
    var ps := PiecesOf(Split(content, SplitFlag));
    PiecesOfFaithful(Split(content, SplitFlag));
    KeptIsFaithful(ps);
    KeptMembers(ps);
    MergeKeptShape(Kept(ps), id, entry);
    MergeKeptHasEntry(Kept(ps), id, entry);
  }

  /**
   * The corrected merge is idempotent on the column text: merging the same
   * entry into the text it wrote gives the same items again. It needs the
   * column's items and the entry to be separable, so that splitting the
   * joined text finds the same items.
   */
  lemma CorrectedMergeIdempotent(content: string, id: int, entry: string)
    requires PieceOf(entry).key == AtoiResult(id, true) && Separable(entry, SplitFlag)
    requires forall k :: 0 <= k < |Split(content, SplitFlag)| ==> Separable(Split(content, SplitFlag)[k], SplitFlag)
    ensures CorrectedMerge(Join(CorrectedMerge(content, id, entry), SplitFlag), id, entry) == CorrectedMerge(content, id, entry)
  {
    var items := Split(content, SplitFlag);
    var ps := PiecesOf(items);
    PiecesOfFaithful(items);
    KeptIsFaithful(ps);
    KeptMembers(ps);
    forall p | p in Kept(ps) ensures p.key.ok && Separable(p.text, SplitFlag) {
      var j :| 0 <= j < |ps| && ps[j] == p;
      assert p.text == items[j];
    }
    MergeKeptStable(Kept(ps), id, entry);
  }

  /** Merging into kept, separable pieces and merging again into the joined result changes nothing. */
  lemma MergeKeptStable(kept: seq<Piece>, id: int, entry: string)
    requires Faithful(kept)
    requires forall p :: p in kept ==> p.key.ok && Separable(p.text, SplitFlag)
    requires PieceOf(entry).key == AtoiResult(id, true) && Separable(entry, SplitFlag)
    ensures CorrectedMerge(Join(MergeKept(kept, id, entry), SplitFlag), id, entry) == MergeKept(kept, id, entry)
  {
    var again := MergedPieces(kept, id, entry);
    MergedPiecesFacts(kept, id, entry);
    ReadBack(again);
    assert id in IdSet(again);
  }

  /** The pieces the corrected merge writes: the kept ones, and the entry's when its id is new. */
  function MergedPieces(kept: seq<Piece>, id: int, entry: string): seq<Piece> {
    if id in IdSet(kept) then kept else kept + [PieceOf(entry)]
  }

  lemma MergedPiecesFacts(kept: seq<Piece>, id: int, entry: string)
    requires Faithful(kept)
    requires forall p :: p in kept ==> p.key.ok && Separable(p.text, SplitFlag)
    requires PieceOf(entry).key == AtoiResult(id, true) && Separable(entry, SplitFlag)
    ensures var again := MergedPieces(kept, id, entry);
      && TextsOf(again) == MergeKept(kept, id, entry)
      && Faithful(again)
      && (forall p :: p in again ==> p.key.ok && Separable(p.text, SplitFlag))
      && id in IdSet(again)
      && |again| >= 1
  {
    var again := MergedPieces(kept, id, entry);
    if id !in IdSet(kept) {
      TextsSnoc(kept, PieceOf(entry));
      assert again[|kept|] == PieceOf(entry);
    } else {
      var p :| p in kept && p.key.value == id;
    }
  }

  /** Writing kept, separable, faithful pieces and reading the column back gives the same pieces. */
  lemma ReadBack(ps: seq<Piece>)
    requires |ps| >= 1 && Faithful(ps)
    requires forall p :: p in ps ==> p.key.ok && Separable(p.text, SplitFlag)
    ensures Kept(PiecesOf(Split(Join(TextsOf(ps), SplitFlag), SplitFlag))) == ps
  {
    var texts := TextsOf(ps);
    forall k | 0 <= k < |texts| ensures Separable(texts[k], SplitFlag) {
      assert ps[k] in ps;
    }
    SplitJoin(texts, SplitFlag);
    FaithfulReadBack(ps);
    forall k | 0 <= k < |ps| ensures ps[k].key.ok {
      assert ps[k] in ps;
    }
    KeptOfKept(ps);
  }

  // ---------------------------------------------------------------------------
  // Reading and writing the log column
  // ---------------------------------------------------------------------------

  /** The row id and the log column text of a company's row. */
  datatype RecordTable = RecordTable(recordId: string, content: string)

  /** The concatenation of a multi-valued text cell's texts. */
  function Texts(cells: seq<TypeTextField>): string {
    if |cells| == 0 then "" else Texts(cells[..|cells| - 1]) + cells[|cells| - 1].text
  }

  /** The row table a lookup yields: none on a failed search, else the row's id and its log text. */
  function FeishuRecordTable(companyName: string, search: SearchOutcome): (t: Option<RecordTable>)
    ensures t.None? <==> search.SearchFailed?
    ensures search == Found([]) ==> t == Some(RecordTable("", ""))
  {
    match GetFeishuRecord(companyName, search)
    case None => None
    case Some(rec) => Some(RecordTable(rec.recordId, Texts(rec.fields.maintenanceRecords)))
  }

  /** `getFeishuMaintenanceRecord`: look the row up and concatenate its log texts. */
  method GetFeishuMaintenanceRecord(companyName: string, search: SearchOutcome) returns (table: Option<RecordTable>)
    ensures table == FeishuRecordTable(companyName, search)
  {
    var instance := GetFeishuRecord(companyName, search);
    if instance.None? {
      return None;
    }
    var cells := instance.value.fields.maintenanceRecords;
    var content := "";
    for i := 0 to |cells|
      invariant content == Texts(cells[..i])
    {
      assert cells[..i + 1][..i] == cells[..i];
      content := content + cells[i].text;
    }
    assert cells[..|cells|] == cells;
    return Some(RecordTable(instance.value.recordId, content));
  }

  /** Why merging one log entry failed. */
  datatype RecordError =
    | GetRecordFailed(companyName: string)     // "get <name> record failed: ..."
    | UpdateRecordFailed(companyName: string)  // "update <name> failed: ..."
    | RecordErrorResponse                      // "error response: ..."

  /** The calls made for one log entry and the error returned, if any. */
  datatype Refreshed = Refreshed(calls: seq<Call>, err: Option<RecordError>)

  /** The one-column update the merge sends. */
  function LogFields(items: seq<string>): RowFields {
    map[ColMaintenanceRecords := Str(Join(items, SplitFlag))]
  }

  /**
   * What merging one log entry does: look up the company's row; on success
   * write the merged items back to it, whatever row id the lookup gave
   * (also the empty id of the placeholder).
   */
  function Refresh(mr: MaintenanceRecord, date: string, search: SearchOutcome, write: WriteOutcome): (r: Refreshed)
    ensures |r.calls| >= 1 && r.calls[0] == Search(ByCompany(mr.companyName)) && |r.calls| <= 2
    ensures search.SearchFailed? <==> r == Refreshed([Search(ByCompany(mr.companyName))], Some(GetRecordFailed(mr.companyName)))
    ensures search.Found? ==>
      && |r.calls| == 2 && r.calls[1].Update?
      && r.calls[1].fields.Keys == {ColMaintenanceRecords}
      && r.calls[1].recordId == FeishuRecordTable(mr.companyName, search).value.recordId
    ensures search.Found? ==> (r.err.None? <==> write.Written?)
  {
    var lookup := Search(ByCompany(mr.companyName));
    match FeishuRecordTable(mr.companyName, search)
    case None => Refreshed([lookup], Some(GetRecordFailed(mr.companyName)))
    case Some(table) =>
      var items := MergeAsWritten(table.content, mr.id, Entry(mr, date));
      var update := Update(table.recordId, LogFields(items));
      match write
      case Written => Refreshed([lookup, update], None)
      case TransportFailed => Refreshed([lookup, update], Some(UpdateRecordFailed(mr.companyName)))
      case Rejected => Refreshed([lookup, update], Some(RecordErrorResponse))
  }

  /** A company without a row gets an update of the empty row id whose log is the entry alone. */
  lemma NewCompanyUpdatesEmptyRowId(mr: MaintenanceRecord, date: string, write: WriteOutcome)
    ensures Refresh(mr, date, Found([]), write).calls ==
      [Search(ByCompany(mr.companyName)), Update("", map[ColMaintenanceRecords := Str(Entry(mr, date))])]
  {
    assert Join([Entry(mr, date)], SplitFlag) == Entry(mr, date);
  }

  /** `updateDataToFeishu` for one log entry, its time formatted as `date`. */
  method UpdateDataToFeishu(mr: MaintenanceRecord, date: string, search: SearchOutcome, write: WriteOutcome)
    returns (calls: seq<Call>, err: Option<RecordError>)
    ensures Refreshed(calls, err) == Refresh(mr, date, search, write)
  {
    calls := [Search(ByCompany(mr.companyName))];
    var table := GetFeishuMaintenanceRecord(mr.companyName, search);
    if table.None? {
      return calls, Some(GetRecordFailed(mr.companyName));
    }
    var newRecords := MergeRecords(table.value.content, mr.id, Entry(mr, date));
    calls := calls + [Update(table.value.recordId, LogFields(newRecords))];
    match write
    case Written => err := None;
    case TransportFailed => err := Some(UpdateRecordFailed(mr.companyName));
    case Rejected => err := Some(RecordErrorResponse);
  }

  // ---------------------------------------------------------------------------
  // One pass over the fetched entries
  // ---------------------------------------------------------------------------

  /** The calls and the logged errors of merging a run of entries. */
  datatype LogPass = LogPass(calls: seq<Call>, errors: seq<RecordError>)

  function LogTally(rs: seq<Refreshed>): LogPass {
    if |rs| == 0 then LogPass([], [])
    else
      var p := LogTally(rs[..|rs| - 1]);
      var r := rs[|rs| - 1];
      LogPass(p.calls + r.calls, p.errors + (if r.err.Some? then [r.err.value] else []))
  }

  /** A pass whose steps each write at most once writes at most once per step. */
  lemma {:induction false} LogTallyWritesAtMostOncePerStep(rs: seq<Refreshed>)
    requires forall k :: 0 <= k < |rs| ==> WriteCount(rs[k].calls) <= 1
    ensures WriteCount(LogTally(rs).calls) <= |rs|
  {
    if |rs| > 0 {
      var prefix := rs[..|rs| - 1];
      LogTallyWritesAtMostOncePerStep(prefix);
      WriteCountAppend(LogTally(prefix).calls, rs[|rs| - 1].calls);
    }
  }

  /** What merging each entry gives, entry `i` formatted with `format` and seeing `search(i)` and `write(i)`. */
  function Refreshes(records: seq<MaintenanceRecord>, format: int -> string, search: nat -> SearchOutcome, write: nat -> WriteOutcome): (rs: seq<Refreshed>)
    ensures |rs| == |records|
    ensures forall i :: 0 <= i < |records| ==> rs[i] == Refresh(records[i], format(records[i].maintenanceTime), search(i), write(i))
  {
    seq(|records|, i requires 0 <= i < |records| => Refresh(records[i], format(records[i].maintenanceTime), search(i), write(i)))
  }

  /** Merging one entry writes at most once. */
  lemma RefreshWritesAtMostOnce(mr: MaintenanceRecord, date: string, search: SearchOutcome, write: WriteOutcome)
    ensures WriteCount(Refresh(mr, date, search, write).calls) <= 1
  {
    var r := Refresh(mr, date, search, write);
    if |r.calls| == 2 {
      assert r.calls[..1][..0] == [];
    } else {
      assert r.calls[..0] == [];
    }
  }

  /** A pass over the entries makes at most one update per entry. */
  lemma LogPassWritesAtMostOncePerEntry(records: seq<MaintenanceRecord>, format: int -> string, search: nat -> SearchOutcome, write: nat -> WriteOutcome)
    ensures WriteCount(LogTally(Refreshes(records, format, search, write)).calls) <= |records|
  {
    var rs := Refreshes(records, format, search, write);
    forall k | 0 <= k < |rs| ensures WriteCount(rs[k].calls) <= 1 {
      RefreshWritesAtMostOnce(records[k], format(records[k].maintenanceTime), search(k), write(k));
    }
    LogTallyWritesAtMostOncePerStep(rs);
  }

  // ---------------------------------------------------------------------------
  // The cursor and the task
  // ---------------------------------------------------------------------------

  /** The page size of the next request: 5 before the first page was read, 1000 afterwards. */
  function MaxValueAt(executeTimes: nat): (max: int)
    ensures max == 5 <==> executeTimes == 0
    ensures max == 1000 <==> executeTimes > 0
  {
    if executeTimes == 0 then 5 else 1000
  }

  /** The marker a run starts from: the cached cursor, or 0 when it is missing or does not read as an integer. */
  function StartMarker(b: Bucket, now: int): int {
    var r := GetResult(b, LastMarkerKey, now, IntValue(0));
    match r.result
    case IntValue(n) => if r.failed then 0 else n
    case _ => 0
  }

  /** The marker request `i` of a run carries (before `MarkerParam` drops a 0). */
  function MarkerBefore(start: int, pages: seq<PageOutcome<MaintenanceRecord>>, i: nat): int
    requires i <= |pages|
  {
    if i == 0 then start
    else if pages[i - 1].Page? then pages[i - 1].marker
    else 0
  }

  /**
   * The requests of a run that starts from marker `start` with `e0` earlier
   * page reads, up to request `n`: request `i` asks for 5 entries on the very
   * first read of the task and 1000 after, and carries the marker before it.
   */
  function LogRequests(start: int, e0: nat, pages: seq<PageOutcome<MaintenanceRecord>>, n: nat): seq<PageRequest>
    requires n <= |pages|
  {
    seq(n, i requires 0 <= i < n => PageRequest(MaxValueAt(e0 + i), MarkerParam(MarkerBefore(start, pages, i))))
  }

  lemma LogRequestsSnoc(start: int, e0: nat, pages: seq<PageOutcome<MaintenanceRecord>>, n: nat)
    requires n < |pages|
    ensures LogRequests(start, e0, pages, n + 1)
      == LogRequests(start, e0, pages, n) + [PageRequest(MaxValueAt(e0 + n), MarkerParam(MarkerBefore(start, pages, n)))]
  {
  }

  /** The bucket after reading the cursor and storing the marker of each of the first `n` pages read. */
  function CursorAt(b: Bucket, pages: seq<PageOutcome<MaintenanceRecord>>, n: nat): Bucket
    requires n <= |pages|
  {
    if n > 0 && pages[n - 1].Page? then b[LastMarkerKey := Stored(Item(IntValue(pages[n - 1].marker), 0))]
    else b
  }

  /** The bucket at the end of a run. */
  function CursorAfter(b: Bucket, now: int, pages: seq<PageOutcome<MaintenanceRecord>>): Bucket {
    CursorAt(AfterGet(b, LastMarkerKey, now), pages, PagesRead(pages))
  }

  /**
   * After a run that reached the last page the cursor holds -1, so the
   * next run, at any later time, starts from marker -1 and sends it.
   */
  lemma CompletedRunLeavesEndMarker(b: Bucket, now: int, pages: seq<PageOutcome<MaintenanceRecord>>, later: int)
    requires FetchAll(pages).Complete?
    ensures StartMarker(CursorAfter(b, now, pages), later) == -1
    ensures MarkerParam(StartMarker(CursorAfter(b, now, pages), later)) == Some(-1)
  {
  }

  /**
   * A run whose request fails after `k > 0` pages were read returns nothing,
   * yet the cursor already points past those pages: the next run starts
   * after them, and their entries are never merged.
   */
  lemma FailedRunKeepsAdvancedCursor(b: Bucket, now: int, pages: seq<PageOutcome<MaintenanceRecord>>, later: int)
    requires FetchAll(pages).FetchError? && PagesRead(pages) > 0
    ensures pages[PagesRead(pages) - 1].Page?
    ensures StartMarker(CursorAfter(b, now, pages), later) == pages[PagesRead(pages) - 1].marker
  {
  }

  /**
   * One page with entry `mr` and marker 7, then a failed request: the run
   * returns nothing, so `mr` is never merged, and the next run starts from 7.
   */
  lemma AdvancedCursorExample(b: Bucket, now: int, mr: MaintenanceRecord, later: int)
    ensures var pages := [Page([mr], 7), FetchFailed];
      FetchAll(pages) == FetchError && StartMarker(CursorAfter(b, now, pages), later) == 7
  {
    var pages: seq<PageOutcome<MaintenanceRecord>> := [Page([mr], 7), FetchFailed];
    assert StopIndex(pages[1..]) == 0;
    assert StopIndex(pages) == 1;
  }

  /**
   * The cursor as evidently intended: a run moves it only once its entries
   * are handed on to the merge, that is, when the fetch completes; a failed
   * run leaves it as it was read.
   */
  function CommittedCursorAfter(b: Bucket, now: int, pages: seq<PageOutcome<MaintenanceRecord>>): Bucket {
    if FetchAll(pages).Complete? then CursorAfter(b, now, pages) else AfterGet(b, LastMarkerKey, now)
  }

  /**
   * With the committed cursor, a failed run is retried from where it
   * started, so no page's entries are skipped; a complete run still leaves
   * the cursor at the last page's marker.
   */
  lemma FailedRunRetriesFromStart(b: Bucket, now: int, pages: seq<PageOutcome<MaintenanceRecord>>)
    ensures !FetchAll(pages).Complete? ==> StartMarker(CommittedCursorAfter(b, now, pages), now) == StartMarker(b, now)
    ensures FetchAll(pages).Complete? ==> StartMarker(CommittedCursorAfter(b, now, pages), now) == -1
  {
  }

  /** How one run of the log task ends. */
  datatype LogRunOutcome =
    | Done          // Execute returned nil
    | FetchAborted  // Execute returned the fetch error
    | Stalled       // the page oracle ran out before marker -1

  /** The loop of `Execute` over the fetched entries: merge each, logging an error and going on. */
  method RefreshAll(records: seq<MaintenanceRecord>, format: int -> string,
                    search: nat -> SearchOutcome, write: nat -> WriteOutcome)
    returns (calls: seq<Call>, errors: seq<RecordError>)
    ensures LogPass(calls, errors) == LogTally(Refreshes(records, format, search, write))
  {
    ghost var rs := Refreshes(records, format, search, write);
    calls, errors := [], [];
    for i := 0 to |records|
      invariant LogTally(rs[..i]) == LogPass(calls, errors)
    {
      assert rs[..i + 1][..i] == rs[..i];
      var c, err := UpdateDataToFeishu(records[i], format(records[i].maintenanceTime), search(i), write(i));
      calls := calls + c;
      if err.Some? {
        errors := errors + [err.value];
      }
    }
    assert rs[..|records|] == rs;
  }

  class MaintenanceRecordToFeishuTask {
    var executeTimes: nat

    constructor ()
      ensures executeTimes == 0
    {
      executeTimes := 0;
    }

    function GetMaxValue(): (max: int)
      reads this
      ensures max == MaxValueAt(executeTimes)
    {
      MaxValueAt(executeTimes)
    }

    /**
     * `getMaintenanceRecords`: start from the cached cursor; request pages,
     * storing each page's marker in the cache as soon as it is read, until a
     * page carries marker -1. A failed request returns nothing.
     */
    method GetMaintenanceRecords(cache: Cache, now: int, pages: seq<PageOutcome<MaintenanceRecord>>)
      returns (fetched: Fetched<MaintenanceRecord>, requests: seq<PageRequest>)
      requires cache.Valid()
      modifies this, cache
      ensures cache.Valid()
      ensures fetched == FetchAll(pages)
      ensures executeTimes == old(executeTimes) + PagesRead(pages)
      ensures cache.bucket == CursorAfter(old(cache.bucket), now, pages)
      ensures requests == LogRequests(StartMarker(old(cache.bucket), now), old(executeTimes), pages, PagesAsked(pages))
    {
      var cached, failed := cache.Get(LastMarkerKey, now, IntValue(0));
      var marker := if !failed && cached.IntValue? then cached.n else 0;
      fetched, requests := FetchPages(cache, now, pages, marker);
    }

    /** The request loop of `getMaintenanceRecords`, from marker `start`. */
    method FetchPages(cache: Cache, now: int, pages: seq<PageOutcome<MaintenanceRecord>>, start: int)
      returns (fetched: Fetched<MaintenanceRecord>, requests: seq<PageRequest>)
      requires cache.Valid()
      modifies this, cache
      ensures cache.Valid()
      ensures fetched == FetchAll(pages)
      ensures executeTimes == old(executeTimes) + PagesRead(pages)
      ensures cache.bucket == CursorAt(old(cache.bucket), pages, PagesRead(pages))
      ensures requests == LogRequests(start, old(executeTimes), pages, PagesAsked(pages))
    {
      var marker := start;
      var records: seq<MaintenanceRecord> := [];
      requests := [];
      var i := 0;
      while i < |pages|
        invariant 0 <= i <= StopIndex(pages)
        invariant records == Concat(pages[..i])
        invariant executeTimes == old(executeTimes) + i
        invariant cache.Valid() && cache.bucket == CursorAt(old(cache.bucket), pages, i)
        invariant marker == MarkerBefore(start, pages, i)
        invariant requests == LogRequests(start, old(executeTimes), pages, i)
      {
        LogRequestsSnoc(start, old(executeTimes), pages, i);
        requests := requests + [PageRequest(GetMaxValue(), MarkerParam(marker))];
        match pages[i]
        case FetchFailed =>
          return FetchError, requests;
        case Page(data, next) =>
          executeTimes := executeTimes + 1;
          marker := next;
          var _ := cache.Set(LastMarkerKey, IntValue(marker), 0, now);
          ConcatSnoc(pages, i);
          records := records + data;
          if marker == -1 {
            return Complete(records), requests;
          }
          i := i + 1;
      }
      return Unfinished, requests;
    }

    /**
     * `Execute`: fetch the new entries; merge each into its company's row,
     * logging per-entry errors and going on. A fetch error is the only error
     * returned. `format` gives an entry time's date text.
     */
    method Execute(cache: Cache, now: int, pages: seq<PageOutcome<MaintenanceRecord>>, format: int -> string,
                   search: nat -> SearchOutcome, write: nat -> WriteOutcome)
      returns (outcome: LogRunOutcome, calls: seq<Call>, errors: seq<RecordError>, requests: seq<PageRequest>)
      requires cache.Valid()
      modifies this, cache
      ensures cache.Valid()
      ensures executeTimes == old(executeTimes) + PagesRead(pages)
      ensures cache.bucket == CursorAfter(old(cache.bucket), now, pages)
      ensures requests == LogRequests(StartMarker(old(cache.bucket), now), old(executeTimes), pages, PagesAsked(pages))
      ensures FetchAll(pages).FetchError? ==> outcome == FetchAborted && calls == [] && errors == []
      ensures FetchAll(pages).Unfinished? ==> outcome == Stalled && calls == [] && errors == []
      ensures FetchAll(pages).Complete? ==>
        var p := LogTally(Refreshes(FetchAll(pages).records, format, search, write));
        outcome == Done && calls == p.calls && errors == p.errors
    {
      var fetched;
      fetched, requests := GetMaintenanceRecords(cache, now, pages);
      calls, errors := [], [];
      match fetched
      case FetchError => return FetchAborted, calls, errors, requests;
      case Unfinished => return Stalled, calls, errors, requests;
      case Complete(records) =>
        calls, errors := RefreshAll(records, format, search, write);
        outcome := Done;
    }
  }
}
