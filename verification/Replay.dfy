/** The replay timeline of journal records and event packets, and the counts reported about it. */
module Replay {
  import opened Text
  import opened Order
  import Journal

  datatype Kind = JournalItem | PacketItem

  datatype Item = Item(
    kind: Kind, runId: string, at: int, source: string, eventType: string, entityId: string, record: string)

  /** The filters of a timeline: an empty run id stands for every run. */
  datatype Window = Window(runId: string, start: Option<int>, end: Option<int>) {
    predicate Holds(i: Item) {
      && (runId != "" ==> i.runId == runId)
      && (start.Some? ==> i.at >= start.value)
      && (end.Some? ==> i.at <= end.value)
    }

    predicate Ordered() {
      start.Some? && end.Some? ==> start.value <= end.value
    }
  }

  // ----- the order of items

  function KindRank(k: Kind): nat {
    if k == JournalItem then 0 else 1
  }

  /** Time first, then journal before packets, then source, type and entity. */
  predicate Earlier(a: Item, b: Item) {
    if a.at != b.at then a.at < b.at
    else if a.kind != b.kind then KindRank(a.kind) < KindRank(b.kind)
    else if a.source != b.source then StrLess(a.source, b.source)
    else if a.eventType != b.eventType then StrLess(a.eventType, b.eventType)
    else StrLess(a.entityId, b.entityId)
  }

  /** Not later: earlier, or with the same key. */
  predicate NotLater(a: Item, b: Item) {
    !Earlier(b, a)
  }

  lemma ItemsOrdered(a: Item, b: Item, c: Item)
    ensures NotLater(a, a) && (NotLater(a, b) || NotLater(b, a))
    ensures NotLater(a, b) && NotLater(b, c) ==> NotLater(a, c)
    ensures NotLater(a, b) ==> a.at <= b.at
  {
    hide StrLess;
    ThreeStrings(a.source, b.source, c.source);
    ThreeStrings(a.eventType, b.eventType, c.eventType);
    ThreeStrings(a.entityId, b.entityId, c.entityId);
    ThreeStrings(c.source, b.source, a.source);
    ThreeStrings(c.eventType, b.eventType, a.eventType);
    ThreeStrings(c.entityId, b.entityId, a.entityId);
  }

  /** The key: time first, at one time the journal before packets, and within these the source, then the type,
      then the entity, each in dictionary order. */
  lemma EarlierMeans(a: Item, b: Item)
    ensures a.at < b.at ==> Earlier(a, b) && !Earlier(b, a)
    ensures a.at == b.at && a.kind == JournalItem && b.kind == PacketItem ==> Earlier(a, b) && !Earlier(b, a)
    ensures a.at == b.at && a.kind == b.kind ==>
      (Earlier(a, b) <==>
        || StrLess(a.source, b.source)
        || (a.source == b.source && StrLess(a.eventType, b.eventType))
        || (a.source == b.source && a.eventType == b.eventType && StrLess(a.entityId, b.entityId)))
  {
    hide StrLess;
    StrOrdered(a.source, b.source);
    StrOrdered(a.eventType, b.eventType);
    StrOrdered(a.source, a.source);
    StrOrdered(a.eventType, a.eventType);
  }

  ghost predicate InOrder(s: seq<Item>) {
    forall i, j :: 0 <= i < j < |s| ==> NotLater(s[i], s[j])
  }

  // ----- stable sorting and filtering

  /** An item is placed after all that are not later than it. */
  function Insert(s: seq<Item>, x: Item): seq<Item> {
    if s == [] then [x]
    else if NotLater(s[0], x) then [s[0]] + Insert(s[1..], x)
    else [x] + s
  }

  /** A stable sort: items with equal keys keep their order. */
  function Sort(s: seq<Item>): seq<Item> {
    if s == [] then [] else Insert(Sort(s[..|s| - 1]), s[|s| - 1])
  }

  function Keep(s: seq<Item>, p: Item -> bool): seq<Item> {
    if s == [] then [] else (if p(s[0]) then [s[0]] else []) + Keep(s[1..], p)
  }

  lemma KeepOfCons(x: Item, s: seq<Item>, p: Item -> bool)
    ensures Keep([x] + s, p) == if p(x) then [x] + Keep(s, p) else Keep(s, p)
  {
    assert ([x] + s)[1..] == s;
  }

  lemma KeepOfNothing(p: Item -> bool)
    ensures Keep([], p) == []
  {
  }

  lemma {:induction false} KeepOfConcat(a: seq<Item>, b: seq<Item>, p: Item -> bool)
    ensures Keep(a + b, p) == Keep(a, p) + Keep(b, p)
  {
    hide Keep;
    if a == [] {
      assert a + b == b;
      KeepOfNothing(p);
    } else {
      var x, rest := a[0], a[1..];
      assert a == [x] + rest && a + b == [x] + (rest + b);
      KeepOfConcat(rest, b, p);
      KeepOfCons(x, rest, p);
      KeepOfCons(x, rest + b, p);
    }
  }

  lemma {:induction false} KeepHolds(s: seq<Item>, p: Item -> bool, x: Item)
    ensures x in Keep(s, p) <==> x in s && p(x)
  {
    if s != [] {
      assert s == [s[0]] + s[1..];
      KeepHolds(s[1..], p, x);
    }
  }

  lemma {:induction false} KeepAll(s: seq<Item>, p: Item -> bool)
    requires forall x :: x in s ==> p(x)
    ensures Keep(s, p) == s
  {
    if s != [] { KeepAll(s[1..], p); }
  }

  lemma {:induction false} KeepNone(s: seq<Item>, p: Item -> bool)
    requires forall x :: x in s ==> !p(x)
    ensures Keep(s, p) == []
  {
    if s != [] { KeepNone(s[1..], p); }
  }

  lemma {:induction false} InsertKeepsOrder(s: seq<Item>, x: Item)
    requires InOrder(s)
    ensures InOrder(Insert(s, x)) && multiset(Insert(s, x)) == multiset(s) + multiset{x}
  {
    hide NotLater;
    if s != [] {
      assert s == [s[0]] + s[1..];
      ItemsOrdered(s[0], x, s[0]);
      if NotLater(s[0], x) {
        InsertKeepsOrder(s[1..], x);
        forall y | y in Insert(s[1..], x) ensures NotLater(s[0], y) {
          assert y in multiset(Insert(s[1..], x));
          assert y == x || y in s[1..];
        }
      } else {
        forall y | y in s ensures NotLater(x, y) {
          ItemsOrdered(x, s[0], y);
        }
      }
    } else {
      ItemsOrdered(x, x, x);
    }
  }

  /** Sorting gives the same items in order. */
  lemma {:induction false} SortIsOrdered(s: seq<Item>)
    ensures InOrder(Sort(s)) && multiset(Sort(s)) == multiset(s)
  {
    if s != [] {
      var front, x := s[..|s| - 1], s[|s| - 1];
      assert s == front + [x];
      SortIsOrdered(front);
      InsertKeepsOrder(Sort(front), x);
    }
  }

  lemma {:induction false} InsertBeforeAll(s: seq<Item>, x: Item)
    requires forall y :: y in s ==> !NotLater(y, x)
    ensures Insert(s, x) == [x] + s
  {
    if s != [] { assert s[0] in s; }
  }

  lemma InsertAfter(first: Item, s: seq<Item>, x: Item)
    requires NotLater(first, x)
    ensures Insert([first] + s, x) == [first] + Insert(s, x)
  {
    assert ([first] + s)[1..] == s;
  }

  lemma SortOfSnoc(s: seq<Item>, x: Item)
    ensures Sort(s + [x]) == Insert(Sort(s), x)
  {
    assert (s + [x])[..|s|] == s;
  }

  lemma AllLater(s: seq<Item>, x: Item)
    requires InOrder(s) && s != [] && !NotLater(s[0], x)
    ensures forall y :: y in s ==> !NotLater(y, x)
  {
    hide NotLater;
    forall y | y in s ensures !NotLater(y, x) {
      ItemsOrdered(s[0], y, x);
      ItemsOrdered(s[0], s[0], s[0]);
    }
  }

  lemma KeepOfFirst(s: seq<Item>, x: Item, p: Item -> bool)
    requires InOrder(s) && s != [] && !NotLater(s[0], x)
    ensures Keep(Insert(s, x), p) == if p(x) then Insert(Keep(s, p), x) else Keep(s, p)
  {
    hide NotLater, Keep, Insert, InOrder;
    AllLater(s, x);
    InsertBeforeAll(s, x);
    KeepOfCons(x, s, p);
    forall y | y in Keep(s, p) ensures !NotLater(y, x) {
      KeepHolds(s, p, y);
    }
    InsertBeforeAll(Keep(s, p), x);
  }

  lemma {:induction false} KeepOfInsert(s: seq<Item>, x: Item, p: Item -> bool)
    requires InOrder(s)
    ensures Keep(Insert(s, x), p) == if p(x) then Insert(Keep(s, p), x) else Keep(s, p)
    decreases |s|, 1
  {
    hide NotLater;
    if s == [] {
      KeepOfCons(x, [], p);
      assert [x] + [] == [x];
    } else if NotLater(s[0], x) {
      KeepOfLater(s, x, p);
    } else {
      KeepOfFirst(s, x, p);
    }
  }

  lemma {:induction false} KeepOfLater(s: seq<Item>, x: Item, p: Item -> bool)
    requires InOrder(s) && s != [] && NotLater(s[0], x)
    ensures Keep(Insert(s, x), p) == if p(x) then Insert(Keep(s, p), x) else Keep(s, p)
    decreases |s|, 0
  {
    hide NotLater, Keep, Insert;
    var first, rest := s[0], s[1..];
    assert s == [first] + rest;
    KeepOfCons(first, rest, p);
    InsertAfter(first, rest, x);
    KeepOfInsert(rest, x, p);
    KeepOfCons(first, Insert(rest, x), p);
    InsertAfter(first, Keep(rest, p), x);
  }

  /** Filtering, by any condition, commutes with the sort. */
  lemma {:induction false} KeepOfSort(s: seq<Item>, p: Item -> bool)
    ensures Keep(Sort(s), p) == Sort(Keep(s, p))
  {
    hide Insert;
    if s != [] {
      var front, x := s[..|s| - 1], s[|s| - 1];
      assert s == front + [x];
      KeepOfSort(front, p);
      SortIsOrdered(front);
      KeepOfInsert(Sort(front), x, p);
      KeepOfConcat(front, [x], p);
      KeepOfCons(x, [], p);
      assert [x] + [] == [x];
      if p(x) {
        SortOfSnoc(Keep(front, p), x);
      } else {
        assert Keep(front, p) + [] == Keep(front, p);
      }
    }
  }

  /** Items none of which is earlier than another are left as they are. */
  lemma {:induction false} SortOfEqualKeys(s: seq<Item>)
    requires forall x, y :: x in s && y in s ==> NotLater(x, y)
    ensures Sort(s) == s
  {
    hide NotLater;
    if s != [] {
      var front, x := s[..|s| - 1], s[|s| - 1];
      assert s == front + [x];
      SortOfEqualKeys(front);
      InsertLast(front, x);
    }
  }

  lemma {:induction false} InsertLast(s: seq<Item>, x: Item)
    requires forall y :: y in s ==> NotLater(y, x)
    ensures Insert(s, x) == s + [x]
  {
    hide NotLater;
    if s != [] {
      assert s[0] in s;
      InsertLast(s[1..], x);
      assert s == [s[0]] + s[1..];
    }
  }

  /** The sort is stable: the items with one item's key keep their order. */
  lemma SortIsStable(s: seq<Item>, x: Item, same: Item -> bool)
    requires forall y :: same(y) <==> NotLater(x, y) && NotLater(y, x)
    ensures Keep(Sort(s), same) == Keep(s, same)
  {
    hide NotLater, Sort, Keep;
    KeepOfSort(s, same);
    forall y, z | y in Keep(s, same) && z in Keep(s, same) ensures NotLater(y, z) {
      KeepHolds(s, same, y);
      KeepHolds(s, same, z);
      ItemsOrdered(y, x, z);
    }
    SortOfEqualKeys(Keep(s, same));
  }

  // ----- the timeline

  function Timeline(journal: seq<Item>, packets: seq<Item>, w: Window): seq<Item> {
    Sort(Keep(journal, w.Holds) + Keep(packets, w.Holds))
  }

  /** What a list of files holds, in order; a missing file holds nothing, and a line that does not parse
      is an error. */
  function ReadAll(c: Journal.Codec<Item>, files: seq<Option<string>>): Result<seq<Item>> {
    if files == [] then Ok([])
    else
      var front :- ReadAll(c, files[..|files| - 1]);
      var last :- Journal.ReadBack(c, files[|files| - 1]);
      Ok(front + last)
  }

  method ReadPaths(c: Journal.Codec<Item>, files: seq<Option<string>>) returns (r: Result<seq<Item>>)
    ensures r == ReadAll(c, files)
  {
    var items: seq<Item> := [];
    for i := 0 to |files|
      invariant ReadAll(c, files[..i]) == Ok(items)
    {
      assert files[..i + 1][..i] == files[..i];
      var more := Journal.ReadRecords(c, files[i]);
      if more.Err? {
        ErrorsStay(c, files, i + 1);
        return Err(more.error);
      }
      items := items + more.value;
    }
    assert files[..|files|] == files;
    return Ok(items);
  }

  lemma {:induction false} ErrorsStay(c: Journal.Codec<Item>, files: seq<Option<string>>, n: nat)
    requires n <= |files| && ReadAll(c, files[..n]).Err?
    ensures ReadAll(c, files) == Err(ReadAll(c, files[..n]).error)
  {
    if n == |files| {
      assert files[..n] == files;
    } else {
      var front := files[..|files| - 1];
      assert front[..n] == files[..n];
      ErrorsStay(c, front, n);
    }
  }

  /** A reversed window is an error before anything is read. Then the journals are read, then the packets,
      each item kept if it matches the filters, and the whole is sorted. */
  method BuildTimeline(
      journalCodec: Journal.Codec<Item>, packetCodec: Journal.Codec<Item>,
      journals: seq<Option<string>>, packetFiles: seq<Option<string>>, w: Window)
    returns (r: Result<seq<Item>>)
    ensures r.Ok? <==> w.Ordered() && ReadAll(journalCodec, journals).Ok? && ReadAll(packetCodec, packetFiles).Ok?
    ensures r.Ok? ==>
      r.value == Timeline(ReadAll(journalCodec, journals).value, ReadAll(packetCodec, packetFiles).value, w)
  {
    hide Sort, ReadAll;
    if w.start.Some? && w.end.Some? && w.start.value > w.end.value {
      return Err("start_ms must be less than or equal to end_ms");
    }
    var journal := ReadPaths(journalCodec, journals);
    if journal.Err? { return journal; }
    var kept := Append([], journal.value, w);
    var packets := ReadPaths(packetCodec, packetFiles);
    if packets.Err? { return packets; }
    var items := Append(kept, packets.value, w);
    assert kept == Keep(journal.value, w.Holds);
    return Ok(Sort(items));
  }

  /** Files that writers left, one list of records each, are read as those records one after the other. */
  lemma {:induction false} WrittenFilesReadBack(
      c: Journal.Codec<Item>, lists: seq<seq<Item>>, files: seq<Option<string>>)
    requires Journal.Sound(c) && |files| == |lists|
    requires forall i :: 0 <= i < |files| ==> files[i] == Some(Journal.Content(c, lists[i]))
    ensures ReadAll(c, files) == Ok(Flatten(lists))
  {
    hide Journal.Content, Journal.Records;
    if files != [] {
      var n := |files| - 1;
      WrittenFilesReadBack(c, lists[..n], files[..n]);
      Journal.ContentReadsBack(c, lists[n]);
    }
  }

  function Flatten(lists: seq<seq<Item>>): seq<Item> {
    if lists == [] then [] else Flatten(lists[..|lists| - 1]) + lists[|lists| - 1]
  }

  method Append(before: seq<Item>, more: seq<Item>, w: Window) returns (items: seq<Item>)
    ensures items == before + Keep(more, w.Holds)
  {
    items := before;
    for i := 0 to |more|
      invariant items == before + Keep(more[..i], w.Holds)
    {
      if w.Holds(more[i]) { items := items + [more[i]]; }
      assert more[..i + 1] == more[..i] + [more[i]];
      KeepOfConcat(more[..i], [more[i]], w.Holds);
      assert Keep([more[i]], w.Holds) == (if w.Holds(more[i]) then [more[i]] else []) + Keep([], w.Holds);
    }
    assert more[..|more|] == more;
  }

  /** The timeline holds exactly the matching inputs, as often as they occur, in order. */
  lemma TimelineIsSortedPermutation(journal: seq<Item>, packets: seq<Item>, w: Window)
    ensures InOrder(Timeline(journal, packets, w))
    ensures multiset(Timeline(journal, packets, w)) == multiset(Keep(journal + packets, w.Holds))
    ensures Timeline(journal, packets, w) == Keep(Sort(journal + packets), w.Holds)
  {
    hide Sort;
    KeepOfConcat(journal, packets, w.Holds);
    SortIsOrdered(Keep(journal + packets, w.Holds));
    KeepOfSort(journal + packets, w.Holds);
  }

  /** An item is in the timeline exactly when it was read, is of the run asked for, if one was, and lies
      within the times asked for, both ends included. */
  lemma TimelineHolds(journal: seq<Item>, packets: seq<Item>, w: Window, x: Item)
    ensures x in Timeline(journal, packets, w) <==>
      && (x in journal || x in packets) && (w.runId == "" || x.runId == w.runId)
      && (w.start.None? || w.start.value <= x.at) && (w.end.None? || x.at <= w.end.value)
  {
    hide Sort, Keep;
    TimelineIsSortedPermutation(journal, packets, w);
    var kept := Keep(journal + packets, w.Holds);
    KeepHolds(journal + packets, w.Holds, x);
    assert x in Timeline(journal, packets, w) <==> x in multiset(Timeline(journal, packets, w));
    assert x in kept <==> x in multiset(kept);
  }

  lemma WindowsSplit(x: Item, mid: int, wide: Window, left: Window, right: Window)
    requires Adjoin(left, mid, right, wide)
    ensures left.Holds(x) <==> wide.Holds(x) && x.at <= mid
    ensures right.Holds(x) <==> wide.Holds(x) && x.at > mid
  {
  }

  lemma LaterIsNotLeft(x: Item, rest: seq<Item>, mid: int, wide: Window, left: Window, right: Window)
    requires Adjoin(left, mid, right, wide) && x.at > mid && forall y :: y in rest ==> NotLater(x, y)
    ensures Keep(rest, left.Holds) == []
  {
    hide NotLater, Adjoin;
    forall y | y in rest ensures !left.Holds(y) {
      ItemsOrdered(x, y, y);
      WindowsSplit(y, mid, wide, left, right);
    }
    KeepNone(rest, left.Holds);
  }

  lemma {:induction false} OrderedSplits(s: seq<Item>, mid: int, wide: Window, left: Window, right: Window)
    requires InOrder(s) && Adjoin(left, mid, right, wide)
    ensures Keep(s, wide.Holds) == Keep(s, left.Holds) + Keep(s, right.Holds)
  {
    hide NotLater, Adjoin;
    if s != [] {
      var x, rest := s[0], s[1..];
      assert s == [x] + rest;
      OrderedSplits(rest, mid, wide, left, right);
      if x.at > mid {
        RightOnly(x, rest, mid, wide, left, right);
      } else {
        LeftWithin(x, rest, mid, wide, left, right);
      }
    }
  }

  lemma LeftWithin(x: Item, rest: seq<Item>, mid: int, wide: Window, left: Window, right: Window)
    requires Adjoin(left, mid, right, wide) && x.at <= mid
    requires Keep(rest, wide.Holds) == Keep(rest, left.Holds) + Keep(rest, right.Holds)
    ensures Keep([x] + rest, wide.Holds) == Keep([x] + rest, left.Holds) + Keep([x] + rest, right.Holds)
  {
    hide Keep, Adjoin;
    KeepOfCons(x, rest, wide.Holds);
    KeepOfCons(x, rest, left.Holds);
    KeepOfCons(x, rest, right.Holds);
    WindowsSplit(x, mid, wide, left, right);
    if wide.Holds(x) { PrependSplits(x, Keep(rest, left.Holds), Keep(rest, right.Holds)); }
  }

  lemma RightOnly(x: Item, rest: seq<Item>, mid: int, wide: Window, left: Window, right: Window)
    requires Adjoin(left, mid, right, wide) && x.at > mid && forall y :: y in rest ==> NotLater(x, y)
    requires Keep(rest, wide.Holds) == Keep(rest, left.Holds) + Keep(rest, right.Holds)
    ensures Keep([x] + rest, wide.Holds) == Keep([x] + rest, left.Holds) + Keep([x] + rest, right.Holds)
  {
    hide Keep, Adjoin, NotLater;
    KeepOfCons(x, rest, wide.Holds);
    KeepOfCons(x, rest, left.Holds);
    KeepOfCons(x, rest, right.Holds);
    WindowsSplit(x, mid, wide, left, right);
    LaterIsNotLeft(x, rest, mid, wide, left, right);
  }

  lemma PrependSplits(x: Item, a: seq<Item>, b: seq<Item>)
    ensures [x] + (a + b) == ([x] + a) + b
  {
  }

  /** Two windows of one run, the second starting just after the first ends, and their union. */
  predicate Adjoin(left: Window, mid: int, right: Window, wide: Window) {
    && left.runId == right.runId == wide.runId
    && left.start == wide.start && left.end == Some(mid) && right.start == Some(mid + 1) && right.end == wide.end
    && left.Ordered() && right.Ordered()
  }

  /** Adjoining windows concatenate to the timeline of their union. */
  lemma AdjoiningWindows(
      journal: seq<Item>, packets: seq<Item>, left: Window, mid: int, right: Window, wide: Window)
    requires Adjoin(left, mid, right, wide)
    ensures Timeline(journal, packets, wide) == Timeline(journal, packets, left) + Timeline(journal, packets, right)
  {
    hide Sort, Keep, InOrder, Adjoin, Timeline;
    SortIsOrdered(journal + packets);
    OrderedSplits(Sort(journal + packets), mid, wide, left, right);
    TimelineIsSortedPermutation(journal, packets, wide);
    TimelineIsSortedPermutation(journal, packets, left);
    TimelineIsSortedPermutation(journal, packets, right);
  }
}
