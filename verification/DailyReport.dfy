/** The counts of the daily report over a replay timeline. */
module DailyReport {
  import opened Replay

  const PROPOSAL_TYPES: seq<string> := ["proposal_generated", "proposal_rejected", "proposal_output"]
  const RISK_DECISION_TYPES: seq<string> := ["risk_decision", "risk_veto"]
  const FILL_TYPES: seq<string> := ["fill", "partial_fill"]
  const EXECUTION_TYPES: seq<string> := ["order_submitted", "order_rejected", "fill", "partial_fill", "stop_hit"]
  const OPERATOR_UPDATE_TYPES: seq<string> := ["operator_update", "operator_update_sent"]
  const INCIDENT_TYPES: seq<string> :=
    ["alert", "data_gap", "flatten_requested", "kill_switch_activated", "mismatch", "reconciliation_mismatch",
     "risk_freeze", "risk_veto"]

  /** How many items have a type. */
  function Count(items: seq<Item>, eventType: string): nat {
    if items == [] then 0
    else Count(items[..|items| - 1], eventType) + if items[|items| - 1].eventType == eventType then 1 else 0
  }

  function CountKind(items: seq<Item>, kind: Kind): nat {
    if items == [] then 0
    else CountKind(items[..|items| - 1], kind) + if items[|items| - 1].kind == kind then 1 else 0
  }

  /** The counts of a listing of types, added up. */
  function SumTypes(items: seq<Item>, types: seq<string>): nat {
    if types == [] then 0 else SumTypes(items, types[..|types| - 1]) + Count(items, types[|types| - 1])
  }

  predicate AnyType(items: seq<Item>, types: seq<string>) {
    exists t :: t in types && Count(items, t) > 0
  }

  datatype Summary = Summary(
    items: nat, journal: nat, packets: nat, proposals: nat, riskDecisions: nat, riskVetoes: nat, fills: nat,
    dataGaps: nat, mismatches: nat, restarts: nat, operatorUpdates: nat, incidents: nat, executed: bool)

  function Summarize(items: seq<Item>): Summary {
    Summary(|items|, CountKind(items, JournalItem), CountKind(items, PacketItem),
            SumTypes(items, PROPOSAL_TYPES), SumTypes(items, RISK_DECISION_TYPES), Count(items, "risk_veto"),
            SumTypes(items, FILL_TYPES), Count(items, "data_gap"),
            Count(items, "reconciliation_mismatch") + Count(items, "mismatch"), Count(items, "restart"),
            SumTypes(items, OPERATOR_UPDATE_TYPES), SumTypes(items, INCIDENT_TYPES), AnyType(items, EXECUTION_TYPES))
  }

  // ----- counts add

  lemma {:induction false} CountAdds(a: seq<Item>, b: seq<Item>, eventType: string)
    ensures Count(a + b, eventType) == Count(a, eventType) + Count(b, eventType)
  {
    if b == [] {
      assert a + b == a;
    } else {
      assert (a + b)[..|a + b| - 1] == a + b[..|b| - 1];
      CountAdds(a, b[..|b| - 1], eventType);
    }
  }

  lemma {:induction false} CountKindAdds(a: seq<Item>, b: seq<Item>, kind: Kind)
    ensures CountKind(a + b, kind) == CountKind(a, kind) + CountKind(b, kind)
  {
    if b == [] {
      assert a + b == a;
    } else {
      assert (a + b)[..|a + b| - 1] == a + b[..|b| - 1];
      CountKindAdds(a, b[..|b| - 1], kind);
    }
  }

  lemma {:induction false} SumTypesAdds(a: seq<Item>, b: seq<Item>, types: seq<string>)
    ensures SumTypes(a + b, types) == SumTypes(a, types) + SumTypes(b, types)
  {
    if types != [] {
      SumTypesAdds(a, b, types[..|types| - 1]);
      CountAdds(a, b, types[|types| - 1]);
    }
  }

  lemma AnyTypeJoins(a: seq<Item>, b: seq<Item>, types: seq<string>)
    ensures AnyType(a + b, types) <==> AnyType(a, types) || AnyType(b, types)
  {
    forall t ensures Count(a + b, t) == Count(a, t) + Count(b, t) { CountAdds(a, b, t); }
    if AnyType(a + b, types) {
      var t :| t in types && Count(a + b, t) > 0;
      assert Count(a, t) > 0 || Count(b, t) > 0;
    }
  }

  function Plus(a: Summary, b: Summary): Summary {
    Summary(a.items + b.items, a.journal + b.journal, a.packets + b.packets, a.proposals + b.proposals,
            a.riskDecisions + b.riskDecisions, a.riskVetoes + b.riskVetoes, a.fills + b.fills, a.dataGaps + b.dataGaps,
            a.mismatches + b.mismatches, a.restarts + b.restarts, a.operatorUpdates + b.operatorUpdates,
            a.incidents + b.incidents, a.executed || b.executed)
  }

  lemma SummaryAdds(a: seq<Item>, b: seq<Item>)
    ensures Summarize(a + b) == Plus(Summarize(a), Summarize(b))
  {
    hide PROPOSAL_TYPES, RISK_DECISION_TYPES, FILL_TYPES, EXECUTION_TYPES, OPERATOR_UPDATE_TYPES, INCIDENT_TYPES;
    hide Count, CountKind, SumTypes, AnyType;
    CountKindAdds(a, b, JournalItem);
    CountKindAdds(a, b, PacketItem);
    SumTypesAdds(a, b, PROPOSAL_TYPES);
    SumTypesAdds(a, b, RISK_DECISION_TYPES);
    SumTypesAdds(a, b, FILL_TYPES);
    SumTypesAdds(a, b, OPERATOR_UPDATE_TYPES);
    SumTypesAdds(a, b, INCIDENT_TYPES);
    AnyTypeJoins(a, b, EXECUTION_TYPES);
    CountAdds(a, b, "risk_veto");
    CountAdds(a, b, "data_gap");
    CountAdds(a, b, "reconciliation_mismatch");
    CountAdds(a, b, "mismatch");
    CountAdds(a, b, "restart");
  }

  /** The reports of two adjoining windows add up to the report of their union, field by field. */
  lemma ReportsAdd(journal: seq<Item>, packets: seq<Item>, left: Window, mid: int, right: Window, wide: Window)
    requires Adjoin(left, mid, right, wide)
    ensures Summarize(Timeline(journal, packets, wide))
         == Plus(Summarize(Timeline(journal, packets, left)), Summarize(Timeline(journal, packets, right)))
  {
    hide Timeline, Summarize, Plus, Adjoin;
    AdjoiningWindows(journal, packets, left, mid, right, wide);
    SummaryAdds(Timeline(journal, packets, left), Timeline(journal, packets, right));
  }

  // ----- counts sum to the items

  predicate Distinct(types: seq<string>) {
    forall i, j :: 0 <= i < j < |types| ==> types[i] != types[j]
  }

  lemma {:induction false} SumTypesOfSnoc(items: seq<Item>, x: Item, types: seq<string>)
    requires Distinct(types)
    ensures SumTypes(items + [x], types) == SumTypes(items, types) + if x.eventType in types then 1 else 0
  {
    if types != [] {
      var front, last := types[..|types| - 1], types[|types| - 1];
      assert types == front + [last];
      SumTypesOfSnoc(items, x, front);
      assert (items + [x])[..|items|] == items;
    }
  }

  /** The counts of any listing of distinct types that covers the timeline sum to its length, and
      the journal and packet counts do too. */
  lemma {:induction false} CountsSumToItems(items: seq<Item>, types: seq<string>)
    requires Distinct(types) && forall x :: x in items ==> x.eventType in types
    ensures SumTypes(items, types) == |items|
    ensures CountKind(items, JournalItem) + CountKind(items, PacketItem) == |items|
  {
    if items == [] {
      SumOfNothing(types);
    } else {
      var front, x := items[..|items| - 1], items[|items| - 1];
      assert items == front + [x];
      CountsSumToItems(front, types);
      SumTypesOfSnoc(front, x, types);
    }
  }

  lemma {:induction false} SumOfNothing(types: seq<string>)
    ensures SumTypes([], types) == 0
  {
    if types != [] { SumOfNothing(types[..|types| - 1]); }
  }

  // ----- what one item counts

  const NO_ITEMS: Summary := Summary(0, 0, 0, 0, 0, 0, 0, 0, 0, 0, 0, 0, false)

  function One(counts: bool): nat {
    if counts then 1 else 0
  }

  /** What a single item adds to each field of the report. */
  function OneItem(x: Item): Summary {
    var t := x.eventType;
    Summary(1, One(x.kind == JournalItem), One(x.kind == PacketItem),
            One(t in {"proposal_generated", "proposal_rejected", "proposal_output"}),
            One(t in {"risk_decision", "risk_veto"}), One(t == "risk_veto"), One(t in {"fill", "partial_fill"}),
            One(t == "data_gap"), One(t in {"reconciliation_mismatch", "mismatch"}), One(t == "restart"),
            One(t in {"operator_update", "operator_update_sent"}),
            One(t in {"alert", "data_gap", "flatten_requested", "kill_switch_activated", "mismatch",
                      "reconciliation_mismatch", "risk_freeze", "risk_veto"}),
            t in {"order_submitted", "order_rejected", "fill", "partial_fill", "stop_hit"})
  }

  lemma CountOfOne(x: Item, eventType: string, kind: Kind)
    ensures Count([x], eventType) == One(x.eventType == eventType) && CountKind([x], kind) == One(x.kind == kind)
  {
    assert [x][..0] == [];
  }

  lemma {:induction false} SumOfOne(x: Item, types: seq<string>)
    requires Distinct(types)
    ensures SumTypes([x], types) == One(x.eventType in types)
  {
    SumOfNothing(types);
    SumTypesOfSnoc([], x, types);
    assert [] + [x] == [x];
  }

  lemma AnyOfOne(x: Item, types: seq<string>)
    ensures AnyType([x], types) <==> x.eventType in types
  {
    forall t ensures Count([x], t) == One(x.eventType == t) { CountOfOne(x, t, JournalItem); }
    if x.eventType in types { assert Count([x], x.eventType) > 0; }
  }

  lemma TheTypes()
    ensures Distinct(PROPOSAL_TYPES) && Distinct(RISK_DECISION_TYPES) && Distinct(FILL_TYPES)
    ensures Distinct(OPERATOR_UPDATE_TYPES) && Distinct(INCIDENT_TYPES)
  {
  }

  lemma TypesListed(t: string)
    ensures t in PROPOSAL_TYPES <==> t in {"proposal_generated", "proposal_rejected", "proposal_output"}
    ensures t in RISK_DECISION_TYPES <==> t in {"risk_decision", "risk_veto"}
    ensures t in FILL_TYPES <==> t in {"fill", "partial_fill"}
    ensures t in OPERATOR_UPDATE_TYPES <==> t in {"operator_update", "operator_update_sent"}
    ensures t in EXECUTION_TYPES <==> t in {"order_submitted", "order_rejected", "fill", "partial_fill", "stop_hit"}
    ensures t in INCIDENT_TYPES <==>
      t in {"alert", "data_gap", "flatten_requested", "kill_switch_activated", "mismatch", "reconciliation_mismatch",
            "risk_freeze", "risk_veto"}
  {
  }

  /** The report of no items is empty, and each item adds to exactly the fields its kind and type belong to. */
  lemma ItemsCount(items: seq<Item>, x: Item)
    ensures Summarize([]) == NO_ITEMS
    ensures Summarize([x]) == OneItem(x)
    ensures Summarize(items + [x]) == Plus(Summarize(items), OneItem(x))
  {
    TheTypes();
    TypesListed(x.eventType);
    OneCounts(x);
    NothingCounts();
    hide Summarize, OneItem, Plus;
    SummaryAdds(items, [x]);
  }

  lemma NoneCount(types: seq<string>)
    ensures forall t :: Count([], t) == 0
    ensures forall k :: CountKind([], k) == 0
    ensures !AnyType([], types)
  {
  }

  lemma NothingCounts()
    ensures Summarize([]) == NO_ITEMS
  {
    hide PROPOSAL_TYPES, RISK_DECISION_TYPES, FILL_TYPES, EXECUTION_TYPES, OPERATOR_UPDATE_TYPES, INCIDENT_TYPES;
    NoneCount(EXECUTION_TYPES);
    hide Count, CountKind, SumTypes, AnyType;
    SumOfNothing(PROPOSAL_TYPES);
    SumOfNothing(RISK_DECISION_TYPES);
    SumOfNothing(FILL_TYPES);
    SumOfNothing(OPERATOR_UPDATE_TYPES);
    SumOfNothing(INCIDENT_TYPES);
  }

  lemma OneCounts(x: Item)
    ensures Summarize([x]) == OneItem(x)
  {
    TheTypes();
    TypesListed(x.eventType);
    hide PROPOSAL_TYPES, RISK_DECISION_TYPES, FILL_TYPES, EXECUTION_TYPES, OPERATOR_UPDATE_TYPES, INCIDENT_TYPES;
    hide Count, CountKind, SumTypes, AnyType, Distinct;
    SumOfOne(x, PROPOSAL_TYPES);
    SumOfOne(x, RISK_DECISION_TYPES);
    SumOfOne(x, FILL_TYPES);
    SumOfOne(x, OPERATOR_UPDATE_TYPES);
    SumOfOne(x, INCIDENT_TYPES);
    AnyOfOne(x, EXECUTION_TYPES);
    CountOfOne(x, "risk_veto", JournalItem);
    CountOfOne(x, "data_gap", PacketItem);
    CountOfOne(x, "reconciliation_mismatch", JournalItem);
    CountOfOne(x, "mismatch", JournalItem);
    CountOfOne(x, "restart", JournalItem);
  }
}
