/** Reconciling two account snapshots by walking the union of their keys in order. */
module Reconciliation {
  import opened Text
  import opened Decimals
  import opened Market
  import opened Order

  datatype Balance = Balance(asset: string, total: real, available: real)

  datatype Position = Position(symbol: string, side: Side, notional: real)

  datatype Account = Account(balances: seq<Balance>, positions: seq<Position>)

  /** What a balance or a position is identified by. */
  datatype Key = Key(name: string, side: Option<Side>)

  function BalanceKey(b: Balance): Key {
    Key(b.asset, None)
  }

  function PositionKey(p: Position): Key {
    Key(p.symbol, Some(p.side))
  }

  // ----- the constructor's uniqueness checks

  ghost predicate UniqueBalances(bs: seq<Balance>) {
    forall i, j :: 0 <= i < j < |bs| ==> bs[i].asset != bs[j].asset
  }

  ghost predicate UniquePositions(ps: seq<Position>) {
    forall i, j :: 0 <= i < j < |ps| ==> PositionKey(ps[i]) != PositionKey(ps[j])
  }

  method CheckUniqueBalances(bs: seq<Balance>) returns (ok: bool)
    ensures ok <==> UniqueBalances(bs)
  {
    var seen: set<string> := {};
    for i := 0 to |bs|
      invariant UniqueBalances(bs[..i])
      invariant forall a :: a in seen <==> exists j :: 0 <= j < i && bs[j].asset == a
    {
      if bs[i].asset in seen { return false; }
      seen := seen + {bs[i].asset};
    }
    assert bs[..|bs|] == bs;
    return true;
  }

  method CheckUniquePositions(ps: seq<Position>) returns (ok: bool)
    ensures ok <==> UniquePositions(ps)
  {
    var seen: set<Key> := {};
    for i := 0 to |ps|
      invariant UniquePositions(ps[..i])
      invariant forall k :: k in seen <==> exists j :: 0 <= j < i && PositionKey(ps[j]) == k
    {
      if PositionKey(ps[i]) in seen { return false; }
      seen := seen + {PositionKey(ps[i])};
    }
    assert ps[..|ps|] == ps;
    return true;
  }

  // ----- the compared values by key

  function Totals(bs: seq<Balance>): map<Key, real> {
    if bs == [] then map[] else Totals(bs[..|bs| - 1])[BalanceKey(bs[|bs| - 1]) := bs[|bs| - 1].total]
  }

  function Notionals(ps: seq<Position>): map<Key, real> {
    if ps == [] then map[] else Notionals(ps[..|ps| - 1])[PositionKey(ps[|ps| - 1]) := ps[|ps| - 1].notional]
  }

  /** For unique assets the table holds every balance's total, and nothing else. */
  lemma {:induction false} TotalsHold(bs: seq<Balance>)
    requires UniqueBalances(bs)
    ensures forall b :: b in bs ==> BalanceKey(b) in Totals(bs) && Totals(bs)[BalanceKey(b)] == b.total
    ensures forall k :: k in Totals(bs) ==> exists b :: b in bs && BalanceKey(b) == k
  {
    if bs != [] {
      var front, last := bs[..|bs| - 1], bs[|bs| - 1];
      assert bs == front + [last];
      TotalsHold(front);
      forall b | b in front ensures BalanceKey(b) != BalanceKey(last) {
        var i :| 0 <= i < |front| && front[i] == b;
        assert bs[i].asset != bs[|bs| - 1].asset;
      }
    }
  }

  /** For unique symbols and sides the table holds every position's notional, and nothing else. */
  lemma {:induction false} NotionalsHold(ps: seq<Position>)
    requires UniquePositions(ps)
    ensures forall p :: p in ps ==> PositionKey(p) in Notionals(ps) && Notionals(ps)[PositionKey(p)] == p.notional
    ensures forall k :: k in Notionals(ps) ==> exists p :: p in ps && PositionKey(p) == k
  {
    if ps != [] {
      var front, last := ps[..|ps| - 1], ps[|ps| - 1];
      assert ps == front + [last];
      NotionalsHold(front);
      forall p | p in front ensures PositionKey(p) != PositionKey(last) {
        var i :| 0 <= i < |front| && front[i] == p;
        assert PositionKey(ps[i]) != PositionKey(ps[|ps| - 1]);
      }
    }
  }

  // ----- keys in order

  function Rank(side: Option<Side>): nat {
    if side.None? then 0 else if side.value == Long then 1 else 2
  }

  predicate KeyLess(a: Key, b: Key) {
    StrLess(a.name, b.name) || (a.name == b.name && Rank(a.side) < Rank(b.side))
  }

  lemma KeysOrdered(a: Key, b: Key)
    ensures KeyLess(a, b) || a == b || KeyLess(b, a)
    ensures !(KeyLess(a, b) && KeyLess(b, a)) && !KeyLess(a, a)
  {
    StrOrdered(a.name, b.name);
    StrIrreflexive(a.name);
  }

  /** Names come first; of one name, a balance before a position, and a long position before a short one. */
  lemma KeysCompare(a: Key, b: Key)
    ensures a.name != b.name ==> (KeyLess(a, b) <==> StrLess(a.name, b.name))
    ensures KeyLess(Key(a.name, Some(Long)), Key(a.name, Some(Short)))
    ensures KeyLess(Key(a.name, None), Key(a.name, Some(Long)))
  {
  }

  lemma KeysTransitive(a: Key, b: Key, c: Key)
    requires KeyLess(a, b) && KeyLess(b, c)
    ensures KeyLess(a, c)
  {
    if StrLess(a.name, b.name) && StrLess(b.name, c.name) { StrTransitive(a.name, b.name, c.name); }
  }

  ghost predicate Sorted(keys: seq<Key>) {
    forall i, j :: 0 <= i < j < |keys| ==> KeyLess(keys[i], keys[j])
  }

  ghost predicate SortedKeysOf(keys: seq<Key>, s: set<Key>) {
    Sorted(keys) && forall k :: k in keys <==> k in s
  }

  /** A set has only one sorted listing. */
  lemma {:induction false} SortedListingIsUnique(a: seq<Key>, b: seq<Key>, s: set<Key>)
    requires SortedKeysOf(a, s) && SortedKeysOf(b, s)
    ensures a == b
  {
    EmptyListing(a, s);
    EmptyListing(b, s);
    if a != [] {
      FirstIsLeast(a, s, b[0]);
      FirstIsLeast(b, s, a[0]);
      KeysOrdered(a[0], b[0]);
      TailIsListing(a, s);
      TailIsListing(b, s);
      SortedListingIsUnique(a[1..], b[1..], s - {a[0]});
    }
  }

  lemma EmptyListing(keys: seq<Key>, s: set<Key>)
    requires SortedKeysOf(keys, s)
    ensures keys == [] <==> s == {}
  {
    if keys != [] { assert keys[0] in s; }
  }

  lemma FirstIsLeast(keys: seq<Key>, s: set<Key>, k: Key)
    requires SortedKeysOf(keys, s) && keys != [] && k in s
    ensures k == keys[0] || KeyLess(keys[0], k)
  {
  }

  lemma TailIsListing(keys: seq<Key>, s: set<Key>)
    requires SortedKeysOf(keys, s) && keys != []
    ensures SortedKeysOf(keys[1..], s - {keys[0]})
  {
    KeysOrdered(keys[0], keys[0]);
    forall k ensures k in keys[1..] <==> k in s - {keys[0]} {
      if k in keys[1..] {
        var i :| 0 <= i < |keys[1..]| && keys[1..][i] == k;
        assert keys[i + 1] == k && KeyLess(keys[0], k);
      }
    }
  }

  function Inserted(keys: seq<Key>, k: Key): seq<Key> {
    if keys == [] || KeyLess(k, keys[0]) then [k] + keys else [keys[0]] + Inserted(keys[1..], k)
  }

  lemma {:induction false} InsertedIsListing(keys: seq<Key>, k: Key, s: set<Key>)
    requires SortedKeysOf(keys, s) && k !in s
    ensures SortedKeysOf(Inserted(keys, k), s + {k})
  {
    hide KeyLess;
    if keys == [] {
    } else if KeyLess(k, keys[0]) {
      forall j | 0 <= j < |keys| ensures KeyLess(k, keys[j]) {
        if j > 0 { KeysTransitive(k, keys[0], keys[j]); }
      }
    } else {
      KeysOrdered(k, keys[0]);
      assert keys[0] in keys;
      TailIsListing(keys, s);
      InsertedIsListing(keys[1..], k, s - {keys[0]});
      var rest := Inserted(keys[1..], k);
      assert s + {k} == (s - {keys[0]} + {k}) + {keys[0]};
      forall j | 0 <= j < |rest| ensures KeyLess(keys[0], rest[j]) {
        assert rest[j] in rest;
        if rest[j] != k {
          var i :| 0 <= i < |keys[1..]| && keys[1..][i] == rest[j];
          assert keys[i + 1] == rest[j];
        }
      }
    }
  }

  lemma {:induction false} ListingExists(s: set<Key>)
    ensures exists keys :: SortedKeysOf(keys, s)
  {
    if s == {} {
      assert SortedKeysOf([], s);
    } else {
      var k :| k in s;
      ListingExists(s - {k});
      var keys :| SortedKeysOf(keys, s - {k});
      InsertedIsListing(keys, k, s - {k});
      assert s == (s - {k}) + {k};
    }
  }

  /** The keys of a set in order. */
  ghost function KeysOf(s: set<Key>): (keys: seq<Key>)
    ensures SortedKeysOf(keys, s)
  {
    ListingExists(s);
    var keys :| SortedKeysOf(keys, s);
    keys
  }

  method SortKeys(s: set<Key>) returns (keys: seq<Key>)
    ensures keys == KeysOf(s)
  {
    hide KeyLess, Sorted;
    keys := [];
    var rest := s;
    assert SortedKeysOf([], s - rest) by { EmptyIsListing(); }
    while rest != {}
      invariant rest <= s && SortedKeysOf(keys, s - rest)
      decreases |rest|
    {
      var k :| k in rest;
      InsertedIsListing(keys, k, s - rest);
      keys := Inserted(keys, k);
      assert s - (rest - {k}) == (s - rest) + {k};
      rest := rest - {k};
    }
    assert s - rest == s;
    SortedListingIsUnique(keys, KeysOf(s), s);
  }

  lemma EmptyIsListing()
    ensures SortedKeysOf([], {})
  {
  }

  // ----- comparing

  datatype Entity = BalanceEntity | PositionEntity

  datatype Code = UnexpectedExternal | MissingExternal | ValueMismatch

  datatype Mismatch = Mismatch(code: Code, entity: Entity, key: Key, mine: Option<real>, theirs: Option<real>) {
    predicate Critical() {
      entity == PositionEntity
    }
  }

  /** The mismatch of one key, if its values are missing or further apart than the tolerance. */
  function CompareAt(entity: Entity, k: Key, mine: map<Key, real>, theirs: map<Key, real>, tolerance: real)
    : Option<Mismatch>
    requires k in mine || k in theirs
  {
    if k !in mine then Some(Mismatch(UnexpectedExternal, entity, k, None, Some(theirs[k])))
    else if k !in theirs then Some(Mismatch(MissingExternal, entity, k, Some(mine[k]), None))
    else if Abs(mine[k] - theirs[k]) > tolerance then
      Some(Mismatch(ValueMismatch, entity, k, Some(mine[k]), Some(theirs[k])))
    else None
  }

  function Walk(entity: Entity, keys: seq<Key>, mine: map<Key, real>, theirs: map<Key, real>, tolerance: real)
    : seq<Mismatch>
    requires forall k :: k in keys ==> k in mine || k in theirs
  {
    if keys == [] then []
    else
      var k := keys[|keys| - 1];
      var front := Walk(entity, keys[..|keys| - 1], mine, theirs, tolerance);
      var last := CompareAt(entity, k, mine, theirs, tolerance);
      if last.Some? then front + [last.value] else front
  }

  lemma WalkNext(
      entity: Entity, keys: seq<Key>, i: nat, mine: map<Key, real>, theirs: map<Key, real>, tolerance: real)
    requires i < |keys| && forall k :: k in keys ==> k in mine || k in theirs
    ensures keys[i] in mine || keys[i] in theirs
    ensures var front, last := Walk(entity, keys[..i], mine, theirs, tolerance),
                               CompareAt(entity, keys[i], mine, theirs, tolerance);
            Walk(entity, keys[..i + 1], mine, theirs, tolerance) == if last.Some? then front + [last.value] else front
  {
    hide CompareAt;
    assert keys[..i + 1][..i] == keys[..i];
  }

  /** What two tables differ in, in the order of their keys. */
  ghost function Differences(entity: Entity, mine: map<Key, real>, theirs: map<Key, real>, tolerance: real)
    : seq<Mismatch>
  {
    Walk(entity, KeysOf(mine.Keys + theirs.Keys), mine, theirs, tolerance)
  }

  /** The comparison walks the sorted union of the keys and appends what differs. */
  method Compare(entity: Entity, mine: map<Key, real>, theirs: map<Key, real>, tolerance: real)
    returns (mismatches: seq<Mismatch>)
    ensures mismatches == Differences(entity, mine, theirs, tolerance)
  {
    hide Walk, Sorted, Abs;
    var sorted := SortKeys(mine.Keys + theirs.Keys);
    assert forall k :: k in sorted ==> k in mine || k in theirs;
    mismatches := [];
    WalkNothing(entity, mine, theirs, tolerance);
    for i := 0 to |sorted|
      invariant mismatches == Walk(entity, sorted[..i], mine, theirs, tolerance)
    {
      var k := sorted[i];
      WalkNext(entity, sorted, i, mine, theirs, tolerance);
      if k !in mine {
        mismatches := mismatches + [Mismatch(UnexpectedExternal, entity, k, None, Some(theirs[k]))];
      } else if k !in theirs {
        mismatches := mismatches + [Mismatch(MissingExternal, entity, k, Some(mine[k]), None)];
      } else if Abs(mine[k] - theirs[k]) > tolerance {
        mismatches := mismatches + [Mismatch(ValueMismatch, entity, k, Some(mine[k]), Some(theirs[k]))];
      }
    }
    assert sorted[..|sorted|] == sorted;
  }

  lemma WalkNothing(entity: Entity, mine: map<Key, real>, theirs: map<Key, real>, tolerance: real)
    ensures Walk(entity, [], mine, theirs, tolerance) == []
  {
  }

  // ----- what a comparison reports

  /** Two tables match at a key: both or neither hold it, with values within the tolerance. */
  predicate MatchesAt(k: Key, mine: map<Key, real>, theirs: map<Key, real>, tolerance: real) {
    (k in mine <==> k in theirs) && (k in mine && k in theirs ==> Abs(mine[k] - theirs[k]) <= tolerance)
  }

  ghost predicate Matches(mine: map<Key, real>, theirs: map<Key, real>, tolerance: real) {
    forall k :: MatchesAt(k, mine, theirs, tolerance)
  }

  /** Strictly in the order of their keys, so at most one for each. */
  predicate InOrder(ms: seq<Mismatch>) {
    forall i, j :: 0 <= i < j < |ms| ==> KeyLess(ms[i].key, ms[j].key)
  }

  lemma {:induction false} WalkReports(
      entity: Entity, keys: seq<Key>, mine: map<Key, real>, theirs: map<Key, real>, tolerance: real)
    requires forall k :: k in keys ==> k in mine || k in theirs
    ensures forall m :: m in Walk(entity, keys, mine, theirs, tolerance) <==>
      m.key in keys && CompareAt(entity, m.key, mine, theirs, tolerance) == Some(m)
    ensures Sorted(keys) ==> InOrder(Walk(entity, keys, mine, theirs, tolerance))
  {
    hide CompareAt, KeyLess;
    if keys != [] {
      var n := |keys| - 1;
      var front, k := keys[..n], keys[n];
      assert keys == front + [k];
      WalkReports(entity, front, mine, theirs, tolerance);
      CompareAtKey(entity, k, mine, theirs, tolerance);
      var before, last := Walk(entity, front, mine, theirs, tolerance), CompareAt(entity, k, mine, theirs, tolerance);
      assert Walk(entity, keys, mine, theirs, tolerance) == if last.Some? then before + [last.value] else before;
      if Sorted(keys) && last.Some? {
        forall i | 0 <= i < |before| ensures KeyLess(before[i].key, k) {
          assert before[i] in before;
          var at :| 0 <= at < n && keys[at] == before[i].key;
        }
      }
    }
  }

  lemma CompareAtKey(entity: Entity, k: Key, mine: map<Key, real>, theirs: map<Key, real>, tolerance: real)
    requires k in mine || k in theirs
    ensures CompareAt(entity, k, mine, theirs, tolerance).None? <==> MatchesAt(k, mine, theirs, tolerance)
    ensures CompareAt(entity, k, mine, theirs, tolerance).Some? ==>
      CompareAt(entity, k, mine, theirs, tolerance).value.key == k
  {
  }

  /** The differences are strictly in the order of their keys and hold exactly one, the right one,
      for every key that does not match. */
  lemma DifferencesReport(entity: Entity, mine: map<Key, real>, theirs: map<Key, real>, tolerance: real)
    ensures InOrder(Differences(entity, mine, theirs, tolerance))
    ensures forall m :: m in Differences(entity, mine, theirs, tolerance) <==>
      ReportedIn(entity, m, mine, theirs, tolerance)
  {
    hide CompareAt, Walk, KeyLess;
    var keys := KeysOf(mine.Keys + theirs.Keys);
    WalkReports(entity, keys, mine, theirs, tolerance);
    forall m ensures m in Differences(entity, mine, theirs, tolerance) <==>
                     ReportedIn(entity, m, mine, theirs, tolerance) {
      assert m.key in keys <==> m.key in mine || m.key in theirs;
      if m.key in mine || m.key in theirs { CompareAtReports(entity, m, mine, theirs, tolerance); }
    }
  }

  /** A mismatch carries what each side holds at its key, and its code says why: the key is only in the
      external table, only in the own one, or in both with values further apart than the tolerance. */
  predicate ReportedIn(entity: Entity, m: Mismatch, mine: map<Key, real>, theirs: map<Key, real>, tolerance: real) {
    && m.entity == entity
    && m.mine == (if m.key in mine then Some(mine[m.key]) else None)
    && m.theirs == (if m.key in theirs then Some(theirs[m.key]) else None)
    && match m.code
       case UnexpectedExternal => m.key in theirs && m.key !in mine
       case MissingExternal => m.key in mine && m.key !in theirs
       case ValueMismatch =>
         && m.key in mine && m.key in theirs
         && (mine[m.key] > theirs[m.key] + tolerance || theirs[m.key] > mine[m.key] + tolerance)
  }

  lemma CompareAtReports(entity: Entity, m: Mismatch, mine: map<Key, real>, theirs: map<Key, real>, tolerance: real)
    requires m.key in mine || m.key in theirs
    ensures CompareAt(entity, m.key, mine, theirs, tolerance) == Some(m)
       <==> ReportedIn(entity, m, mine, theirs, tolerance)
  {
  }

  /** Nothing is reported exactly when both sides hold the same keys with values within the
      tolerance. */
  lemma NothingReportedWhenMatched(entity: Entity, mine: map<Key, real>, theirs: map<Key, real>, tolerance: real)
    ensures Differences(entity, mine, theirs, tolerance) == [] <==> Matches(mine, theirs, tolerance)
  {
    hide CompareAt, Differences, MatchesAt, InOrder, ReportedIn;
    DifferencesReport(entity, mine, theirs, tolerance);
    var ms := Differences(entity, mine, theirs, tolerance);
    forall k | !MatchesAt(k, mine, theirs, tolerance) ensures ms != [] {
      if k in mine || k in theirs {
        CompareAtKey(entity, k, mine, theirs, tolerance);
        CompareAtReports(entity, CompareAt(entity, k, mine, theirs, tolerance).value, mine, theirs, tolerance);
        assert CompareAt(entity, k, mine, theirs, tolerance).value in ms;
      } else {
        AbsentMatches(k, mine, theirs, tolerance);
      }
    }
    if ms != [] {
      assert ms[0] in ms;
      ReportedIsThere(entity, ms[0], mine, theirs, tolerance);
      CompareAtReports(entity, ms[0], mine, theirs, tolerance);
      CompareAtKey(entity, ms[0].key, mine, theirs, tolerance);
    }
  }

  lemma ReportedIsThere(entity: Entity, m: Mismatch, mine: map<Key, real>, theirs: map<Key, real>, tolerance: real)
    requires ReportedIn(entity, m, mine, theirs, tolerance)
    ensures m.key in mine || m.key in theirs
  {
  }

  lemma AbsentMatches(k: Key, mine: map<Key, real>, theirs: map<Key, real>, tolerance: real)
    requires k !in mine && k !in theirs
    ensures MatchesAt(k, mine, theirs, tolerance)
  {
  }

  // ----- the other way round, and through a third snapshot

  function Swap(m: Mismatch): Mismatch {
    m.(mine := m.theirs, theirs := m.mine,
       code := if m.code == UnexpectedExternal then MissingExternal
               else if m.code == MissingExternal then UnexpectedExternal else ValueMismatch)
  }

  function SwapAll(ms: seq<Mismatch>): (r: seq<Mismatch>)
    ensures |r| == |ms| && forall i :: 0 <= i < |ms| ==> r[i] == Swap(ms[i])
  {
    seq(|ms|, i requires 0 <= i < |ms| => Swap(ms[i]))
  }

  lemma CompareAtSwaps(entity: Entity, k: Key, mine: map<Key, real>, theirs: map<Key, real>, tolerance: real)
    requires k in mine || k in theirs
    ensures var found := CompareAt(entity, k, mine, theirs, tolerance);
            CompareAt(entity, k, theirs, mine, tolerance) == if found.Some? then Some(Swap(found.value)) else None
  {
  }

  lemma {:induction false} WalkSwaps(
      entity: Entity, keys: seq<Key>, mine: map<Key, real>, theirs: map<Key, real>, tolerance: real)
    requires forall k :: k in keys ==> k in mine || k in theirs
    ensures Walk(entity, keys, theirs, mine, tolerance) == SwapAll(Walk(entity, keys, mine, theirs, tolerance))
  {
    hide CompareAt, Swap;
    if keys != [] {
      var n := |keys| - 1;
      assert keys[n] in keys;
      WalkSwaps(entity, keys[..n], mine, theirs, tolerance);
      CompareAtSwaps(entity, keys[n], mine, theirs, tolerance);
    }
  }

  /** Comparing the other way round reports the same keys in the same places, with the missing and
      unexpected codes and the two values exchanged. */
  lemma DifferencesSwap(entity: Entity, mine: map<Key, real>, theirs: map<Key, real>, tolerance: real)
    ensures Differences(entity, theirs, mine, tolerance) == SwapAll(Differences(entity, mine, theirs, tolerance))
  {
    hide Walk;
    assert theirs.Keys + mine.Keys == mine.Keys + theirs.Keys;
    WalkSwaps(entity, KeysOf(mine.Keys + theirs.Keys), mine, theirs, tolerance);
  }

  /** Tolerances add: a snapshot that matches a second one, which matches a third, matches the third
      within both tolerances together. */
  lemma MatchesAdd(a: map<Key, real>, b: map<Key, real>, c: map<Key, real>, t: real, u: real)
    requires Matches(a, b, t) && Matches(b, c, u)
    ensures Matches(a, c, t + u)
  {
    var both := t + u;
    forall k ensures MatchesAt(k, a, c, both) {
      assert MatchesAt(k, a, b, t) && MatchesAt(k, b, c, u);
    }
  }

  // ----- whole accounts

  /** The report lists what differs in balances and then in positions, and is matched when nothing
      does. */
  method Reconcile(mine: Account, theirs: Account, balanceTolerance: real, positionTolerance: real)
    returns (matched: bool, mismatches: seq<Mismatch>)
    ensures mismatches == Differences(BalanceEntity, Totals(mine.balances), Totals(theirs.balances), balanceTolerance)
      + Differences(PositionEntity, Notionals(mine.positions), Notionals(theirs.positions), positionTolerance)
    ensures matched <==>
      && Matches(Totals(mine.balances), Totals(theirs.balances), balanceTolerance)
      && Matches(Notionals(mine.positions), Notionals(theirs.positions), positionTolerance)
  {
    hide Differences, Matches, Totals, Notionals;
    var b := Compare(BalanceEntity, Totals(mine.balances), Totals(theirs.balances), balanceTolerance);
    var p := Compare(PositionEntity, Notionals(mine.positions), Notionals(theirs.positions), positionTolerance);
    NothingReportedWhenMatched(BalanceEntity, Totals(mine.balances), Totals(theirs.balances), balanceTolerance);
    NothingReportedWhenMatched(
      PositionEntity, Notionals(mine.positions), Notionals(theirs.positions), positionTolerance);
    mismatches := b + p;
    matched := mismatches == [];
  }

  lemma DifferencesAreOf(entity: Entity, mine: map<Key, real>, theirs: map<Key, real>, tolerance: real)
    ensures forall m :: m in Differences(entity, mine, theirs, tolerance) ==> m.entity == entity
  {
    hide Differences, InOrder;
    DifferencesReport(entity, mine, theirs, tolerance);
  }

  /** A report is critical exactly when some position does not match. */
  lemma CriticalMeansPositions(mine: Account, theirs: Account, balanceTolerance: real, positionTolerance: real)
    ensures var report := Differences(BalanceEntity, Totals(mine.balances), Totals(theirs.balances), balanceTolerance)
              + Differences(PositionEntity, Notionals(mine.positions), Notionals(theirs.positions), positionTolerance);
            (exists m :: m in report && m.Critical())
            <==> !Matches(Notionals(mine.positions), Notionals(theirs.positions), positionTolerance)
  {
    hide Differences, Matches, Totals, Notionals, InOrder;
    DifferencesAreOf(BalanceEntity, Totals(mine.balances), Totals(theirs.balances), balanceTolerance);
    DifferencesAreOf(PositionEntity, Notionals(mine.positions), Notionals(theirs.positions), positionTolerance);
    NothingReportedWhenMatched(
      PositionEntity, Notionals(mine.positions), Notionals(theirs.positions), positionTolerance);
    var positions :=
      Differences(PositionEntity, Notionals(mine.positions), Notionals(theirs.positions), positionTolerance);
    var balances := Differences(BalanceEntity, Totals(mine.balances), Totals(theirs.balances), balanceTolerance);
    if positions != [] { assert positions[0] in positions && positions[0] in balances + positions; }
  }

  /** Only totals are compared: what is available of them does not matter. */
  lemma {:induction false} OnlyTotalsCount(a: seq<Balance>, b: seq<Balance>)
    requires |a| == |b| && forall i :: 0 <= i < |a| ==> a[i].asset == b[i].asset && a[i].total == b[i].total
    ensures Totals(a) == Totals(b)
  {
    if a != [] { OnlyTotalsCount(a[..|a| - 1], b[..|b| - 1]); }
  }
}
