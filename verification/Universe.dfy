/** Selecting the trading universe from configured symbols and market metadata. */
module Universe {
  import opened Text

  datatype Reason =
    | EmptySymbol | DuplicateSymbol | Denylisted | MissingMetadata | InactiveMarket | QuoteNotAllowed
    | BelowMinNotional | MaxSymbolsReached

  datatype MarketInfo = MarketInfo(quote: string, active: bool, minNotional: Option<real>)

  /** The filters, with the metadata in the order of its table; `upper` is any upper-casing of
      strings. */
  datatype Filters = Filters(
    quotes: seq<string>, denied: seq<string>, requireActive: bool, requireMetadata: bool, floor: Option<real>,
    info: seq<(string, MarketInfo)>, upper: string -> string)
  {
    function Canonical(s: string): string {
      upper(Strip(s))
    }

    function CanonicalAll(names: seq<string>): set<string> {
      set i | 0 <= i < |names| :: Canonical(names[i])
    }

    function FindExact(symbol: string, n: nat): Option<MarketInfo>
      requires n <= |info|
    {
      if n == 0 then None
      else if info[n - 1].0 == symbol then Some(info[n - 1].1) else FindExact(symbol, n - 1)
    }

    /** The first entry of the table with the same canonical name. */
    function FindCanonical(symbol: string, from: nat): Option<MarketInfo>
      requires from <= |info|
      decreases |info| - from
    {
      if from == |info| then None
      else if Canonical(info[from].0) == Canonical(symbol) then Some(info[from].1)
      else FindCanonical(symbol, from + 1)
    }

    function Lookup(symbol: string): Option<MarketInfo> {
      var exact := FindExact(symbol, |info|);
      if exact.Some? then exact else FindCanonical(symbol, 0)
    }

    function QuoteAsset(symbol: string, m: Option<MarketInfo>): string {
      if m.Some? then m.value.quote
      else
        var slash := RFind('/', symbol, |symbol|);
        if slash >= 0 then symbol[slash + 1..] else ""
    }

    /** Why a symbol is out whatever else is configured, if it is. */
    function Verdict(symbol: string): Option<Reason> {
      var m := Lookup(symbol);
      if Canonical(symbol) in CanonicalAll(denied) then Some(Denylisted)
      else if requireMetadata && m.None? then Some(MissingMetadata)
      else if requireActive && m.Some? && !m.value.active then Some(InactiveMarket)
      else if quotes != [] && Canonical(QuoteAsset(symbol, m)) !in CanonicalAll(quotes) then Some(QuoteNotAllowed)
      else if floor.Some? && m.Some? && m.value.minNotional.Some? && m.value.minNotional.value < floor.value then
        Some(BelowMinNotional)
      else None
    }
  }

  datatype Config = Config(configured: seq<string>, maxSymbols: Option<nat>, filters: Filters)

  datatype Selection = Selection(selected: seq<string>, rejected: seq<(string, Reason)>, seen: set<string>)

  const NOTHING: Selection := Selection([], [], {})

  function Consider(cfg: Config, s: Selection, raw: string): Selection {
    var symbol := Strip(raw);
    if symbol == "" then s.(rejected := s.rejected + [("", EmptySymbol)])
    else if cfg.filters.Canonical(symbol) in s.seen then s.(rejected := s.rejected + [(symbol, DuplicateSymbol)])
    else
      var t := s.(seen := s.seen + {cfg.filters.Canonical(symbol)});
      if cfg.filters.Verdict(symbol).Some? then t.(rejected := t.rejected + [(symbol, cfg.filters.Verdict(symbol).value)])
      else if cfg.maxSymbols.Some? && |t.selected| >= cfg.maxSymbols.value then
        t.(rejected := t.rejected + [(symbol, MaxSymbolsReached)])
      else t.(selected := t.selected + [symbol])
  }

  /** The selection after the first `n` configured entries. */
  function SelectUpTo(cfg: Config, n: nat): Selection
    requires n <= |cfg.configured|
  {
    if n == 0 then NOTHING else Consider(cfg, SelectUpTo(cfg, n - 1), cfg.configured[n - 1])
  }

  function Select(cfg: Config): Selection {
    SelectUpTo(cfg, |cfg.configured|)
  }

  /** The selection loop, one configured entry after the other. */
  method SelectUniverse(cfg: Config) returns (selected: seq<string>, rejected: seq<(string, Reason)>)
    ensures selected == Select(cfg).selected && rejected == Select(cfg).rejected
  {
    hide cfg.filters.Verdict, cfg.filters.Canonical, Strip;
    selected, rejected := [], [];
    var seen: set<string> := {};
    for i := 0 to |cfg.configured|
      invariant SelectUpTo(cfg, i) == Selection(selected, rejected, seen)
    {
      var symbol := Strip(cfg.configured[i]);
      var canonical := cfg.filters.Canonical(symbol);
      if symbol == "" {
        rejected := rejected + [("", EmptySymbol)];
        continue;
      }
      if canonical in seen {
        rejected := rejected + [(symbol, DuplicateSymbol)];
        continue;
      }
      seen := seen + {canonical};
      var verdict := cfg.filters.Verdict(symbol);
      if verdict.Some? {
        rejected := rejected + [(symbol, verdict.value)];
        continue;
      }
      if cfg.maxSymbols.Some? && |selected| >= cfg.maxSymbols.value {
        rejected := rejected + [(symbol, MaxSymbolsReached)];
        continue;
      }
      selected := selected + [symbol];
    }
  }

  // ----- finding a symbol's metadata

  lemma {:induction false} FindExactMeans(f: Filters, symbol: string, n: nat)
    requires n <= |f.info|
    ensures f.FindExact(symbol, n).Some? ==> exists i :: 0 <= i < n && f.info[i] == (symbol, f.FindExact(symbol, n).value)
    ensures f.FindExact(symbol, n).None? ==> forall i :: 0 <= i < n ==> f.info[i].0 != symbol
  {
    if n > 0 {
      FindExactMeans(f, symbol, n - 1);
      assert f.info[n - 1] == (f.info[n - 1].0, f.info[n - 1].1);
    }
  }

  /** The first entry of the table, from an index on, with a symbol's canonical name. */
  predicate FirstNamed(f: Filters, symbol: string, from: nat, i: nat) {
    && from <= i < |f.info| && f.Canonical(f.info[i].0) == f.Canonical(symbol)
    && forall j :: from <= j < i ==> f.Canonical(f.info[j].0) != f.Canonical(symbol)
  }

  lemma {:induction false} FindCanonicalMeans(f: Filters, symbol: string, from: nat)
    requires from <= |f.info|
    ensures match f.FindCanonical(symbol, from)
            case Some(m) => exists i: nat :: FirstNamed(f, symbol, from, i) && f.info[i].1 == m
            case None => forall i: nat :: !FirstNamed(f, symbol, from, i)
    decreases |f.info| - from
  {
    hide f.Canonical;
    if from < |f.info| {
      if f.Canonical(f.info[from].0) == f.Canonical(symbol) {
        assert FirstNamed(f, symbol, from, from);
      } else {
        FindCanonicalMeans(f, symbol, from + 1);
        forall i: nat ensures FirstNamed(f, symbol, from, i) <==> FirstNamed(f, symbol, from + 1, i) {
          FirstNamedShifts(f, symbol, from, i);
        }
      }
    }
  }

  lemma FirstNamedShifts(f: Filters, symbol: string, from: nat, i: nat)
    requires from < |f.info| && f.Canonical(f.info[from].0) != f.Canonical(symbol)
    ensures FirstNamed(f, symbol, from, i) <==> FirstNamed(f, symbol, from + 1, i)
  {
    hide f.Canonical;
  }

  /** The metadata used are those under the symbol's exact name when there are any; otherwise those of
      the first name with the same canonical form; and none only when no name has it. */
  lemma LookupMeans(f: Filters, symbol: string)
    ensures f.Lookup(symbol).Some? ==>
      || (exists i :: 0 <= i < |f.info| && f.info[i] == (symbol, f.Lookup(symbol).value))
      || ((forall i :: 0 <= i < |f.info| ==> f.info[i].0 != symbol)
          && exists i: nat :: FirstNamed(f, symbol, 0, i) && f.info[i].1 == f.Lookup(symbol).value)
    ensures f.Lookup(symbol).None? ==> forall i: nat :: !FirstNamed(f, symbol, 0, i)
  {
    hide f.Canonical, f.FindExact, f.FindCanonical, FirstNamed;
    FindExactMeans(f, symbol, |f.info|);
    FindCanonicalMeans(f, symbol, 0);
  }

  // ----- every entry once

  /** An entry that is not blank and has the canonical name. */
  predicate NamedAt(cfg: Config, j: nat, name: string)
    requires j < |cfg.configured|
  {
    Strip(cfg.configured[j]) != "" && cfg.filters.Canonical(Strip(cfg.configured[j])) == name
  }

  /** An earlier entry that is not blank has the same canonical name. */
  ghost predicate Repeats(cfg: Config, i: nat)
    requires i < |cfg.configured|
  {
    exists j :: 0 <= j < i && NamedAt(cfg, j, cfg.filters.Canonical(Strip(cfg.configured[i])))
  }

  /** What becomes of one entry: selected, or rejected for the first reason that applies. */
  ghost function Outcome(cfg: Config, i: nat): Option<Reason>
    requires i < |cfg.configured|
    decreases i, 1
  {
    var symbol := Strip(cfg.configured[i]);
    if symbol == "" then Some(EmptySymbol)
    else if Repeats(cfg, i) then Some(DuplicateSymbol)
    else if cfg.filters.Verdict(symbol).Some? then cfg.filters.Verdict(symbol)
    else if cfg.maxSymbols.Some? && |Chosen(cfg, i)| >= cfg.maxSymbols.value then Some(MaxSymbolsReached)
    else None
  }

  /** The stripped entries that are selected, among the first `n`, in order. */
  ghost function Chosen(cfg: Config, n: nat): seq<string>
    requires n <= |cfg.configured|
    decreases n, 0
  {
    if n == 0 then []
    else Chosen(cfg, n - 1) + if Outcome(cfg, n - 1).None? then [Strip(cfg.configured[n - 1])] else []
  }

  /** The stripped entries that are not, each with its reason, in order. */
  ghost function Refused(cfg: Config, n: nat): seq<(string, Reason)>
    requires n <= |cfg.configured|
  {
    if n == 0 then []
    else
      var outcome := Outcome(cfg, n - 1);
      Refused(cfg, n - 1) + if outcome.Some? then [(Strip(cfg.configured[n - 1]), outcome.value)] else []
  }

  lemma {:induction false} SeenMeans(cfg: Config, n: nat, name: string)
    requires n <= |cfg.configured|
    ensures name in SelectUpTo(cfg, n).seen <==> exists j :: 0 <= j < n && NamedAt(cfg, j, name)
  {
    hide Strip;
    if n > 0 {
      SeenMeans(cfg, n - 1, name);
      ConsideredIsSeen(cfg, SelectUpTo(cfg, n - 1), cfg.configured[n - 1]);
      assert name in SelectUpTo(cfg, n).seen <==> name in SelectUpTo(cfg, n - 1).seen || NamedAt(cfg, n - 1, name);
    }
  }

  lemma ConsideredIsSeen(cfg: Config, s: Selection, raw: string)
    ensures Consider(cfg, s, raw).seen
         == if Strip(raw) == "" then s.seen else s.seen + {cfg.filters.Canonical(Strip(raw))}
  {
    hide Strip;
  }

  /** Each configured entry is put in exactly one of the two lists, in order: selected when it is
      the first of its name, no filter excludes it and the cap is not reached, and rejected with the
      first reason that applies otherwise. */
  lemma {:induction false} EachEntryOnce(cfg: Config, n: nat)
    requires n <= |cfg.configured|
    ensures SelectUpTo(cfg, n).selected == Chosen(cfg, n) && SelectUpTo(cfg, n).rejected == Refused(cfg, n)
    ensures |Chosen(cfg, n)| + |Refused(cfg, n)| == n
  {
    hide Strip, cfg.filters.Verdict, cfg.filters.Canonical, Repeats;
    if n > 0 {
      EachEntryOnce(cfg, n - 1);
      RepeatsMeans(cfg, n - 1);
    }
  }

  lemma RepeatsMeans(cfg: Config, i: nat)
    requires i < |cfg.configured|
    ensures Repeats(cfg, i) <==> cfg.filters.Canonical(Strip(cfg.configured[i])) in SelectUpTo(cfg, i).seen
  {
    hide NamedAt, SelectUpTo, Strip, cfg.filters.Canonical;
    SeenMeans(cfg, i, cfg.filters.Canonical(Strip(cfg.configured[i])));
  }

  // ----- what is selected

  /** Stripped names with distinct canonical forms that no filter excludes, within the cap. */
  ghost predicate Selectable(cfg: Config, names: seq<string>) {
    && (forall i :: 0 <= i < |names| ==>
          names[i] != "" && Stripped(names[i]) && cfg.filters.Verdict(names[i]).None?)
    && (forall i, j :: 0 <= i < j < |names| ==> cfg.filters.Canonical(names[i]) != cfg.filters.Canonical(names[j]))
    && (cfg.maxSymbols.Some? ==> |names| <= cfg.maxSymbols.value)
  }

  ghost predicate NamesSeen(cfg: Config, s: Selection) {
    forall i :: 0 <= i < |s.selected| ==> cfg.filters.Canonical(s.selected[i]) in s.seen
  }

  lemma ConsiderKeepsSelectable(cfg: Config, s: Selection, raw: string)
    requires Selectable(cfg, s.selected) && NamesSeen(cfg, s)
    ensures Selectable(cfg, Consider(cfg, s, raw).selected) && NamesSeen(cfg, Consider(cfg, s, raw))
  {
    hide Strip, Stripped, cfg.filters.Verdict, cfg.filters.Canonical;
  }

  lemma {:induction false} SelectedIsSelectable(cfg: Config, n: nat)
    requires n <= |cfg.configured|
    ensures Selectable(cfg, SelectUpTo(cfg, n).selected) && NamesSeen(cfg, SelectUpTo(cfg, n))
  {
    hide Selectable, NamesSeen, Consider;
    if n > 0 {
      SelectedIsSelectable(cfg, n - 1);
      ConsiderKeepsSelectable(cfg, SelectUpTo(cfg, n - 1), cfg.configured[n - 1]);
    } else {
      NothingIsSelectable(cfg);
    }
  }

  lemma NothingIsSelectable(cfg: Config)
    ensures Selectable(cfg, NOTHING.selected) && NamesSeen(cfg, NOTHING)
  {
  }

  // ----- the cap only cuts off

  function Uncapped(cfg: Config): Config {
    cfg.(maxSymbols := None)
  }

  function Prefix(names: seq<string>, cap: Option<nat>): seq<string> {
    if cap.Some? && |names| > cap.value then names[..cap.value] else names
  }

  lemma {:induction false} CapCutsOffUpTo(cfg: Config, n: nat)
    requires n <= |cfg.configured|
    ensures SelectUpTo(cfg, n).seen == SelectUpTo(Uncapped(cfg), n).seen
    ensures SelectUpTo(cfg, n).selected == Prefix(SelectUpTo(Uncapped(cfg), n).selected, cfg.maxSymbols)
  {
    hide cfg.filters.Verdict, cfg.filters.Canonical, Strip;
    if n > 0 {
      CapCutsOffUpTo(cfg, n - 1);
    }
  }

  /** The capped selection is the prefix of the uncapped one. */
  lemma CapCutsOff(cfg: Config)
    ensures Select(cfg).selected == Prefix(Select(Uncapped(cfg)).selected, cfg.maxSymbols)
  {
    CapCutsOffUpTo(cfg, |cfg.configured|);
  }

  // ----- selecting again

  lemma ConsiderNew(cfg: Config, s: Selection, name: string)
    requires name != "" && Strip(name) == name && cfg.filters.Canonical(name) !in s.seen
    requires cfg.filters.Verdict(name).None? && (cfg.maxSymbols.Some? ==> |s.selected| < cfg.maxSymbols.value)
    ensures Consider(cfg, s, name)
         == Selection(s.selected + [name], s.rejected, s.seen + {cfg.filters.Canonical(name)})
  {
    hide cfg.filters.Verdict, cfg.filters.Canonical, Strip;
  }

  lemma {:induction false} SelectableIsSelected(cfg: Config, names: seq<string>, n: nat)
    requires Selectable(cfg, names) && n <= |names|
    ensures var again := SelectUpTo(cfg.(configured := names), n);
            && again.selected == names[..n] && again.rejected == []
            && forall c :: c in again.seen ==> exists i :: 0 <= i < n && cfg.filters.Canonical(names[i]) == c
  {
    hide cfg.filters.Verdict, cfg.filters.Canonical, Strip, Stripped, Consider;
    if n > 0 {
      SelectableIsSelected(cfg, names, n - 1);
      var again := SelectUpTo(cfg.(configured := names), n - 1);
      StripOfStripped(names[n - 1]);
      assert cfg.filters.Canonical(names[n - 1]) !in again.seen;
      ConsiderNew(cfg.(configured := names), again, names[n - 1]);
      assert names[..n] == names[..n - 1] + [names[n - 1]];
    }
  }

  /** Selecting again from what was selected selects all of it and rejects nothing. */
  lemma SelectingAgain(cfg: Config)
    ensures var again := Select(cfg.(configured := Select(cfg).selected));
            again.selected == Select(cfg).selected && again.rejected == []
  {
    var names := Select(cfg).selected;
    SelectedIsSelectable(cfg, |cfg.configured|);
    SelectableIsSelected(cfg, names, |names|);
    assert names[..|names|] == names;
  }

  // ----- what the filters exclude

  /** A symbol is listed when some name of the list is the same but for case and white space around it. */
  predicate Listed(f: Filters, names: seq<string>, symbol: string) {
    exists i :: 0 <= i < |names| && f.upper(Strip(names[i])) == f.upper(Strip(symbol))
  }

  /** The quote asset: that of the metadata, or else what follows the last slash of the symbol. */
  predicate IsQuote(symbol: string, m: Option<MarketInfo>, quote: string) {
    if m.Some? then quote == m.value.quote
    else if '/' in symbol then
      '/' !in quote && exists i :: 0 <= i < |symbol| && symbol[i] == '/' && quote == symbol[i + 1..]
    else quote == ""
  }

  lemma QuoteAssetIs(f: Filters, symbol: string, m: Option<MarketInfo>)
    ensures IsQuote(symbol, m, f.QuoteAsset(symbol, m))
  {
    var slash := RFind('/', symbol, |symbol|);
    if m.None? && slash >= 0 {
      var quote := symbol[slash + 1..];
      forall j | 0 <= j < |quote| ensures quote[j] != '/' { assert quote[j] == symbol[slash + 1 + j]; }
    }
  }

  lemma ListedMeans(f: Filters, names: seq<string>, symbol: string)
    ensures f.Canonical(symbol) in f.CanonicalAll(names) <==> Listed(f, names, symbol)
  {
  }

  /** A symbol is out for the first of these reasons that applies: it is denied; metadata are required and
      missing; its market is inactive; its quote asset is not among the listed ones; its market's least
      notional is below the floor. It is in when none applies. */
  lemma VerdictMeans(f: Filters, symbol: string, quote: string)
    requires IsQuote(symbol, f.Lookup(symbol), quote)
    ensures var m := f.Lookup(symbol);
            var denied, missing := Listed(f, f.denied, symbol), f.requireMetadata && m.None?;
            var inactive := f.requireActive && m.Some? && !m.value.active;
            var quoteOut := f.quotes != [] && !Listed(f, f.quotes, quote);
            var below := f.floor.Some? && m.Some? && m.value.minNotional.Some?
                         && m.value.minNotional.value < f.floor.value;
            && (f.Verdict(symbol) == Some(Denylisted) <==> denied)
            && (f.Verdict(symbol) == Some(MissingMetadata) <==> !denied && missing)
            && (f.Verdict(symbol) == Some(InactiveMarket) <==> !denied && inactive)
            && (f.Verdict(symbol) == Some(QuoteNotAllowed) <==> !denied && !missing && !inactive && quoteOut)
            && (f.Verdict(symbol) == Some(BelowMinNotional) <==>
                  !denied && !missing && !inactive && !quoteOut && below)
            && (f.Verdict(symbol) == None <==> !denied && !missing && !inactive && !quoteOut && !below)
  {
    hide f.Lookup, f.QuoteAsset, f.Canonical, f.CanonicalAll, Listed, IsQuote;
    QuoteAssetIs(f, symbol, f.Lookup(symbol));
    QuoteIsOne(symbol, f.Lookup(symbol), quote, f.QuoteAsset(symbol, f.Lookup(symbol)));
    ListedMeans(f, f.denied, symbol);
    ListedMeans(f, f.quotes, quote);
  }

  lemma QuoteIsOne(symbol: string, m: Option<MarketInfo>, a: string, b: string)
    requires IsQuote(symbol, m, a) && IsQuote(symbol, m, b)
    ensures a == b
  {
    if m.None? && '/' in symbol {
      var i :| 0 <= i < |symbol| && symbol[i] == '/' && a == symbol[i + 1..];
      var j :| 0 <= j < |symbol| && symbol[j] == '/' && b == symbol[j + 1..];
      LaterSlash(symbol, i, j);
      LaterSlash(symbol, j, i);
    }
  }

  lemma LaterSlash(symbol: string, i: nat, j: nat)
    requires i < |symbol| && j < |symbol| && symbol[j] == '/'
    ensures i < j ==> '/' in symbol[i + 1..]
  {
    if i < j { assert symbol[i + 1..][j - i - 1] == symbol[j]; }
  }
}
