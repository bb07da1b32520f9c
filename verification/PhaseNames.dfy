/** How the current phase is stored in the settings table and read back. */
module PhaseNames {
  import opened Text

  datatype Phase = Phase(number: nat, name: string, tasks: seq<nat>)

  const COMPLETE := "complete"

  function DisplayName(p: Phase): string {
    "Phase " + Digits(p.number) + " - " + p.name
  }

  function Normalized(setting: string): string {
    Lower(Strip(setting))
  }

  predicate IsComplete(setting: string) {
    Normalized(setting) == COMPLETE
  }

  /** Does the stored text name this phase, by number or by its whole label? */
  predicate Names(p: Phase, normalized: string) {
    || FirstNumber(normalized) == Some(Digits(p.number))
    || Lower(DisplayName(p)) == normalized
  }

  /** The first phase, from index `i` on, that the stored text names. */
  function Scan(phases: seq<Phase>, normalized: string, i: nat): (r: Option<nat>)
    requires i <= |phases|
    ensures r.Some? ==> i <= r.value < |phases| && Names(phases[r.value], normalized)
    ensures forall j :: i <= j < (if r.Some? then r.value else |phases|) ==> !Names(phases[j], normalized)
    decreases |phases| - i
  {
    if i == |phases| then None
    else if Names(phases[i], normalized) then Some(i)
    else Scan(phases, normalized, i + 1)
  }

  /** The first phase that a stored setting names; an empty setting names none. */
  function PhaseFromSetting(phases: seq<Phase>, setting: string): (r: Option<nat>)
    ensures r.Some? ==> r.value < |phases| && Names(phases[r.value], Normalized(setting))
    ensures r.Some? ==> forall j :: 0 <= j < r.value ==> !Names(phases[j], Normalized(setting))
    ensures r.None? <==>
      Normalized(setting) == "" || forall j :: 0 <= j < |phases| ==> !Names(phases[j], Normalized(setting))
  {
    if Normalized(setting) == "" then None else Scan(phases, Normalized(setting), 0)
  }

  ghost predicate DistinctNumbers(phases: seq<Phase>) {
    forall i, j :: 0 <= i < j < |phases| ==> phases[i].number != phases[j].number
  }

  /** Stripping cannot reach past a character that is not white space. */
  lemma {:induction false} RStripKeeps(a: string, c: char, b: string)
    requires !IsSpace(c)
    ensures RStrip(a + [c] + b) == a + [c] + RStrip(b)
  {
    var s := a + [c] + b;
    if b == "" {
      assert s == a + [c] && RStrip(s) == s;
    } else if IsSpace(b[|b| - 1]) {
      assert s[..|s| - 1] == a + [c] + b[..|b| - 1];
      RStripKeeps(a, c, b[..|b| - 1]);
    } else {
      assert s[|s| - 1] == b[|b| - 1];
    }
  }

  /** The first number in a phase label, in any case, is the phase's number. */
  lemma LabelNumber(n: nat, rest: string)
    requires rest != "" && rest[0] == ' '
    ensures FirstNumber(Lower("Phase " + Digits(n) + rest)) == Some(Digits(n))
  {
    var d := Digits(n);
    LowerOfConcat("Phase " + d, rest);
    LowerOfConcat("Phase ", d);
    assert Lower(d) == d;
    assert Lower("Phase ") == "phase ";
    FirstNumberFound("phase ", d, Lower(rest));
  }

  /** Stripping a text that starts with a visible character keeps everything up to a later one. */
  lemma StripKeepsHead(head: string, c: char, tail: string)
    requires head != "" && !IsSpace(head[0]) && !IsSpace(c)
    ensures Strip(head + [c] + tail) == head + [c] + RStrip(tail)
  {
    var s := head + [c] + tail;
    assert s[0] == head[0];
    assert LStrip(s) == s;
    RStripKeeps(head, c, tail);
  }

  lemma LabelParts(d: string, name: string)
    ensures "Phase " + d + " - " + name == ("Phase " + d + " ") + ['-'] + (" " + name)
    ensures "Phase " + d + " - " + name == "Phase " + d + (" - " + name)
  {
    var text := "Phase " + d + " - " + name;
    assert text == "Phase " + d + (" - " + name);
    assert " - " + name == " " + ['-'] + (" " + name);
  }

  lemma StrippedLabel(d: string, name: string)
    ensures Strip("Phase " + d + " - " + name) == "Phase " + d + (" -" + RStrip(" " + name))
  {
    LabelParts(d, name);
    var head := "Phase " + d + " ";
    assert head[0] == 'P';
    StripKeepsHead(head, '-', " " + name);
    assert head + ['-'] == "Phase " + d + " -";
  }

  lemma NormalizedDisplayName(p: Phase)
    ensures FirstNumber(Normalized(DisplayName(p))) == Some(Digits(p.number))
    ensures FirstNumber(Lower(DisplayName(p))) == Some(Digits(p.number))
  {
    LabelParts(Digits(p.number), p.name);
    LabelNumber(p.number, " - " + p.name);
    StrippedLabel(Digits(p.number), p.name);
    LabelNumber(p.number, " -" + RStrip(" " + p.name));
  }

  /** A label with a number in it is neither empty nor the word for a finished run. */
  lemma NumberedIsNotSpecial(s: string)
    requires FirstNumber(s).Some?
    ensures s != "" && s != COMPLETE
  {
    NoNumber(COMPLETE);
  }

  /** No other phase answers to the normalised label of phase `k`. */
  lemma NamedOnce(phases: seq<Phase>, j: nat, k: nat)
    requires DistinctNumbers(phases) && j < |phases| && k < |phases|
    ensures Names(phases[j], Normalized(DisplayName(phases[k]))) <==> j == k
  {
    NormalizedDisplayName(phases[j]);
    NormalizedDisplayName(phases[k]);
    if Digits(phases[j].number) == Digits(phases[k].number) {
      DigitsInjective(phases[j].number, phases[k].number);
    }
  }

  /** A stored label is read back as exactly the phase it was written for. */
  lemma SettingRoundTrip(phases: seq<Phase>, k: nat)
    requires DistinctNumbers(phases) && k < |phases|
    ensures PhaseFromSetting(phases, DisplayName(phases[k])) == Some(k)
    ensures !IsComplete(DisplayName(phases[k]))
  {
    NormalizedDisplayName(phases[k]);
    NumberedIsNotSpecial(Normalized(DisplayName(phases[k])));
    forall j | 0 <= j < |phases|
      ensures Names(phases[j], Normalized(DisplayName(phases[k]))) <==> j == k
    {
      NamedOnce(phases, j, k);
    }
  }

  /** A text without a number names no phase. */
  lemma UnnumberedNamesNone(p: Phase, s: string)
    requires FirstNumber(s).None?
    ensures !Names(p, s)
  {
    NormalizedDisplayName(p);
  }

  lemma CompleteNormalized()
    ensures Normalized("") == "" && Normalized(COMPLETE) == COMPLETE
  {
    StripOfStripped("");
    StripOfStripped(COMPLETE);
    assert Lower(COMPLETE) == COMPLETE;
  }

  /** An unset phase names none, and neither does the word for a finished run. */
  lemma SpecialSettings(phases: seq<Phase>)
    ensures PhaseFromSetting(phases, "").None? && !IsComplete("")
    ensures PhaseFromSetting(phases, COMPLETE).None? && IsComplete(COMPLETE)
  {
    CompleteNormalized();
    NoNumber(COMPLETE);
    forall j | 0 <= j < |phases| ensures !Names(phases[j], COMPLETE) {
      UnnumberedNamesNone(phases[j], COMPLETE);
    }
  }

  lemma {:induction false} NoNumber(s: string)
    requires NoDigits(s)
    ensures FirstNumber(s) == None
  {
    if s != "" { NoNumber(s[1..]); }
  }

  /** The approval reference of a phase's exit gate and of a risky task. */
  function PhaseRef(number: nat): string {
    "phase-" + Digits(number) + "-exit"
  }

  function RiskRef(task: nat): string {
    "task-" + Digits(task) + "-risky"
  }

  /** One approval row can open one gate only: references never coincide. */
  lemma RefsDistinct(a: nat, b: nat)
    ensures PhaseRef(a) == PhaseRef(b) ==> a == b
    ensures RiskRef(a) == RiskRef(b) ==> a == b
    ensures PhaseRef(a) != RiskRef(b)
  {
    if PhaseRef(a) == PhaseRef(b) { FramedDigitsInjective("phase-", a, b, "-exit"); }
    if RiskRef(a) == RiskRef(b) { FramedDigitsInjective("task-", a, b, "-risky"); }
    assert PhaseRef(a)[0] == 'p' && RiskRef(b)[0] == 't';
  }

  // ----- a setting is read by its number alone

  /** A text names a phase exactly when the first number in it is the phase's: the label of a phase
      always has that number first. */
  lemma NamesByNumber(p: Phase, normalized: string)
    ensures Names(p, normalized) <==> FirstNumber(normalized) == Some(Digits(p.number))
  {
    NormalizedDisplayName(p);
  }

  /** So with distinct numbers a setting resolves to a phase exactly when the first number in it is that
      phase's number. */
  lemma ResolvesByNumber(phases: seq<Phase>, setting: string, k: nat)
    requires DistinctNumbers(phases) && k < |phases|
    ensures PhaseFromSetting(phases, setting) == Some(k)
       <==> FirstNumber(Lower(Strip(setting))) == Some(Digits(phases[k].number))
  {
    hide FirstNumber, Digits, Names, Strip;
    var r := PhaseFromSetting(phases, setting);
    forall j | 0 <= j < |phases|
      ensures Names(phases[j], Normalized(setting)) <==>
              FirstNumber(Normalized(setting)) == Some(Digits(phases[j].number))
    {
      NamesByNumber(phases[j], Normalized(setting));
    }
    if r.Some? && Digits(phases[r.value].number) == Digits(phases[k].number) {
      DigitsInjective(phases[r.value].number, phases[k].number);
    }
    EmptyHasNoNumber();
  }

  lemma EmptyHasNoNumber()
    ensures FirstNumber("") == None
  {
  }

  /** What the stored texts look like. */
  lemma StoredTexts(name: string, tasks: seq<nat>)
    ensures DisplayName(Phase(2, name, tasks)) == "Phase 2 - " + name
    ensures DisplayName(Phase(12, name, tasks)) == "Phase 12 - " + name
    ensures PhaseRef(2) == "phase-2-exit" && RiskRef(7) == "task-7-risky"
  {
    SmallNumbers();
    hide Digits;
  }

  lemma SmallNumbers()
    ensures Digits(2) == "2" && Digits(7) == "7" && Digits(12) == "12"
  {
    assert Digits(1) == "1";
  }
}
