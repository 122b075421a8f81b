/** Thinking levels: which ones a model offers, and their mapping to efforts and back. */
module ThinkingLevels {
  import opened Options
  import opened Text

  datatype Effort = NoEffort | Minimal | Low | Medium | High | XHigh | Max

  // A value of the `thinkingLevelMap`; a field of an object that is there but no string is `Some(None)`.
  datatype Mapped =
    | Null
    | Str(text: string)
    | Object(snake: Option<Option<string>>, camel: Option<Option<string>>)
    | Other

  type Entries = seq<(string, Mapped)>

  ghost predicate UniqueKeys(entries: Entries) {
    forall i, j :: 0 <= i < j < |entries| ==> entries[i].0 != entries[j].0
  }

  function Lookup(entries: Entries, key: string): Option<Mapped> {
    if entries == [] then None
    else if entries[|entries| - 1].0 == key then Some(entries[|entries| - 1].1)
    else Lookup(entries[..|entries| - 1], key)
  }

  lemma {:induction false} LookupFinds(entries: Entries, i: nat)
    requires UniqueKeys(entries) && i < |entries|
    ensures Lookup(entries, entries[i].0) == Some(entries[i].1)
  {
    if i < |entries| - 1 {
      assert entries[..|entries| - 1][i] == entries[i];
      LookupFinds(entries[..|entries| - 1], i);
    }
  }

  // ---------------------------------------------------------------------------
  // Canonical efforts
  // ---------------------------------------------------------------------------

  function Name(e: Effort): string {
    match e
    case NoEffort => "none"
    case Minimal => "minimal"
    case Low => "low"
    case Medium => "medium"
    case High => "high"
    case XHigh => "xhigh"
    case Max => "max"
  }

  function Named(s: string): Option<Effort> {
    match s
    case "none" => Some(NoEffort)
    case "off" => Some(NoEffort)
    case "minimal" => Some(Minimal)
    case "low" => Some(Low)
    case "medium" => Some(Medium)
    case "high" => Some(High)
    case "xhigh" => Some(XHigh)
    case "max" => Some(Max)
    case _ => None
  }

  function Canonical(value: string): Option<Effort> {
    Named(Lower(Trim(value)))
  }

  function MappedEffort(level: string, mapped: Option<Mapped>): Option<Effort> {
    var given :=
      match mapped
      case Some(Str(t)) => Canonical(t)
      case Some(Object(snake, camel)) =>
        var field := if snake.Some? then snake else camel;
        if field.Some? && field.value.Some? then Canonical(field.value.value) else None
      case _ => None;
    if given.Some? then given else Canonical(level)
  }

  // The word, whatever its case and the white space around it, names the effort.
  ghost predicate Spells(word: string, e: Effort) {
    var w := Lower(Trim(word));
    match e
    case NoEffort => w == "none" || w == "off"
    case Minimal => w == "minimal"
    case Low => w == "low"
    case Medium => w == "medium"
    case High => w == "high"
    case XHigh => w == "xhigh"
    case Max => w == "max"
  }

  lemma CanonicalIff(word: string, e: Effort)
    ensures Canonical(word) == Some(e) <==> Spells(word, e)
  {}

  // The text that a mapping gives: itself, or its field in either spelling, the first one if
  // both are there.
  ghost predicate GivesText(mapped: Option<Mapped>, text: string) {
    || mapped == Some(Str(text))
    || (exists camel :: mapped == Some(Object(Some(Some(text)), camel)))
    || mapped == Some(Object(None, Some(Some(text))))
  }

  // A level has the effort that its mapping names, and if that names none, the one that the
  // level itself names.
  lemma {:induction false} MappedEffortIff(level: string, mapped: Option<Mapped>, e: Effort)
    ensures MappedEffort(level, mapped) == Some(e) <==>
            || (exists text :: GivesText(mapped, text) && Spells(text, e))
            || (Spells(level, e) && forall text, other: Effort :: GivesText(mapped, text) ==> !Spells(text, other))
  {
    forall text, other: Effort
      ensures Canonical(text) == Some(other) <==> Spells(text, other)
    {
      CanonicalIff(text, other);
    }
    match mapped {
      case Some(Str(t)) =>
        assert GivesText(mapped, t);
        EffortOfText(t, level, e);
      case Some(Object(Some(Some(t)), _)) =>
        assert GivesText(mapped, t);
        EffortOfText(t, level, e);
      case Some(Object(None, Some(Some(t)))) =>
        assert GivesText(mapped, t);
        EffortOfText(t, level, e);
      case _ =>
    }
  }

  lemma EffortOfText(text: string, level: string, e: Effort)
    ensures (if Canonical(text).Some? then Canonical(text) else Canonical(level)) == Some(e) <==>
            Spells(text, e) || (Spells(level, e) && forall other: Effort :: !Spells(text, other))
  {
    forall other: Effort
      ensures Canonical(text) == Some(other) <==> Spells(text, other)
    {
      CanonicalIff(text, other);
    }
    CanonicalIff(level, e);
  }

  lemma LowerCaseIsCanonical(s: string)
    requires s != "" && forall i :: 0 <= i < |s| ==> 'a' <= s[i] <= 'z'
    ensures Lower(s) == s && Trim(s) == s
  {
    assert !IsSpace(s[0]) && !IsSpace(s[|s| - 1]);
  }

  lemma NameIsCanonical(e: Effort)
    ensures Canonical(Name(e)) == Some(e)
  {
    LowerCaseIsCanonical(Name(e));
  }

  // Trimming does not depend on case, so neither does the canonical effort.
  lemma {:induction false} TrimCommutes(a: string, b: string)
    requires EqIgnoreCase(a, b)
    ensures EqIgnoreCase(Trim(a), Trim(b))
    decreases |a|
  {
    assert |a| == |Lower(a)| == |b|;
    if a != "" {
      assert LowerChar(a[0]) == Lower(a)[0] == LowerChar(b[0]);
      var n := |a| - 1;
      assert LowerChar(a[n]) == Lower(a)[n] == LowerChar(b[n]);
      if IsSpace(a[0]) {
        assert Lower(a[1..]) == Lower(a)[1..] == Lower(b)[1..] == Lower(b[1..]);
        TrimCommutes(a[1..], b[1..]);
      } else if IsSpace(a[n]) {
        assert Lower(a[..n]) == Lower(a)[..n] == Lower(b)[..n] == Lower(b[..n]);
        TrimCommutes(a[..n], b[..n]);
      }
    }
  }

  // ---------------------------------------------------------------------------
  // The levels a model offers
  // ---------------------------------------------------------------------------

  // Pi's standard levels, on by default, and the two that have to be asked for.
  const STANDARD := 5
  const NAMES: seq<string> := ["off", "minimal", "low", "medium", "high", "xhigh", "max"]

  function ValueOf(levelMap: Option<Entries>, level: string): Option<Mapped> {
    if levelMap.Some? then Lookup(levelMap.value, level) else None
  }

  predicate Enabled(levelMap: Option<Entries>, k: nat)
    requires k < |NAMES|
  {
    var v := ValueOf(levelMap, NAMES[k]);
    if v.None? then k < STANDARD else v.value != Null
  }

  function Base(levelMap: Option<Entries>, k: nat): seq<string>
    requires k <= |NAMES|
  {
    if k == 0 then [] else Base(levelMap, k - 1) + if Enabled(levelMap, k - 1) then [NAMES[k - 1]] else []
  }

  predicate Holds(levels: seq<string>, level: string) {
    exists i :: 0 <= i < |levels| && EqIgnoreCase(levels[i], level)
  }

  // An entry that can become a level of its own.
  predicate Eligible(entry: (string, Mapped)) {
    entry.1 != Null && MappedEffort(entry.0, Some(entry.1)).Some?
  }

  function WithExtras(levels: seq<string>, entries: Entries): seq<string> {
    if entries == [] then levels
    else
      var last := entries[|entries| - 1];
      var before := WithExtras(levels, entries[..|entries| - 1]);
      if Eligible(last) && !Holds(before, last.0) then before + [last.0] else before
  }

  function Levels(levelMap: Option<Entries>, reasoning: bool): seq<string> {
    if !reasoning then ["off"]
    else if levelMap.None? then ["minimal", "low", "medium", "high"]
    else WithExtras(Base(levelMap, |NAMES|), levelMap.value)
  }

  function EffortOf(levelMap: Option<Entries>, level: string): Option<Effort> {
    MappedEffort(level, ValueOf(levelMap, level))
  }

  ghost predicate DistinctIgnoringCase(levels: seq<string>) {
    forall i, j :: 0 <= i < j < |levels| ==> !EqIgnoreCase(levels[i], levels[j])
  }

  // `efforts` gives each level, and nothing else, its effort.
  ghost predicate Assigns(levelMap: Option<Entries>, levels: seq<string>, efforts: map<string, Effort>) {
    && (forall l :: l in efforts <==> l in levels)
    && (forall l :: l in efforts ==> EffortOf(levelMap, l) == Some(efforts[l]))
  }

  // The efforts that go with the levels of a model.
  ghost predicate Built(levelMap: Option<Entries>, reasoning: bool, efforts: map<string, Effort>) {
    if reasoning then Assigns(levelMap, Levels(levelMap, reasoning), efforts) else efforts == map["off" := NoEffort]
  }

  lemma AssignsOneMore(levelMap: Option<Entries>, levels: seq<string>, efforts: map<string, Effort>, l: string, e: Effort)
    requires Assigns(levelMap, levels, efforts) && EffortOf(levelMap, l) == Some(e)
    ensures Assigns(levelMap, levels + [l], efforts[l := e])
  {}

  lemma NameHasEffort(levelMap: Option<Entries>, k: nat)
    requires k < |NAMES|
    ensures EffortOf(levelMap, NAMES[k]).Some?
  {
    LowerCaseIsCanonical(NAMES[k]);
  }

  lemma NamesAreDistinct(i: nat, j: nat)
    requires i < j < |NAMES|
    ensures !EqIgnoreCase(NAMES[i], NAMES[j])
  {
    LowerCaseIsCanonical(NAMES[i]);
    LowerCaseIsCanonical(NAMES[j]);
  }

  lemma {:induction false} InBaseIff(levelMap: Option<Entries>, k: nat, l: string)
    requires k <= |NAMES|
    ensures l in Base(levelMap, k) <==> exists i: nat :: i < k && NAMES[i] == l && Enabled(levelMap, i)
  {
    if k > 0 {
      InBaseIff(levelMap, k - 1, l);
      if l in Base(levelMap, k) && l !in Base(levelMap, k - 1) {
        assert NAMES[k - 1] == l && Enabled(levelMap, k - 1);
      }
    }
  }

  lemma {:induction false} BaseIsDistinct(levelMap: Option<Entries>, k: nat)
    requires k <= |NAMES|
    ensures DistinctIgnoringCase(Base(levelMap, k))
  {
    if k > 0 {
      BaseIsDistinct(levelMap, k - 1);
      var before := Base(levelMap, k - 1);
      forall i | 0 <= i < |before|
        ensures !EqIgnoreCase(before[i], NAMES[k - 1])
      {
        InBaseIff(levelMap, k - 1, before[i]);
        var n: nat :| n < k - 1 && NAMES[n] == before[i] && Enabled(levelMap, n);
        NamesAreDistinct(n, k - 1);
      }
    }
  }

  lemma {:induction false} ExtrasStayDistinct(levels: seq<string>, entries: Entries)
    requires DistinctIgnoringCase(levels)
    ensures DistinctIgnoringCase(WithExtras(levels, entries))
  {
    if entries != [] { ExtrasStayDistinct(levels, entries[..|entries| - 1]); }
  }

  // No two levels of a model differ in case alone.
  lemma LevelsAreDistinct(levelMap: Option<Entries>, reasoning: bool)
    ensures DistinctIgnoringCase(Levels(levelMap, reasoning))
  {
    if reasoning && levelMap.Some? {
      BaseIsDistinct(levelMap, |NAMES|);
      ExtrasStayDistinct(Base(levelMap, |NAMES|), levelMap.value);
    } else if reasoning {
      DefaultLevels();
      BaseIsDistinct(None, STANDARD);
      var all := Base(None, STANDARD);
      assert all[1..] == Levels(None, true);
    }
  }

  lemma DefaultLevels()
    ensures Base(None, STANDARD) == ["off"] + Levels(None, true) && Base(None, |NAMES|) == Base(None, STANDARD)
  {
    assert Base(None, 1) == ["off"];
    assert Base(None, 2) == ["off", "minimal"];
    assert Base(None, 3) == ["off", "minimal", "low"];
    assert Base(None, 4) == ["off", "minimal", "low", "medium"];
    assert Base(None, 6) == Base(None, 5);
  }

  lemma {:induction false} HoldsIff(levels: seq<string>, entries: Entries, l: string)
    ensures Holds(WithExtras(levels, entries), l) <==>
            Holds(levels, l) || exists i :: 0 <= i < |entries| && Eligible(entries[i]) && EqIgnoreCase(entries[i].0, l)
  {
    if entries != [] {
      var n := |entries| - 1;
      var before := WithExtras(levels, entries[..n]);
      var all := WithExtras(levels, entries);
      HoldsIff(levels, entries[..n], l);
      HoldsIff(levels, entries[..n], entries[n].0);
      if Holds(before, l) {
        var i :| 0 <= i < |before| && EqIgnoreCase(before[i], l);
        assert all[i] == before[i];
      } else if Eligible(entries[n]) && EqIgnoreCase(entries[n].0, l) {
        assert all == before + [entries[n].0];
        assert all[|before|] == entries[n].0;
      }
    }
  }

  // The first of the eligible entries that spell a level, and none that spells one taken before.
  ghost predicate Adds(levels: seq<string>, entries: Entries, i: nat, l: string)
    requires i < |entries|
  {
    && entries[i].0 == l && Eligible(entries[i]) && !Holds(levels, l)
    && forall j :: 0 <= j < i && Eligible(entries[j]) ==> !EqIgnoreCase(entries[j].0, l)
  }

  lemma {:induction false} InExtrasIff(levels: seq<string>, entries: Entries, l: string)
    ensures l in WithExtras(levels, entries) <==>
            l in levels || exists i: nat :: i < |entries| && Adds(levels, entries, i, l)
  {
    if entries != [] {
      var n := |entries| - 1;
      var front := entries[..n];
      InExtrasIff(levels, front, l);
      HoldsIff(levels, front, l);
      forall i: nat | i < n
        ensures Adds(levels, front, i, l) <==> Adds(levels, entries, i, l)
      {
        assert forall j :: 0 <= j <= i ==> front[j] == entries[j];
      }
      assert entries[n].0 == l ==>
          (Adds(levels, entries, n, l) <==> Eligible(entries[n]) && !Holds(WithExtras(levels, front), l));
    }
  }

  // Which levels a reasoning model with a map offers.
  lemma OfferedIff(entries: Entries, l: string)
    ensures var base := Base(Some(entries), |NAMES|);
            && (l in base <==> exists k: nat :: k < |NAMES| && NAMES[k] == l && Enabled(Some(entries), k))
            && (l in Levels(Some(entries), true) <==>
                l in base || exists i: nat :: i < |entries| && Adds(base, entries, i, l))
  {
    InBaseIff(Some(entries), |NAMES|, l);
    InExtrasIff(Base(Some(entries), |NAMES|), entries, l);
  }

  // A standard level is offered unless the map disables it with a null; each of the two
  // higher ones only if the map names it with something else.
  lemma {:induction false} NamedLevelOfferedIff(entries: Entries, k: nat)
    requires UniqueKeys(entries) && k < |NAMES|
    ensures k < 5 ==> (NAMES[k] in Levels(Some(entries), true) <==>
                       !exists i :: 0 <= i < |entries| && entries[i] == (NAMES[k], Null))
    ensures k >= 5 ==> (NAMES[k] in Levels(Some(entries), true) <==>
                        exists i :: 0 <= i < |entries| && entries[i].0 == NAMES[k] && entries[i].1 != Null)
  {
    var name := NAMES[k];
    OfferedIff(entries, name);
    LookupIff(entries, name);
    forall i: nat | i < |NAMES| && NAMES[i] == name
      ensures i == k
    {
      if i < k { NamesAreDistinct(i, k); }
      if k < i { NamesAreDistinct(k, i); }
    }
    if i: nat :| i < |entries| && Adds(Base(Some(entries), |NAMES|), entries, i, name) {
      LookupFinds(entries, i);
      InBaseIff(Some(entries), |NAMES|, name);
      if Enabled(Some(entries), k) {
        assert name in Base(Some(entries), |NAMES|);
        HoldsItself(Base(Some(entries), |NAMES|), name);
      }
    }
  }

  lemma HoldsItself(levels: seq<string>, level: string)
    requires level in levels
    ensures Holds(levels, level)
  {
    var i :| 0 <= i < |levels| && levels[i] == level;
    assert EqIgnoreCase(levels[i], level);
  }

  lemma {:induction false} LookupIff(entries: Entries, key: string)
    requires UniqueKeys(entries)
    ensures match Lookup(entries, key)
            case None => forall i :: 0 <= i < |entries| ==> entries[i].0 != key
            case Some(v) => exists i :: 0 <= i < |entries| && entries[i] == (key, v)
    ensures forall i :: 0 <= i < |entries| && entries[i].0 == key ==> Lookup(entries, key) == Some(entries[i].1)
  {
    if entries != [] {
      var front := entries[..|entries| - 1];
      LookupIff(front, key);
      assert forall i :: 0 <= i < |front| ==> front[i] == entries[i];
      if entries[|entries| - 1].0 == key {
        assert entries[|entries| - 1] == (key, entries[|entries| - 1].1);
      }
    }
  }

  // ---------------------------------------------------------------------------
  // Building levels and efforts
  // ---------------------------------------------------------------------------

  method SupportedThinkingLevels(levelMap: Option<Entries>, reasoning: bool)
    returns (levels: seq<string>, efforts: map<string, Effort>)
    requires levelMap.Some? ==> UniqueKeys(levelMap.value)
    ensures levels == Levels(levelMap, reasoning)
    ensures Built(levelMap, reasoning, efforts)
  {
    if !reasoning { return ["off"], map["off" := NoEffort]; }
    levels, efforts := [], map[];
    for k := 0 to STANDARD
      invariant levels == Base(levelMap, k) && Assigns(levelMap, levels, efforts)
    {
      var mapped := ValueOf(levelMap, NAMES[k]);
      var supported := mapped.None? || mapped.value != Null;
      if supported { levels, efforts := AddLevel(levelMap, levels, efforts, k); }
    }
    for k := STANDARD to |NAMES|
      invariant levels == Base(levelMap, k) && Assigns(levelMap, levels, efforts)
    {
      var mapped := ValueOf(levelMap, NAMES[k]);
      if mapped.Some? && mapped.value != Null { levels, efforts := AddLevel(levelMap, levels, efforts, k); }
    }
    if levelMap.Some? {
      levels, efforts := AddExtras(levelMap.value, levels, efforts);
    } else {
      DefaultLevels();
      levels, efforts := WithoutOff(levels, efforts);
    }
  }

  method AddLevel(levelMap: Option<Entries>, levels: seq<string>, efforts: map<string, Effort>, k: nat)
    returns (levels': seq<string>, efforts': map<string, Effort>)
    requires k < |NAMES| && Assigns(levelMap, levels, efforts)
    ensures levels' == levels + [NAMES[k]] && Assigns(levelMap, levels', efforts')
  {
    NameHasEffort(levelMap, k);
    levels' := levels + [NAMES[k]];
    efforts' := efforts;
    var effort := MappedEffort(NAMES[k], ValueOf(levelMap, NAMES[k]));
    if effort.Some? {
      efforts' := efforts[NAMES[k] := effort.value];
      AssignsOneMore(levelMap, levels, efforts, NAMES[k], effort.value);
    }
  }

  method AddExtras(entries: Entries, levels: seq<string>, efforts: map<string, Effort>)
    returns (levels': seq<string>, efforts': map<string, Effort>)
    requires UniqueKeys(entries) && Assigns(Some(entries), levels, efforts)
    ensures levels' == WithExtras(levels, entries) && Assigns(Some(entries), levels', efforts')
  {
    levels', efforts' := levels, efforts;
    for i := 0 to |entries|
      invariant levels' == WithExtras(levels, entries[..i]) && Assigns(Some(entries), levels', efforts')
    {
      assert entries[..i + 1][..i] == entries[..i];
      LookupFinds(entries, i);
      var (level, mapped) := entries[i];
      if mapped == Null || Holds(levels', level) { continue; }
      var effort := MappedEffort(level, Some(mapped));
      if effort.None? { continue; }
      AssignsOneMore(Some(entries), levels', efforts', level, effort.value);
      levels' := levels' + [level];
      efforts' := efforts'[level := effort.value];
    }
    assert entries[..|entries|] == entries;
  }

  method WithoutOff(levels: seq<string>, efforts: map<string, Effort>)
    returns (levels': seq<string>, efforts': map<string, Effort>)
    requires levels == ["off"] + Levels(None, true) && Assigns(None, levels, efforts)
    ensures levels' == Levels(None, true) && Assigns(None, levels', efforts')
  {
    levels' := [];
    for i := 0 to |levels|
      invariant levels' == levels[if i == 0 then 0 else 1..i]
    {
      if levels[i] != "off" { levels' := levels' + [levels[i]]; }
    }
    efforts' := efforts - {"off"};
  }

  // ---------------------------------------------------------------------------
  // Between levels and efforts
  // ---------------------------------------------------------------------------

  // What parsing establishes: distinct levels, each with an effort.
  ghost predicate Parsed(levels: seq<string>, efforts: map<string, Effort>) {
    DistinctIgnoringCase(levels) && forall l :: l in efforts <==> l in levels
  }

  // An order in which a hash map may hand out its entries.
  ghost predicate Enumerates(order: seq<(string, Effort)>, efforts: map<string, Effort>) {
    && (forall i :: 0 <= i < |order| ==> order[i].0 in efforts && efforts[order[i].0] == order[i].1)
    && (forall l :: l in efforts ==> exists i :: 0 <= i < |order| && order[i].0 == l)
  }

  function FindEntry(order: seq<(string, Effort)>, level: string): Option<Effort> {
    if order == [] then None
    else if EqIgnoreCase(order[0].0, level) then Some(order[0].1)
    else FindEntry(order[1..], level)
  }

  function AcpEffortForPiLevel(order: seq<(string, Effort)>, level: string): Option<Effort> {
    var found := FindEntry(order, level);
    if found.Some? then found else Canonical(level)
  }

  function FirstWith(levels: seq<string>, order: seq<(string, Effort)>, e: Effort): Option<string> {
    if levels == [] then None
    else if AcpEffortForPiLevel(order, levels[0]) == Some(e) then Some(levels[0])
    else FirstWith(levels[1..], order, e)
  }

  function Fallback(e: Effort): Option<Effort> {
    match e
    case NoEffort => Some(Low)
    case Minimal => Some(Low)
    case XHigh => Some(Max)
    case Max => Some(XHigh)
    case _ => None
  }

  function PiLevelForAcpEffort(levels: seq<string>, order: seq<(string, Effort)>, effort: string): Option<string> {
    var requested := Canonical(effort);
    if requested.None? then None
    else
      var exact := FirstWith(levels, order, requested.value);
      if exact.Some? || Fallback(requested.value).None? then exact
      else FirstWith(levels, order, Fallback(requested.value).value)
  }

  function Else(first: Option<string>, second: Option<string>): Option<string> {
    if first.Some? then first else second
  }

  // Which level each effort falls back to: none and minimal to low, the two highest to each
  // other, and the three in the middle to nothing.
  lemma FallbackIs(levels: seq<string>, order: seq<(string, Effort)>)
    ensures var low := FirstWith(levels, order, Low);
            && PiLevelForAcpEffort(levels, order, "none") == Else(FirstWith(levels, order, NoEffort), low)
            && PiLevelForAcpEffort(levels, order, "minimal") == Else(FirstWith(levels, order, Minimal), low)
            && PiLevelForAcpEffort(levels, order, "low") == low
            && PiLevelForAcpEffort(levels, order, "medium") == FirstWith(levels, order, Medium)
            && PiLevelForAcpEffort(levels, order, "high") == FirstWith(levels, order, High)
    ensures var xhigh, max := FirstWith(levels, order, XHigh), FirstWith(levels, order, Max);
            && PiLevelForAcpEffort(levels, order, "xhigh") == Else(xhigh, max)
            && PiLevelForAcpEffort(levels, order, "max") == Else(max, xhigh)
  {
    NameIsCanonical(NoEffort);
    NameIsCanonical(Minimal);
    NameIsCanonical(Low);
    NameIsCanonical(Medium);
    NameIsCanonical(High);
    NameIsCanonical(XHigh);
    NameIsCanonical(Max);
  }

  lemma ParsedModel(levelMap: Option<Entries>, reasoning: bool, efforts: map<string, Effort>)
    requires Built(levelMap, reasoning, efforts)
    ensures Parsed(Levels(levelMap, reasoning), efforts)
  {
    LevelsAreDistinct(levelMap, reasoning);
  }

  lemma {:induction false} FindEntryIff(order: seq<(string, Effort)>, level: string)
    ensures match FindEntry(order, level)
            case Some(e) => exists i :: 0 <= i < |order| && EqIgnoreCase(order[i].0, level) && order[i].1 == e
            case None => forall i :: 0 <= i < |order| ==> !EqIgnoreCase(order[i].0, level)
  {
    if order != [] && !EqIgnoreCase(order[0].0, level) {
      var rest := order[1..];
      FindEntryIff(rest, level);
      match FindEntry(rest, level) {
        case Some(e) =>
          var i :| 0 <= i < |rest| && EqIgnoreCase(rest[i].0, level) && rest[i].1 == e;
          assert order[i + 1] == rest[i];
        case None =>
          forall i | 0 <= i < |order|
            ensures !EqIgnoreCase(order[i].0, level)
          {
            if i > 0 { assert order[i] == rest[i - 1]; }
          }
      }
    }
  }

  // However it is spelled, an offered level has its own effort, in any order of the hash map.
  lemma OfferedLevelHasItsEffort(
    levels: seq<string>, efforts: map<string, Effort>, order: seq<(string, Effort)>, k: nat, level: string)
    requires Parsed(levels, efforts) && Enumerates(order, efforts)
    requires k < |levels| && EqIgnoreCase(levels[k], level)
    ensures AcpEffortForPiLevel(order, level) == Some(efforts[levels[k]])
  {
    FindEntryIff(order, level);
    assert levels[k] in levels;
    assert levels[k] in efforts;
    var own :| 0 <= own < |order| && order[own].0 == levels[k];
    assert EqIgnoreCase(order[own].0, level);
    var e := FindEntry(order, level).value;
    var i :| 0 <= i < |order| && EqIgnoreCase(order[i].0, level) && order[i].1 == e;
    assert order[i].0 in levels;
    var j :| 0 <= j < |levels| && levels[j] == order[i].0;
    assert EqIgnoreCase(levels[j], levels[k]);
    assert j == k;
  }

  lemma OtherLevelIsReadAsAnEffort(
    levels: seq<string>, efforts: map<string, Effort>, order: seq<(string, Effort)>, level: string)
    requires Parsed(levels, efforts) && Enumerates(order, efforts)
    requires !Holds(levels, level)
    ensures AcpEffortForPiLevel(order, level) == Canonical(level)
  {
    FindEntryIff(order, level);
    forall i | 0 <= i < |order|
      ensures !EqIgnoreCase(order[i].0, level)
    {
      assert order[i].0 in levels;
    }
  }

  // The order of the hash map and the spelling of the level are irrelevant.
  lemma OrderAndCaseAreIrrelevant(
    levels: seq<string>, efforts: map<string, Effort>,
    order: seq<(string, Effort)>, order': seq<(string, Effort)>, level: string, level': string)
    requires Parsed(levels, efforts) && Enumerates(order, efforts) && Enumerates(order', efforts)
    requires EqIgnoreCase(level, level')
    ensures AcpEffortForPiLevel(order, level) == AcpEffortForPiLevel(order', level')
  {
    if Holds(levels, level) {
      var k :| 0 <= k < |levels| && EqIgnoreCase(levels[k], level);
      OfferedLevelHasItsEffort(levels, efforts, order, k, level);
      OfferedLevelHasItsEffort(levels, efforts, order', k, level');
    } else {
      OtherLevelIsReadAsAnEffort(levels, efforts, order, level);
      OtherLevelIsReadAsAnEffort(levels, efforts, order', level');
      TrimCommutes(level, level');
    }
  }

  // The first level that carries an effort: which one it is, and when there is none.
  lemma {:induction false} FirstWithIff(
    all: seq<string>, efforts: map<string, Effort>, order: seq<(string, Effort)>, k: nat, e: Effort)
    requires Parsed(all, efforts) && Enumerates(order, efforts) && k <= |all|
    ensures match FirstWith(all[k..], order, e)
            case Some(l) => exists i: nat :: k <= i < |all| && all[i] == l && efforts[l] == e
                                             && forall j :: k <= j < i ==> efforts[all[j]] != e
            case None => forall i :: k <= i < |all| ==> efforts[all[i]] != e
    decreases |all| - k
  {
    if k < |all| {
      OfferedLevelHasItsEffort(all, efforts, order, k, all[k]);
      assert all[k..][1..] == all[k + 1..] && all[k..][0] == all[k];
      FirstWithIff(all, efforts, order, k + 1, e);
    }
  }

  ghost predicate Carries(levels: seq<string>, efforts: map<string, Effort>, l: string, e: Effort) {
    l in levels && l in efforts && efforts[l] == e
  }

  ghost predicate Carried(levels: seq<string>, efforts: map<string, Effort>, e: Effort) {
    exists l :: Carries(levels, efforts, l, e)
  }

  lemma FirstWithCarries(levels: seq<string>, efforts: map<string, Effort>, order: seq<(string, Effort)>, e: Effort)
    requires Parsed(levels, efforts) && Enumerates(order, efforts)
    ensures var first := FirstWith(levels, order, e);
            && (first.Some? <==> Carried(levels, efforts, e))
            && (first.Some? ==> Carries(levels, efforts, first.value, e))
  {
    assert levels[0..] == levels;
    FirstWithIff(levels, efforts, order, 0, e);
    if FirstWith(levels, order, e).Some? {
      assert Carries(levels, efforts, FirstWith(levels, order, e).value, e);
    }
  }

  // What an effort selects: a level that carries it, else one that carries its fallback, else nothing.
  lemma SelectedLevelIff(
    levels: seq<string>, efforts: map<string, Effort>, order: seq<(string, Effort)>, effort: string)
    requires Parsed(levels, efforts) && Enumerates(order, efforts)
    ensures match (Canonical(effort), PiLevelForAcpEffort(levels, order, effort))
            case (None, selected) => selected.None?
            case (Some(e), Some(l)) =>
              || Carries(levels, efforts, l, e)
              || (!Carried(levels, efforts, e) && Fallback(e).Some? && Carries(levels, efforts, l, Fallback(e).value))
            case (Some(e), None) =>
              !Carried(levels, efforts, e) && (Fallback(e).Some? ==> !Carried(levels, efforts, Fallback(e).value))
  {
    var e := Canonical(effort);
    if e.Some? {
      FirstWithCarries(levels, efforts, order, e.value);
      if Fallback(e.value).Some? { FirstWithCarries(levels, efforts, order, Fallback(e.value).value); }
    }
  }

  // The effort of a level selects a level of the same effort, and that level itself if it is the only one.
  lemma RoundTrip(
    levels: seq<string>, efforts: map<string, Effort>, order: seq<(string, Effort)>, level: string)
    requires Parsed(levels, efforts) && Enumerates(order, efforts) && level in levels
    ensures var e := AcpEffortForPiLevel(order, level);
            e == Some(efforts[level]) &&
            var back := PiLevelForAcpEffort(levels, order, Name(e.value));
            && back.Some? && back.value in levels && AcpEffortForPiLevel(order, back.value) == e
            && ((forall l :: Carries(levels, efforts, l, e.value) ==> l == level) ==> back == Some(level))
  {
    var k :| 0 <= k < |levels| && levels[k] == level;
    OfferedLevelHasItsEffort(levels, efforts, order, k, level);
    var e := efforts[level];
    NameIsCanonical(e);
    assert Carries(levels, efforts, level, e);
    SelectedLevelIff(levels, efforts, order, Name(e));
    var back := PiLevelForAcpEffort(levels, order, Name(e)).value;
    var j :| 0 <= j < |levels| && levels[j] == back;
    OfferedLevelHasItsEffort(levels, efforts, order, j, back);
  }

  // What a level of a parsed model maps to.
  function ParsedEffort(levelMap: Option<Entries>, reasoning: bool, level: string): Option<Effort> {
    if reasoning then EffortOf(levelMap, level) else Some(NoEffort)
  }

  // The same for every reading `of` of the levels that agrees with the hash map.
  lemma {:induction false} RoundTripBy(
    levels: seq<string>, efforts: map<string, Effort>, order: seq<(string, Effort)>,
    of: string -> Option<Effort>, level: string)
    requires Parsed(levels, efforts) && Enumerates(order, efforts) && level in levels
    requires forall l :: l in levels ==> of(l) == Some(efforts[l])
    ensures AcpEffortForPiLevel(order, level) == of(level)
    ensures RoundTrips(levels, order, of, level)
  {
    RoundTrip(levels, efforts, order, level);
    var e := efforts[level];
    if forall l :: l in levels && l != level ==> of(l) != Some(e) {
      forall l | Carries(levels, efforts, l, e)
        ensures l == level
      {
        assert of(l) == Some(e);
      }
    }
    var back := PiLevelForAcpEffort(levels, order, Name(e)).value;
    var j :| 0 <= j < |levels| && levels[j] == back;
    OfferedLevelHasItsEffort(levels, efforts, order, j, back);
  }

  // The effort of an offered level selects a level of that effort, and the level itself if
  // no other offered one has it.
  ghost predicate RoundTrips(levels: seq<string>, order: seq<(string, Effort)>, of: string -> Option<Effort>, level: string) {
    of(level).Some? &&
    var back := PiLevelForAcpEffort(levels, order, Name(of(level).value));
    && back.Some? && back.value in levels && of(back.value) == of(level)
    && ((forall l :: l in levels && l != level ==> of(l) != of(level)) ==> back == Some(level))
  }

  // So efforts round trip for every model as parsed, with whatever level map.
  lemma {:induction false} ParsedRoundTrip(
    levelMap: Option<Entries>, reasoning: bool, efforts: map<string, Effort>, order: seq<(string, Effort)>, level: string)
    requires Built(levelMap, reasoning, efforts) && Enumerates(order, efforts)
    requires level in Levels(levelMap, reasoning)
    ensures AcpEffortForPiLevel(order, level) == ParsedEffort(levelMap, reasoning, level)
    ensures RoundTrips(Levels(levelMap, reasoning), order, l => ParsedEffort(levelMap, reasoning, l), level)
  {
    ParsedModel(levelMap, reasoning, efforts);
    RoundTripBy(Levels(levelMap, reasoning), efforts, order, l => ParsedEffort(levelMap, reasoning, l), level);
  }

  // The selected level does not depend on the order of the hash map.
  lemma SelectionIgnoresOrder(
    levels: seq<string>, efforts: map<string, Effort>,
    order: seq<(string, Effort)>, order': seq<(string, Effort)>, effort: string)
    requires Parsed(levels, efforts) && Enumerates(order, efforts) && Enumerates(order', efforts)
    ensures PiLevelForAcpEffort(levels, order, effort) == PiLevelForAcpEffort(levels, order', effort)
  {
    var e := Canonical(effort);
    if e.Some? {
      FirstIgnoresOrder(levels, efforts, order, order', 0, e.value);
      if Fallback(e.value).Some? { FirstIgnoresOrder(levels, efforts, order, order', 0, Fallback(e.value).value); }
      assert levels[0..] == levels;
    }
  }

  lemma {:induction false} FirstIgnoresOrder(
    all: seq<string>, efforts: map<string, Effort>,
    order: seq<(string, Effort)>, order': seq<(string, Effort)>, k: nat, e: Effort)
    requires Parsed(all, efforts) && Enumerates(order, efforts) && Enumerates(order', efforts) && k <= |all|
    ensures FirstWith(all[k..], order, e) == FirstWith(all[k..], order', e)
    decreases |all| - k
  {
    if k < |all| {
      OfferedLevelHasItsEffort(all, efforts, order, k, all[k]);
      OfferedLevelHasItsEffort(all, efforts, order', k, all[k]);
      assert all[k..][1..] == all[k + 1..] && all[k..][0] == all[k];
      FirstIgnoresOrder(all, efforts, order, order', k + 1, e);
    }
  }
}
