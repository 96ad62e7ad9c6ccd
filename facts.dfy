/** Fact extraction (apps/web/server/utils/facts.ts): the validated shape of an LLM answer,
    the truncation of the text sent to it, the case-insensitive merge of the answers for
    several chunks, the confidence score of a fact and the conversion into database rows. */
module Facts {
  import opened Wrappers
  import opened Collections
  import opened Strings
  import Predictor

  // ---------------------------------------------------------------------------
  // The extracted facts, as the schema validates them

  datatype Severity = Minor | Major | UnknownSeverity

  function SeverityName(s: Severity): string {
    match s
    case Minor => "minor"
    case Major => "major"
    case UnknownSeverity => "unknown"
  }

  datatype FormResult = W | L | D

  function ResultName(r: FormResult): (s: string)
    ensures |s| == 1
  {
    match r
    case W => "W"
    case L => "L"
    case D => "D"
  }

  datatype TacticalType = CoachChange | Formation | TacticalShift | OtherChange

  function TypeName(t: TacticalType): string {
    match t
    case CoachChange => "coach_change"
    case Formation => "formation"
    case TacticalShift => "tactical"
    case OtherChange => "other"
  }

  /** `expected_return` is nullable; `position` and `description` are optional. */
  datatype Injury = Injury(player: string, position: Option<string>, severity: Severity,
                           expectedReturn: Option<string>, description: Option<string>)

  datatype Suspension = Suspension(player: string, reason: string, matches: Option<int>, description: Option<string>)

  datatype Form = Form(team: string, last5: seq<FormResult>, summary: string)

  datatype TacticalChange = TacticalChange(kind: TacticalType, description: string, impact: Option<string>)

  datatype ExtractedFacts = ExtractedFacts(injuries: seq<Injury>, suspensions: seq<Suspension>,
                                           form: seq<Form>, tactical: seq<TacticalChange>)

  const NoFacts := ExtractedFacts([], [], [], [])

  /** JavaScript truthiness of an optional string: present and not empty. */
  predicate Truthy(o: Option<string>) {
    o.Some? && o.value != []
  }

  /** `o || dflt` on an optional string. */
  function OrElse(o: Option<string>, dflt: string): string {
    if Truthy(o) then o.value else dflt
  }

  // ---------------------------------------------------------------------------
  // extractFacts: truncation of the text and the fallback on failure

  /** The text sent to the model: longer content is cut to its first `maxLength` characters
      and marked with `...`. */
  function Truncated(content: string, maxLength: int): (r: string)
    ensures |content| <= maxLength ==> r == content
    ensures 0 <= maxLength < |content| ==> r == content[..maxLength] + "..." && |r| == maxLength + 3
    ensures maxLength < 0 ==> r == "..."
  {
    if |content| > maxLength then JsSubstring(content, 0, maxLength) + "..." else content
  }

  /** `extractFacts`: the validated answer for the truncated text, or no facts when the call,
      the JSON parse or the validation fails. The model's answer is a parameter. */
  function ExtractFacts(content: string, maxLength: Option<int>, answer: string -> Option<ExtractedFacts>): (r: ExtractedFacts)
    ensures answer(Truncated(content, OrDefault(maxLength, 8000))).None? ==> r == NoFacts
    ensures answer(Truncated(content, OrDefault(maxLength, 8000))).Some? ==>
              r == answer(Truncated(content, OrDefault(maxLength, 8000))).value
  {
    match answer(Truncated(content, OrDefault(maxLength, 8000)))
    case None => NoFacts
    case Some(facts) => facts
  }

  /** With the default limit, content of at most 8000 characters is sent unchanged and
      longer content as its first 8000 characters and `...`. */
  lemma DefaultTruncation(content: string)
    ensures |content| <= 8000 ==> Truncated(content, OrDefault(None, 8000)) == content
    ensures |content| > 8000 ==> Truncated(content, OrDefault(None, 8000)) == content[..8000] + "..."
  {
  }

  datatype Chunk = Chunk(content: string, id: string)

  /** `chunks.slice(0, options.maxChunks || 5)`. */
  function ChunkWindow(chunks: seq<Chunk>, maxChunks: Option<int>): (r: seq<Chunk>)
    ensures |r| <= |chunks| && r == chunks[..|r|]
    ensures maxChunks.None? ==> |r| == (if |chunks| < 5 then |chunks| else 5)
  {
    Take(chunks, OrDefault(maxChunks, 5))
  }

  // ---------------------------------------------------------------------------
  // The merge of the answers for several chunks

  /** The list of one kind of fact over all answers, in order. */
  function Gather<T>(all: seq<ExtractedFacts>, part: ExtractedFacts -> seq<T>): seq<T>
    decreases |all|
  {
    if all == [] then [] else Gather(all[..|all| - 1], part) + part(all[|all| - 1])
  }

  lemma GatherNext<T>(all: seq<ExtractedFacts>, k: nat, part: ExtractedFacts -> seq<T>)
    requires k < |all|
    ensures Gather(all[..k + 1], part) == Gather(all[..k], part) + part(all[k])
  {
    assert all[..k + 1][..k] == all[..k];
  }

  function InjuriesOf(f: ExtractedFacts): seq<Injury> { f.injuries }
  function SuspensionsOf(f: ExtractedFacts): seq<Suspension> { f.suspensions }
  function FormsOf(f: ExtractedFacts): seq<Form> { f.form }
  function TacticalOf(f: ExtractedFacts): seq<TacticalChange> { f.tactical }

  function InjuryKey(i: Injury): string { ToLower(i.player) }
  function SuspensionKey(s: Suspension): string { ToLower(s.player) }
  function FormKey(f: Form): string { ToLower(f.team) }

  /** `findIndex` on the lowercased team. */
  function FindTeam(forms: seq<Form>, key: string): (r: int)
    ensures -1 <= r < |forms|
    ensures r == -1 <==> forall j :: 0 <= j < |forms| ==> FormKey(forms[j]) != key
    ensures r >= 0 ==> FormKey(forms[r]) == key && forall j :: 0 <= j < r ==> FormKey(forms[j]) != key
    decreases |forms|
  {
    if forms == [] then -1
    else if FormKey(forms[0]) == key then 0
    else
      var r := FindTeam(forms[1..], key);
      assert forall j :: 0 < j < |forms| ==> forms[j] == forms[1..][j - 1];
      if r == -1 then -1 else r + 1
  }

  /** Merging one form entry: a new team is appended; a known team's entry is replaced when
      the new one has exactly five results and the kept one fewer. */
  function FormStep(merged: seq<Form>, form: Form): seq<Form> {
    var existingIndex := FindTeam(merged, FormKey(form));
    if existingIndex == -1 then merged + [form]
    else if |form.last5| == 5 && |merged[existingIndex].last5| < 5 then merged[existingIndex := form]
    else merged
  }

  function MergedForm(forms: seq<Form>): seq<Form>
    decreases |forms|
  {
    if forms == [] then [] else FormStep(MergedForm(forms[..|forms| - 1]), forms[|forms| - 1])
  }

  /** The first 20 characters of the lowercased description. */
  function DescriptionHead(t: TacticalChange): string {
    JsSubstring(ToLower(t.description), 0, 20)
  }

  /** Some kept description, lowercased, contains the head of `t`'s description. */
  predicate Similar(merged: seq<TacticalChange>, t: TacticalChange) {
    exists j :: 0 <= j < |merged| && Contains(ToLower(merged[j].description), DescriptionHead(t))
  }

  function MergedTactical(changes: seq<TacticalChange>): seq<TacticalChange>
    decreases |changes|
  {
    if changes == [] then []
    else
      var merged := MergedTactical(changes[..|changes| - 1]);
      var t := changes[|changes| - 1];
      if Similar(merged, t) then merged else merged + [t]
  }

  /** One more change: dropped when similar to a kept one, appended otherwise. */
  lemma MergedTacticalSnoc(changes: seq<TacticalChange>, t: TacticalChange)
    ensures MergedTactical(changes + [t]) ==
      if Similar(MergedTactical(changes), t) then MergedTactical(changes) else MergedTactical(changes) + [t]
  {
    assert (changes + [t])[..|changes|] == changes;
  }

  /** The merge in `extractFactsFromChunks`, as a function of the answers. */
  function Merged(all: seq<ExtractedFacts>): ExtractedFacts {
    ExtractedFacts(Dedup(Gather(all, InjuriesOf), InjuryKey, {}),
                   Dedup(Gather(all, SuspensionsOf), SuspensionKey, {}),
                   MergedForm(Gather(all, FormsOf)),
                   MergedTactical(Gather(all, TacticalOf)))
  }

  /** The push guarded by a `some` test on the lowercased player name. */
  method AddByKey<T>(ghost prev: seq<T>, merged: seq<T>, incoming: seq<T>, key: T -> string) returns (r: seq<T>)
    requires merged == Dedup(prev, key, {})
    ensures r == Dedup(prev + incoming, key, {})
  {
    r := merged;
    assert prev + incoming[..0] == prev;
    for i := 0 to |incoming|
      invariant r == Dedup(prev + incoming[..i], key, {})
    {
      var x := incoming[i];
      DedupSnoc(prev + incoming[..i], x, key, {});
      assert prev + incoming[..i + 1] == prev + incoming[..i] + [x];
      assert {} + Keys(r, key) == Keys(r, key);
      if !(exists j :: 0 <= j < |r| && key(r[j]) == key(x)) {
        assert key(x) !in Keys(r, key);
        r := r + [x];
      } else {
        var j :| 0 <= j < |r| && key(r[j]) == key(x);
        assert r[j] in r;
      }
    }
    assert incoming[..|incoming|] == incoming;
  }

  /** The form loop: find the team, append or replace. */
  method AddForms(ghost prev: seq<Form>, merged: seq<Form>, incoming: seq<Form>) returns (r: seq<Form>)
    requires merged == MergedForm(prev)
    ensures r == MergedForm(prev + incoming)
  {
    hide FormKey, FindTeam;
    r := merged;
    assert prev + incoming[..0] == prev;
    for i := 0 to |incoming|
      invariant r == MergedForm(prev + incoming[..i])
    {
      var form := incoming[i];
      assert (prev + incoming[..i + 1])[..|prev + incoming[..i + 1]| - 1] == prev + incoming[..i];
      var existingIndex := FindTeam(r, FormKey(form));
      if existingIndex == -1 {
        r := r + [form];
      } else if |form.last5| == 5 && |r[existingIndex].last5| < 5 {
        r := r[existingIndex := form];
      }
    }
    assert incoming[..|incoming|] == incoming;
  }

  /** The tactical loop: push unless a kept description contains the new one's head. */
  method AddTactical(ghost prev: seq<TacticalChange>, merged: seq<TacticalChange>, incoming: seq<TacticalChange>)
    returns (r: seq<TacticalChange>)
    requires merged == MergedTactical(prev)
    ensures r == MergedTactical(prev + incoming)
  {
    hide Contains, ToLower, DescriptionHead;
    r := merged;
    assert prev + incoming[..0] == prev;
    for i := 0 to |incoming|
      invariant r == MergedTactical(prev + incoming[..i])
    {
      var tactical := incoming[i];
      MergedTacticalSnoc(prev + incoming[..i], tactical);
      assert prev + incoming[..i + 1] == prev + incoming[..i] + [tactical];
      hide MergedTactical;
      if !(exists j :: 0 <= j < |r| && Contains(ToLower(r[j].description), DescriptionHead(tactical))) {
        r := r + [tactical];
      }
    }
    assert incoming[..|incoming|] == incoming;
  }

  /** The loop over the answers in `extractFactsFromChunks`. */
  method MergeFacts(allFacts: seq<ExtractedFacts>) returns (merged: ExtractedFacts)
    ensures merged == Merged(allFacts)
  {
    merged := NoFacts;
    for k := 0 to |allFacts|
      invariant merged == Merged(allFacts[..k])
    {
      var facts := allFacts[k];
      GatherNext(allFacts, k, InjuriesOf);
      GatherNext(allFacts, k, SuspensionsOf);
      GatherNext(allFacts, k, FormsOf);
      GatherNext(allFacts, k, TacticalOf);
      var injuries := AddByKey(Gather(allFacts[..k], InjuriesOf), merged.injuries, facts.injuries, InjuryKey);
      var suspensions := AddByKey(Gather(allFacts[..k], SuspensionsOf), merged.suspensions, facts.suspensions, SuspensionKey);
      var form := AddForms(Gather(allFacts[..k], FormsOf), merged.form, facts.form);
      var tactical := AddTactical(Gather(allFacts[..k], TacticalOf), merged.tactical, facts.tactical);
      merged := ExtractedFacts(injuries, suspensions, form, tactical);
    }
    assert allFacts[..|allFacts|] == allFacts;
  }

  /** `extractFactsFromChunks`: the answers for the first chunks, merged. */
  method ExtractFactsFromChunks(chunks: seq<Chunk>, maxChunks: Option<int>, answer: string -> Option<ExtractedFacts>)
    returns (merged: ExtractedFacts)
    ensures var window := ChunkWindow(chunks, maxChunks);
      merged == Merged(seq(|window|, k requires 0 <= k < |window| => ExtractFacts(window[k].content, None, answer)))
  {
    var chunksToProcess := ChunkWindow(chunks, maxChunks);
    var allFacts := seq(|chunksToProcess|, k requires 0 <= k < |chunksToProcess| =>
                          ExtractFacts(chunksToProcess[k].content, None, answer));
    merged := MergeFacts(allFacts);
  }

  // ---------------------------------------------------------------------------
  // Properties of the merge

  /** Injuries and suspensions: one entry per lowercased player name, the first one seen,
      and every player of the answers is represented. */
  lemma MergedPlayers(all: seq<ExtractedFacts>)
    ensures FirstPerKey(Gather(all, InjuriesOf), Merged(all).injuries, InjuryKey)
    ensures FirstPerKey(Gather(all, SuspensionsOf), Merged(all).suspensions, SuspensionKey)
  {
    DedupByKey(Gather(all, InjuriesOf), InjuryKey);
    DedupByKey(Gather(all, SuspensionsOf), SuspensionKey);
  }

  /** `r` has one element per key of `xs`, the first one of `xs` with that key. */
  predicate FirstPerKey<T(==)>(xs: seq<T>, r: seq<T>, key: T -> string) {
    (forall i, j :: 0 <= i < j < |r| ==> key(r[i]) != key(r[j])) &&
    (forall x :: x in xs ==> exists y :: y in r && key(y) == key(x)) &&
    (forall k :: 0 <= k < |r| ==> exists i :: 0 <= i < |xs| && xs[i] == r[k] &&
                                    forall j :: 0 <= j < i ==> key(xs[j]) != key(r[k]))
  }

  lemma DedupByKey<T>(xs: seq<T>, key: T -> string)
    ensures FirstPerKey(xs, Dedup(xs, key, {}), key)
  {
    var r := Dedup(xs, key, {});
    DedupDistinct(xs, key, {});
    DedupComplete(xs, key, {});
    forall k | 0 <= k < |r|
      ensures exists i :: 0 <= i < |xs| && xs[i] == r[k] && forall j :: 0 <= j < i ==> key(xs[j]) != key(r[k])
    {
      DedupFirst(xs, key, {}, k);
    }
  }

  predicate DistinctTeams(forms: seq<Form>) {
    forall i, j :: 0 <= i < j < |forms| ==> FormKey(forms[i]) != FormKey(forms[j])
  }

  /** What the merged form list keeps after one entry of the answers. */
  predicate FormInvariant(merged: seq<Form>, seen: seq<Form>) {
    DistinctTeams(merged) &&
    (forall m :: m in merged ==> m in seen) &&
    (forall f :: f in seen ==> exists j :: 0 <= j < |merged| && FormKey(merged[j]) == FormKey(f)) &&
    (forall f :: f in seen && |f.last5| == 5 ==>
       exists j :: 0 <= j < |merged| && FormKey(merged[j]) == FormKey(f) && |merged[j].last5| >= 5)
  }

  lemma FormStepKeeps(merged: seq<Form>, seen: seq<Form>, form: Form)
    requires FormInvariant(merged, seen)
    ensures FormInvariant(FormStep(merged, form), seen + [form])
  {
    var idx := FindTeam(merged, FormKey(form));
    if idx == -1 {
      FormAppendKeeps(merged, seen, form);
    } else if |form.last5| == 5 && |merged[idx].last5| < 5 {
      FormReplaceKeeps(merged, seen, form, idx);
    } else {
      FormIgnoreKeeps(merged, seen, form, idx);
    }
  }

  lemma FormAppendKeeps(merged: seq<Form>, seen: seq<Form>, form: Form)
    requires FormInvariant(merged, seen)
    requires forall j :: 0 <= j < |merged| ==> FormKey(merged[j]) != FormKey(form)
    ensures FormInvariant(merged + [form], seen + [form])
  {
    var r := merged + [form];
    var seen' := seen + [form];
    forall f | f in seen' ensures exists j :: 0 <= j < |r| && FormKey(r[j]) == FormKey(f) {
      if f in seen {
        var j :| 0 <= j < |merged| && FormKey(merged[j]) == FormKey(f);
        assert r[j] == merged[j];
      } else {
        assert r[|merged|] == form;
      }
    }
    forall f | f in seen' && |f.last5| == 5
      ensures exists j :: 0 <= j < |r| && FormKey(r[j]) == FormKey(f) && |r[j].last5| >= 5
    {
      if f in seen {
        var j :| 0 <= j < |merged| && FormKey(merged[j]) == FormKey(f) && |merged[j].last5| >= 5;
        assert r[j] == merged[j];
      } else {
        assert r[|merged|] == form;
      }
    }
  }

  lemma FormReplaceKeeps(merged: seq<Form>, seen: seq<Form>, form: Form, idx: nat)
    requires FormInvariant(merged, seen)
    requires idx < |merged| && FormKey(merged[idx]) == FormKey(form)
    requires |form.last5| == 5 && |merged[idx].last5| < 5
    ensures FormInvariant(merged[idx := form], seen + [form])
  {
    hide FormKey;
    var r := merged[idx := form];
    var seen' := seen + [form];
    assert forall j :: 0 <= j < |r| ==> FormKey(r[j]) == FormKey(merged[j]);
    ReplaceCovers(merged, seen, form, idx);
    forall m | m in r ensures m in seen' {
      var j :| 0 <= j < |r| && r[j] == m;
      if j != idx {
        assert merged[j] in merged;
      }
    }
    assert DistinctTeams(r);
  }

  lemma ReplaceCovers(merged: seq<Form>, seen: seq<Form>, form: Form, idx: nat)
    requires FormInvariant(merged, seen)
    requires idx < |merged| && FormKey(merged[idx]) == FormKey(form)
    requires |form.last5| == 5 && |merged[idx].last5| < 5
    ensures var r := merged[idx := form];
      (forall f :: f in seen + [form] ==> exists j :: 0 <= j < |r| && FormKey(r[j]) == FormKey(f)) &&
      (forall f :: f in seen + [form] && |f.last5| == 5 ==>
         exists j :: 0 <= j < |r| && FormKey(r[j]) == FormKey(f) && |r[j].last5| >= 5)
  {
    var r := merged[idx := form];
    forall f | f in seen + [form] ensures exists j :: 0 <= j < |r| && FormKey(r[j]) == FormKey(f) {
      if f in seen {
        var j :| 0 <= j < |merged| && FormKey(merged[j]) == FormKey(f);
        assert FormKey(r[j]) == FormKey(merged[j]);
      } else {
        assert FormKey(r[idx]) == FormKey(form);
      }
    }
    forall f | f in seen + [form] && |f.last5| == 5
      ensures exists j :: 0 <= j < |r| && FormKey(r[j]) == FormKey(f) && |r[j].last5| >= 5
    {
      if f in seen {
        var j :| 0 <= j < |merged| && FormKey(merged[j]) == FormKey(f) && |merged[j].last5| >= 5;
        assert j != idx;
        assert r[j] == merged[j];
      } else {
        assert r[idx] == form;
      }
    }
  }

  lemma FormIgnoreKeeps(merged: seq<Form>, seen: seq<Form>, form: Form, idx: nat)
    requires FormInvariant(merged, seen)
    requires idx < |merged| && FormKey(merged[idx]) == FormKey(form)
    requires !(|form.last5| == 5 && |merged[idx].last5| < 5)
    ensures FormInvariant(merged, seen + [form])
  {
    var seen' := seen + [form];
    forall f | f in seen' && |f.last5| == 5
      ensures exists j :: 0 <= j < |merged| && FormKey(merged[j]) == FormKey(f) && |merged[j].last5| >= 5
    {
      if !(f in seen) {
        assert f == form;
        assert FormKey(merged[idx]) == FormKey(f) && |merged[idx].last5| >= 5;
      }
    }
    forall f | f in seen' ensures exists j :: 0 <= j < |merged| && FormKey(merged[j]) == FormKey(f) {
      if !(f in seen) {
        assert FormKey(merged[idx]) == FormKey(f);
      }
    }
    forall m | m in merged ensures m in seen' {
    }
  }

  /** The merged form list has one entry per lowercased team of the answers, each of them
      one of the answers' entries, and a team with a five-result entry in some answer keeps
      an entry with at least five results: an entry is only replaced by one with exactly
      five results, and only when it has fewer. */
  lemma {:induction false} MergedFormProperties(forms: seq<Form>)
    ensures FormInvariant(MergedForm(forms), forms)
    ensures forall key :: Lookup(MergedForm(forms), key) == KeptForm(forms, key)
    decreases |forms|
  {
    forall key {
      MergedFormKeeps(forms, key);
    }
    if forms != [] {
      var init := forms[..|forms| - 1];
      var last := forms[|forms| - 1];
      MergedFormProperties(init);
      var m := MergedForm(init);
      FormStepKeeps(m, init, last);
      ButLast(forms);
      assert MergedForm(forms) == FormStep(m, last);
    }
  }

  /** An entry of the team `key`, with exactly five results when `five` is set. */
  predicate TeamEntry(f: Form, key: string, five: bool) {
    FormKey(f) == key && (five ==> |f.last5| == 5)
  }

  /** The first entry of the answers that is a `TeamEntry`, if there is one. */
  function FirstEntry(forms: seq<Form>, key: string, five: bool): (r: Option<Form>)
    ensures r.None? <==> forall j :: 0 <= j < |forms| ==> !TeamEntry(forms[j], key, five)
    ensures r.Some? ==> exists i :: 0 <= i < |forms| && forms[i] == r.value && TeamEntry(forms[i], key, five) &&
                          forall j :: 0 <= j < i ==> !TeamEntry(forms[j], key, five)
    decreases |forms|
  {
    if forms == [] then None
    else
      var init := forms[..|forms| - 1];
      assert forall j :: 0 <= j < |init| ==> init[j] == forms[j];
      var r := FirstEntry(init, key, five);
      if r.Some? then r
      else if TeamEntry(forms[|forms| - 1], key, five) then Some(forms[|forms| - 1])
      else None
  }

  /** The entry the merge should keep for the team `key`: its first entry, unless that one
      has fewer than five results and a later entry has exactly five, in which case the
      first such later entry; nothing when no answer names the team. */
  function KeptForm(forms: seq<Form>, key: string): Option<Form> {
    match FirstEntry(forms, key, false)
    case None => None
    case Some(first) =>
      if |first.last5| < 5 && FirstEntry(forms, key, true).Some? then FirstEntry(forms, key, true) else Some(first)
  }

  /** The merged entry of the team `key`, found as the merge finds it. */
  function Lookup(merged: seq<Form>, key: string): Option<Form> {
    var i := FindTeam(merged, key);
    if i == -1 then None else Some(merged[i])
  }

  /** What one merge step does to the entry of any team: a new team gains the entry, a kept
      entry with fewer than five results gives way to one with exactly five, and every other
      team keeps its entry. */
  lemma FormStepLookup(merged: seq<Form>, form: Form, key: string)
    ensures var before := Lookup(merged, key);
      Lookup(FormStep(merged, form), key) ==
        if FormKey(form) != key then before
        else if before.None? then Some(form)
        else if |form.last5| == 5 && |before.value.last5| < 5 then Some(form)
        else before
  {
    hide FormKey;
    var idx := FindTeam(merged, FormKey(form));
    var i := FindTeam(merged, key);
    var r := FormStep(merged, form);
    assert idx == -1 ==> r == merged + [form];
    assert idx != -1 && |form.last5| == 5 && |merged[idx].last5| < 5 ==> r == merged[idx := form];
    assert idx != -1 && !(|form.last5| == 5 && |merged[idx].last5| < 5) ==> r == merged;
    hide FormStep, FindTeam;
    if idx == -1 {
      assert forall j :: 0 <= j < |merged| ==> r[j] == merged[j];
      if i >= 0 {
        FindTeamIs(r, key, i);
      } else if FormKey(form) == key {
        FindTeamIs(r, key, |merged|);
      } else {
        FindTeamIs(r, key, -1);
      }
    } else if |form.last5| == 5 && |merged[idx].last5| < 5 {
      assert forall j :: 0 <= j < |r| ==> FormKey(r[j]) == FormKey(merged[j]);
      FindTeamIs(r, key, i);
      if i >= 0 && i != idx {
        assert r[i] == merged[i];
      }
    }
  }

  /** `findIndex` finds the first entry of the team, so any index that is the first one is
      its result. */
  lemma FindTeamIs(forms: seq<Form>, key: string, i: int)
    requires i == -1 ==> forall j :: 0 <= j < |forms| ==> FormKey(forms[j]) != key
    requires i != -1 ==> 0 <= i < |forms| && FormKey(forms[i]) == key && forall j :: 0 <= j < i ==> FormKey(forms[j]) != key
    ensures FindTeam(forms, key) == i
  {
    hide FindTeam;
  }

  /** The first matching entry of a longer list: the earlier one, or else the new entry. */
  lemma FirstEntrySnoc(init: seq<Form>, form: Form, key: string, five: bool)
    ensures FirstEntry(init + [form], key, five) ==
      if FirstEntry(init, key, five).Some? then FirstEntry(init, key, five)
      else if TeamEntry(form, key, five) then Some(form) else None
  {
    assert (init + [form])[..|init|] == init;
  }

  /** For every lowercased team, the merged list holds exactly the entry `KeptForm` names:
      the team's first entry, replaced only by its first entry with exactly five results
      when the first has fewer; and no entry for a team no answer names. */
  lemma {:induction false} MergedFormKeeps(forms: seq<Form>, key: string)
    ensures Lookup(MergedForm(forms), key) == KeptForm(forms, key)
    decreases |forms|
  {
    if forms != [] {
      var init := forms[..|forms| - 1];
      var form := forms[|forms| - 1];
      MergedFormKeeps(init, key);
      ButLast(forms);
      var m := MergedForm(init);
      assert MergedForm(forms) == FormStep(m, form);
      FormStepLookup(m, form, key);
      FirstEntrySnoc(init, form, key, false);
      FirstEntrySnoc(init, form, key, true);
      hide FormStep, MergedForm, Lookup, FirstEntry;
      var first := FirstEntry(init, key, false);
      var five := FirstEntry(init, key, true);
      if first.Some? && five.Some? {
        assert TeamEntry(five.value, key, true);
      }
    }
  }

  /** A description contains its own head, so a list that keeps `t` covers it. */
  lemma ContainsOwnHead(t: TacticalChange)
    ensures Contains(ToLower(t.description), DescriptionHead(t))
  {
    var s := ToLower(t.description);
    var n := Clamp(20, |s|);
    assert DescriptionHead(t) == s[..n];
    assert StartsWith(s, s[..n]);
  }

  /** The merged tactical changes come from the answers, no kept description contains the
      head of a later kept one, and every change of the answers is kept or covered by a
      kept description. */
  lemma {:induction false} MergedTacticalProperties(changes: seq<TacticalChange>)
    ensures var r := MergedTactical(changes);
      (forall m :: m in r ==> m in changes) &&
      (forall i, j :: 0 <= i < j < |r| ==> !Contains(ToLower(r[i].description), DescriptionHead(r[j]))) &&
      (forall t :: t in changes ==> Similar(r, t))
    decreases |changes|
  {
    if changes != [] {
      var init := changes[..|changes| - 1];
      var t := changes[|changes| - 1];
      var merged := MergedTactical(init);
      MergedTacticalProperties(init);
      assert changes == init + [t];
      if !Similar(merged, t) {
        var r := merged + [t];
        ContainsOwnHead(t);
        assert Contains(ToLower(r[|merged|].description), DescriptionHead(t));
        forall u | u in changes ensures Similar(r, u) {
          if u in init {
            var j :| 0 <= j < |merged| && Contains(ToLower(merged[j].description), DescriptionHead(u));
            assert r[j] == merged[j];
          }
        }
      }
    }
  }

  // ---------------------------------------------------------------------------
  // calculateFactConfidence

  /** The fields the score looks at: a description, an expected return date, a number of
      matches. A fact of a kind without the field has it absent. */
  datatype ScoredFields = ScoredFields(description: Option<string>, expectedReturn: Option<string>, matches: Option<int>)

  function InjuryFields(i: Injury): ScoredFields { ScoredFields(i.description, i.expectedReturn, None) }
  function SuspensionFields(s: Suspension): ScoredFields { ScoredFields(s.description, None, s.matches) }
  function FormFields(f: Form): ScoredFields { ScoredFields(None, None, None) }
  function TacticalFields(t: TacticalChange): ScoredFields { ScoredFields(Some(t.description), None, None) }

  predicate Detailed(f: ScoredFields) {
    f.description.Some? && |f.description.value| > 20
  }

  /** `fact.expected_return || fact.matches` is truthy. */
  predicate Specific(f: ScoredFields) {
    Truthy(f.expectedReturn) || (f.matches.Some? && f.matches.value != 0)
  }

  function MinReal(a: real, b: real): real { if a < b then a else b }

  function FactConfidence(f: ScoredFields, sourceCount: real): (c: real)
    ensures c <= 1.0
    ensures sourceCount >= 0.0 ==> 0.5 <= c
  {
    var detail := if Detailed(f) then 0.1 else 0.0;
    var specific := if Specific(f) then 0.1 else 0.0;
    MinReal(0.5 + detail + specific + MinReal(sourceCount * 0.1, 0.3), 1.0)
  }

  /** With one source the score is 0.6, 0.7 or 0.8: 0.6 plus 0.1 for a description longer
      than 20 characters and 0.1 for a date or a number of matches. */
  lemma SingleSourceConfidence(f: ScoredFields)
    ensures var c := FactConfidence(f, 1.0);
      (c == 0.6 || c == 0.7 || c == 0.8) &&
      (c == 0.6 <==> !Detailed(f) && !Specific(f)) &&
      (c == 0.8 <==> Detailed(f) && Specific(f))
  {
  }

  /** More sources never lower the score, and three or more count as three. */
  lemma ConfidenceBySources(f: ScoredFields, a: real, b: real)
    requires a <= b
    ensures FactConfidence(f, a) <= FactConfidence(f, b)
    ensures a >= 3.0 ==> FactConfidence(f, a) == FactConfidence(f, 3.0)
  {
  }

  /** Form entries carry none of the scored fields, and tactical changes no date or number. */
  lemma ConfidenceByKind(form: Form, t: TacticalChange)
    ensures FactConfidence(FormFields(form), 1.0) == 0.6
    ensures FactConfidence(TacticalFields(t), 1.0) == (if |t.description| > 20 then 0.7 else 0.6)
  {
  }

  // ---------------------------------------------------------------------------
  // convertFactsToDbFormat

  datatype DbFact = DbFact(eventId: string, sourceId: string, factType: string, entity: string,
                           description: string, confidence: real)

  function InjuryDescription(i: Injury): string {
    i.player + " (" + OrElse(i.position, "unknown position") + ") - " + SeverityName(i.severity) + " injury" +
    (if Truthy(i.expectedReturn) then ", expected return: " + i.expectedReturn.value else "") +
    ". " + OrElse(i.description, "")
  }

  function SuspensionDescription(s: Suspension): string {
    s.player + " suspended: " + s.reason +
    (if s.matches.Some? && s.matches.value != 0
     then " (" + IntToString(s.matches.value) + " match" + (if s.matches.value > 1 then "es" else "") + ")"
     else "") +
    ". " + OrElse(s.description, "")
  }

  /** `last_5.join('-')`. */
  function FormLetters(results: seq<FormResult>): string {
    Join(seq(|results|, j requires 0 <= j < |results| => ResultName(results[j])), "-")
  }

  const FormLabel := " recent form (last 5): "

  function FormDescription(f: Form): string {
    f.team + FormLabel + FormLetters(f.last5) + ". " + f.summary
  }

  function TacticalDescription(t: TacticalChange): string {
    TypeName(t.kind) + ": " + t.description + (if Truthy(t.impact) then ". Impact: " + t.impact.value else "")
  }

  function InjuryRow(i: Injury, eventId: string, sourceId: string): DbFact {
    DbFact(eventId, sourceId, "injury", i.player, InjuryDescription(i), FactConfidence(InjuryFields(i), 1.0))
  }

  function SuspensionRow(s: Suspension, eventId: string, sourceId: string): DbFact {
    DbFact(eventId, sourceId, "suspension", s.player, SuspensionDescription(s), FactConfidence(SuspensionFields(s), 1.0))
  }

  function FormRow(f: Form, eventId: string, sourceId: string): DbFact {
    DbFact(eventId, sourceId, "form", f.team, FormDescription(f), FactConfidence(FormFields(f), 1.0))
  }

  function TacticalRow(t: TacticalChange, eventId: string, sourceId: string): DbFact {
    DbFact(eventId, sourceId, "coach_change", "Team", TacticalDescription(t), FactConfidence(TacticalFields(t), 1.0))
  }

  function InjuryRows(xs: seq<Injury>, eventId: string, sourceId: string): (r: seq<DbFact>)
    ensures |r| == |xs| && forall k :: 0 <= k < |xs| ==> r[k] == InjuryRow(xs[k], eventId, sourceId)
  {
    seq(|xs|, k requires 0 <= k < |xs| => InjuryRow(xs[k], eventId, sourceId))
  }

  function SuspensionRows(xs: seq<Suspension>, eventId: string, sourceId: string): (r: seq<DbFact>)
    ensures |r| == |xs| && forall k :: 0 <= k < |xs| ==> r[k] == SuspensionRow(xs[k], eventId, sourceId)
  {
    seq(|xs|, k requires 0 <= k < |xs| => SuspensionRow(xs[k], eventId, sourceId))
  }

  function FormRows(xs: seq<Form>, eventId: string, sourceId: string): (r: seq<DbFact>)
    ensures |r| == |xs| && forall k :: 0 <= k < |xs| ==> r[k] == FormRow(xs[k], eventId, sourceId)
  {
    seq(|xs|, k requires 0 <= k < |xs| => FormRow(xs[k], eventId, sourceId))
  }

  function TacticalRows(xs: seq<TacticalChange>, eventId: string, sourceId: string): (r: seq<DbFact>)
    ensures |r| == |xs| && forall k :: 0 <= k < |xs| ==> r[k] == TacticalRow(xs[k], eventId, sourceId)
  {
    seq(|xs|, k requires 0 <= k < |xs| => TacticalRow(xs[k], eventId, sourceId))
  }

  /** `convertFactsToDbFormat`: one row per fact, injuries first, then suspensions, form
      and tactical changes. */
  function DbFacts(facts: ExtractedFacts, eventId: string, sourceId: string): seq<DbFact> {
    InjuryRows(facts.injuries, eventId, sourceId) + SuspensionRows(facts.suspensions, eventId, sourceId) +
    FormRows(facts.form, eventId, sourceId) + TacticalRows(facts.tactical, eventId, sourceId)
  }

  method ConvertFactsToDbFormat(facts: ExtractedFacts, eventId: string, sourceId: string) returns (dbFacts: seq<DbFact>)
    ensures dbFacts == DbFacts(facts, eventId, sourceId)
  {
    hide InjuryRow, SuspensionRow, FormRow, TacticalRow, InjuryRows, SuspensionRows, FormRows, TacticalRows;
    dbFacts := [];
    for i := 0 to |facts.injuries|
      invariant dbFacts == InjuryRows(facts.injuries[..i], eventId, sourceId)
    {
      dbFacts := dbFacts + [InjuryRow(facts.injuries[i], eventId, sourceId)];
    }
    assert facts.injuries[..|facts.injuries|] == facts.injuries;
    ghost var before := dbFacts;
    for i := 0 to |facts.suspensions|
      invariant dbFacts == before + SuspensionRows(facts.suspensions[..i], eventId, sourceId)
    {
      dbFacts := dbFacts + [SuspensionRow(facts.suspensions[i], eventId, sourceId)];
    }
    assert facts.suspensions[..|facts.suspensions|] == facts.suspensions;
    before := dbFacts;
    for i := 0 to |facts.form|
      invariant dbFacts == before + FormRows(facts.form[..i], eventId, sourceId)
    {
      dbFacts := dbFacts + [FormRow(facts.form[i], eventId, sourceId)];
    }
    assert facts.form[..|facts.form|] == facts.form;
    before := dbFacts;
    for i := 0 to |facts.tactical|
      invariant dbFacts == before + TacticalRows(facts.tactical[..i], eventId, sourceId)
    {
      dbFacts := dbFacts + [TacticalRow(facts.tactical[i], eventId, sourceId)];
    }
    assert facts.tactical[..|facts.tactical|] == facts.tactical;
  }

  /** The rows: as many as facts, grouped by kind in the order injuries, suspensions, form,
      tactical; every tactical change is stored as a coach change of the entity `Team`, a
      form row quotes its results joined with `-`, and each confidence is 0.6, 0.7 or 0.8. */
  lemma DbFactsShape(facts: ExtractedFacts, eventId: string, sourceId: string)
    ensures var r := DbFacts(facts, eventId, sourceId);
      var a := |facts.injuries|;
      var b := a + |facts.suspensions|;
      var c := b + |facts.form|;
      |r| == c + |facts.tactical| &&
      (forall k :: 0 <= k < |r| ==> r[k].eventId == eventId && r[k].sourceId == sourceId) &&
      (forall k :: 0 <= k < |r| ==> r[k].confidence == 0.6 || r[k].confidence == 0.7 || r[k].confidence == 0.8) &&
      (forall k :: 0 <= k < a ==> r[k].factType == "injury" && r[k].entity == facts.injuries[k].player) &&
      (forall k :: a <= k < b ==> r[k].factType == "suspension" && r[k].entity == facts.suspensions[k - a].player) &&
      (forall k :: b <= k < c ==> r[k].factType == "form" && r[k].entity == facts.form[k - b].team &&
                                  Contains(r[k].description, FormLetters(facts.form[k - b].last5))) &&
      (forall k :: c <= k < |r| ==> r[k].factType == "coach_change" && r[k].entity == "Team")
  {
    hide FactConfidence, InjuryDescription, SuspensionDescription, TacticalDescription, Contains, FormLetters,
      FormDescription;
    var r := DbFacts(facts, eventId, sourceId);
    var a := |facts.injuries|;
    var b := a + |facts.suspensions|;
    var c := b + |facts.form|;
    forall k | 0 <= k < |r| ensures r[k].confidence == 0.6 || r[k].confidence == 0.7 || r[k].confidence == 0.8 {
      if k < a {
        SingleSourceConfidence(InjuryFields(facts.injuries[k]));
      } else if k < b {
        SingleSourceConfidence(SuspensionFields(facts.suspensions[k - a]));
      } else if k < c {
        SingleSourceConfidence(FormFields(facts.form[k - b]));
      } else {
        SingleSourceConfidence(TacticalFields(facts.tactical[k - c]));
      }
    }
    var pre := InjuryRows(facts.injuries, eventId, sourceId) + SuspensionRows(facts.suspensions, eventId, sourceId);
    var forms := FormRows(facts.form, eventId, sourceId);
    forall k | b <= k < c ensures Contains(r[k].description, FormLetters(facts.form[k - b].last5)) {
      assert r[k] == (pre + forms)[k] == forms[k - b];
      FormRowQuotes(facts.form[k - b], eventId, sourceId);
    }
  }

  lemma FormRowQuotes(f: Form, eventId: string, sourceId: string)
    ensures Contains(FormRow(f, eventId, sourceId).description, FormLetters(f.last5))
  {
    hide FactConfidence, Contains, FormLetters;
    ContainsInfix(f.team + FormLabel, FormLetters(f.last5), ". " + f.summary);
    assert FormDescription(f) == (f.team + FormLabel) + FormLetters(f.last5) + (". " + f.summary);
  }


  /** Five results joined with `-`. */
  lemma FiveResults(results: seq<FormResult>)
    requires |results| == 5
    ensures var c := seq(5, j requires 0 <= j < 5 => ResultName(results[j])[0]);
      FormLetters(results) == [c[0], '-', c[1], '-', c[2], '-', c[3], '-', c[4]]
  {
    var names := seq(|results|, j requires 0 <= j < |results| => ResultName(results[j]));
    assert forall j :: 0 <= j < 5 ==> names[j] == [names[j][0]];
    assert names[1..][0] == names[1] && names[1..][1..] == names[2..];
    assert names[2..][0] == names[2] && names[2..][1..] == names[3..];
    assert names[3..][0] == names[3] && names[3..][1..] == names[4..];
    assert Join(names[4..], "-") == names[4];
    assert Join(names[3..], "-") == names[3] + "-" + names[4];
    assert Join(names[2..], "-") == names[2] + "-" + names[3] + "-" + names[4];
    assert Join(names[1..], "-") == names[1] + "-" + names[2] + "-" + names[3] + "-" + names[4];
  }

  /** A stored form row is read back by the predictor: for a team name without `-` and
      five results, the form pattern of the prediction step finds exactly the stored
      results in the row's description. */
  lemma StoredFormReadBack(f: Form, eventId: string, sourceId: string)
    requires |f.last5| == 5 && '-' !in f.team
    ensures Predictor.FormRun(FormRow(f, eventId, sourceId).description) ==
            Some(seq(5, j requires 0 <= j < 5 => ResultName(f.last5[j])[0]))
  {
    var c := seq(5, j requires 0 <= j < 5 => ResultName(f.last5[j])[0]);
    FiveResults(f.last5);
    var head := f.team + FormLabel;
    assert FormRow(f, eventId, sourceId).description == head + (FormLetters(f.last5) + (". " + f.summary));
    assert '-' !in FormLabel && head[|head| - 1] == ' ';
    forall k | 0 <= k < 5 ensures Predictor.IsFormLetter(c[k]) {
      assert c[k] == ResultName(f.last5[k])[0];
    }
    RunAfterHead(head, c, ". " + f.summary);
  }

  /** A text made of a head without `-` that does not end in a form letter, then five
      letters joined with `-`, then anything: the first form run is those five letters. */
  lemma RunAfterHead(head: string, c: seq<char>, tail: string)
    requires |c| == 5 && forall k :: 0 <= k < 5 ==> Predictor.IsFormLetter(c[k])
    requires '-' !in head && (head == [] || !Predictor.IsFormLetter(head[|head| - 1]))
    ensures Predictor.FormRun(head + ([c[0], '-', c[1], '-', c[2], '-', c[3], '-', c[4]] + tail)) == Some(c)
  {
    var run := [c[0], '-', c[1], '-', c[2], '-', c[3], '-', c[4]];
    var desc := head + (run + tail);
    var p := |head|;
    assert forall k :: 0 <= k < 9 ==> desc[p + k] == run[k];
    assert Predictor.RunAt(desc, p);
    forall j | 0 <= j < p ensures !Predictor.RunAt(desc, j) {
      if j + 1 < p {
        assert desc[j + 1] == head[j + 1];
      } else {
        assert desc[j] == head[p - 1];
      }
    }
    Predictor.FindRunFromFirst(desc, 0, p);
    assert Predictor.RunLetters(desc, p) == c;
  }

}
