/** Agent integration settings after JSON decoding: the indexed merge of profile
    overrides, the overrides of the selected profile, and profile lookup. */
module AgentProfiles {
  import opened Text

  const DEFAULT_SELECTED_PROFILE := "codex"

  datatype Profile = Profile(
    id: string, labelText: string, provider: string, transport: string, model: string,
    endpointRef: string, credentialRef: string, credentialScope: string, enabled: bool)

  /** A profile as decoded: `enabled` may be absent. */
  datatype RawProfile = RawProfile(
    id: string, labelText: string, provider: string, transport: string, model: string,
    endpointRef: string, credentialRef: string, credentialScope: string, enabled: Option<bool>)

  /** The decoded fields that concern profiles. */
  datatype RawSettings = RawSettings(
    selectedProfileId: string, transport: string, model: string, endpointRef: string,
    credentialRef: string, credentialScope: string, enabled: Option<bool>, profiles: seq<RawProfile>)

  datatype Settings = Settings(selectedProfileId: string, profiles: seq<Profile>)

  function NormalId(id: string): string { Lower(Trim(id)) }

  lemma NormalIdTwice(id: string)
    ensures NormalId(NormalId(id)) == NormalId(id)
  {
    LowerIdempotent(Trim(id));
  }

  function NormalScope(scope: string): string {
    var s := Lower(Trim(scope));
    if s == "tenant" || s == "workspace" then s else "project"
  }

  function Normalize(p: Profile): Profile {
    Profile(NormalId(p.id), if Trim(p.labelText) == "" then NormalId(p.id) else Trim(p.labelText),
            Trim(p.provider), Trim(p.transport), Trim(p.model), Trim(p.endpointRef), Trim(p.credentialRef),
            NormalScope(p.credentialScope), p.enabled)
  }

  /** The override as a profile of its own; absent fields take the defaults. */
  function Override(raw: RawProfile): Profile {
    Normalize(Profile(NormalId(raw.id), raw.labelText, raw.provider, raw.transport, raw.model,
                      raw.endpointRef, raw.credentialRef, raw.credentialScope,
                      raw.enabled.None? || raw.enabled.value))
  }

  function Pick(override: string, base: string): string { if Trim(override) == "" then base else Trim(override) }

  function Overlay(base: Profile, next: Profile, enabled: Option<bool>): Profile {
    var out := Normalize(base);
    Profile(out.id, Pick(next.labelText, out.labelText), Pick(next.provider, out.provider),
            Pick(next.transport, out.transport), Pick(next.model, out.model),
            Pick(next.endpointRef, out.endpointRef), Pick(next.credentialRef, out.credentialRef),
            if Trim(next.credentialScope) == "" then out.credentialScope else Lower(Trim(next.credentialScope)),
            if enabled.Some? then enabled.value else out.enabled)
  }

  // ---------- lists of profiles ----------

  predicate DistinctIds(profiles: seq<Profile>) {
    forall i, j :: 0 <= i < j < |profiles| ==> profiles[i].id != profiles[j].id
  }

  function Ids(profiles: seq<Profile>): seq<string> {
    if profiles == [] then [] else Ids(profiles[..|profiles| - 1]) + [profiles[|profiles| - 1].id]
  }

  /** Where the last profile with the ID is. */
  function Position(profiles: seq<Profile>, id: string): (r: Option<nat>)
    ensures r.Some? ==> r.value < |profiles| && profiles[r.value].id == id
    ensures r.None? ==> forall i :: 0 <= i < |profiles| ==> profiles[i].id != id
  {
    if profiles == [] then None
    else if profiles[|profiles| - 1].id == id then Some(|profiles| - 1)
    else Position(profiles[..|profiles| - 1], id)
  }

  function Find(profiles: seq<Profile>, id: string): Option<Profile> {
    var at := Position(profiles, id);
    if at.Some? then Some(profiles[at.value]) else None
  }

  lemma PositionIs(profiles: seq<Profile>, k: nat)
    requires DistinctIds(profiles) && k < |profiles|
    ensures Position(profiles, profiles[k].id) == Some(k)
  {
  }

  lemma {:induction false} IdsAppend(profiles: seq<Profile>, p: Profile)
    ensures Ids(profiles + [p]) == Ids(profiles) + [p.id]
  {
    assert (profiles + [p])[..|profiles|] == profiles;
  }

  lemma {:induction false} IdsHas(profiles: seq<Profile>, id: string)
    ensures id in Ids(profiles) <==> Position(profiles, id).Some?
  {
    if profiles != [] { IdsHas(profiles[..|profiles| - 1], id); }
  }

  lemma {:induction false} IdsReplace(profiles: seq<Profile>, k: nat, p: Profile)
    requires k < |profiles| && p.id == profiles[k].id
    ensures Ids(profiles[k := p]) == Ids(profiles)
    decreases |profiles|
  {
    var last := |profiles| - 1;
    if k < last {
      assert profiles[k := p][..last] == profiles[..last][k := p];
      IdsReplace(profiles[..last], k, p);
    } else {
      assert profiles[k := p][..last] == profiles[..last];
    }
  }

  // ---------- the merge as a function ----------

  function StepId(current: Option<Profile>, raw: RawProfile): Profile {
    if current.None? then Override(raw) else Overlay(current.value, Override(raw), raw.enabled)
  }

  /** What the overrides say about one ID, in order. */
  function FoldId(current: Option<Profile>, overrides: seq<RawProfile>, id: string): Option<Profile> {
    if overrides == [] then current
    else
      var before := FoldId(current, overrides[..|overrides| - 1], id);
      var raw := overrides[|overrides| - 1];
      if NormalId(raw.id) == "" || NormalId(raw.id) != id then before else Some(StepId(before, raw))
  }

  /** One override in the list: its slot is overwritten, or it is appended. */
  function MergeOne(profiles: seq<Profile>, raw: RawProfile): seq<Profile> {
    var id := NormalId(raw.id);
    var at := Position(profiles, id);
    if id == "" then profiles
    else if at.Some? then profiles[at.value := StepId(Some(profiles[at.value]), raw)]
    else profiles + [Override(raw)]
  }

  function Merge(profiles: seq<Profile>, overrides: seq<RawProfile>): seq<Profile> {
    if overrides == [] then profiles
    else MergeOne(Merge(profiles, overrides[..|overrides| - 1]), overrides[|overrides| - 1])
  }

  /** IDs of the overrides that are new to the list, at their first appearance. */
  function NewIds(known: seq<string>, overrides: seq<RawProfile>): seq<string> {
    if overrides == [] then []
    else
      var before := NewIds(known, overrides[..|overrides| - 1]);
      var id := NormalId(overrides[|overrides| - 1].id);
      if id == "" || id in known || id in before then before else before + [id]
  }

  /** All IDs are normal and none is blank. */
  predicate NormalIds(profiles: seq<Profile>) {
    forall i :: 0 <= i < |profiles| ==> profiles[i].id != "" && NormalId(profiles[i].id) == profiles[i].id
  }

  lemma ReplaceKeepsIds(profiles: seq<Profile>, k: nat, p: Profile)
    requires DistinctIds(profiles) && NormalIds(profiles) && k < |profiles| && p.id == profiles[k].id
    ensures var next := profiles[k := p]; DistinctIds(next) && NormalIds(next) && Ids(next) == Ids(profiles)
  {
    IdsReplace(profiles, k, p);
  }

  lemma AppendAddsId(profiles: seq<Profile>, p: Profile)
    requires DistinctIds(profiles) && NormalIds(profiles) && Position(profiles, p.id).None?
    requires p.id != "" && NormalId(p.id) == p.id
    ensures var next := profiles + [p]; DistinctIds(next) && NormalIds(next) && Ids(next) == Ids(profiles) + [p.id]
  {
    IdsAppend(profiles, p);
  }

  /** Both ways of making a profile keep the ID. */
  lemma StepIdKeepsId(current: Profile, raw: RawProfile)
    requires NormalId(current.id) == current.id
    ensures StepId(Some(current), raw).id == current.id && Override(raw).id == NormalId(raw.id)
  {
    NormalIdTwice(raw.id);
  }

  lemma MergeOneCorrect(profiles: seq<Profile>, raw: RawProfile)
    requires DistinctIds(profiles) && NormalIds(profiles)
    ensures var next := MergeOne(profiles, raw);
      && DistinctIds(next) && NormalIds(next)
      && Ids(next) == (if NormalId(raw.id) == "" || NormalId(raw.id) in Ids(profiles) then Ids(profiles)
                       else Ids(profiles) + [NormalId(raw.id)])
  {
    var id := NormalId(raw.id);
    NormalIdTwice(raw.id);
    IdsHas(profiles, id);
    var at := Position(profiles, id);
    if id != "" && at.Some? {
      StepIdKeepsId(profiles[at.value], raw);
      ReplaceKeepsIds(profiles, at.value, StepId(Some(profiles[at.value]), raw));
    } else if id != "" {
      AppendAddsId(profiles, Override(raw));
    }
  }

  lemma ReplaceFinds(profiles: seq<Profile>, k: nat, p: Profile, id: string)
    requires DistinctIds(profiles) && k < |profiles| && p.id == profiles[k].id
    ensures Find(profiles[k := p], id) == if id == p.id then Some(p) else Find(profiles, id)
  {
    var next := profiles[k := p];
    if id == p.id {
      PositionIs(next, k);
    } else {
      SamePosition(profiles, next, id);
      var at := Position(profiles, id);
      assert at.Some? ==> at.value != k;
    }
  }

  lemma {:induction false} SamePosition(profiles: seq<Profile>, next: seq<Profile>, id: string)
    requires |next| == |profiles| && forall i :: 0 <= i < |profiles| ==> next[i].id == profiles[i].id
    ensures Position(next, id) == Position(profiles, id)
  {
    if profiles != [] { SamePosition(profiles[..|profiles| - 1], next[..|next| - 1], id); }
  }

  lemma AppendFinds(profiles: seq<Profile>, p: Profile, id: string)
    ensures Find(profiles + [p], id) == if id == p.id then Some(p) else Find(profiles, id)
  {
    assert (profiles + [p])[..|profiles|] == profiles;
  }

  lemma MergeOneFinds(profiles: seq<Profile>, raw: RawProfile, id: string)
    requires DistinctIds(profiles) && NormalIds(profiles)
    ensures Find(MergeOne(profiles, raw), id)
      == if NormalId(raw.id) == "" || NormalId(raw.id) != id then Find(profiles, id)
         else Some(StepId(Find(profiles, id), raw))
  {
    var at := Position(profiles, NormalId(raw.id));
    NormalIdTwice(raw.id);
    if NormalId(raw.id) != "" && at.Some? {
      StepIdKeepsId(profiles[at.value], raw);
      ReplaceFinds(profiles, at.value, StepId(Some(profiles[at.value]), raw), id);
    } else if NormalId(raw.id) != "" {
      AppendFinds(profiles, Override(raw), id);
    }
  }

  /** The indexed merge: distinct IDs, the base order kept with new IDs at their
      first appearance, and per ID the fold of its overrides. */
  lemma {:induction false} MergeCorrect(start: seq<Profile>, overrides: seq<RawProfile>)
    requires DistinctIds(start) && NormalIds(start)
    ensures var merged := Merge(start, overrides);
      DistinctIds(merged) && NormalIds(merged) && Ids(merged) == Ids(start) + NewIds(Ids(start), overrides)
  {
    if overrides != [] {
      var front, raw := overrides[..|overrides| - 1], overrides[|overrides| - 1];
      MergeCorrect(start, front);
      MergeOneCorrect(Merge(start, front), raw);
      NewIdsStep(Ids(start), overrides);
    }
  }

  lemma NewIdsStep(known: seq<string>, overrides: seq<RawProfile>)
    requires overrides != []
    ensures var id := NormalId(overrides[|overrides| - 1].id);
      var before := known + NewIds(known, overrides[..|overrides| - 1]);
      known + NewIds(known, overrides) == (if id == "" || id in before then before else before + [id])
  {
    var id, news := NormalId(overrides[|overrides| - 1].id), NewIds(known, overrides[..|overrides| - 1]);
    assert id in known + news <==> id in known || id in news;
    assert known + (news + [id]) == (known + news) + [id];
  }

  lemma {:induction false} MergeFolds(start: seq<Profile>, overrides: seq<RawProfile>, id: string)
    requires DistinctIds(start) && NormalIds(start)
    ensures Find(Merge(start, overrides), id) == FoldId(Find(start, id), overrides, id)
  {
    if overrides != [] {
      var front := overrides[..|overrides| - 1];
      MergeCorrect(start, front);
      MergeFolds(start, front, id);
      MergeOneFinds(Merge(start, front), overrides[|overrides| - 1], id);
    }
  }

  // ---------- the merge as it runs ----------

  /** The base profiles that have an ID, normalised. */
  function Named(base: seq<Profile>): seq<Profile> {
    if base == [] then []
    else Named(base[..|base| - 1])
         + (if NormalId(base[|base| - 1].id) == "" then [] else [Normalize(base[|base| - 1])])
  }

  lemma {:induction false} NamedIsNormal(base: seq<Profile>)
    ensures NormalIds(Named(base))
  {
    if base != [] {
      NamedIsNormal(base[..|base| - 1]);
      NormalIdTwice(base[|base| - 1].id);
    }
  }

  /** The index holds exactly the IDs of the list, each with its last position. */
  ghost predicate Indexed(profiles: seq<Profile>, index: map<string, nat>) {
    forall id :: Position(profiles, id) == if id in index then Some(index[id]) else None
  }

  lemma IndexedAppend(profiles: seq<Profile>, index: map<string, nat>, p: Profile)
    requires Indexed(profiles, index)
    ensures Indexed(profiles + [p], index[p.id := |profiles|])
  {
    assert (profiles + [p])[..|profiles|] == profiles;
  }

  lemma IndexedReplace(profiles: seq<Profile>, index: map<string, nat>, k: nat, p: Profile)
    requires Indexed(profiles, index) && k < |profiles| && p.id == profiles[k].id
    ensures Indexed(profiles[k := p], index)
  {
    forall id ensures Position(profiles[k := p], id) == Position(profiles, id) {
      SamePosition(profiles, profiles[k := p], id);
    }
  }

  /** The merge with its index: later overrides of an ID overwrite its slot. */
  method MergeAgentProfileOverrides(base: seq<Profile>, overrides: seq<RawProfile>) returns (profiles: seq<Profile>)
    ensures profiles == Merge(Named(base), overrides)
  {
    var index: map<string, nat>;
    profiles, index := IndexBase(base);
    NamedIsNormal(base);
    for i := 0 to |overrides|
      invariant Indexed(profiles, index) && NormalIds(profiles)
      invariant profiles == Merge(Named(base), overrides[..i])
    {
      assert overrides[..i + 1][..i] == overrides[..i];
      profiles, index := MergeOverride(profiles, index, overrides[i]);
    }
    assert overrides[..|overrides|] == overrides;
  }

  lemma ReplaceKeepsNormal(profiles: seq<Profile>, k: nat, p: Profile)
    requires NormalIds(profiles) && k < |profiles| && p.id == profiles[k].id
    ensures NormalIds(profiles[k := p])
  {
  }

  lemma AppendKeepsNormal(profiles: seq<Profile>, p: Profile)
    requires NormalIds(profiles) && p.id != "" && NormalId(p.id) == p.id
    ensures NormalIds(profiles + [p])
  {
  }

  lemma OverrideHasNormalId(raw: RawProfile)
    ensures Override(raw).id == NormalId(raw.id) && NormalId(Override(raw).id) == NormalId(raw.id)
  {
    NormalIdTwice(raw.id);
  }

  method MergeOverride(given: seq<Profile>, known: map<string, nat>, raw: RawProfile)
    returns (profiles: seq<Profile>, index: map<string, nat>)
    requires Indexed(given, known) && NormalIds(given)
    ensures profiles == MergeOne(given, raw) && Indexed(profiles, index) && NormalIds(profiles)
  {
    profiles, index := given, known;
    var id := NormalId(raw.id);
    if id == "" { return; }
    var next := Override(raw);
    OverrideHasNormalId(raw);
    assert Position(given, id) == if id in known then Some(known[id]) else None;
    if id in index {
      var idx := index[id];
      var existing := profiles[idx];
      profiles := profiles[idx := Overlay(existing, next, raw.enabled)];
      StepIdKeepsId(existing, raw);
      ReplaceKeepsNormal(given, idx, profiles[idx]);
      IndexedReplace(given, known, idx, profiles[idx]);
    } else {
      index := index[id := |profiles|];
      profiles := profiles + [next];
      AppendKeepsNormal(given, next);
      IndexedAppend(given, known, next);
    }
  }

  method IndexBase(base: seq<Profile>) returns (profiles: seq<Profile>, index: map<string, nat>)
    ensures profiles == Named(base) && Indexed(profiles, index)
  {
    profiles, index := [], map[];
    for i := 0 to |base|
      invariant profiles == Named(base[..i]) && Indexed(profiles, index)
    {
      assert base[..i + 1][..i] == base[..i];
      var normalized := Normalize(base[i]);
      if normalized.id != "" {
        IndexedAppend(profiles, index, normalized);
        index := index[normalized.id := |profiles|];
        profiles := profiles + [normalized];
      }
    }
    assert base[..|base|] == base;
  }

  /** An override that leaves out its label or scope resets them, whatever the
      base said; other blank fields keep the base's. */
  lemma OverlayResetsLabelAndScope(base: Profile, raw: RawProfile)
    requires base == Normalize(base) && NormalId(raw.id) == base.id && base.id != ""
    ensures var out := Overlay(base, Override(raw), raw.enabled);
      && out.id == base.id
      && out.labelText == (if Trim(raw.labelText) == "" then base.id else Trim(raw.labelText))
      && out.credentialScope == NormalScope(raw.credentialScope)
      && out.provider == Pick(raw.provider, base.provider)
      && out.transport == Pick(raw.transport, base.transport)
      && out.model == Pick(raw.model, base.model)
      && out.endpointRef == Pick(raw.endpointRef, base.endpointRef)
      && out.credentialRef == Pick(raw.credentialRef, base.credentialRef)
      && out.enabled == (if raw.enabled.Some? then raw.enabled.value else base.enabled)
  {
    ScopeIsPlain(raw.credentialScope);
    NormalIdTwice(raw.id);
    assert Trimmed(base.id);
  }

  lemma ScopeIsPlain(scope: string)
    ensures var s := NormalScope(scope); s != "" && Trim(s) == s && Lower(s) == s
  {
    assert Lower("tenant") == "tenant" && Lower("workspace") == "workspace" && Lower("project") == "project";
  }

  // ---------- the selected profile ----------

  function SelectedId(raw: RawSettings): string {
    if NormalId(raw.selectedProfileId) == "" then DEFAULT_SELECTED_PROFILE else NormalId(raw.selectedProfileId)
  }

  function WithSelected(p: Profile, raw: RawSettings): Profile {
    Profile(p.id, p.labelText, p.provider, Pick(raw.transport, p.transport), Pick(raw.model, p.model),
            Pick(raw.endpointRef, p.endpointRef), Pick(raw.credentialRef, p.credentialRef),
            if Trim(raw.credentialScope) == "" then p.credentialScope else Lower(Trim(raw.credentialScope)),
            if raw.enabled.Some? then raw.enabled.value else p.enabled)
  }

  function FreshSelected(id: string, raw: RawSettings): Profile {
    Normalize(Profile(id, id, "", raw.transport, raw.model, raw.endpointRef, raw.credentialRef,
                      raw.credentialScope, raw.enabled.None? || raw.enabled.value))
  }

  /** Where the first profile with the ID is, from position i on. */
  function First(profiles: seq<Profile>, id: string, i: nat): (r: Option<nat>)
    ensures r.Some? ==> i <= r.value < |profiles| && profiles[r.value].id == id
    ensures r.Some? ==> forall k :: i <= k < r.value ==> profiles[k].id != id
    ensures r.None? ==> forall k :: i <= k < |profiles| ==> profiles[k].id != id
    decreases |profiles| - i
  {
    if i >= |profiles| then None else if profiles[i].id == id then Some(i) else First(profiles, id, i + 1)
  }

  lemma FirstIsOnly(profiles: seq<Profile>, id: string)
    requires DistinctIds(profiles)
    ensures First(profiles, id, 0) == Position(profiles, id)
  {
    var at := Position(profiles, id);
    if at.Some? { assert profiles[at.value].id == id; }
  }

  /** The list with the top-level fields on the first profile with the ID; when the
      list has none, one is appended. */
  function Selected(profiles: seq<Profile>, id: string, raw: RawSettings): seq<Profile> {
    var at := First(profiles, id, 0);
    if at.Some? then profiles[at.value := WithSelected(profiles[at.value], raw)]
    else profiles + [FreshSelected(id, raw)]
  }

  method ApplySelectedProfileOverrides(given: seq<Profile>, selected: string, raw: RawSettings)
    returns (profiles: seq<Profile>)
    ensures profiles == Selected(given, selected, raw)
  {
    profiles := given;
    for idx := 0 to |given|
      invariant profiles == given
      invariant First(given, selected, 0) == First(given, selected, idx)
    {
      if profiles[idx].id == selected {
        var p := OverwriteProfile(profiles[idx], raw);
        profiles := profiles[idx := p];
        return;
      }
    }
    profiles := given + [FreshSelected(selected, raw)];
  }

  method OverwriteProfile(stored: Profile, raw: RawSettings) returns (p: Profile)
    ensures p == WithSelected(stored, raw)
  {
    p := stored;
    if Trim(raw.transport) != "" { p := p.(transport := Trim(raw.transport)); }
    if Trim(raw.model) != "" { p := p.(model := Trim(raw.model)); }
    if Trim(raw.endpointRef) != "" { p := p.(endpointRef := Trim(raw.endpointRef)); }
    if Trim(raw.credentialRef) != "" { p := p.(credentialRef := Trim(raw.credentialRef)); }
    if Trim(raw.credentialScope) != "" { p := p.(credentialScope := Lower(Trim(raw.credentialScope))); }
    if raw.enabled.Some? { p := p.(enabled := raw.enabled.value); }
  }

  lemma SelectedFinds(profiles: seq<Profile>, selected: string, raw: RawSettings, id: string)
    requires DistinctIds(profiles) && NormalId(selected) == selected
    ensures var next := Selected(profiles, selected, raw);
      && DistinctIds(next)
      && Ids(next) == Ids(profiles) + (if selected in Ids(profiles) then [] else [selected])
      && Find(next, id) == (
           if id != selected then Find(profiles, id)
           else Some(if Find(profiles, id).Some? then WithSelected(Find(profiles, id).value, raw)
                     else FreshSelected(selected, raw)))
  {
    var at := Position(profiles, selected);
    FirstIsOnly(profiles, selected);
    IdsHas(profiles, selected);
    if at.Some? {
      var p := WithSelected(profiles[at.value], raw);
      IdsReplace(profiles, at.value, p);
      ReplaceFinds(profiles, at.value, p, id);
    } else {
      IdsAppend(profiles, FreshSelected(selected, raw));
      AppendFinds(profiles, FreshSelected(selected, raw), id);
    }
  }

  // ---------- the whole parse ----------

  function Parse(base: seq<Profile>, raw: RawSettings): Settings {
    Settings(SelectedId(raw), Selected(Merge(Named(base), raw.profiles), SelectedId(raw), raw))
  }

  method ParseAgentIntegrationSettings(base: seq<Profile>, raw: RawSettings) returns (settings: Settings)
    ensures settings == Parse(base, raw)
  {
    var profiles := MergeAgentProfileOverrides(base, raw.profiles);
    var selected := NormalId(raw.selectedProfileId);
    if selected == "" { selected := DEFAULT_SELECTED_PROFILE; }
    profiles := ApplySelectedProfileOverrides(profiles, selected, raw);
    return Settings(selected, profiles);
  }

  lemma SelectedIdIsNormal(raw: RawSettings)
    ensures NormalId(SelectedId(raw)) == SelectedId(raw) && SelectedId(raw) != ""
  {
    NormalIdTwice(raw.selectedProfileId);
    assert Trimmed("codex") && Lower("codex") == "codex";
  }

  /** What a parse gives: distinct IDs in base order, then new ones at their first
      appearance, then a missing selected one; and per ID the fold of its
      overrides, with the top-level fields on the selected profile. */
  lemma ParseIsPerIdFold(base: seq<Profile>, raw: RawSettings, id: string)
    requires DistinctIds(Named(base))
    ensures var settings := Parse(base, raw);
      var merged := Ids(Named(base)) + NewIds(Ids(Named(base)), raw.profiles);
      var folded := FoldId(Find(Named(base), id), raw.profiles, id);
      && DistinctIds(settings.profiles)
      && Ids(settings.profiles) == merged + (if SelectedId(raw) in merged then [] else [SelectedId(raw)])
      && Find(settings.profiles, id) == (
           if id != SelectedId(raw) then folded
           else Some(if folded.Some? then WithSelected(folded.value, raw) else FreshSelected(id, raw)))
  {
    NamedIsNormal(base);
    SelectedIdIsNormal(raw);
    MergeCorrect(Named(base), raw.profiles);
    MergeFolds(Named(base), raw.profiles, id);
    SelectedFinds(Merge(Named(base), raw.profiles), SelectedId(raw), raw, id);
  }

  datatype Field = Provider | Transport | Model | EndpointRef | CredentialRef

  function FieldOf(p: Profile, f: Field): string {
    match f
    case Provider => p.provider
    case Transport => p.transport
    case Model => p.model
    case EndpointRef => p.endpointRef
    case CredentialRef => p.credentialRef
  }

  function FieldGiven(raw: RawProfile, f: Field): string {
    match f
    case Provider => raw.provider
    case Transport => raw.transport
    case Model => raw.model
    case EndpointRef => raw.endpointRef
    case CredentialRef => raw.credentialRef
  }

  /** What the last override of the ID that writes the field wrote, or `current`. */
  function LastGiven(current: string, overrides: seq<RawProfile>, id: string, f: Field): string {
    if overrides == [] then current
    else
      var raw := overrides[|overrides| - 1];
      if NormalId(raw.id) == id && Trim(FieldGiven(raw, f)) != "" then Trim(FieldGiven(raw, f))
      else LastGiven(current, overrides[..|overrides| - 1], id, f)
  }

  lemma OneOverride(current: Profile, raw: RawProfile, f: Field)
    requires Trim(FieldOf(current, f)) == FieldOf(current, f)
    ensures var given, next := Trim(FieldGiven(raw, f)), FieldOf(StepId(Some(current), raw), f);
      next == if given != "" then given else FieldOf(current, f)
  {
  }

  lemma OneOverrideOfId(current: Profile, raw: RawProfile, f: Field)
    requires NormalId(raw.id) == current.id && Trim(FieldOf(current, f)) == FieldOf(current, f)
    ensures var given, next := Trim(FieldGiven(raw, f)), StepId(Some(current), raw);
      && next.id == current.id && Trim(FieldOf(next, f)) == FieldOf(next, f)
      && FieldOf(next, f) == if given != "" then given else FieldOf(current, f)
  {
    NormalIdTwice(raw.id);
    OneOverride(current, raw, f);
    StepIdKeepsId(current, raw);
  }

  lemma {:induction false} LastNonblankWins(base: Profile, overrides: seq<RawProfile>, id: string, f: Field)
    requires base.id == id != "" && NormalId(id) == id && Trim(FieldOf(base, f)) == FieldOf(base, f)
    ensures var folded := FoldId(Some(base), overrides, id);
      && folded.Some? && folded.value.id == id
      && FieldOf(folded.value, f) == LastGiven(FieldOf(base, f), overrides, id, f)
      && Trim(FieldOf(folded.value, f)) == FieldOf(folded.value, f)
  {
    if overrides != [] {
      var front, raw := overrides[..|overrides| - 1], overrides[|overrides| - 1];
      LastNonblankWins(base, front, id, f);
      var before := FoldId(Some(base), front, id).value;
      if NormalId(raw.id) == id { OneOverrideOfId(before, raw, f); }
    }
  }

  /** The profile a request names: a blank one means the selected profile, or the
      first one when none is selected. */
  function Target(settings: Settings, profileId: string): string {
    if NormalId(profileId) != "" then NormalId(profileId)
    else if settings.selectedProfileId != "" || settings.profiles == [] then settings.selectedProfileId
    else settings.profiles[0].id
  }

  predicate IsFirst(profiles: seq<Profile>, id: string, i: nat) {
    i < |profiles| && profiles[i].id == id && forall k :: 0 <= k < i ==> profiles[k].id != id
  }

  method ResolveProfile(settings: Settings, profileId: string) returns (found: Option<Profile>)
    ensures found.None? <==>
      forall i :: 0 <= i < |settings.profiles| ==> settings.profiles[i].id != Target(settings, profileId)
    ensures found.Some? ==>
      exists i: nat :: IsFirst(settings.profiles, Target(settings, profileId), i) && found.value == settings.profiles[i]
  {
    var target := NormalId(profileId);
    if target == "" { target := settings.selectedProfileId; }
    if target == "" && |settings.profiles| > 0 { target := settings.profiles[0].id; }
    for i := 0 to |settings.profiles|
      invariant forall k :: 0 <= k < i ==> settings.profiles[k].id != target
    {
      if settings.profiles[i].id == target {
        assert IsFirst(settings.profiles, target, i);
        return Some(settings.profiles[i]);
      }
    }
    return None;
  }

  lemma SelectedIsFound(base: seq<Profile>, raw: RawSettings)
    requires DistinctIds(Named(base))
    ensures var settings := Parse(base, raw);
      && Target(settings, "") == SelectedId(raw)
      && DistinctIds(settings.profiles) && Find(settings.profiles, SelectedId(raw)).Some?
  {
    SelectedIdIsNormal(raw);
    ParseIsPerIdFold(base, raw, SelectedId(raw));
    assert Trim("") == "" && Lower("") == "";
  }

  /** After any parse, resolving a blank ID gives the selected profile. */
  method ResolveSelected(base: seq<Profile>, raw: RawSettings) returns (settings: Settings, found: Option<Profile>)
    requires DistinctIds(Named(base))
    ensures settings == Parse(base, raw)
    ensures found.Some? && found == Find(settings.profiles, SelectedId(raw))
  {
    settings := ParseAgentIntegrationSettings(base, raw);
    found := ResolveProfile(settings, "");
    SelectedIsFound(base, raw);
    var at := Position(settings.profiles, SelectedId(raw)).value;
    assert settings.profiles[at].id == SelectedId(raw);
    var i: nat :| IsFirst(settings.profiles, SelectedId(raw), i) && found.value == settings.profiles[i];
    PositionIs(settings.profiles, i);
  }

  // ---------- settings that set nothing ----------

  function NothingSet(selected: string): RawSettings { RawSettings(selected, "", "", "", "", "", None, []) }

  lemma NothingSetOnProfile(p: Profile, selected: string)
    ensures WithSelected(p, NothingSet(selected)) == p
  {
    assert Trim("") == "";
  }

  lemma NothingSelected(selected: string)
    requires Trim(selected) == ""
    ensures SelectedId(NothingSet(selected)) == DEFAULT_SELECTED_PROFILE
  {
    assert Lower("") == "";
  }

  lemma SelectedAt(profiles: seq<Profile>, k: nat, raw: RawSettings)
    requires DistinctIds(profiles) && k < |profiles|
    ensures Selected(profiles, profiles[k].id, raw) == profiles[k := WithSelected(profiles[k], raw)]
  {
    PositionIs(profiles, k);
    FirstIsOnly(profiles, profiles[k].id);
  }

  /** Settings that set nothing give the base list back, as a missing body does,
      when its profiles are normalised and the default selection is among them. */
  lemma BlankSettingsChangeNothing(base: seq<Profile>, selected: string, k: nat)
    requires Trim(selected) == "" && Named(base) == base && DistinctIds(base)
    requires k < |base| && base[k].id == DEFAULT_SELECTED_PROFILE
    ensures Parse(base, NothingSet(selected)) == Settings(DEFAULT_SELECTED_PROFILE, base)
  {
    NothingSelected(selected);
    NothingSetOnProfile(base[k], selected);
    SelectedAt(base, k, NothingSet(selected));
    assert Merge(base, []) == base;
  }
}
