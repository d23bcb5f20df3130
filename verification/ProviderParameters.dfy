/**
 The parameter validator and the repair pass that must meet it
 (app/inference/adapters/parameter_validation.py, _apply_config_params in
 app/inference/model.py).  Values are real numbers; max_tokens is one that happens to be
 whole.
 */
module ProviderParameters {
  import opened Wrappers

  const TEMPERATURE: string := "temperature"
  const MAX_TOKENS: string := "max_tokens"
  const TOP_P: string := "top_p"

  datatype Spec = Spec(min: Option<real>, max: Option<real>)

  /** A provider's parameter table; an unknown provider, or one without a table, has neither specs nor groups. */
  datatype Provider = Provider(specs: map<string, Spec>, groups: seq<seq<string>>)

  datatype Config = Config(temperature: Option<real>, maxTokens: Option<real>, topP: Option<real>)

  type Settings = map<string, real>

  datatype ParameterError =
    | TooLow(field: string, min: real)
    | TooHigh(field: string, max: real)
    | Exclusive(fields: seq<string>)

  // ---------------------------------------------------------------- functions of the source

  function GetSpec(provider: Provider, field: string): Option<Spec> {
    if field in provider.specs then Some(provider.specs[field]) else None
  }

  function Clamp(provider: Provider, field: string, value: real): real {
    var spec := GetSpec(provider, field);
    if spec.None? then value
    else if spec.value.min.Some? && value < spec.value.min.value then spec.value.min.value
    else if spec.value.max.Some? && value > spec.value.max.value then spec.value.max.value
    else value
  }

  /** The fields of a group that have a value, in the group's order. */
  function Present(settings: Settings, group: seq<string>): (present: seq<string>)
    ensures |present| <= |group|
    ensures forall f :: f in present <==> f in group && f in settings
  {
    if group == [] then []
    else (if group[0] in settings then [group[0]] else []) + Present(settings, group[1..])
  }

  function Without(settings: Settings, fields: seq<string>): Settings {
    map f | f in settings && f !in fields :: settings[f]
  }

  /** One turn of the group loop: all present fields but the first are dropped. */
  function ResolveGroup(settings: Settings, group: seq<string>): Settings {
    var present := Present(settings, group);
    if |present| > 1 then Without(settings, present[1..]) else settings
  }

  function ResolveGroups(settings: Settings, groups: seq<seq<string>>): Settings
    decreases |groups|
  {
    if groups == [] then settings else ResolveGroups(ResolveGroup(settings, groups[0]), groups[1..])
  }

  function Put(provider: Provider, settings: Settings, field: string, value: Option<real>): Settings {
    if value.Some? then settings[field := Clamp(provider, field, value.value)] else settings
  }

  /** The settings sent to the provider: clamped config values over the base, then the groups. */
  function Effective(provider: Provider, config: Config, base: Settings): Settings {
    ResolveGroups(ClampedOver(provider, config, base), provider.groups)
  }

  function ClampedOver(provider: Provider, config: Config, base: Settings): Settings {
    Put(provider, Put(provider, Put(provider, base,
                                    TEMPERATURE, config.temperature),
                      MAX_TOKENS, config.maxTokens),
        TOP_P, config.topP)
  }

  // ---------------------------------------------------------------- what the validator accepts

  predicate InRange(provider: Provider, field: string, value: Option<real>) {
    value.Some? && field in provider.specs ==>
      var spec := provider.specs[field];
      && (spec.min.Some? ==> spec.min.value <= value.value)
      && (spec.max.Some? ==> value.value <= spec.max.value)
  }

  /** The values the group check looks at. */
  function Checked(config: Config): Settings {
    var settings: Settings := if config.temperature.Some? then map[TEMPERATURE := config.temperature.value] else map[];
    if config.topP.Some? then settings[TOP_P := config.topP.value] else settings
  }

  predicate OneOf(settings: Settings, group: seq<string>) {
    |Present(settings, group)| <= 1
  }

  predicate Passes(provider: Provider, config: Config) {
    && InRange(provider, TEMPERATURE, config.temperature)
    && InRange(provider, MAX_TOKENS, config.maxTokens)
    && InRange(provider, TOP_P, config.topP)
    && forall i :: 0 <= i < |provider.groups| ==> OneOf(Checked(config), provider.groups[i])
  }

  /** The config whose parameters are the given settings. */
  function AsConfig(settings: Settings): Config {
    Config(if "temperature" in settings then Some(settings["temperature"]) else None,
           if "max_tokens" in settings then Some(settings["max_tokens"]) else None,
           if "top_p" in settings then Some(settings["top_p"]) else None)
  }

  /** A table in order: bounds that admit a value, and groups over the two sampling parameters only. */
  ghost predicate WellFormed(provider: Provider) {
    && (forall f :: f in provider.specs && provider.specs[f].min.Some? && provider.specs[f].max.Some? ==>
                      provider.specs[f].min.value <= provider.specs[f].max.value)
    && forall i, f :: 0 <= i < |provider.groups| && f in provider.groups[i] ==> f in {"temperature", "top_p"}
  }

  // ---------------------------------------------------------------- the loops

  function ValueOf(config: Config, field: string): Option<real> {
    if field == TEMPERATURE then config.temperature
    else if field == MAX_TOKENS then config.maxTokens
    else if field == TOP_P then config.topP
    else None
  }

  /** The error is one the config deserves. */
  ghost predicate Deserved(provider: Provider, config: Config, error: ParameterError) {
    match error
    case TooLow(field, min) =>
      var value := ValueOf(config, field);
      value.Some? && field in provider.specs && provider.specs[field].min == Some(min) && value.value < min
    case TooHigh(field, max) =>
      var value := ValueOf(config, field);
      value.Some? && field in provider.specs && provider.specs[field].max == Some(max) && value.value > max
    case Exclusive(fields) =>
      |fields| > 1 && exists i :: 0 <= i < |provider.groups| && Present(Checked(config), provider.groups[i]) == fields
  }

  /** The errors about one field. */
  ghost predicate About(error: ParameterError, field: string) {
    (error.TooLow? || error.TooHigh?) && error.field == field
  }

  method ValidateValue(provider: Provider, config: Config, field: string, errors: seq<ParameterError>)
    returns (more: seq<ParameterError>)
    ensures forall e :: e in more <==> e in errors || (About(e, field) && Deserved(provider, config, e))
  {
    more := errors;
    var value := ValueOf(config, field);
    if value.None? {
      return;
    }
    var spec := GetSpec(provider, field);
    if spec.None? {
      return;
    }
    if spec.value.min.Some? && value.value < spec.value.min.value {
      more := more + [TooLow(field, spec.value.min.value)];
    }
    if spec.value.max.Some? && value.value > spec.value.max.value {
      more := more + [TooHigh(field, spec.value.max.value)];
    }
  }

  method ValidateExclusiveGroups(provider: Provider, config: Config, errors: seq<ParameterError>)
    returns (more: seq<ParameterError>)
    ensures forall e :: e in more <==> e in errors || (e.Exclusive? && Deserved(provider, config, e))
  {
    more := errors;
    for i := 0 to |provider.groups|
      invariant forall e :: e in more <==> e in errors || Clashes(provider, config, e, i)
    {
      var present := Present(Checked(config), provider.groups[i]);
      if |present| > 1 {
        more := more + [Exclusive(present)];
      }
    }
  }

  /** The error names the clashing members of one of the first n groups. */
  ghost predicate Clashes(provider: Provider, config: Config, error: ParameterError, n: nat)
    requires n <= |provider.groups|
  {
    error.Exclusive? && |error.fields| > 1
    && exists k :: 0 <= k < n && Present(Checked(config), provider.groups[k]) == error.fields
  }

  method Validate(provider: Provider, config: Config) returns (errors: seq<ParameterError>)
    ensures forall e :: e in errors <==> Deserved(provider, config, e)
    ensures errors == [] <==> Passes(provider, config)
  {
    errors := [];
    errors := ValidateValue(provider, config, TEMPERATURE, errors);
    errors := ValidateValue(provider, config, MAX_TOKENS, errors);
    errors := ValidateValue(provider, config, TOP_P, errors);
    errors := ValidateExclusiveGroups(provider, config, errors);
    PassesIff(provider, config);
    assert errors != [] ==> errors[0] in errors;
  }

  /** A config passes exactly when it deserves no error. */
  lemma PassesIff(provider: Provider, config: Config)
    ensures Passes(provider, config) <==> forall e :: !Deserved(provider, config, e)
  {
    if !Passes(provider, config) {
      if i :| 0 <= i < |provider.groups| && !OneOf(Checked(config), provider.groups[i]) {
        assert Deserved(provider, config, Exclusive(Present(Checked(config), provider.groups[i])));
      } else {
        var field := if !InRange(provider, TEMPERATURE, config.temperature) then TEMPERATURE
                     else if !InRange(provider, MAX_TOKENS, config.maxTokens) then MAX_TOKENS else TOP_P;
        var spec := GetSpec(provider, field).value;
        if spec.min.Some? && ValueOf(config, field).value < spec.min.value {
          assert Deserved(provider, config, TooLow(field, spec.min.value));
        } else {
          assert Deserved(provider, config, TooHigh(field, spec.max.value));
        }
      }
    }
  }

  method ResolveProviderSettings(provider: Provider, settings: Settings) returns (resolved: Settings)
    ensures resolved == ResolveGroups(settings, provider.groups)
  {
    resolved := settings;
    for i := 0 to |provider.groups|
      invariant ResolveGroups(resolved, provider.groups[i..]) == ResolveGroups(settings, provider.groups)
    {
      var group := provider.groups[i];
      assert provider.groups[i..][1..] == provider.groups[i + 1..];
      ghost var entering := resolved;
      var present := Present(resolved, group);
      if |present| > 1 {
        var dropped := present[1..];
        for k := 0 to |dropped|
          invariant resolved == Without(entering, dropped[..k])
        {
          resolved := resolved - {dropped[k]};
        }
        assert dropped[..|dropped|] == dropped;
      }
      assert resolved == ResolveGroup(entering, group);
    }
    assert provider.groups[|provider.groups|..] == [];
  }

  method ApplyConfigParams(provider: Provider, config: Config, base: Settings) returns (r: Settings)
    ensures r == Effective(provider, config, base)
    ensures forall f :: SentAsAsked(provider, config, base, r, f)
  {
    var settings := base;
    if config.temperature.Some? {
      settings := settings[TEMPERATURE := Clamp(provider, TEMPERATURE, config.temperature.value)];
    }
    if config.maxTokens.Some? {
      settings := settings[MAX_TOKENS := Clamp(provider, MAX_TOKENS, config.maxTokens.value)];
    }
    if config.topP.Some? {
      settings := settings[TOP_P := Clamp(provider, TOP_P, config.topP.value)];
    }
    r := ResolveProviderSettings(provider, settings);
    forall f
      ensures SentAsAsked(provider, config, base, r, f)
    {
      EffectiveSends(provider, config, base, f);
    }
  }

  /**
   The setting is sent only if the config or the base has it, and is if it stands in no
   group; its value is the config's, clamped, or else the base's as it is.
   */
  ghost predicate SentAsAsked(provider: Provider, config: Config, base: Settings, sent: Settings, field: string) {
    var value := ValueOf(config, field);
    && (field in sent ==> field in base || value.Some?)
    && ((field in base || value.Some?) && Ungrouped(provider, field) ==> field in sent)
    && (field in sent && value.Some? ==> sent[field] == Clamp(provider, field, value.value))
    && (field in sent && value.None? ==> sent[field] == base[field])
  }

  lemma ClampedOverAt(provider: Provider, config: Config, base: Settings, field: string)
    ensures var value, clamped := ValueOf(config, field), ClampedOver(provider, config, base);
            && (field in clamped <==> field in base || value.Some?)
            && (value.Some? ==> clamped[field] == Clamp(provider, field, value.value))
            && (value.None? && field in base ==> clamped[field] == base[field])
  {
  }

  lemma EffectiveSends(provider: Provider, config: Config, base: Settings, field: string)
    ensures SentAsAsked(provider, config, base, Effective(provider, config, base), field)
  {
    var clamped := ClampedOver(provider, config, base);
    ClampedOverAt(provider, config, base, field);
    ResolveShrinks(clamped, provider.groups);
    if field in clamped && Ungrouped(provider, field) {
      UngroupedStays(clamped, provider.groups, field);
    }
  }

  predicate Ungrouped(provider: Provider, field: string) {
    forall i :: 0 <= i < |provider.groups| ==> field !in provider.groups[i]
  }

  lemma {:induction false} UngroupedStays(settings: Settings, groups: seq<seq<string>>, field: string)
    requires field in settings && forall i :: 0 <= i < |groups| ==> field !in groups[i]
    ensures field in ResolveGroups(settings, groups)
    decreases |groups|
  {
    if groups != [] {
      assert field !in groups[0];
      assert forall i :: 0 <= i < |groups[1..]| ==> groups[1..][i] == groups[i + 1];
      assert Present(settings, groups[0]) != [] ==>
          forall f :: f in Present(settings, groups[0])[1..] ==> f in Present(settings, groups[0]);
      UngroupedStays(ResolveGroup(settings, groups[0]), groups[1..], field);
    }
  }

  // ---------------------------------------------------------------- at most one of each group

  lemma {:induction false} PresentShrinks(settings: Settings, less: Settings, group: seq<string>)
    requires less.Keys <= settings.Keys
    ensures |Present(less, group)| <= |Present(settings, group)|
  {
    if group != [] {
      PresentShrinks(settings, less, group[1..]);
    }
  }

  lemma {:induction false} PresentOfFew(settings: Settings, group: seq<string>)
    requires forall f :: f in group ==> f !in settings
    ensures Present(settings, group) == []
  {
    if group != [] {
      PresentOfFew(settings, group[1..]);
    }
  }

  /** Dropping all present fields but the first leaves at most one, even when a group repeats a field. */
  lemma {:induction false} GroupResolved(settings: Settings, group: seq<string>)
    ensures OneOf(ResolveGroup(settings, group), group)
    ensures ResolveGroup(settings, group).Keys <= settings.Keys
  {
    var present := Present(settings, group);
    if |present| > 1 {
      TailDropped(settings, group, present[1..]);
    }
  }

  lemma {:induction false} TailDropped(settings: Settings, group: seq<string>, dropped: seq<string>)
    requires Present(settings, group) != [] && dropped == Present(settings, group)[1..]
    ensures OneOf(Without(settings, dropped), group)
  {
    if group[0] in settings {
      assert dropped == Present(settings, group[1..]);
      PresentOfFew(Without(settings, dropped), group[1..]);
    } else {
      TailDropped(settings, group[1..], dropped);
    }
  }

  lemma {:induction false} ResolveShrinks(settings: Settings, groups: seq<seq<string>>)
    ensures ResolveGroups(settings, groups).Keys <= settings.Keys
    ensures forall f :: f in ResolveGroups(settings, groups) ==> ResolveGroups(settings, groups)[f] == settings[f]
    decreases |groups|
  {
    if groups != [] {
      GroupResolved(settings, groups[0]);
      ResolveShrinks(ResolveGroup(settings, groups[0]), groups[1..]);
    }
  }

  /** After the sequential loop every group, early or late, has at most one member set. */
  lemma {:induction false} GroupsResolved(settings: Settings, groups: seq<seq<string>>, i: nat)
    requires i < |groups|
    ensures OneOf(ResolveGroups(settings, groups), groups[i])
    decreases |groups|
  {
    var next := ResolveGroup(settings, groups[0]);
    if i == 0 {
      GroupResolved(settings, groups[0]);
      ResolveShrinks(next, groups[1..]);
      PresentShrinks(next, ResolveGroups(next, groups[1..]), groups[0]);
    } else {
      GroupsResolved(next, groups[1..], i - 1);
    }
  }

  /** The loop leaves settings alone when no group has more than one member set. */
  lemma {:induction false} ResolveUnchanged(settings: Settings, groups: seq<seq<string>>)
    requires forall i :: 0 <= i < |groups| ==> OneOf(settings, groups[i])
    ensures ResolveGroups(settings, groups) == settings
    decreases |groups|
  {
    if groups != [] {
      assert OneOf(settings, groups[0]);
      assert forall i :: 0 <= i < |groups[1..]| ==> groups[1..][i] == groups[i + 1];
      ResolveUnchanged(settings, groups[1..]);
    }
  }

  lemma ResolveIdempotent(settings: Settings, groups: seq<seq<string>>)
    ensures ResolveGroups(ResolveGroups(settings, groups), groups) == ResolveGroups(settings, groups)
  {
    forall i | 0 <= i < |groups|
      ensures OneOf(ResolveGroups(settings, groups), groups[i])
    {
      GroupsResolved(settings, groups, i);
    }
    ResolveUnchanged(ResolveGroups(settings, groups), groups);
  }

  // ---------------------------------------------------------------- what the groups drop, and what survives

  /** The field is set, and stands in the group behind a member that is set. */
  ghost predicate Behind(settings: Settings, group: seq<string>, field: string) {
    field in settings && exists i, j :: 0 <= i < j < |group| && group[i] in settings && group[j] == field
  }

  lemma BehindHead(settings: Settings, group: seq<string>, field: string)
    requires group != [] && field in settings && group[0] in settings
    ensures Behind(settings, group, field) <==> field in group[1..]
  {
    var rest := group[1..];
    if field in rest {
      var j :| 0 <= j < |rest| && rest[j] == field;
      assert group[0] in settings && group[j + 1] == field;
    }
    if Behind(settings, group, field) {
      var i, j :| 0 <= i < j < |group| && group[i] in settings && group[j] == field;
      assert rest[j - 1] == field;
    }
  }

  lemma BehindTail(settings: Settings, group: seq<string>, field: string)
    requires group != [] && group[0] !in settings
    ensures Behind(settings, group, field) <==> Behind(settings, group[1..], field)
  {
    var rest := group[1..];
    if Behind(settings, rest, field) {
      var i, j :| 0 <= i < j < |rest| && rest[i] in settings && rest[j] == field;
      assert group[i + 1] in settings && group[j + 1] == field;
    }
    if Behind(settings, group, field) {
      var i, j :| 0 <= i < j < |group| && group[i] in settings && group[j] == field;
      assert rest[i - 1] in settings && rest[j - 1] == field;
    }
  }

  lemma {:induction false} TailIsBehind(settings: Settings, group: seq<string>, field: string)
    requires field in settings && Present(settings, group) != []
    ensures field in Present(settings, group)[1..] <==> Behind(settings, group, field)
  {
    if group[0] in settings {
      BehindHead(settings, group, field);
      assert Present(settings, group)[1..] == Present(settings, group[1..]);
    } else {
      BehindTail(settings, group, field);
      assert Present(settings, group) == Present(settings, group[1..]);
      TailIsBehind(settings, group[1..], field);
    }
  }

  lemma GroupDropsIff(settings: Settings, group: seq<string>, field: string)
    requires field in settings
    ensures field !in ResolveGroup(settings, group) <==> Behind(settings, group, field)
  {
    if Present(settings, group) == [] {
      forall i | 0 <= i < |group|
        ensures group[i] !in settings
      {
        assert group[i] in group;
      }
    } else {
      TailIsBehind(settings, group, field);
    }
  }

  /**
   The loop drops a field exactly when some group, at its turn, has the field behind a
   member that is still set; for all groups, also overlapping ones and ones that repeat.
   */
  lemma {:induction false} DroppedIff(settings: Settings, groups: seq<seq<string>>, field: string)
    requires field in settings
    ensures field !in ResolveGroups(settings, groups)
            <==> exists k :: 0 <= k < |groups| && Behind(ResolveGroups(settings, groups[..k]), groups[k], field)
    decreases |groups|
  {
    if groups != [] {
      var next, rest := ResolveGroup(settings, groups[0]), groups[1..];
      GroupDropsIff(settings, groups[0], field);
      ResolveShrinks(next, rest);
      assert groups[..0] == [];
      forall k | 0 < k < |groups|
        ensures ResolveGroups(settings, groups[..k]) == ResolveGroups(next, rest[..k - 1])
        ensures groups[k] == rest[k - 1]
      {
        assert groups[..k][0] == groups[0] && groups[..k][1..] == rest[..k - 1];
        ResolveShrinks(next, rest[..k - 1]);
      }
      if field in next {
        DroppedIff(next, rest, field);
        if k :| 0 <= k < |rest| && Behind(ResolveGroups(next, rest[..k]), rest[k], field) {
          assert Behind(ResolveGroups(settings, groups[..k + 1]), groups[k + 1], field);
        }
      } else {
        assert Behind(ResolveGroups(settings, groups[..0]), groups[0], field);
      }
    }
  }

  /** Groups over the two sampling parameters, none of which names one twice. */
  ghost predicate SamplingGroups(groups: seq<seq<string>>) {
    forall i :: 0 <= i < |groups| ==> SamplingGroup(groups[i])
  }

  ghost predicate SamplingGroup(group: seq<string>) {
    (forall f :: f in group ==> f in {TEMPERATURE, TOP_P}) && Distinct(group)
  }

  ghost predicate Distinct(fields: seq<string>) {
    forall i, j :: 0 <= i < j < |fields| ==> fields[i] != fields[j]
  }

  /** The first group with two members set, or the number of groups when there is none. */
  function FirstClash(settings: Settings, groups: seq<seq<string>>): (k: nat)
    ensures k <= |groups|
    ensures forall i :: 0 <= i < k ==> OneOf(settings, groups[i])
    ensures k < |groups| ==> !OneOf(settings, groups[k])
  {
    if groups == [] || !OneOf(settings, groups[0]) then 0 else 1 + FirstClash(settings, groups[1..])
  }

  lemma {:induction false} PresentDistinct(settings: Settings, group: seq<string>)
    requires Distinct(group)
    ensures Distinct(Present(settings, group))
  {
    if group != [] {
      assert forall i :: 0 <= i < |group[1..]| ==> group[1..][i] == group[i + 1];
      PresentDistinct(settings, group[1..]);
      assert group[0] !in group[1..];
    }
  }

  lemma {:induction false} DistinctCount(fields: seq<string>, among: set<string>)
    requires Distinct(fields) && forall f :: f in fields ==> f in among
    ensures |fields| <= |among|
    decreases |fields|
  {
    if fields != [] {
      var rest := fields[1..];
      assert forall i :: 0 <= i < |rest| ==> rest[i] == fields[i + 1];
      assert fields[0] in fields && fields[0] !in rest;
      DistinctCount(rest, among - {fields[0]});
    }
  }

  lemma PresentPair(settings: Settings, group: seq<string>)
    requires SamplingGroup(group)
    ensures |Present(settings, group)| <= 2
    ensures !OneOf(settings, group) ==>
              var p := Present(settings, group); p == [TEMPERATURE, TOP_P] || p == [TOP_P, TEMPERATURE]
    ensures (TEMPERATURE !in settings || TOP_P !in settings) ==> OneOf(settings, group)
  {
    var present := Present(settings, group);
    PresentDistinct(settings, group);
    DistinctCount(present, {TEMPERATURE, TOP_P});
    assert forall i :: 0 <= i < |present| ==> present[i] in present;
  }

  /** When the first group clashes, all groups together drop just the second of its members. */
  lemma ClashResolved(settings: Settings, groups: seq<seq<string>>)
    requires SamplingGroups(groups) && groups != [] && !OneOf(settings, groups[0])
    ensures ResolveGroups(settings, groups) == settings - {Present(settings, groups[0])[1]}
  {
    var present := Present(settings, groups[0]);
    var next := ResolveGroup(settings, groups[0]);
    assert SamplingGroup(groups[0]);
    PresentPair(settings, groups[0]);
    assert next == settings - {present[1]};
    forall i | 0 <= i < |groups[1..]|
      ensures OneOf(next, groups[1..][i])
    {
      assert SamplingGroup(groups[i + 1]);
      PresentPair(next, groups[i + 1]);
    }
    ResolveUnchanged(next, groups[1..]);
  }

  /**
   For groups over the sampling parameters without repeats, the loop drops one setting at
   most: the lower-priority one of the first group that clashes.  The first survives.
   */
  lemma {:induction false} FirstOfClashSurvives(settings: Settings, groups: seq<seq<string>>)
    requires SamplingGroups(groups)
    ensures ResolveGroups(settings, groups) == WithoutSecond(settings, groups)
    decreases |groups|
  {
    if groups != [] {
      if OneOf(settings, groups[0]) {
        assert forall i :: 0 <= i < |groups[1..]| ==> groups[1..][i] == groups[i + 1];
        FirstOfClashSurvives(settings, groups[1..]);
      } else {
        ClashResolved(settings, groups);
      }
    }
  }

  function WithoutSecond(settings: Settings, groups: seq<seq<string>>): Settings {
    var k := FirstClash(settings, groups);
    if k == |groups| then settings else settings - {Present(settings, groups[k])[1]}
  }

  // ---------------------------------------------------------------- repair meets the validator

  lemma ClampInRange(provider: Provider, field: string, value: real)
    requires WellFormed(provider)
    ensures InRange(provider, field, Some(Clamp(provider, field, value)))
    ensures Clamp(provider, field, value) == value <==> InRange(provider, field, Some(value))
  {
  }

  function Distance(a: real, b: real): real {
    if a <= b then b - a else a - b
  }

  /** Clamping gives the value of the range that is nearest to the one asked for. */
  lemma ClampIsNearest(provider: Provider, field: string, value: real, other: real)
    requires WellFormed(provider) && InRange(provider, field, Some(other))
    ensures InRange(provider, field, Some(Clamp(provider, field, value)))
    ensures Distance(Clamp(provider, field, value), value) <= Distance(other, value)
    ensures Distance(Clamp(provider, field, value), value) == Distance(other, value) ==>
              Clamp(provider, field, value) == other
  {
  }

  lemma {:induction false} SameMembers(a: Settings, b: Settings, group: seq<string>)
    requires forall f :: f in group ==> (f in a <==> f in b)
    ensures Present(a, group) == Present(b, group)
  {
    if group != [] {
      SameMembers(a, b, group[1..]);
    }
  }

  /** The group check on a config and on its settings agree, for groups over the sampling parameters. */
  lemma CheckedAgrees(provider: Provider, settings: Settings)
    requires WellFormed(provider)
    ensures forall i :: 0 <= i < |provider.groups| ==>
                          (OneOf(Checked(AsConfig(settings)), provider.groups[i])
                           <==> OneOf(settings, provider.groups[i]))
  {
    forall i | 0 <= i < |provider.groups|
      ensures OneOf(Checked(AsConfig(settings)), provider.groups[i]) <==> OneOf(settings, provider.groups[i])
    {
      SameMembers(Checked(AsConfig(settings)), settings, provider.groups[i]);
    }
  }

  const FIELDS: seq<string> := [TEMPERATURE, MAX_TOKENS, TOP_P]

  /** The field is sent with the value of the base settings, which nothing clamps. */
  ghost predicate FromBase(provider: Provider, config: Config, base: Settings, field: string) {
    field in FIELDS && ValueOf(config, field).None? && field in base && field in Effective(provider, config, base)
  }

  lemma FieldPassesIff(provider: Provider, config: Config, base: Settings, field: string)
    requires WellFormed(provider) && field in FIELDS
    ensures InRange(provider, field, ValueOf(AsConfig(Effective(provider, config, base)), field))
            <==> (FromBase(provider, config, base, field) ==> InRange(provider, field, Some(base[field])))
  {
    if field in Effective(provider, config, base) {
      EffectiveSends(provider, config, base, field);
      if ValueOf(config, field).Some? {
        ClampInRange(provider, field, ValueOf(config, field).value);
      }
    }
  }

  /**
   For any base settings: what is sent passes validation exactly when every value that
   comes from the base is in range.  The config's own values and the groups never fail.
   */
  lemma RepairPassesIff(provider: Provider, config: Config, base: Settings)
    requires WellFormed(provider)
    ensures Passes(provider, AsConfig(Effective(provider, config, base)))
            <==> forall field :: FromBase(provider, config, base, field) ==> InRange(provider, field, Some(base[field]))
  {
    var sent := AsConfig(Effective(provider, config, base));
    RepairedGroups(provider, config, base);
    FieldPassesIff(provider, config, base, TEMPERATURE);
    FieldPassesIff(provider, config, base, MAX_TOKENS);
    FieldPassesIff(provider, config, base, TOP_P);
    assert Passes(provider, sent) <==>
      forall field :: field in FIELDS ==> InRange(provider, field, ValueOf(sent, field)) by {
      assert TEMPERATURE in FIELDS && MAX_TOKENS in FIELDS && TOP_P in FIELDS;
    }
  }

  /** For every well-formed table and every config, the settings built over no others pass validation. */
  lemma RepairPasses(provider: Provider, config: Config)
    requires WellFormed(provider)
    ensures Passes(provider, AsConfig(Effective(provider, config, map[])))
  {
    RepairPassesIff(provider, config, map[]);
  }

  lemma RepairedGroups(provider: Provider, config: Config, base: Settings)
    requires WellFormed(provider)
    ensures var sent := AsConfig(Effective(provider, config, base));
            forall i :: 0 <= i < |provider.groups| ==> OneOf(Checked(sent), provider.groups[i])
  {
    var clamped := ClampedOver(provider, config, base);
    var sent := Effective(provider, config, base);
    forall i | 0 <= i < |provider.groups|
      ensures OneOf(sent, provider.groups[i])
    {
      GroupsResolved(clamped, provider.groups, i);
    }
    CheckedAgrees(provider, sent);
  }

  lemma ClampedSettings(provider: Provider, config: Config) returns (clamped: Settings)
    requires WellFormed(provider)
    ensures Effective(provider, config, map[]) == ResolveGroups(clamped, provider.groups)
    ensures clamped.Keys <= {TEMPERATURE, MAX_TOKENS, TOP_P}
    ensures forall f :: f in clamped ==> InRange(provider, f, Some(clamped[f]))
    ensures AsConfig(clamped) == Config(ClampOption(provider, TEMPERATURE, config.temperature),
                                        ClampOption(provider, MAX_TOKENS, config.maxTokens),
                                        ClampOption(provider, TOP_P, config.topP))
  {
    clamped := ClampedOver(provider, config, map[]);
    if config.temperature.Some? {
      ClampInRange(provider, TEMPERATURE, config.temperature.value);
    }
    if config.maxTokens.Some? {
      ClampInRange(provider, MAX_TOKENS, config.maxTokens.value);
    }
    if config.topP.Some? {
      ClampInRange(provider, TOP_P, config.topP.value);
    }
  }

  function ClampOption(provider: Provider, field: string, value: Option<real>): Option<real> {
    if value.Some? then Some(Clamp(provider, field, value.value)) else None
  }

  lemma ClampOptionFixed(provider: Provider, field: string, value: Option<real>)
    requires WellFormed(provider)
    ensures ClampOption(provider, field, value) == value <==> InRange(provider, field, value)
  {
  }

  lemma ValidSent(provider: Provider, config: Config)
    requires WellFormed(provider) && Passes(provider, config)
    ensures AsConfig(Effective(provider, config, map[])) == config
  {
    var clamped := ClampedSettings(provider, config);
    ClampOptionFixed(provider, TEMPERATURE, config.temperature);
    ClampOptionFixed(provider, MAX_TOKENS, config.maxTokens);
    ClampOptionFixed(provider, TOP_P, config.topP);
    assert AsConfig(clamped) == config;
    CheckedAgrees(provider, clamped);
    assert forall i :: 0 <= i < |provider.groups| ==> OneOf(clamped, provider.groups[i]);
    ResolveUnchanged(clamped, provider.groups);
  }

  function Clamped(provider: Provider, config: Config): Config {
    Config(ClampOption(provider, TEMPERATURE, config.temperature),
           ClampOption(provider, MAX_TOKENS, config.maxTokens),
           ClampOption(provider, TOP_P, config.topP))
  }

  /** The config without the other sampling parameter. */
  function Preferring(config: Config, field: string): Config {
    if field == TEMPERATURE then config.(topP := None) else config.(temperature := None)
  }

  lemma {:induction false} SameClash(a: Settings, b: Settings, groups: seq<seq<string>>)
    requires forall i :: 0 <= i < |groups| ==> Present(a, groups[i]) == Present(b, groups[i])
    ensures FirstClash(a, groups) == FirstClash(b, groups)
    decreases |groups|
  {
    if groups != [] {
      assert Present(a, groups[0]) == Present(b, groups[0]);
      assert forall i :: 0 <= i < |groups[1..]| ==> groups[1..][i] == groups[i + 1];
      SameClash(a, b, groups[1..]);
    }
  }

  /** The group check and the group loop see the same members set. */
  lemma CheckedPresent(provider: Provider, config: Config, clamped: Settings)
    requires WellFormed(provider) && AsConfig(clamped) == Clamped(provider, config)
    ensures forall i :: 0 <= i < |provider.groups| ==>
                          Present(Checked(config), provider.groups[i]) == Present(clamped, provider.groups[i])
  {
    forall i | 0 <= i < |provider.groups|
      ensures Present(Checked(config), provider.groups[i]) == Present(clamped, provider.groups[i])
    {
      SameMembers(Checked(config), clamped, provider.groups[i]);
    }
  }

  /**
   What is sent, exactly: every parameter of the config with its value clamped, except that
   of two sampling parameters in the first clashing group only the one it names first is.
   */
  lemma SentIs(provider: Provider, config: Config)
    requires WellFormed(provider) && SamplingGroups(provider.groups)
    ensures var k := FirstClash(Checked(config), provider.groups);
            AsConfig(Effective(provider, config, map[]))
            == if k == |provider.groups| then Clamped(provider, config)
               else Preferring(Clamped(provider, config), Present(Checked(config), provider.groups[k])[0])
  {
    var clamped := ClampedSettings(provider, config);
    var k := FirstClash(clamped, provider.groups);
    CheckedPresent(provider, config, clamped);
    SameClash(Checked(config), clamped, provider.groups);
    FirstOfClashSurvives(clamped, provider.groups);
    if k < |provider.groups| {
      assert SamplingGroup(provider.groups[k]);
      PresentPair(clamped, provider.groups[k]);
    }
  }

  /** When the config sets a sampling parameter, one is sent, with the value the config gives it, clamped. */
  lemma SamplingSurvives(provider: Provider, config: Config)
    requires WellFormed(provider) && SamplingGroups(provider.groups)
    requires config.temperature.Some? || config.topP.Some?
    ensures var sent, clamped := AsConfig(Effective(provider, config, map[])), Clamped(provider, config);
            || (sent.temperature.Some? && sent.temperature == clamped.temperature)
            || (sent.topP.Some? && sent.topP == clamped.topP)
  {
    SentIs(provider, config);
    var k := FirstClash(Checked(config), provider.groups);
    if k < |provider.groups| {
      assert SamplingGroup(provider.groups[k]);
      PresentPair(Checked(config), provider.groups[k]);
      assert forall f :: f in Present(Checked(config), provider.groups[k]) ==> f in Checked(config);
    }
  }

  /** A config is sent unchanged exactly when it passes validation. */
  lemma SentUnchangedIff(provider: Provider, config: Config)
    requires WellFormed(provider)
    ensures AsConfig(Effective(provider, config, map[])) == config <==> Passes(provider, config)
  {
    RepairPasses(provider, config);
    if Passes(provider, config) {
      ValidSent(provider, config);
    }
  }

  /** Repairing what was sent changes nothing more. */
  lemma RepairIdempotent(provider: Provider, config: Config)
    requires WellFormed(provider)
    ensures AsConfig(Effective(provider, AsConfig(Effective(provider, config, map[])), map[]))
            == AsConfig(Effective(provider, config, map[]))
  {
    RepairPasses(provider, config);
    ValidSent(provider, AsConfig(Effective(provider, config, map[])));
  }
}
