/** A role's Claude Code settings (`chocofactoryd/src/claude_settings.rs`;
  * `chocofactoryd/src/role_config.rs`, lines 119 to 140;
  * `chocofactoryd/src/global_config.rs`, lines 47 to 102).
  */
module ClaudeSettings {
  import opened Wrappers
  import opened JsonValues

  // ---- YAML to JSON ----------------------------------------------------------------------

  /** JSON has no form for infinities and what is no number. */
  datatype YamlNumber = Finite(n: Numeral) | NonFinite

  datatype Yaml =
    | YNull | YBool(b: bool) | YNumber(n: YamlNumber) | YString(s: string)
    | YList(items: seq<Yaml>) | YMap(keys: seq<Yaml>, values: seq<Yaml>) | YTagged(value: Yaml)

  datatype ShapeError = NotAMapping(value: Yaml) | NonStringKey | Tag | NonFiniteNumber

  /** A mapping as the parser makes one: a value for every key, no key twice. */
  ghost predicate Parsed(y: Yaml) {
    match y
    case YList(items) => forall i :: 0 <= i < |items| ==> Parsed(items[i])
    case YMap(keys, values) =>
      && |keys| == |values|
      && (forall i, j :: 0 <= i < j < |keys| ==> keys[i] != keys[j])
      && (forall i :: 0 <= i < |values| ==> Parsed(values[i]))
    case YTagged(v) => Parsed(v)
    case _ => true
  }

  /** The JSON value `j` says what `y` says. */
  ghost predicate Same(y: Yaml, j: Json) {
    match y
    case YNull => j == Null
    case YBool(b) => j == Bool(b)
    case YNumber(n) => n.Finite? && j == Json.Number(n.n)
    case YString(s) => j == Str(s)
    case YList(items) =>
      j.Arr? && |j.items| == |items| && forall i :: 0 <= i < |items| ==> Same(items[i], j.items[i])
    case YMap(keys, values) =>
      && j.Obj? && |keys| == |values|
      && (forall i :: 0 <= i < |keys| ==> keys[i].YString? && keys[i].s in j.fields)
      && (forall k :: k in j.fields ==> YString(k) in keys)
      && (forall i :: 0 <= i < |keys| && keys[i].YString? && keys[i].s in j.fields ==> Same(values[i], j.fields[keys[i].s]))
    case YTagged(_) => false
  }

  /** Something `y` holds, at any depth, JSON has no form for. */
  ghost predicate Flawed(y: Yaml) {
    match y
    case YNumber(n) => n == NonFinite
    case YList(items) => exists i :: 0 <= i < |items| && Flawed(items[i])
    case YMap(keys, values) =>
      (exists i :: 0 <= i < |keys| && !keys[i].YString?) || (exists i :: 0 <= i < |values| && Flawed(values[i]))
    case YTagged(_) => true
    case _ => false
  }

  /** The flaw an error names is in `y`, at some depth. */
  ghost predicate Shows(y: Yaml, e: ShapeError) {
    match y
    case YNumber(n) => n == NonFinite && e == NonFiniteNumber
    case YList(items) => exists i :: 0 <= i < |items| && Shows(items[i], e)
    case YMap(keys, values) =>
      || (e == NonStringKey && exists i :: 0 <= i < |keys| && !keys[i].YString?)
      || (exists i :: 0 <= i < |values| && Shows(values[i], e))
    case YTagged(_) => e == Tag
    case _ => false
  }

  method Convert(y: Yaml) returns (r: Result<Json, ShapeError>)
    requires Parsed(y)
    ensures r.Ok? <==> !Flawed(y)
    ensures r.Ok? ==> Same(y, r.value)
    ensures r.Err? ==> Shows(y, r.error)
    decreases y
  {
    match y
    case YNull => r := Ok(Null);
    case YBool(b) => r := Ok(Bool(b));
    case YString(s) => r := Ok(Str(s));
    case YNumber(n) => r := if n == NonFinite then Err(NonFiniteNumber) else Ok(Json.Number(n.n));
    case YTagged(_) => r := Err(Tag);
    case YList(items) =>
      var out: seq<Json> := [];
      for i := 0 to |items|
        invariant |out| == i && forall k :: 0 <= k < i ==> !Flawed(items[k]) && Same(items[k], out[k])
      {
        var item := Convert(items[i]);
        if item.Err? {
          return item;
        }
        out := out + [item.value];
      }
      r := Ok(Arr(out));
    case YMap(keys, values) =>
      r := ConvertEntries(keys, values);
  }

  /** `fields` holds, under the first names, the values given for them, and nothing else. */
  ghost predicate Filed(keys: seq<Yaml>, given: seq<Json>, fields: map<string, Json>) {
    && |given| <= |keys|
    && (forall k :: 0 <= k < |given| ==> keys[k].YString? && keys[k].s in fields && fields[keys[k].s] == given[k])
    && (forall name :: name in fields ==> YString(name) in keys[..|given|])
  }

  lemma FiledNext(keys: seq<Yaml>, given: seq<Json>, fields: map<string, Json>, value: Json)
    requires Filed(keys, given, fields) && |given| < |keys| && keys[|given|].YString?
    requires forall i, j :: 0 <= i < j < |keys| ==> keys[i] != keys[j]
    ensures Filed(keys, given + [value], fields[keys[|given|].s := value])
  {
    var n := |given|;
    forall k | 0 <= k < n ensures keys[k].s != keys[n].s {
      assert keys[k] != keys[n];
    }
    forall name | name in fields[keys[n].s := value] ensures YString(name) in keys[..n + 1] {
      assert keys[..n + 1] == keys[..n] + [keys[n]];
    }
  }

  lemma FiledIsSame(keys: seq<Yaml>, values: seq<Yaml>, given: seq<Json>, fields: map<string, Json>)
    requires |keys| == |values| == |given| && Filed(keys, given, fields)
    requires forall k :: 0 <= k < |values| ==> Same(values[k], given[k])
    ensures Same(YMap(keys, values), Obj(fields))
  {
    assert keys[..|given|] == keys;
  }

  method ConvertEntries(keys: seq<Yaml>, values: seq<Yaml>) returns (r: Result<Json, ShapeError>)
    requires Parsed(YMap(keys, values))
    ensures r.Ok? <==> !Flawed(YMap(keys, values))
    ensures r.Ok? ==> Same(YMap(keys, values), r.value)
    ensures r.Err? ==> Shows(YMap(keys, values), r.error)
    decreases values
  {
    var fields: map<string, Json> := map[];
    ghost var given: seq<Json> := [];
    for i := 0 to |keys|
      invariant |given| == i && Filed(keys, given, fields)
      invariant forall k :: 0 <= k < i ==> !Flawed(values[k]) && Same(values[k], given[k])
    {
      if !keys[i].YString? {
        return Err(NonStringKey);
      }
      var value := Convert(values[i]);
      if value.Err? {
        return value;
      }
      FiledNext(keys, given, fields, value.value);
      fields := fields[keys[i].s := value.value];
      given := given + [value.value];
    }
    FiledIsSame(keys, values, given, fields);
    r := Ok(Obj(fields));
  }

  /** What a value says determines its JSON: there is one conversion, and a value
    * has it exactly when it holds nothing JSON cannot.
    */
  lemma {:induction false} OneConversion(y: Yaml, a: Json, b: Json)
    requires Same(y, a) && Same(y, b)
    ensures a == b && !Flawed(y)
    decreases y
  {
    match y
    case YList(items) =>
      forall i | 0 <= i < |items| ensures a.items[i] == b.items[i] && !Flawed(items[i]) {
        OneConversion(items[i], a.items[i], b.items[i]);
      }
      assert a.items == b.items;
    case YMap(keys, values) =>
      forall i | 0 <= i < |keys| ensures a.fields[keys[i].s] == b.fields[keys[i].s] && !Flawed(values[i]) {
        OneConversion(values[i], a.fields[keys[i].s], b.fields[keys[i].s]);
      }
      forall name ensures name in a.fields <==> name in b.fields {
        assert name in a.fields ==> YString(name) in keys;
        assert name in b.fields ==> YString(name) in keys;
      }
      forall name | name in a.fields ensures a.fields[name] == b.fields[name] {
        var i :| 0 <= i < |keys| && keys[i] == YString(name);
      }
      assert a.fields == b.fields;
    case _ =>
  }

  /** A `claude_settings` field: missing and `null` are empty, and only a mapping is more. */
  method FromYaml(value: Option<Yaml>) returns (r: Result<Fields, ShapeError>)
    requires value.Some? ==> Parsed(value.value)
    ensures value.None? || value.value.YNull? ==> r == Ok(map[])
    ensures value.Some? && value.value.YMap? ==> (r.Ok? <==> !Flawed(value.value))
    ensures value.Some? && value.value.YMap? ==>
      if r.Ok? then Same(value.value, Obj(r.value)) else Shows(value.value, r.error)
    ensures value.Some? && !value.value.YMap? && !value.value.YNull? ==> r == Err(NotAMapping(value.value))
  {
    if value.None? || value.value.YNull? {
      return Ok(map[]);
    }
    if !value.value.YMap? {
      return Err(NotAMapping(value.value));
    }
    var converted := Convert(value.value);
    r := if converted.Err? then Err(converted.error) else Ok(converted.value.fields);
  }

  // ---- Layers -------------------------------------------------------------------------------

  class Settings {
    var fields: Fields

    constructor (initial: Fields)
      ensures fields == initial
    {
      fields := initial;
    }

    /** Every top-level key of `layer` replaces this one's, whole. */
    method Overlay(layer: Fields)
      modifies this
      ensures forall key :: At(fields, key) == if key in layer then Some(layer[key]) else At(old(fields), key)
    {
      var left := layer.Keys;
      while left != {}
        invariant left <= layer.Keys
        invariant forall key :: At(fields, key) == if key in layer && key !in left then Some(layer[key]) else At(old(fields), key)
      {
        var key :| key in left;
        fields := fields[key := layer[key]];
        left := left - {key};
      }
    }

    method DropNullKeys()
      modifies this
      ensures forall key :: At(fields, key) == if At(old(fields), key) == Some(Null) then None else At(old(fields), key)
    {
      fields := map key | key in fields && fields[key] != Null :: fields[key];
    }
  }

  const WORKFLOW_ONLY: seq<string> := [
    "hooks", "disableAllHooks", "enabledPlugins", "extraKnownMarketplaces", "pluginConfigs", "outputStyle",
    "claudeMdExcludes", "enableAllProjectMcpServers", "enabledMcpjsonServers", "disabledMcpjsonServers"]

  /** The order of texts. */
  predicate AtMost(a: string, b: string) {
    a == "" || (b != "" && (a[0] < b[0] || (a[0] == b[0] && AtMost(a[1..], b[1..]))))
  }

  /** What the order is: a text comes before one it begins, and otherwise where they first differ,
    * the smaller character before the larger.
    */
  lemma {:induction false} AtMostSpelled(a: string, b: string, k: nat)
    requires k <= |a| && k <= |b| && a[..k] == b[..k]
    ensures k == |a| ==> AtMost(a, b)
    ensures k < |a| && (k == |b| || b[k] < a[k]) ==> !AtMost(a, b)
    ensures k < |a| && k < |b| && a[k] < b[k] ==> AtMost(a, b)
    decreases k
  {
    if k > 0 {
      assert a[0] == a[..k][0] == b[..k][0] == b[0];
      assert a[1..][..k - 1] == a[..k][1..] == b[..k][1..] == b[1..][..k - 1];
      AtMostSpelled(a[1..], b[1..], k - 1);
    }
  }

  lemma {:induction false} OneIsAtMost(a: string, b: string)
    ensures AtMost(a, b) || AtMost(b, a)
  {
    if a != "" && b != "" && a[0] == b[0] {
      OneIsAtMost(a[1..], b[1..]);
    }
  }

  lemma {:induction false} AtMostGoesOn(a: string, b: string, c: string)
    requires AtMost(a, b) && AtMost(b, c)
    ensures AtMost(a, c)
  {
    if a != "" && a[0] == b[0] == c[0] {
      AtMostGoesOn(a[1..], b[1..], c[1..]);
    }
  }

  predicate Sorted(keys: seq<string>) {
    forall i, j :: 0 <= i < j < |keys| ==> AtMost(keys[i], keys[j])
  }

  /** A key put where it belongs among sorted keys. */
  method InsertKey(keys: seq<string>, key: string) returns (r: seq<string>)
    requires Sorted(keys)
    ensures Sorted(r) && multiset(r) == multiset(keys) + multiset{key}
  {
    var k := |keys|;
    while k > 0 && !AtMost(keys[k - 1], key)
      invariant 0 <= k <= |keys|
      invariant forall i :: k <= i < |keys| ==> AtMost(key, keys[i])
    {
      OneIsAtMost(keys[k - 1], key);
      k := k - 1;
    }
    Inserted(keys, key, k);
    assert keys == keys[..k] + keys[k..];
    r := keys[..k] + [key] + keys[k..];
  }

  lemma Inserted(keys: seq<string>, key: string, k: nat)
    requires Sorted(keys) && k <= |keys| && (k > 0 ==> AtMost(keys[k - 1], key))
    requires forall i :: k <= i < |keys| ==> AtMost(key, keys[i])
    ensures Sorted(keys[..k] + [key] + keys[k..])
  {
    forall i | 0 <= i < k ensures AtMost(keys[i], key) {
      if i < k - 1 {
        AtMostGoesOn(keys[i], keys[k - 1], key);
      }
    }
  }

  /** The reserved keys that are set, as often as they are reserved. */
  function Offending(settings: Fields, reserved: seq<string>): seq<string> {
    if reserved == [] then []
    else
      var before, last := Offending(settings, reserved[..|reserved| - 1]), reserved[|reserved| - 1];
      if last in settings then before + [last] else before
  }

  lemma {:induction false} OffendingAreSet(settings: Fields, reserved: seq<string>, key: string)
    ensures key in multiset(Offending(settings, reserved)) <==> key in reserved && key in settings
  {
    if reserved != [] {
      var before, last := reserved[..|reserved| - 1], reserved[|reserved| - 1];
      OffendingAreSet(settings, before, key);
      assert reserved == before + [last];
    }
  }

  lemma {:induction false} OffendingNoMore(settings: Fields, reserved: seq<string>, key: string)
    ensures multiset(Offending(settings, reserved))[key] <= multiset(reserved)[key]
  {
    if reserved != [] {
      var before, last := reserved[..|reserved| - 1], reserved[|reserved| - 1];
      OffendingNoMore(settings, before, key);
      assert reserved == before + [last];
    }
  }

  ghost predicate NoneTwice(keys: seq<string>) {
    forall i, j :: 0 <= i < j < |keys| ==> keys[i] != keys[j]
  }

  lemma {:induction false} CountedOnce(keys: seq<string>)
    ensures NoneTwice(keys) <==> forall key :: multiset(keys)[key] <= 1
  {
    if keys != [] {
      var before, last := keys[..|keys| - 1], keys[|keys| - 1];
      assert keys == before + [last];
      CountedOnce(before);
      if !NoneTwice(keys) && NoneTwice(before) {
        var i, j :| 0 <= i < j < |keys| && keys[i] == keys[j];
        assert last in before;
        assert multiset(keys)[last] >= 2;
      }
      if key :| multiset(before)[key] > 1 {
        assert multiset(keys)[key] > 1;
      }
      if NoneTwice(keys) {
        assert last !in before;
      }
    }
  }

  lemma NamedOnce(settings: Fields, reserved: seq<string>, keys: seq<string>)
    requires NoneTwice(reserved) && multiset(keys) == multiset(Offending(settings, reserved))
    ensures NoneTwice(keys)
  {
    CountedOnce(reserved);
    CountedOnce(keys);
    forall key ensures multiset(keys)[key] <= 1 {
      OffendingNoMore(settings, reserved, key);
    }
  }

  method OffendingKeys(settings: Fields, reserved: seq<string>) returns (keys: seq<string>)
    ensures Sorted(keys) && multiset(keys) == multiset(Offending(settings, reserved))
    ensures forall key :: key in keys <==> key in reserved && key in settings
    ensures NoneTwice(reserved) ==> NoneTwice(keys)
  {
    keys := [];
    for i := 0 to |reserved|
      invariant Sorted(keys) && multiset(keys) == multiset(Offending(settings, reserved[..i]))
    {
      assert reserved[..i + 1][..i] == reserved[..i];
      if reserved[i] in settings {
        keys := InsertKey(keys, reserved[i]);
      }
    }
    assert reserved[..|reserved|] == reserved;
    if NoneTwice(reserved) {
      NamedOnce(settings, reserved, keys);
    }
    forall key ensures key in keys <==> key in reserved && key in settings {
      OffendingAreSet(settings, reserved, key);
      assert key in keys <==> key in multiset(keys);
    }
  }

  datatype Refusal = WorkflowOnly(keys: seq<string>)

  /** The value a key ends up with, if any: the workflow's if it sets the key, else the global
    * config's; `null` unsets.
    */
  ghost function Effective(workflow: Fields, global: Fields, key: string): Option<Json> {
    var v := if key in workflow then Some(workflow[key]) else At(global, key);
    if v == Some(Null) then None else v
  }

  /** What settings that were not refused come to. */
  ghost predicate Resolved(workflow: Fields, global: Option<Fields>, reserved: seq<string>, merged: Fields) {
    && (global.Some? ==> forall key :: key in reserved ==> key !in global.value)
    && forall key :: At(merged, key) == Effective(workflow, if global.Some? then global.value else map[], key)
  }

  method MergeLayers(workflow: Fields, global: Option<Fields>, reserved: seq<string>) returns (r: Result<Fields, Refusal>)
    ensures r.Err? <==> global.Some? && exists key :: key in reserved && key in global.value
    ensures r.Err? ==> forall key :: key in r.error.keys <==> key in reserved && key in global.value
    ensures r.Err? ==> Sorted(r.error.keys) && (NoneTwice(reserved) ==> NoneTwice(r.error.keys))
    ensures r.Ok? ==> Resolved(workflow, global, reserved, r.value)
  {
    var layer: Fields := map[];
    if global.Some? {
      var keys := OffendingKeys(global.value, reserved);
      if keys != [] {
        assert keys[0] in keys;
        return Err(WorkflowOnly(keys));
      }
      forall key | key in reserved ensures key !in global.value {
        assert key !in keys;
      }
      layer := global.value;
    }
    var merged := new Settings(layer);
    merged.Overlay(workflow);
    merged.DropNullKeys();
    r := Ok(merged.fields);
  }

  /** A key that runs code or changes what an agent loads. */
  predicate IsReserved(key: string) {
    || key == "hooks" || key == "disableAllHooks" || key == "enabledPlugins" || key == "extraKnownMarketplaces"
    || key == "pluginConfigs" || key == "outputStyle" || key == "claudeMdExcludes"
    || key == "enableAllProjectMcpServers" || key == "enabledMcpjsonServers" || key == "disabledMcpjsonServers"
  }

  lemma ReservedSpelled(key: string)
    ensures key in WORKFLOW_ONLY <==> IsReserved(key)
  {
    var w := WORKFLOW_ONLY;
    assert w[0] == "hooks" && w[1] == "disableAllHooks" && w[2] == "enabledPlugins" && w[3] == "extraKnownMarketplaces";
    assert w[4] == "pluginConfigs" && w[5] == "outputStyle" && w[6] == "claudeMdExcludes";
    assert w[7] == "enableAllProjectMcpServers" && w[8] == "enabledMcpjsonServers" && w[9] == "disabledMcpjsonServers";
  }

  /** By their lengths, and where those are the same by a character. */
  lemma ReservedOnce()
    ensures NoneTwice(WORKFLOW_ONLY)
  {
    var w := WORKFLOW_ONLY;
    assert |w[0]| == 5 && |w[1]| == 15 && |w[2]| == 14 && |w[3]| == 22 && |w[4]| == 13 && |w[5]| == 11;
    assert |w[6]| == 16 && |w[7]| == 26 && |w[8]| == 21 && |w[9]| == 22;
    assert w[3][0] == 'e' && w[9][0] == 'd';
  }

  /** No key that runs code reaches an agent but from its workflow, and no `null` does at all. */
  lemma ReservedKeysAreTheWorkflows(workflow: Fields, global: Option<Fields>, merged: Fields, key: string)
    requires Resolved(workflow, global, WORKFLOW_ONLY, merged)
    ensures At(merged, key) != Some(Null)
    ensures IsReserved(key) && key in merged ==> key in workflow && merged[key] == workflow[key]
  {
    ReservedSpelled(key);
    assert At(merged, key) == Effective(workflow, if global.Some? then global.value else map[], key);
  }

  /** The settings a role runs with. */
  method ResolveClaudeSettings(workflow: Fields, global: Option<Fields>) returns (r: Result<Fields, Refusal>)
    ensures r.Err? <==> global.Some? && exists key :: IsReserved(key) && key in global.value
    ensures r.Err? ==> forall key :: key in r.error.keys <==> IsReserved(key) && key in global.value
    ensures r.Err? ==> Sorted(r.error.keys) && NoneTwice(r.error.keys)
    ensures r.Ok? ==> Resolved(workflow, global, WORKFLOW_ONLY, r.value)
    ensures r.Ok? ==> forall key :: IsReserved(key) ==> At(r.value, key) == Effective(workflow, map[], key)
  {
    ReservedOnce();
    r := MergeLayers(workflow, global, WORKFLOW_ONLY);
    forall key ensures key in WORKFLOW_ONLY <==> IsReserved(key) {
      ReservedSpelled(key);
    }
    if r.Ok? {
      forall key | IsReserved(key) ensures At(r.value, key) == Effective(workflow, map[], key) {
        ReservedKeysAreTheWorkflows(workflow, global, r.value, key);
      }
    }
  }
}
