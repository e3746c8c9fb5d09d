/** From the command line's flags to the values a role runs with
  * (`choco/src/client.rs`, lines 140 to 282; `chocofactoryd/src/role_config.rs`,
  * lines 76 to 117 and 201 to 216).
  */
module ConfigPipeline {
  import opened Wrappers
  import opened JsonValues
  import opened TaskConfig

  // ---- The blob --------------------------------------------------------------------------

  /** What a config has at `roles.<role>.<key>`. */
  function RoleField(config: Json, role: string, key: string): Option<Json> {
    match config.Get("roles")
    case None => None
    case Some(roles) =>
      match roles.Get(role)
      case None => None
      case Some(entry) => entry.Get(key)
  }

  /** A role whose settings ask the daemon to read a prompt file. */
  predicate SmuggledIn(config: Json, role: string) {
    RoleField(config, role, "system_prompt_file").Some?
  }

  method RejectSmuggledPromptFile(config: Json) returns (r: Result<(), ConfigError>)
    ensures r.Ok? <==> forall role :: !SmuggledIn(config, role)
    ensures r.Err? ==> r.error.Smuggled? && SmuggledIn(config, r.error.role)
  {
    var roles := config.Get(ROLES);
    if roles.None? || !roles.value.Obj? {
      return Ok(());
    }
    var names := roles.value.fields.Keys;
    while names != {}
      invariant names <= roles.value.fields.Keys
      invariant forall role :: SmuggledIn(config, role) ==> role in names
    {
      var role :| role in names;
      if roles.value.fields[role].Get(PROMPT_FILE).Some? {
        assert SmuggledIn(config, role);
        return Err(Smuggled(role));
      }
      names := names - {role};
    }
    r := Ok(());
  }

  /** A blob that may be built on: none, or an object that smuggles nothing. */
  ghost predicate Acceptable(config: ConfigArg) {
    match config
    case NotGiven => true
    case NotJson => false
    case Given(v) => v.Obj? && forall role :: !SmuggledIn(v, role)
  }

  function Blob(config: ConfigArg): Fields {
    if config.Given? && config.value.Obj? then config.value.fields else map[]
  }

  method ReadBlob(config: ConfigArg) returns (r: Result<Fields, ConfigError>)
    ensures r.Ok? <==> Acceptable(config)
    ensures r.Ok? ==> r.value == Blob(config)
    ensures r.Err? ==> BlobError(r.error, config)
  {
    match config
    case NotGiven => r := Ok(map[]);
    case NotJson => r := Err(InvalidJson);
    case Given(v) =>
      if !v.Obj? {
        return Err(NotAnObject);
      }
      var clean := RejectSmuggledPromptFile(v);
      r := if clean.Err? then Err(clean.error) else Ok(v.fields);
  }

  ghost predicate BlobError(e: ConfigError, config: ConfigArg) {
    match e
    case InvalidJson => config.NotJson?
    case NotAnObject => config.Given? && !config.value.Obj?
    case Smuggled(role) => config.Given? && SmuggledIn(config.value, role)
    case _ => false
  }

  // ---- The flags, in order ------------------------------------------------------------------

  datatype Group = Group(values: seq<string>, field: Field, fromFile: bool)

  function Groups(o: Overrides): seq<Group> {
    [Group(o.roleCli, Cli, false), Group(o.roleModel, Model, false),
     Group(o.rolePrompt, SystemPrompt, false), Group(o.rolePromptFile, SystemPrompt, true)]
  }

  function FlagsOf(g: Group, k: nat): (flags: seq<Flag>)
    requires k <= |g.values|
    ensures |flags| == k
  {
    if k == 0 then [] else FlagsOf(g, k - 1) + [Flag(g.field, g.fromFile, g.values[k - 1])]
  }

  function AllOf(groups: seq<Group>): seq<Flag> {
    if groups == [] then []
    else AllOf(groups[..|groups| - 1]) + FlagsOf(groups[|groups| - 1], |groups[|groups| - 1].values|)
  }

  function AllFlags(o: Overrides): seq<Flag> { AllOf(Groups(o)) }

  /** What the error says of these flags is so. */
  ghost predicate FlagError(e: ConfigError, flags: seq<Flag>, files: Files) {
    match e
    case NoEquals(f) => f in flags && SplitRoleValue(f) == Err(e)
    case EmptyRole(f) => f in flags && SplitRoleValue(f) == Err(e)
    case EmptyValue(f) => f in flags && SplitRoleValue(f) == Err(e)
    case Unreadable(f) => f in flags && Setting(f, files) == Err(e)
    case Repeated(role, field) =>
      exists i, j :: 0 <= i < j < |flags| && IsFor(flags[i], role, field) && IsFor(flags[j], role, field)
    case _ => false
  }

  predicate IsFor(flag: Flag, role: string, field: Field) {
    flag.field == field && SplitRoleValue(flag).Ok? && SplitRoleValue(flag).value.role == role
  }

  type Taken = seq<(string, Field)>

  /** The fields the flags so far have set. */
  ghost predicate TakenBy(seen: Taken, done: seq<Flag>) {
    |seen| == |done| && forall i :: 0 <= i < |done| ==> IsFor(done[i], seen[i].0, seen[i].1)
  }

  /** How a config is being built: the flags done, on the blob. */
  ghost predicate Building(config: Fields, seen: Taken, base: Fields, done: seq<Flag>, files: Files) {
    Good(done, files) && config == PutFlags(base, done, files) && TakenBy(seen, done)
  }

  lemma SettingHasSplitRole(flag: Flag, files: Files)
    requires Setting(flag, files).Ok?
    ensures SplitRoleValue(flag).Ok? && Setting(flag, files).value.role == SplitRoleValue(flag).value.role
  {
  }

  lemma GoodOneMore(done: seq<Flag>, flag: Flag, files: Files, seen: Taken, role: string)
    requires Good(done, files) && TakenBy(seen, done) && Setting(flag, files).Ok?
    requires SplitRoleValue(flag).Ok? && SplitRoleValue(flag).value.role == role && (role, flag.field) !in seen
    ensures Good(done + [flag], files)
  {
    forall i | 0 <= i < |done| ensures !Clash(done[i], flag, files) {
      assert seen[i] in seen;
      if Setting(done[i], files).Ok? {
        SettingHasSplitRole(done[i], files);
      }
      SettingHasSplitRole(flag, files);
    }
  }

  lemma RepeatIsNotGood(flags: seq<Flag>, files: Files, i: nat, j: nat, role: string, field: Field)
    requires i < j < |flags| && IsFor(flags[i], role, field) && IsFor(flags[j], role, field)
    ensures !Good(flags, files)
  {
    if Good(flags, files) {
      assert !Clash(flags[i], flags[j], files);
      SettingHasSplitRole(flags[i], files);
      SettingHasSplitRole(flags[j], files);
      assert false;
    }
  }

  /** One flag: set, unless it is malformed, repeated, or its file cannot be read. */
  method TakeFlag(config: Fields, seen: Taken, flag: Flag, files: Files, ghost base: Fields, ghost done: seq<Flag>)
    returns (r: Result<Fields, ConfigError>, taken: Taken)
    requires Building(config, seen, base, done, files)
    ensures r.Ok? ==> Building(r.value, taken, base, done + [flag], files)
    ensures r.Err? ==> !Good(done + [flag], files) && FlagError(r.error, done + [flag], files)
  {
    taken := seen;
    ghost var all := done + [flag];
    assert all[|done|] == flag && flag in all;
    var split := SplitRoleValue(flag);
    if split.Err? {
      assert Setting(all[|done|], files).Err?;
      return Err(split.error), taken;
    }
    var role := split.value.role;
    if (role, flag.field) in seen {
      ghost var i :| 0 <= i < |seen| && seen[i] == (role, flag.field);
      assert IsFor(all[i], role, flag.field) && IsFor(all[|done|], role, flag.field);
      RepeatIsNotGood(all, files, i, |done|, role, flag.field);
      return Err(Repeated(role, flag.field)), taken;
    }
    taken := seen + [(role, flag.field)];
    var value := split.value.value;
    if flag.fromFile {
      var text := files(value);
      if text.None? {
        assert Setting(all[|done|], files).Err?;
        return Err(Unreadable(flag)), taken;
      }
      value := text.value;
    }
    GoodOneMore(done, flag, files, seen, role);
    PutsNext(base, done, flag, files);
    var updated := SetField(config, role, KeyOf(flag.field), value);
    r := Ok(updated);
  }

  lemma PutsNext(base: Fields, done: seq<Flag>, flag: Flag, files: Files)
    ensures PutFlags(base, done + [flag], files) == PutFlag(PutFlags(base, done, files), flag, files)
  {
    assert (done + [flag])[..|done|] == done;
  }

  /** Each level is replaced if it is no object. */
  method SetField(before: Fields, role: string, key: string, value: string) returns (config: Fields)
    ensures config == Put(before, role, key, value)
  {
    config := before;
    if ROLES !in config || !config[ROLES].Obj? {
      config := config[ROLES := Obj(map[])];
    }
    var roles := config[ROLES].fields;
    if role !in roles || !roles[role].Obj? {
      roles := roles[role := Obj(map[])];
    }
    roles := roles[role := Obj(roles[role].fields[key := Str(value)])];
    config := config[ROLES := Obj(roles)];
    SameField(before, role, key, value, config);
  }

  lemma SameField(before: Fields, role: string, key: string, value: string, config: Fields)
    requires config.Keys == before.Keys + {ROLES}
    requires forall k :: k in before && k != ROLES ==> config[k] == before[k]
    requires config[ROLES].Obj?
    requires var roles, was := config[ROLES].fields, Members(At(before, ROLES));
      && roles.Keys == was.Keys + {role} && (forall k :: k in was && k != role ==> roles[k] == was[k])
      && roles[role] == Obj(Members(At(was, role))[key := Str(value)])
    ensures config == Put(before, role, key, value)
  {
    var was := Members(At(before, ROLES));
    assert config[ROLES].fields == was[role := Obj(Members(At(was, role))[key := Str(value)])];
  }

  lemma GoodPart(a: seq<Flag>, b: seq<Flag>, files: Files)
    requires Good(a + b, files)
    ensures Good(a, files)
  {
    forall i | 0 <= i < |a| ensures Setting(a[i], files).Ok? {
      assert (a + b)[i] == a[i];
    }
    forall i, j | 0 <= i < j < |a| ensures !Clash(a[i], a[j], files) {
      assert !Clash((a + b)[i], (a + b)[j], files);
    }
  }

  lemma ErrorOfPart(e: ConfigError, a: seq<Flag>, b: seq<Flag>, files: Files)
    requires FlagError(e, a, files)
    ensures FlagError(e, a + b, files)
  {
    if e.Repeated? {
      var i, j :| 0 <= i < j < |a| && IsFor(a[i], e.role, e.field) && IsFor(a[j], e.role, e.field);
      assert IsFor((a + b)[i], e.role, e.field) && IsFor((a + b)[j], e.role, e.field);
    }
  }

  lemma {:induction false} FlagsOfBegin(g: Group, k: nat, n: nat) returns (rest: seq<Flag>)
    requires k <= n <= |g.values|
    ensures FlagsOf(g, n) == FlagsOf(g, k) + rest
  {
    rest := [];
    if k < n {
      var before := FlagsOfBegin(g, k, n - 1);
      rest := before + [Flag(g.field, g.fromFile, g.values[n - 1])];
    }
  }

  /** A failure among the first flags of a group fails the whole. */
  lemma FailedEarly(e: ConfigError, done: seq<Flag>, g: Group, k: nat, files: Files)
    requires k <= |g.values| && !Good(done + FlagsOf(g, k), files) && FlagError(e, done + FlagsOf(g, k), files)
    ensures !Good(done + FlagsOf(g, |g.values|), files) && FlagError(e, done + FlagsOf(g, |g.values|), files)
  {
    var rest := FlagsOfBegin(g, k, |g.values|);
    assert done + FlagsOf(g, |g.values|) == (done + FlagsOf(g, k)) + rest;
    ErrorOfPart(e, done + FlagsOf(g, k), rest, files);
    if Good(done + FlagsOf(g, |g.values|), files) {
      GoodPart(done + FlagsOf(g, k), rest, files);
      assert false;
    }
  }

  lemma FlagsNext(g: Group, k: nat, done: seq<Flag>)
    requires k < |g.values|
    ensures done + FlagsOf(g, k + 1) == (done + FlagsOf(g, k)) + [Flag(g.field, g.fromFile, g.values[k])]
  {
  }

  /** The next flag of a group. */
  method TakeNext(config: Fields, seen: Taken, g: Group, k: nat, files: Files, ghost base: Fields, ghost done: seq<Flag>)
    returns (r: Result<Fields, ConfigError>, taken: Taken)
    requires k < |g.values| && Building(config, seen, base, done + FlagsOf(g, k), files)
    ensures r.Ok? ==> Building(r.value, taken, base, done + FlagsOf(g, k + 1), files)
    ensures r.Err? ==> !Good(done + FlagsOf(g, k + 1), files) && FlagError(r.error, done + FlagsOf(g, k + 1), files)
  {
    FlagsNext(g, k, done);
    r, taken := TakeFlag(config, seen, Flag(g.field, g.fromFile, g.values[k]), files, base, done + FlagsOf(g, k));
  }

  method TakeGroup(config: Fields, seen: Taken, g: Group, files: Files, ghost base: Fields, ghost done: seq<Flag>)
    returns (r: Result<Fields, ConfigError>, taken: Taken)
    requires Building(config, seen, base, done, files)
    ensures r.Ok? ==> Building(r.value, taken, base, done + FlagsOf(g, |g.values|), files)
    ensures r.Err? ==> !Good(done + FlagsOf(g, |g.values|), files) && FlagError(r.error, done + FlagsOf(g, |g.values|), files)
  {
    r, taken := Ok(config), seen;
    assert done + FlagsOf(g, 0) == done;
    for k := 0 to |g.values|
      invariant r.Ok? && Building(r.value, taken, base, done + FlagsOf(g, k), files)
    {
      r, taken := TakeNext(r.value, taken, g, k, files, base, done);
      if r.Err? {
        FailedEarly(r.error, done, g, k + 1, files);
        return;
      }
    }
  }

  lemma {:induction false} AllOfBegin(groups: seq<Group>, k: nat) returns (rest: seq<Flag>)
    requires k <= |groups|
    ensures AllOf(groups) == AllOf(groups[..k]) + rest
  {
    rest := [];
    if k < |groups| {
      var before := groups[..|groups| - 1];
      assert before[..k] == groups[..k];
      var some := AllOfBegin(before, k);
      rest := some + FlagsOf(groups[|groups| - 1], |groups[|groups| - 1].values|);
    } else {
      assert groups[..k] == groups;
    }
  }

  lemma AllOfNext(groups: seq<Group>, k: nat)
    requires k < |groups|
    ensures AllOf(groups[..k + 1]) == AllOf(groups[..k]) + FlagsOf(groups[k], |groups[k].values|)
  {
    var next := groups[..k + 1];
    assert next[..|next| - 1] == groups[..k];
  }

  method TakeGroups(base: Fields, groups: seq<Group>, files: Files) returns (r: Result<Fields, ConfigError>)
    ensures r.Ok? <==> Good(AllOf(groups), files)
    ensures r.Ok? ==> r.value == PutFlags(base, AllOf(groups), files)
    ensures r.Err? ==> FlagError(r.error, AllOf(groups), files)
  {
    r := Ok(base);
    var seen: Taken := [];
    assert groups[..0] == [];
    for k := 0 to |groups|
      invariant r.Ok? && Building(r.value, seen, base, AllOf(groups[..k]), files)
    {
      AllOfNext(groups, k);
      r, seen := TakeGroup(r.value, seen, groups[k], files, base, AllOf(groups[..k]));
      if r.Err? {
        var rest := AllOfBegin(groups, k + 1);
        ErrorOfPart(r.error, AllOf(groups[..k + 1]), rest, files);
        if Good(AllOf(groups), files) {
          GoodPart(AllOf(groups[..k + 1]), rest, files);
        }
        return;
      }
    }
    assert groups[..|groups|] == groups;
  }

  // ---- The config sent ------------------------------------------------------------------------

  function WithCwd(config: Fields, repo: Option<string>): Fields {
    match repo
    case None => config
    case Some(cwd) => config[CWD := Str(cwd)]
  }

  /** Nothing is sent rather than an empty object. */
  function Sent(config: Fields): Option<Json> {
    if config == map[] then None else Some(Obj(config))
  }

  /** What good flags make of a blob. */
  function Built(o: Overrides, repo: Option<string>, files: Files): Option<Json> {
    Sent(WithCwd(PutFlags(Blob(o.config), AllFlags(o), files), repo))
  }

  /** No config reads as `null`. */
  function AsTask(sent: Option<Json>): Json {
    match sent
    case None => Null
    case Some(j) => j
  }

  method BuildTaskConfig(o: Overrides, repo: Option<string>, files: Files) returns (r: Result<Option<Json>, ConfigError>)
    ensures r.Ok? <==> Acceptable(o.config) && WellGiven(o, files)
    ensures r.Ok? <==> Acceptable(o.config) && Good(AllFlags(o), files)
    ensures r.Ok? ==> r.value == Built(o, repo, files)
    ensures r.Ok? ==> SaysWhatWasAsked(o, repo, files, AsTask(r.value))
    ensures r.Ok? && r.value.Some? ==> r.value.value.Obj? && r.value.value.fields != map[]
    ensures r.Err? ==> BlobError(r.error, o.config) || FlagError(r.error, AllFlags(o), files)
  {
    GoodIsWellGiven(o, files);
    var blob := ReadBlob(o.config);
    if blob.Err? {
      return Err(blob.error);
    }
    var flagged := TakeGroups(blob.value, Groups(o), files);
    if flagged.Err? {
      return Err(flagged.error);
    }
    BuiltIsAsAsked(o, repo, files);
    var config := flagged.value;
    if repo.Some? {
      config := config[CWD := Str(repo.value)];
    }
    if config == map[] {
      return Ok(None);
    }
    r := Ok(Some(Obj(config)));
  }

  // ---- What each option does -------------------------------------------------------------------

  /** `raw` is a role without `=`, an `=`, and a value, neither empty. */
  predicate Says(raw: string, role: string, value: string) {
    raw == role + "=" + value && role != "" && value != "" && '=' !in role
  }

  ghost predicate SaysFor(raw: string, role: string) {
    exists value :: Says(raw, role, value)
  }

  ghost predicate Names(values: seq<string>, role: string) {
    exists raw :: raw in values && SaysFor(raw, role)
  }

  /** Each of these says what its role has at `key`. */
  ghost predicate SetsEach(values: seq<string>, key: string, config: Json) {
    forall raw, role, value :: raw in values && Says(raw, role, value) ==> RoleField(config, role, key) == Some(Str(value))
  }

  /** Each of these names the file whose text its role has at `key`. */
  ghost predicate SetsEachFrom(values: seq<string>, key: string, files: Files, config: Json) {
    forall raw, role, name :: raw in values && Says(raw, role, name) ==>
      files(name).Some? && RoleField(config, role, key) == Some(Str(files(name).value))
  }

  /** A role no `--role-` option names for this key. */
  ghost predicate NoneNames(o: Overrides, role: string, key: string) {
    && (key == "cli" ==> !Names(o.roleCli, role)) && (key == "model" ==> !Names(o.roleModel, role))
    && (key == "system_prompt" ==> !Names(o.rolePrompt, role) && !Names(o.rolePromptFile, role))
  }

  /** The config the daemon is sent, spelled out: what each option sets, and all else as in the blob. */
  ghost predicate SaysWhatWasAsked(o: Overrides, repo: Option<string>, files: Files, config: Json) {
    var blob := if o.config.Given? then o.config.value else Null;
    && SetsEach(o.roleCli, "cli", config) && SetsEach(o.roleModel, "model", config)
    && SetsEach(o.rolePrompt, "system_prompt", config) && SetsEachFrom(o.rolePromptFile, "system_prompt", files, config)
    && (forall role, key :: NoneNames(o, role, key) ==> RoleField(config, role, key) == RoleField(blob, role, key))
    && config.Get("cwd") == (if repo.Some? then Some(Str(repo.value)) else blob.Get("cwd"))
    && (forall part :: part != "roles" && part != "cwd" ==> config.Get(part) == blob.Get(part))
  }

  lemma {:induction false} FlagsOfSpelled(g: Group, k: nat, flag: Flag)
    requires k <= |g.values|
    ensures flag in FlagsOf(g, k) <==> flag.field == g.field && flag.fromFile == g.fromFile && flag.raw in g.values[..k]
  {
    if k > 0 {
      FlagsOfSpelled(g, k - 1, flag);
      PrefixNext(g.values, k);
    }
  }

  lemma GroupSpelled(g: Group, flag: Flag)
    ensures flag in FlagsOf(g, |g.values|) <==> flag.field == g.field && flag.fromFile == g.fromFile && flag.raw in g.values
  {
    FlagsOfSpelled(g, |g.values|, flag);
    assert g.values[..|g.values|] == g.values;
  }

  lemma {:induction false} AllOfSpelled(groups: seq<Group>, flag: Flag)
    ensures flag in AllOf(groups) <==>
      exists k :: 0 <= k < |groups| && InGroup(groups[k], flag) && flag.raw in groups[k].values
  {
    if groups != [] {
      var before, last := groups[..|groups| - 1], groups[|groups| - 1];
      AllOfSpelled(before, flag);
      GroupSpelled(last, flag);
      assert forall k :: 0 <= k < |before| ==> before[k] == groups[k];
    }
  }

  /** Which options the flags come from. */
  lemma FlagsSpelled(o: Overrides, flag: Flag)
    ensures flag in AllFlags(o) <==>
      match flag.field
      case Cli => !flag.fromFile && flag.raw in o.roleCli
      case Model => !flag.fromFile && flag.raw in o.roleModel
      case SystemPrompt => flag.raw in if flag.fromFile then o.rolePromptFile else o.rolePrompt
  {
    var gs := Groups(o);
    AllOfSpelled(gs, flag);
    assert gs[0] == Group(o.roleCli, Cli, false) && gs[1] == Group(o.roleModel, Model, false);
    assert gs[2] == Group(o.rolePrompt, SystemPrompt, false) && gs[3] == Group(o.rolePromptFile, SystemPrompt, true);
  }

  lemma FieldOfSent(config: Fields, role: string, key: string)
    ensures RoleField(AsTask(Sent(config)), role, key) == Value(config, role, key)
  {
  }

  lemma PartOfSent(config: Fields, repo: Option<string>, part: string)
    ensures AsTask(Sent(WithCwd(config, repo))).Get(part)
         == if part == "cwd" && repo.Some? then Some(Str(repo.value)) else At(config, part)
  {
    var c := WithCwd(config, repo);
    assert At(c, part) == if part == "cwd" && repo.Some? then Some(Str(repo.value)) else At(config, part);
    assert AsTask(Sent(c)).Get(part) == At(c, part);
  }

  /** A flag that is given is what the config sent says. */
  lemma FlagIsSent(o: Overrides, repo: Option<string>, files: Files, flag: Flag, role: string, value: string)
    requires Good(AllFlags(o), files) && flag in AllFlags(o) && Says(flag.raw, role, value)
    ensures Setting(flag, files).Ok? && Setting(flag, files).value.role == role
    ensures RoleField(AsTask(Built(o, repo, files)), role, KeyOf(flag.field)) == Some(Str(Setting(flag, files).value.value))
  {
    var flags := AllFlags(o);
    var i :| 0 <= i < |flags| && flags[i] == flag;
    SplitsOneWay(flag, role, value);
    var config := PutFlags(Blob(o.config), flags, files);
    FlagsAreKept(Blob(o.config), flags, files, i);
    CwdIsApart(config, repo, role, KeyOf(flag.field));
    FieldOfSent(WithCwd(config, repo), role, KeyOf(flag.field));
  }

  lemma KeysSpelled(f: Field)
    ensures KeyOf(f) == match f case Cli => "cli" case Model => "model" case SystemPrompt => "system_prompt"
    ensures "cli" != "model" && "cli" != "system_prompt" && "model" != "system_prompt"
  {
    assert |"cli"| == 3 && |"model"| == 5 && |"system_prompt"| == 13;
  }

  /** What no option names is as the blob had it. */
  lemma RestIsSent(o: Overrides, repo: Option<string>, files: Files, role: string, key: string)
    requires Acceptable(o.config) && NoneNames(o, role, key)
    ensures RoleField(AsTask(Built(o, repo, files)), role, key)
         == RoleField(if o.config.Given? then o.config.value else Null, role, key)
  {
    var flags := AllFlags(o);
    var config := PutFlags(Blob(o.config), flags, files);
    forall i | 0 <= i < |flags| ensures !Sets(flags[i], files, role, key) {
      if Sets(flags[i], files, role, key) {
        FlagsSpelled(o, flags[i]);
        KeysSpelled(flags[i].field);
        SettingHasSplitRole(flags[i], files);
        SplitsOneWay(flags[i], role, SplitRoleValue(flags[i]).value.value);
        assert Says(flags[i].raw, role, SplitRoleValue(flags[i]).value.value);
      }
    }
    OthersAreKept(Blob(o.config), flags, files, role, key);
    CwdIsApart(config, repo, role, key);
    FieldOfSent(WithCwd(config, repo), role, key);
  }

  lemma PartIsSent(o: Overrides, repo: Option<string>, files: Files, part: string)
    requires Acceptable(o.config) && part != "roles"
    ensures AsTask(Built(o, repo, files)).Get(part)
         == if part == "cwd" && repo.Some? then Some(Str(repo.value))
            else (if o.config.Given? then o.config.value else Null).Get(part)
  {
    PartsAreKept(Blob(o.config), AllFlags(o), files, part);
    PartOfSent(PutFlags(Blob(o.config), AllFlags(o), files), repo, part);
  }

  lemma ValuesAreSent(o: Overrides, repo: Option<string>, files: Files, values: seq<string>, f: Field)
    requires Good(AllFlags(o), files)
    requires values == match f case Cli => o.roleCli case Model => o.roleModel case SystemPrompt => o.rolePrompt
    ensures SetsEach(values, KeyOf(f), AsTask(Built(o, repo, files)))
  {
    var config := AsTask(Built(o, repo, files));
    forall raw, role, value | raw in values && Says(raw, role, value)
      ensures RoleField(config, role, KeyOf(f)) == Some(Str(value))
    {
      var flag := Flag(f, false, raw);
      FlagsSpelled(o, flag);
      SplitsOneWay(flag, role, value);
      FlagIsSent(o, repo, files, flag, role, value);
    }
  }

  lemma FilesAreSent(o: Overrides, repo: Option<string>, files: Files)
    requires Good(AllFlags(o), files)
    ensures SetsEachFrom(o.rolePromptFile, KeyOf(SystemPrompt), files, AsTask(Built(o, repo, files)))
  {
    var config := AsTask(Built(o, repo, files));
    forall raw, role, name | raw in o.rolePromptFile && Says(raw, role, name)
      ensures files(name).Some? && RoleField(config, role, KeyOf(SystemPrompt)) == Some(Str(files(name).value))
    {
      var flag := Flag(SystemPrompt, true, raw);
      FlagsSpelled(o, flag);
      SplitsOneWay(flag, role, name);
      FlagIsSent(o, repo, files, flag, role, name);
    }
  }

  lemma BuiltIsAsAsked(o: Overrides, repo: Option<string>, files: Files)
    requires Acceptable(o.config) && Good(AllFlags(o), files)
    ensures SaysWhatWasAsked(o, repo, files, AsTask(Built(o, repo, files)))
  {
    KeysSpelled(Cli);
    KeysSpelled(Model);
    KeysSpelled(SystemPrompt);
    ValuesAreSent(o, repo, files, o.roleCli, Cli);
    ValuesAreSent(o, repo, files, o.roleModel, Model);
    ValuesAreSent(o, repo, files, o.rolePrompt, SystemPrompt);
    FilesAreSent(o, repo, files);
    var config, blob := AsTask(Built(o, repo, files)), if o.config.Given? then o.config.value else Null;
    forall role, key | NoneNames(o, role, key) ensures RoleField(config, role, key) == RoleField(blob, role, key) {
      RestIsSent(o, repo, files, role, key);
    }
    assert |"roles"| == 5 && |"cwd"| == 3;
    forall part | part != "roles"
      ensures config.Get(part) == if part == "cwd" && repo.Some? then Some(Str(repo.value)) else blob.Get(part)
    {
      PartIsSent(o, repo, files, part);
    }
  }

  // ---- Which options are accepted ---------------------------------------------------------------

  /** Each is a role and a value, and no role is named twice. */
  ghost predicate OncePerRole(values: seq<string>) {
    && (forall i :: 0 <= i < |values| ==> NamesARole(values[i]))
    && forall i, j :: 0 <= i < j < |values| ==> !SameRole(values[i], values[j])
  }

  ghost predicate NamesARole(raw: string) {
    exists role :: SaysFor(raw, role)
  }

  ghost predicate SameRole(a: string, b: string) {
    exists role :: SaysFor(a, role) && SaysFor(b, role)
  }

  /** Every option is well formed, no field is given twice for a role, be it as text or as a
    * file, and every file can be read.
    */
  ghost predicate WellGiven(o: Overrides, files: Files) {
    && OncePerRole(o.roleCli) && OncePerRole(o.roleModel) && OncePerRole(o.rolePrompt + o.rolePromptFile)
    && Readable(o.rolePromptFile, files)
  }

  ghost predicate Readable(values: seq<string>, files: Files) {
    forall raw, role, name :: raw in values && Says(raw, role, name) ==> files(name).Some?
  }

  lemma SaysForItsRole(flag: Flag, role: string)
    ensures SaysFor(flag.raw, role) <==> SplitRoleValue(flag).Ok? && SplitRoleValue(flag).value.role == role
  {
    forall value ensures Says(flag.raw, role, value) <==> SplitRoleValue(flag) == Ok(RoleValue(role, value)) {
      SplitsOneWay(flag, role, value);
    }
    if SplitRoleValue(flag).Ok? && SplitRoleValue(flag).value.role == role {
      assert Says(flag.raw, role, SplitRoleValue(flag).value.value);
    }
  }

  lemma {:induction false} FlagsOfAt(g: Group, k: nat, i: nat)
    requires i < k <= |g.values|
    ensures FlagsOf(g, k)[i] == Flag(g.field, g.fromFile, g.values[i])
  {
    if i < k - 1 {
      FlagsOfAt(g, k - 1, i);
    }
  }

  /** Flags for one field, as text or as files. */
  ghost predicate ForOneField(flags: seq<Flag>, values: seq<string>, f: Field) {
    |flags| == |values| && forall i :: 0 <= i < |flags| ==> flags[i].field == f && flags[i].raw == values[i]
  }

  lemma GroupIsForOneField(g: Group)
    ensures ForOneField(FlagsOf(g, |g.values|), g.values, g.field)
  {
    forall i | 0 <= i < |g.values| ensures FlagsOf(g, |g.values|)[i] == Flag(g.field, g.fromFile, g.values[i]) {
      FlagsOfAt(g, |g.values|, i);
    }
  }

  ghost predicate AllRead(flags: seq<Flag>, files: Files) {
    forall i :: 0 <= i < |flags| && SplitRoleValue(flags[i]).Ok? ==> Setting(flags[i], files).Ok?
  }

  lemma ClashesByRole(a: Flag, b: Flag, files: Files)
    requires Setting(a, files).Ok? && Setting(b, files).Ok? && a.field == b.field
    ensures Clash(a, b, files) <==> SameRole(a.raw, b.raw)
  {
    SettingHasSplitRole(a, files);
    SettingHasSplitRole(b, files);
    var role := SplitRoleValue(a).value.role;
    SaysForItsRole(a, role);
    assert SaysFor(a.raw, role);
    forall role ensures SaysFor(a.raw, role) <==> role == SplitRoleValue(a).value.role {
      SaysForItsRole(a, role);
    }
    forall role ensures SaysFor(b.raw, role) <==> role == SplitRoleValue(b).value.role {
      SaysForItsRole(b, role);
    }
  }

  lemma SettingsOk(flags: seq<Flag>, values: seq<string>, f: Field, files: Files, i: nat)
    requires ForOneField(flags, values, f) && i < |flags|
    ensures Setting(flags[i], files).Ok? <==>
      NamesARole(values[i]) && (SplitRoleValue(flags[i]).Ok? ==> Setting(flags[i], files).Ok?)
  {
    if SplitRoleValue(flags[i]).Ok? {
      SaysForItsRole(flags[i], SplitRoleValue(flags[i]).value.role);
    } else {
      forall role ensures !SaysFor(values[i], role) {
        SaysForItsRole(flags[i], role);
      }
    }
  }

  lemma GoodForOneField(flags: seq<Flag>, values: seq<string>, f: Field, files: Files)
    requires ForOneField(flags, values, f)
    ensures Good(flags, files) <==> OncePerRole(values) && AllRead(flags, files)
  {
    forall i | 0 <= i < |flags|
      ensures Setting(flags[i], files).Ok? <==>
        NamesARole(values[i]) && (SplitRoleValue(flags[i]).Ok? ==> Setting(flags[i], files).Ok?)
    {
      SettingsOk(flags, values, f, files, i);
    }
    if forall i :: 0 <= i < |flags| ==> Setting(flags[i], files).Ok? {
      forall i, j | 0 <= i < j < |flags| ensures Clash(flags[i], flags[j], files) <==> SameRole(values[i], values[j]) {
        ClashesByRole(flags[i], flags[j], files);
      }
    }
  }

  /** Flags for different fields are good together if they are good apart. */
  lemma GoodApart(a: seq<Flag>, b: seq<Flag>, files: Files)
    requires forall x, y :: x in a && y in b ==> x.field != y.field
    ensures Good(a + b, files) <==> Good(a, files) && Good(b, files)
  {
    var all := a + b;
    if Good(all, files) {
      GoodPart(a, b, files);
      forall i | 0 <= i < |b| ensures Setting(b[i], files).Ok? {
        assert all[|a| + i] == b[i];
      }
      forall i, j | 0 <= i < j < |b| ensures !Clash(b[i], b[j], files) {
        assert !Clash(all[|a| + i], all[|a| + j], files);
      }
    }
    if Good(a, files) && Good(b, files) {
      forall i, j | 0 <= i < j < |all| ensures !Clash(all[i], all[j], files) {
        if j < |a| {
          assert !Clash(a[i], a[j], files);
        } else if i >= |a| {
          assert !Clash(b[i - |a|], b[j - |a|], files);
        } else {
          assert all[i] in a && all[j] in b;
        }
      }
    }
  }

  lemma FourParts(a: seq<Flag>, b: seq<Flag>, c: seq<Flag>, d: seq<Flag>)
    ensures [] + a + b + c + d == a + (b + (c + d))
  {
  }

  lemma FourGroups(gs: seq<Group>, a: seq<Flag>, b: seq<Flag>, c: seq<Flag>, d: seq<Flag>)
    requires |gs| == 4 && a == FlagsOf(gs[0], |gs[0].values|) && b == FlagsOf(gs[1], |gs[1].values|)
    requires c == FlagsOf(gs[2], |gs[2].values|) && d == FlagsOf(gs[3], |gs[3].values|)
    ensures AllOf(gs) == a + (b + (c + d))
  {
    AllOfNext(gs, 0);
    AllOfNext(gs, 1);
    AllOfNext(gs, 2);
    AllOfNext(gs, 3);
    assert gs[..0] == [] && gs[..4] == gs;
    FourParts(a, b, c, d);
  }

  lemma TextsAreRead(flags: seq<Flag>, files: Files)
    requires forall i :: 0 <= i < |flags| ==> !flags[i].fromFile
    ensures AllRead(flags, files)
  {
  }

  lemma FilesAreRead(g: Group, files: Files)
    requires g.fromFile
    ensures AllRead(FlagsOf(g, |g.values|), files) <==> Readable(g.values, files)
  {
    var flags := FlagsOf(g, |g.values|);
    forall i | 0 <= i < |flags| ensures flags[i] == Flag(g.field, true, g.values[i]) {
      FlagsOfAt(g, |g.values|, i);
    }
    forall raw, role, name ensures Says(raw, role, name) <==> SplitRoleValue(Flag(g.field, true, raw)) == Ok(RoleValue(role, name)) {
      SplitsOneWay(Flag(g.field, true, raw), role, name);
    }
    if AllRead(flags, files) {
      forall raw, role, name | raw in g.values && Says(raw, role, name) ensures files(name).Some? {
        var i :| 0 <= i < |g.values| && g.values[i] == raw;
        assert Setting(flags[i], files).Ok?;
      }
    } else {
      var i :| 0 <= i < |flags| && SplitRoleValue(flags[i]).Ok? && Setting(flags[i], files).Err?;
      var rv := SplitRoleValue(flags[i]).value;
      assert g.values[i] in g.values && Says(g.values[i], rv.role, rv.value);
    }
  }

  lemma GoodTexts(g: Group, files: Files)
    requires !g.fromFile
    ensures Good(FlagsOf(g, |g.values|), files) <==> OncePerRole(g.values)
  {
    GroupIsForOneField(g);
    forall i | 0 <= i < |g.values| ensures !FlagsOf(g, |g.values|)[i].fromFile {
      FlagsOfAt(g, |g.values|, i);
    }
    TextsAreRead(FlagsOf(g, |g.values|), files);
    GoodForOneField(FlagsOf(g, |g.values|), g.values, g.field, files);
  }

  lemma AllReadJoins(a: seq<Flag>, b: seq<Flag>, files: Files)
    ensures AllRead(a + b, files) <==> AllRead(a, files) && AllRead(b, files)
  {
    var all := a + b;
    assert forall i :: 0 <= i < |a| ==> all[i] == a[i];
    assert forall i :: 0 <= i < |b| ==> all[|a| + i] == b[i];
  }

  lemma OneFieldJoins(a: seq<Flag>, b: seq<Flag>, va: seq<string>, vb: seq<string>, f: Field)
    requires ForOneField(a, va, f) && ForOneField(b, vb, f)
    ensures ForOneField(a + b, va + vb, f)
  {
  }

  lemma PromptsAreRead(c: Group, d: Group, files: Files)
    requires !c.fromFile && d.fromFile
    ensures AllRead(FlagsOf(c, |c.values|) + FlagsOf(d, |d.values|), files) <==> Readable(d.values, files)
  {
    var a := FlagsOf(c, |c.values|);
    forall i | 0 <= i < |a| ensures !a[i].fromFile {
      FlagsOfAt(c, |c.values|, i);
    }
    TextsAreRead(a, files);
    FilesAreRead(d, files);
    AllReadJoins(a, FlagsOf(d, |d.values|), files);
  }

  /** Prompts given as text and as files count together. */
  lemma GoodPrompts(c: Group, d: Group, files: Files)
    requires !c.fromFile && d.fromFile && c.field == d.field
    ensures Good(FlagsOf(c, |c.values|) + FlagsOf(d, |d.values|), files) <==>
      OncePerRole(c.values + d.values) && Readable(d.values, files)
  {
    var a, b := FlagsOf(c, |c.values|), FlagsOf(d, |d.values|);
    GroupIsForOneField(c);
    GroupIsForOneField(d);
    OneFieldJoins(a, b, c.values, d.values, c.field);
    PromptsAreRead(c, d, files);
    GoodForOneField(a + b, c.values + d.values, c.field, files);
  }

  lemma GoodIsWellGiven(o: Overrides, files: Files)
    ensures Good(AllFlags(o), files) <==> WellGiven(o, files)
  {
    var a, b := Group(o.roleCli, Cli, false), Group(o.roleModel, Model, false);
    var c, d := Group(o.rolePrompt, SystemPrompt, false), Group(o.rolePromptFile, SystemPrompt, true);
    var fa, fb, fc, fd := FlagsOf(a, |a.values|), FlagsOf(b, |b.values|), FlagsOf(c, |c.values|), FlagsOf(d, |d.values|);
    FourGroups(Groups(o), fa, fb, fc, fd);
    forall x ensures (x in fa ==> x.field == Cli) && (x in fb ==> x.field == Model) && (x in fc || x in fd ==> x.field == SystemPrompt) {
      GroupSpelled(a, x);
      GroupSpelled(b, x);
      GroupSpelled(c, x);
      GroupSpelled(d, x);
    }
    GoodApart(fa, fb + (fc + fd), files);
    GoodApart(fb, fc + fd, files);
    GoodTexts(a, files);
    GoodTexts(b, files);
    GoodPrompts(c, d, files);
  }

  // ---- What the daemon makes of it --------------------------------------------------------------

  function ResolveString(taskRole: Option<Json>, key: string, workflow: Option<string>, global: Option<string>): Option<string> {
    var own := match taskRole case None => None case Some(r) => GetStr(r, key);
    if own.Some? then own else if workflow.Some? then workflow else global
  }

  datatype Missing = Missing(role: string, field: Field)

  function TaskRole(task: Json, role: string): Option<Json> {
    match task.Get(ROLES)
    case None => None
    case Some(roles) => roles.Get(role)
  }

  /** `resolve_cli` and `resolve_model`: task config, workflow, global config. */
  function ResolveField(role: string, field: Field, workflow: Option<string>, global: Option<string>, task: Json)
    : Result<string, Missing>
  {
    match ResolveString(TaskRole(task, role), KeyOf(field), workflow, global)
    case None => Err(Missing(role, field))
    case Some(s) => Ok(s)
  }

  /** Of the task config only the text at `roles.<role>.<field>` counts. */
  lemma ResolvedFromValue(config: Fields, role: string, field: Field, workflow: Option<string>, global: Option<string>)
    ensures ResolveField(role, field, workflow, global, Obj(config))
         == match Value(config, role, KeyOf(field))
            case Some(Str(s)) => Ok(s)
            case _ => ResolveField(role, field, workflow, global, Null)
  {
  }

  /** The first of these that is a text: what the task config has, what the workflow says, what
    * the global config says.
    */
  function FirstText(own: Option<Json>, workflow: Option<string>, global: Option<string>, missing: Missing): Result<string, Missing> {
    match (own, workflow, global)
    case (Some(Str(s)), _, _) => Ok(s)
    case (_, Some(s), _) => Ok(s)
    case (_, None, Some(s)) => Ok(s)
    case (_, None, None) => Err(missing)
  }

  lemma ResolvedInOrder(role: string, workflow: Option<string>, global: Option<string>, task: Json)
    ensures ResolveField(role, Cli, workflow, global, task)
         == FirstText(RoleField(task, role, "cli"), workflow, global, Missing(role, Cli))
    ensures ResolveField(role, Model, workflow, global, task)
         == FirstText(RoleField(task, role, "model"), workflow, global, Missing(role, Model))
  {
  }

  lemma CwdIsApart(config: Fields, repo: Option<string>, role: string, key: string)
    ensures Value(WithCwd(config, repo), role, key) == Value(config, role, key)
  {
    assert |ROLES| == 5 && |CWD| == 3;
  }

  lemma ResolvedAsSent(config: Fields, role: string, field: Field, workflow: Option<string>, global: Option<string>)
    ensures ResolveField(role, field, workflow, global, AsTask(Sent(config)))
         == ResolveField(role, field, workflow, global, Obj(config))
  {
    ResolvedFromValue(config, role, field, workflow, global);
  }

  /** A flag's value is what its role runs with, whatever the blob, the workflow and
    * the global config say.
    */
  lemma FlagsReachTheDaemon(o: Overrides, repo: Option<string>, files: Files, i: nat, workflow: Option<string>, global: Option<string>)
    requires Good(AllFlags(o), files) && i < |AllFlags(o)|
    ensures var flag := AllFlags(o)[i];
      var rv := Setting(flag, files).value;
      ResolveField(rv.role, flag.field, workflow, global, AsTask(Built(o, repo, files))) == Ok(rv.value)
  {
    var flags := AllFlags(o);
    var rv := Setting(flags[i], files).value;
    var config := PutFlags(Blob(o.config), flags, files);
    FlagsAreKept(Blob(o.config), flags, files, i);
    CwdIsApart(config, repo, rv.role, KeyOf(flags[i].field));
    ResolvedAsSent(WithCwd(config, repo), rv.role, flags[i].field, workflow, global);
    ResolvedFromValue(WithCwd(config, repo), rv.role, flags[i].field, workflow, global);
  }

  /** A field no flag is for resolves as it would from the blob alone, or from nothing
    * without one, even where a flag had to replace what stood in its way.
    */
  lemma TheRestIsTheBlobs(o: Overrides, repo: Option<string>, files: Files, role: string, field: Field,
                          workflow: Option<string>, global: Option<string>)
    requires Acceptable(o.config) && Untouched(AllFlags(o), files, role, KeyOf(field))
    ensures ResolveField(role, field, workflow, global, AsTask(Built(o, repo, files)))
         == ResolveField(role, field, workflow, global, if o.config.Given? then o.config.value else Null)
  {
    var base, flags := Blob(o.config), AllFlags(o);
    var config := PutFlags(base, flags, files);
    OthersAreKept(base, flags, files, role, KeyOf(field));
    CwdIsApart(config, repo, role, KeyOf(field));
    ResolvedAsSent(WithCwd(config, repo), role, field, workflow, global);
    ResolvedFromValue(WithCwd(config, repo), role, field, workflow, global);
    ResolvedFromValue(base, role, field, workflow, global);
  }

  /** What `--role-cli` and `--role-model` say is the cli and the model the role runs with; a role
    * they do not name runs as the blob, the workflow and the global config have it.
    */
  lemma OptionsReachTheDaemon(o: Overrides, repo: Option<string>, files: Files, sent: Option<Json>, role: string,
                              workflow: Option<string>, global: Option<string>)
    requires SaysWhatWasAsked(o, repo, files, AsTask(sent))
    ensures forall raw, value :: raw in o.roleCli && Says(raw, role, value) ==>
      ResolveField(role, Cli, workflow, global, AsTask(sent)) == Ok(value)
    ensures forall raw, value :: raw in o.roleModel && Says(raw, role, value) ==>
      ResolveField(role, Model, workflow, global, AsTask(sent)) == Ok(value)
    ensures var blob := if o.config.Given? then o.config.value else Null;
      && (!Names(o.roleCli, role) ==>
            ResolveField(role, Cli, workflow, global, AsTask(sent)) == ResolveField(role, Cli, workflow, global, blob))
      && (!Names(o.roleModel, role) ==>
            ResolveField(role, Model, workflow, global, AsTask(sent)) == ResolveField(role, Model, workflow, global, blob))
  {
    ResolvedInOrder(role, workflow, global, AsTask(sent));
    ResolvedInOrder(role, workflow, global, if o.config.Given? then o.config.value else Null);
    KeysSpelled(Cli);
    assert !Names(o.roleCli, role) ==> NoneNames(o, role, "cli");
    assert !Names(o.roleModel, role) ==> NoneNames(o, role, "model");
  }

  // ---- Order ------------------------------------------------------------------------------------

  lemma OneMoreCounts<T>(s: seq<T>, y: T, x: T)
    ensures multiset(s + [y])[x] == multiset(s)[x] + if x == y then 1 else 0
  {
  }

  /** A flag counts as often as its value, if it is one of these. */
  predicate CountsAlike(flags: seq<Flag>, values: seq<string>, x: Flag, ours: bool) {
    multiset(flags)[x] == if ours then multiset(values)[x.raw] else 0
  }

  lemma CountsTogether(flags: seq<Flag>, y: Flag, values: seq<string>, z: string, x: Flag, ours: bool)
    requires CountsAlike(flags, values, x, ours)
    requires x == y <==> ours && x.raw == z
    ensures CountsAlike(flags + [y], values + [z], x, ours)
  {
    OneMoreCounts(flags, y, x);
    OneMoreCounts(values, z, x.raw);
  }

  predicate InGroup(g: Group, x: Flag) {
    x.field == g.field && x.fromFile == g.fromFile
  }

  lemma {:induction false} FlagsByCount(g: Group, k: nat, x: Flag)
    requires k <= |g.values|
    ensures CountsAlike(FlagsOf(g, k), g.values[..k], x, InGroup(g, x))
  {
    if k == 0 {
      assert g.values[..0] == [];
    } else {
      FlagsByCount(g, k - 1, x);
      var z := g.values[k - 1];
      CountsTogether(FlagsOf(g, k - 1), Flag(g.field, g.fromFile, z), g.values[..k - 1], z, x, InGroup(g, x));
      PrefixNext(g.values, k);
    }
  }

  lemma PrefixNext<T>(s: seq<T>, k: nat)
    requires 0 < k <= |s|
    ensures s[..k] == s[..k - 1] + [s[k - 1]]
  {
  }

  lemma GroupInAnyOrder(g: Group, h: Group)
    requires g.field == h.field && g.fromFile == h.fromFile && multiset(g.values) == multiset(h.values)
    ensures multiset(FlagsOf(g, |g.values|)) == multiset(FlagsOf(h, |h.values|))
  {
    var a, b := multiset(FlagsOf(g, |g.values|)), multiset(FlagsOf(h, |h.values|));
    assert g.values[..|g.values|] == g.values && h.values[..|h.values|] == h.values;
    forall x: Flag ensures a[x] == b[x] {
      FlagsByCount(g, |g.values|, x);
      FlagsByCount(h, |h.values|, x);
    }
  }

  lemma {:induction false} GroupsInAnyOrder(a: seq<Group>, b: seq<Group>)
    requires |a| == |b|
    requires forall i :: 0 <= i < |a| ==>
      a[i].field == b[i].field && a[i].fromFile == b[i].fromFile && multiset(a[i].values) == multiset(b[i].values)
    ensures multiset(AllOf(a)) == multiset(AllOf(b))
  {
    if a != [] {
      GroupsInAnyOrder(a[..|a| - 1], b[..|b| - 1]);
      GroupInAnyOrder(a[|a| - 1], b[|b| - 1]);
    }
  }

  /** The same flags given in another order: accepted alike, and the same config. */
  lemma FlagsInAnyOrder(o: Overrides, p: Overrides, repo: Option<string>, files: Files)
    requires o.config == p.config
    requires multiset(o.roleCli) == multiset(p.roleCli) && multiset(o.roleModel) == multiset(p.roleModel)
    requires multiset(o.rolePrompt) == multiset(p.rolePrompt) && multiset(o.rolePromptFile) == multiset(p.rolePromptFile)
    ensures Good(AllFlags(o), files) <==> Good(AllFlags(p), files)
    ensures Good(AllFlags(o), files) ==> Built(o, repo, files) == Built(p, repo, files)
  {
    GroupsInAnyOrder(Groups(o), Groups(p));
    if Good(AllFlags(o), files) {
      GoodInAnyOrder(AllFlags(o), AllFlags(p), files);
      OrderOfFlagsIsFree(Blob(o.config), AllFlags(o), AllFlags(p), files);
    } else if Good(AllFlags(p), files) {
      GoodInAnyOrder(AllFlags(p), AllFlags(o), files);
    }
  }
}
