/** A task's config, from the flags of the command line (`choco/src/client.rs`, lines 140
  * to 310) to what the daemon makes of it (`chocofactoryd/src/role_config.rs`, lines 76
  * to 216).
  *
  * The JSON text of `--config` arrives parsed; what a file holds when it is read is
  * given by a function.
  */
module TaskConfig {
  import opened Wrappers
  import opened JsonValues

  const ROLES := "roles"
  const CWD := "cwd"
  const PROMPT_FILE := "system_prompt_file"

  // ---- Flags ----------------------------------------------------------------------------

  datatype Field = Cli | Model | SystemPrompt

  function KeyOf(f: Field): string {
    match f
    case Cli => "cli"
    case Model => "model"
    case SystemPrompt => "system_prompt"
  }

  /** One `ROLE=VALUE` argument: the field it sets, and whether its value names a file. */
  datatype Flag = Flag(field: Field, fromFile: bool, raw: string)

  datatype ConfigArg = NotGiven | NotJson | Given(value: Json)

  datatype Overrides = Overrides(config: ConfigArg, roleCli: seq<string>, roleModel: seq<string>,
                                 rolePrompt: seq<string>, rolePromptFile: seq<string>)

  datatype ConfigError =
    | InvalidJson | NotAnObject | Smuggled(role: string)
    | NoEquals(flag: Flag) | EmptyRole(flag: Flag) | EmptyValue(flag: Flag)
    | Repeated(role: string, field: Field) | Unreadable(flag: Flag)

  datatype RoleValue = RoleValue(role: string, value: string)

  /** How much of `s` stands before its first `=`. */
  function BeforeEquals(s: string): (n: nat)
    ensures n <= |s| && (n < |s| ==> s[n] == '=')
    ensures forall i :: 0 <= i < n ==> s[i] != '='
  {
    if s == "" || s[0] == '=' then 0 else 1 + BeforeEquals(s[1..])
  }

  function SplitRoleValue(flag: Flag): Result<RoleValue, ConfigError> {
    var n := BeforeEquals(flag.raw);
    if n == |flag.raw| then Err(NoEquals(flag))
    else if n == 0 then Err(EmptyRole(flag))
    else if n + 1 == |flag.raw| then Err(EmptyValue(flag))
    else Ok(RoleValue(flag.raw[..n], flag.raw[n + 1..]))
  }

  /** A flag splits exactly when it is a role without `=`, an `=`, and a value, neither empty;
    * and it splits in no other way.
    */
  lemma SplitsOneWay(flag: Flag, role: string, value: string)
    ensures SplitRoleValue(flag) == Ok(RoleValue(role, value)) <==>
            flag.raw == role + "=" + value && role != "" && value != "" && '=' !in role
  {
    var n := BeforeEquals(flag.raw);
    if flag.raw == role + "=" + value && '=' !in role {
      assert flag.raw[|role|] == '=' && forall i :: 0 <= i < |role| ==> flag.raw[i] == role[i] && role[i] != '=';
      assert n == |role|;
      assert flag.raw[..n] == role && flag.raw[n + 1..] == value;
    }
    if n < |flag.raw| {
      assert flag.raw == flag.raw[..n] + "=" + flag.raw[n + 1..];
    }
  }

  /** What a file holds, if it can be read. */
  type Files = string -> Option<string>

  /** What a flag is to set: its role, and the text for it. */
  function Setting(flag: Flag, files: Files): Result<RoleValue, ConfigError> {
    match SplitRoleValue(flag)
    case Err(e) => Err(e)
    case Ok(rv) =>
      if !flag.fromFile then Ok(rv)
      else match files(rv.value)
           case None => Err(Unreadable(flag))
           case Some(text) => Ok(RoleValue(rv.role, text))
  }

  // ---- One setting ------------------------------------------------------------------------

  /** The members of an object; none of anything else, which is replaced. */
  function Members(j: Option<Json>): Fields {
    if j.Some? && j.value.Obj? then j.value.fields else map[]
  }

  function Put(config: Fields, role: string, key: string, text: string): Fields {
    var roles := Members(At(config, ROLES));
    var entry := Members(At(roles, role));
    config[ROLES := Obj(roles[role := Obj(entry[key := Str(text)])])]
  }

  /** What is set for a role, whatever its type. */
  function Value(config: Fields, role: string, key: string): Option<Json> {
    At(Members(At(Members(At(config, ROLES)), role)), key)
  }

  /** A setting is there afterwards, and no other field of any role, and no other part of
    * the config, is different: whatever stood in the way was no setting.
    */
  lemma PutSetsOne(config: Fields, role: string, key: string, text: string, role': string, key': string)
    ensures Value(Put(config, role, key, text), role', key')
         == if role' == role && key' == key then Some(Str(text)) else Value(config, role', key')
  {
  }

  lemma PutKeepsRest(config: Fields, role: string, key: string, text: string, part: string)
    requires part != ROLES
    ensures At(Put(config, role, key, text), part) == At(config, part)
  {
  }

  /** Settings of different fields can be made in either order. */
  lemma PutsCommute(config: Fields, r: string, k: string, t: string, r': string, k': string, t': string)
    requires r != r' || k != k'
    ensures Put(Put(config, r, k, t), r', k', t') == Put(Put(config, r', k', t'), r, k, t)
  {
    var roles := Members(At(config, ROLES));
    var e, e' := Members(At(roles, r)), Members(At(roles, r'));
    if r == r' {
      assert e[k := Str(t)][k' := Str(t')] == e[k' := Str(t')][k := Str(t)];
      assert roles[r := Obj(e[k := Str(t)])][r := Obj(e[k := Str(t)][k' := Str(t')])]
          == roles[r := Obj(e[k' := Str(t')])][r := Obj(e[k := Str(t)][k' := Str(t')])];
    } else {
      assert roles[r := Obj(e[k := Str(t)])][r' := Obj(e'[k' := Str(t')])]
          == roles[r' := Obj(e'[k' := Str(t')])][r := Obj(e[k := Str(t)])];
    }
    var a, b := Put(Put(config, r, k, t), r', k', t'), Put(Put(config, r', k', t'), r, k, t);
    assert a[ROLES] == b[ROLES];
    assert a.Keys == b.Keys;
  }

  // ---- All flags ---------------------------------------------------------------------------

  /** Two flags that set one field of one role. */
  ghost predicate Clash(a: Flag, b: Flag, files: Files) {
    && a.field == b.field && Setting(a, files).Ok? && Setting(b, files).Ok?
    && Setting(a, files).value.role == Setting(b, files).value.role
  }

  ghost predicate Good(flags: seq<Flag>, files: Files) {
    && (forall i :: 0 <= i < |flags| ==> Setting(flags[i], files).Ok?)
    && (forall i, j :: 0 <= i < j < |flags| ==> !Clash(flags[i], flags[j], files))
  }

  function PutFlag(config: Fields, flag: Flag, files: Files): Fields {
    match Setting(flag, files)
    case Err(_) => config
    case Ok(rv) => Put(config, rv.role, KeyOf(flag.field), rv.value)
  }

  function PutFlags(config: Fields, flags: seq<Flag>, files: Files): Fields {
    if flags == [] then config else PutFlag(PutFlags(config, flags[..|flags| - 1], files), flags[|flags| - 1], files)
  }

  lemma KeysApart(f: Field, g: Field)
    ensures KeyOf(f) == KeyOf(g) <==> f == g
  {
    assert |KeyOf(Cli)| == 3 && |KeyOf(Model)| == 5 && |KeyOf(SystemPrompt)| == 13;
  }

  /** No flag is for this field of this role. */
  ghost predicate Untouched(flags: seq<Flag>, files: Files, role: string, key: string) {
    forall i :: 0 <= i < |flags| ==> !Sets(flags[i], files, role, key)
  }

  ghost predicate Sets(flag: Flag, files: Files, role: string, key: string) {
    Setting(flag, files).Ok? && Setting(flag, files).value.role == role && KeyOf(flag.field) == key
  }

  /** What no flag is for is as the blob had it. */
  lemma {:induction false} OthersAreKept(config: Fields, flags: seq<Flag>, files: Files, role: string, key: string)
    requires Untouched(flags, files, role, key)
    ensures Value(PutFlags(config, flags, files), role, key) == Value(config, role, key)
  {
    if flags != [] {
      var before, last := flags[..|flags| - 1], flags[|flags| - 1];
      OthersAreKept(config, before, files, role, key);
      assert !Sets(last, files, role, key);
      var c := PutFlags(config, before, files);
      if Setting(last, files).Ok? {
        var rv := Setting(last, files).value;
        PutSetsOne(c, rv.role, KeyOf(last.field), rv.value, role, key);
      }
    }
  }

  /** What a flag is for is as the flag says. */
  lemma {:induction false} FlagsAreKept(config: Fields, flags: seq<Flag>, files: Files, i: nat)
    requires Good(flags, files) && i < |flags|
    ensures var rv := Setting(flags[i], files).value;
      Value(PutFlags(config, flags, files), rv.role, KeyOf(flags[i].field)) == Some(Str(rv.value))
  {
    var before, last := flags[..|flags| - 1], flags[|flags| - 1];
    var rv, lv := Setting(flags[i], files).value, Setting(last, files).value;
    PutSetsOne(PutFlags(config, before, files), lv.role, KeyOf(last.field), lv.value, rv.role, KeyOf(flags[i].field));
    if i < |flags| - 1 {
      FlagsAreKept(config, before, files, i);
      assert !Clash(flags[i], last, files);
      KeysApart(flags[i].field, last.field);
    }
  }

  lemma {:induction false} PartsAreKept(config: Fields, flags: seq<Flag>, files: Files, part: string)
    requires part != ROLES
    ensures At(PutFlags(config, flags, files), part) == At(config, part)
  {
    if flags != [] {
      var before, last := flags[..|flags| - 1], flags[|flags| - 1];
      PartsAreKept(config, before, files, part);
      if Setting(last, files).Ok? {
        var rv := Setting(last, files).value;
        PutKeepsRest(PutFlags(config, before, files), rv.role, KeyOf(last.field), rv.value, part);
      }
    }
  }

  // ---- The order of flags does not matter --------------------------------------------------------

  lemma {:induction false} PutFlagsJoin(config: Fields, a: seq<Flag>, b: seq<Flag>, files: Files)
    ensures PutFlags(config, a + b, files) == PutFlags(PutFlags(config, a, files), b, files)
    decreases |b|
  {
    if b == [] {
      assert a + b == a;
    } else {
      var c := b[..|b| - 1];
      assert (a + b)[..|a + b| - 1] == a + c;
      PutFlagsJoin(config, a, c, files);
    }
  }

  lemma PutFlagsCommute(config: Fields, x: Flag, y: Flag, files: Files)
    requires Setting(x, files).Ok? && Setting(y, files).Ok? && !Clash(x, y, files)
    ensures PutFlag(PutFlag(config, x, files), y, files) == PutFlag(PutFlag(config, y, files), x, files)
  {
    var a, b := Setting(x, files).value, Setting(y, files).value;
    KeysApart(x.field, y.field);
    PutsCommute(config, a.role, KeyOf(x.field), a.value, b.role, KeyOf(y.field), b.value);
  }

  lemma {:induction false} PutPast(config: Fields, x: Flag, flags: seq<Flag>, files: Files)
    requires Setting(x, files).Ok?
    requires forall i :: 0 <= i < |flags| ==> Setting(flags[i], files).Ok? && !Clash(x, flags[i], files)
    ensures PutFlags(PutFlag(config, x, files), flags, files) == PutFlag(PutFlags(config, flags, files), x, files)
  {
    if flags != [] {
      var before, last := flags[..|flags| - 1], flags[|flags| - 1];
      PutPast(config, x, before, files);
      PutFlagsCommute(PutFlags(config, before, files), x, last, files);
    }
  }

  lemma {:induction false} OccursOnce(flags: seq<Flag>, x: Flag)
    requires forall i, j :: 0 <= i < j < |flags| ==> flags[i] != flags[j]
    ensures multiset(flags)[x] <= 1
  {
    if flags != [] {
      var before := flags[..|flags| - 1];
      assert flags == before + [flags[|flags| - 1]];
      OccursOnce(before, x);
    }
  }

  lemma OccursTwice(flags: seq<Flag>, i: nat, j: nat)
    requires i < j < |flags| && flags[i] == flags[j]
    ensures multiset(flags)[flags[i]] >= 2
  {
    assert flags == flags[..j] + flags[j..];
    assert flags[i] in flags[..j] && flags[j] in flags[j..];
  }

  lemma GoodInAnyOrder(flags: seq<Flag>, other: seq<Flag>, files: Files)
    requires Good(flags, files) && multiset(flags) == multiset(other)
    ensures Good(other, files)
  {
    forall i | 0 <= i < |other| ensures Setting(other[i], files).Ok? {
      var m := IndexIn(flags, other, i);
    }
    forall i, j | 0 <= i < j < |other| ensures !Clash(other[i], other[j], files) {
      var m := IndexIn(flags, other, i);
      var k := IndexIn(flags, other, j);
      if m == k {
        GoodOnesDiffer(flags, files);
        OccursOnce(flags, other[i]);
        OccursTwice(other, i, j);
        assert false;
      } else {
        assert !Clash(flags[if m < k then m else k], flags[if m < k then k else m], files);
      }
    }
  }

  lemma IndexIn(flags: seq<Flag>, other: seq<Flag>, i: nat) returns (m: nat)
    requires i < |other| && multiset(flags) == multiset(other)
    ensures m < |flags| && flags[m] == other[i]
  {
    assert other[i] in multiset(other);
    assert other[i] in flags;
    m :| 0 <= m < |flags| && flags[m] == other[i];
  }

  lemma GoodOnesDiffer(flags: seq<Flag>, files: Files)
    requires Good(flags, files)
    ensures forall i, j :: 0 <= i < j < |flags| ==> flags[i] != flags[j]
  {
    forall i, j | 0 <= i < j < |flags| ensures flags[i] != flags[j] {
      assert !Clash(flags[i], flags[j], files);
    }
  }

  /** Where the last flag stands in another order of the same flags. */
  lemma FindLast(flags: seq<Flag>, other: seq<Flag>) returns (a: seq<Flag>, b: seq<Flag>)
    requires flags != [] && multiset(flags) == multiset(other)
    ensures other == a + [flags[|flags| - 1]] + b
    ensures multiset(flags[..|flags| - 1]) == multiset(a + b)
  {
    var before, x := flags[..|flags| - 1], flags[|flags| - 1];
    assert flags == before + [x];
    var i := IndexIn(other, flags, |flags| - 1);
    a, b := other[..i], other[i + 1..];
    assert other == a + [x] + b;
    WithoutOne(before, a, x, b);
  }

  lemma WithoutOne(s: seq<Flag>, a: seq<Flag>, x: Flag, b: seq<Flag>)
    requires multiset(s + [x]) == multiset(a + [x] + b)
    ensures multiset(s) == multiset(a + b)
  {
    assert multiset(s + [x]) == multiset(s) + multiset{x};
    assert multiset(a + [x] + b) == multiset(a) + multiset{x} + multiset(b);
    assert multiset(s) == multiset(s + [x]) - multiset{x};
    assert multiset(a + b) == multiset(a) + multiset(b);
  }

  lemma GoodBefore(flags: seq<Flag>, files: Files)
    requires flags != [] && Good(flags, files)
    ensures Good(flags[..|flags| - 1], files)
  {
  }

  /** Flags in any order make the same config. */
  lemma {:induction false} OrderOfFlagsIsFree(config: Fields, flags: seq<Flag>, other: seq<Flag>, files: Files)
    requires Good(flags, files) && multiset(flags) == multiset(other)
    ensures PutFlags(config, flags, files) == PutFlags(config, other, files)
    decreases |flags|
  {
    if flags == [] {
      assert |multiset(other)| == 0;
    } else {
      GoodInAnyOrder(flags, other, files);
      var a, b := FindLast(flags, other);
      GoodBefore(flags, files);
      OrderOfFlagsIsFree(config, flags[..|flags| - 1], a + b, files);
      TakenOut(config, a, flags[|flags| - 1], b, files);
    }
  }

  lemma TakenOut(config: Fields, a: seq<Flag>, x: Flag, b: seq<Flag>, files: Files)
    requires Good(a + [x] + b, files)
    ensures PutFlags(config, a + [x] + b, files) == PutFlag(PutFlags(config, a + b, files), x, files)
  {
    var all := a + [x] + b;
    assert all[|a|] == x;
    forall i | 0 <= i < |b| ensures Setting(b[i], files).Ok? && !Clash(x, b[i], files) {
      assert all[|a| + 1 + i] == b[i];
      assert !Clash(all[|a|], all[|a| + 1 + i], files);
    }
    PutFlagsJoin(config, a + [x], b, files);
    PutFlagsJoin(config, a, [x], files);
    assert [x][..0] == [];
    PutPast(PutFlags(config, a, files), x, b, files);
    PutFlagsJoin(config, a, b, files);
  }
}
