/**
 The content of a settings draft, from the request that creates it to the row it is applied to:
 resets turned into environment values, the refresh before validate and apply, the commit and the
 override list attached to it.
 */
module SettingsDrafts {
  import opened Prelude
  import opened Text
  import opened SettingsFields

  /** A stored draft: its changes, and its secrets as their text was written. */
  datatype Material = Material(changes: Config, secrets: Config)

  function SecretText(f: Field, env: Environment): string {
    if f == IpaPassword then env.ipaPassword else env.xyopsApiKey
  }

  function TextOf(v: Option<Json>): Option<string> {
    if v.Some? && v.value.Str? then Some(v.value.s) else None
  }

  predicate Cleared(changes: Config, f: Field) {
    Get(changes, ClearKey(f)) == Some(Bool(true))
  }

  /** What applying the draft makes of a field, if it changes it at all. */
  function DraftValue(m: Material, f: Field): Option<Json> {
    if !IsSecret(f) then Get(m.changes, FieldKey(f))
    else if Cleared(m.changes, f) then Some(Str(""))
    else
      match TextOf(Get(m.secrets, FieldKey(f)))
      case Some(text) => Some(Str(text))
      case None => None
  }

  predicate NoDuplicates(resets: seq<Field>) {
    forall i, j :: 0 <= i < j < |resets| ==> resets[i] != resets[j]
  }

  function FieldsOf(resets: seq<Field>): set<Field> {
    set f | f in ALL_FIELDS && f in resets
  }

  // ----- resolving resets against the environment

  function ResolveChange(changes: Config, f: Field, env: Environment): Config {
    if !IsSecret(f) then Put(changes, FieldKey(f), EnvironmentValue(f, env))
    else
      var removed := Remove(changes, ClearKey(f));
      if ConfiguredText(SecretText(f, env)) then removed else Put(removed, ClearKey(f), Bool(true))
  }

  function ResolveSecret(secrets: Config, f: Field, env: Environment): Config {
    if !IsSecret(f) then secrets
    else
      var removed := Remove(secrets, FieldKey(f));
      if ConfiguredText(SecretText(f, env)) then Put(removed, FieldKey(f), Str(SecretText(f, env))) else removed
  }

  function ResolveField(m: Material, f: Field, env: Environment): Material {
    Material(ResolveChange(m.changes, f, env), ResolveSecret(m.secrets, f, env))
  }

  function ResolveFields(m: Material, resets: seq<Field>, env: Environment, n: nat): Material
    requires n <= |resets|
  {
    if n == 0 then m else ResolveField(ResolveFields(m, resets, env, n - 1), resets[n - 1], env)
  }

  function SecretEntry(secrets: Config, f: Field): Config {
    match TextOf(Get(secrets, FieldKey(f)))
    case Some(text) => [Entry(FieldKey(f), Str(text))]
    case None => []
  }

  /** Stored secrets are rebuilt in one fixed order whenever they are read. */
  function Reread(m: Material): Material {
    m.(secrets := SecretEntry(m.secrets, IpaPassword) + SecretEntry(m.secrets, XyopsApiKey))
  }

  function Refreshed(m: Material, resets: seq<Field>, env: Environment): Material {
    ResolveFields(Reread(m), resets, env, |resets|)
  }

  /** The refresh compares the texts, so the order of the keys counts. */
  predicate NeedsRefresh(m: Material, resets: seq<Field>, env: Environment) {
    Refreshed(m, resets, env) != Reread(m)
  }

  method ResolveResetMaterial(m: Material, resets: seq<Field>, env: Environment) returns (resolved: Material, changed: bool)
    ensures resolved == Refreshed(m, resets, env) && changed == NeedsRefresh(m, resets, env)
  {
    var start := Reread(m);
    var changes, secrets := start.changes, start.secrets;
    for i := 0 to |resets|
      invariant Material(changes, secrets) == ResolveFields(start, resets, env, i)
    {
      var field := resets[i];
      if IsSecret(field) {
        changes, secrets := Remove(changes, ClearKey(field)), Remove(secrets, FieldKey(field));
        if ConfiguredText(SecretText(field, env)) {
          secrets := Put(secrets, FieldKey(field), Str(SecretText(field, env)));
        } else {
          changes := Put(changes, ClearKey(field), Bool(true));
        }
      } else {
        changes := Put(changes, FieldKey(field), EnvironmentValue(field, env));
      }
    }
    resolved := Material(changes, secrets);
    changed := resolved != start;
  }

  lemma RereadKeeps(m: Material, f: Field)
    ensures DraftValue(Reread(m), f) == DraftValue(m, f)
  {
    GetOfConcat(SecretEntry(m.secrets, IpaPassword), SecretEntry(m.secrets, XyopsApiKey), FieldKey(f));
  }

  lemma ResolvePlainMeans(m: Material, f: Field, env: Environment, g: Field)
    requires !IsSecret(f)
    ensures DraftValue(ResolveField(m, f, env), g) == if g == f then Some(Inherited(f, env)) else DraftValue(m, g)
  {
    GetOfPut(m.changes, FieldKey(f), EnvironmentValue(f, env), FieldKey(g));
    GetOfPut(m.changes, FieldKey(f), EnvironmentValue(f, env), ClearKey(g));
  }

  lemma ResolveSecretChanges(m: Material, f: Field, env: Environment, key: Name)
    requires IsSecret(f)
    ensures var resolved := ResolveField(m, f, env).changes;
            Get(resolved, key) == if key != ClearKey(f) then Get(m.changes, key)
                                  else if ConfiguredText(SecretText(f, env)) then None else Some(Bool(true))
  {
    GetOfRemove(m.changes, ClearKey(f), key);
    GetOfPut(Remove(m.changes, ClearKey(f)), ClearKey(f), Bool(true), key);
  }

  lemma ResolveSecretSecrets(m: Material, f: Field, env: Environment, key: Name)
    requires IsSecret(f)
    ensures var resolved := ResolveField(m, f, env).secrets;
            Get(resolved, key) == if key != FieldKey(f) then Get(m.secrets, key)
                                  else if ConfiguredText(SecretText(f, env)) then Some(Str(SecretText(f, env))) else None
  {
    GetOfRemove(m.secrets, FieldKey(f), key);
    GetOfPut(Remove(m.secrets, FieldKey(f)), FieldKey(f), Str(SecretText(f, env)), key);
  }

  lemma ResolveSecretMeans(m: Material, f: Field, env: Environment, g: Field)
    requires IsSecret(f)
    ensures DraftValue(ResolveField(m, f, env), g) == if g == f then Some(Inherited(f, env)) else DraftValue(m, g)
  {
    if IsSecret(g) {
      ResolveSecretChanges(m, f, env, ClearKey(g));
      ResolveSecretSecrets(m, f, env, FieldKey(g));
    } else {
      ResolveSecretChanges(m, f, env, FieldKey(g));
    }
  }

  lemma ResolveFieldMeans(m: Material, f: Field, env: Environment, g: Field)
    ensures DraftValue(ResolveField(m, f, env), g) == if g == f then Some(Inherited(f, env)) else DraftValue(m, g)
  {
    if IsSecret(f) {
      ResolveSecretMeans(m, f, env, g);
    } else {
      ResolvePlainMeans(m, f, env, g);
    }
  }

  predicate AmongFirst(resets: seq<Field>, n: nat, g: Field)
    requires n <= |resets|
  {
    n > 0 && (resets[n - 1] == g || AmongFirst(resets, n - 1, g))
  }

  lemma {:induction false} AmongFirstMeans(resets: seq<Field>, n: nat, g: Field)
    requires n <= |resets|
    ensures AmongFirst(resets, n, g) <==> exists i :: 0 <= i < n && resets[i] == g
  {
    if n > 0 {
      AmongFirstMeans(resets, n - 1, g);
    }
  }

  lemma {:induction false} ResolveFieldsMean(m: Material, resets: seq<Field>, env: Environment, n: nat, g: Field)
    requires n <= |resets|
    ensures DraftValue(ResolveFields(m, resets, env, n), g) == if AmongFirst(resets, n, g) then Some(Inherited(g, env)) else DraftValue(m, g)
  {
    if n > 0 {
      ResolveFieldsMean(m, resets, env, n - 1, g);
      var earlier, f := ResolveFields(m, resets, env, n - 1), resets[n - 1];
      ResolveFieldMeans(earlier, f, env, g);
      assert ResolveFields(m, resets, env, n) == ResolveField(earlier, f, env);
    }
  }

  /** A refresh sets every reset field to what it inherits and keeps the value of every other one. */
  lemma RefreshedMeans(m: Material, resets: seq<Field>, env: Environment, g: Field)
    ensures DraftValue(Refreshed(m, resets, env), g) == if g in resets then Some(Inherited(g, env)) else DraftValue(m, g)
  {
    ResolveFieldsMean(Reread(m), resets, env, |resets|, g);
    AmongFirstMeans(resets, |resets|, g);
    RereadKeeps(m, g);
  }

  // ----- applying

  function PutChange(c: Config, m: Material, f: Field): Config {
    if Has(m.changes, FieldKey(f)) then Put(c, FieldKey(f), Get(m.changes, FieldKey(f)).value) else c
  }

  function NextSecret(m: Material, f: Field, current: string): string {
    if Cleared(m.changes, f) then ""
    else
      match TextOf(Get(m.secrets, FieldKey(f)))
      case Some(text) => text
      case None => current
  }

  /** The content a commit writes over `base`. */
  function Committed(base: Content, m: Material): Content {
    Content(PutChange(PutChange(PutChange(PutChange(base.config, m, DemoMode), m, IpaUrl), m, IpaUsername), m, XyopsUrl),
            Secrets(NextSecret(m, IpaPassword, base.secrets.ipaPassword),
                    NextSecret(m, XyopsApiKey, base.secrets.xyopsApiKey)))
  }

  function ChangedFields(m: Material, resets: seq<Field>): set<Field> {
    set f | f in ALL_FIELDS && f !in resets && (if IsSecret(f) then Cleared(m.changes, f) else Has(m.changes, FieldKey(f)))
  }

  function SecretFields(m: Material, resets: seq<Field>): set<Field> {
    set f | f in ALL_FIELDS && IsSecret(f) && f !in resets && TextOf(Get(m.secrets, FieldKey(f))).Some?
  }

  function Desired(before: Option<Config>, m: Material, resets: seq<Field>): set<Field> {
    OverrideSet(before) - FieldsOf(resets) + ChangedFields(m, resets) + SecretFields(m, resets)
  }

  method DesiredOverrides(before: Option<Config>, m: Material, resets: seq<Field>) returns (overrides: set<Field>)
    ensures overrides == Desired(before, m, resets)
  {
    overrides := OverrideSet(before);
    for i := 0 to |resets|
      invariant overrides == OverrideSet(before) - FieldsOf(resets[..i])
    {
      overrides := overrides - {resets[i]};
      assert resets[..i + 1] == resets[..i] + [resets[i]];
    }
    assert resets[..|resets|] == resets;
    overrides := overrides + ChangedFields(m, resets);
    overrides := overrides + SecretFields(m, resets);
  }

  function Attached(c: Content, overrides: set<Field>): Content {
    c.(config := Put(c.config, OverridesKey, OverrideList(overrides)))
  }

  /** Commit over `base` and attach the override list worked out from the row seen before. */
  function Applied(base: Content, before: Option<Config>, m: Material, resets: seq<Field>): Content {
    Attached(Committed(base, m), Desired(before, m, resets))
  }

  lemma PutChangeMeans(c: Config, m: Material, f: Field, key: Name)
    ensures Get(PutChange(c, m, f), key) == if key == FieldKey(f) && Has(m.changes, FieldKey(f)) then Get(m.changes, FieldKey(f)) else Get(c, key)
  {
    if Has(m.changes, FieldKey(f)) {
      GetOfPut(c, FieldKey(f), Get(m.changes, FieldKey(f)).value, key);
    }
  }

  lemma CommittedKey(base: Content, m: Material, key: Name)
    ensures Get(Committed(base, m).config, key)
         == if key in {FieldKey(DemoMode), FieldKey(IpaUrl), FieldKey(IpaUsername), FieldKey(XyopsUrl)} && Has(m.changes, key) then Get(m.changes, key)
            else Get(base.config, key)
  {
    var one := PutChange(base.config, m, DemoMode);
    var two := PutChange(one, m, IpaUrl);
    var three := PutChange(two, m, IpaUsername);
    PutChangeMeans(base.config, m, DemoMode, key);
    PutChangeMeans(one, m, IpaUrl, key);
    PutChangeMeans(two, m, IpaUsername, key);
    PutChangeMeans(three, m, XyopsUrl, key);
  }

  /** A commit gives each field the draft's value where the draft has one, and keeps it where not. */
  lemma CommittedMeans(base: Content, m: Material, f: Field)
    ensures FieldValue(Committed(base, m), f) == if DraftValue(m, f).Some? then DraftValue(m, f) else FieldValue(base, f)
  {
    CommittedKey(base, m, FieldKey(f));
  }

  /** The fields a draft changes on its own account. */
  function OwnChanges(m: Material, resets: seq<Field>): set<Field> {
    set f | f in ALL_FIELDS && f !in resets && DraftValue(m, f).Some?
  }

  lemma OwnChangesAreOverridden(m: Material, resets: seq<Field>)
    ensures ChangedFields(m, resets) + SecretFields(m, resets) == OwnChanges(m, resets)
  {
    forall f: Field ensures f in ChangedFields(m, resets) + SecretFields(m, resets) <==> f in OwnChanges(m, resets) {
      assert IsSecret(f) ==> (DraftValue(m, f).Some? <==> Cleared(m.changes, f) || TextOf(Get(m.secrets, FieldKey(f))).Some?);
    }
  }

  lemma AttachedMeans(c: Content, overrides: set<Field>, f: Field, key: Name)
    ensures OverrideSet(Some(Attached(c, overrides).config)) == overrides
    ensures FieldValue(Attached(c, overrides), f) == FieldValue(c, f)
    ensures key != OverridesKey ==> Get(Attached(c, overrides).config, key) == Get(c.config, key)
  {
    OverridesRoundTrip(c.config, overrides);
    GetOfPut(c.config, OverridesKey, OverrideList(overrides), FieldKey(f));
    GetOfPut(c.config, OverridesKey, OverrideList(overrides), key);
  }

  /**
   Applying a draft whose reset fields are up to date. `base` is the stored content, or the content
   made from the environment when no row exists; `before` is the stored configuration, if any.
   */
  lemma AppliedMeans(base: Content, before: Option<Config>, m: Material, resets: seq<Field>, env: Environment, f: Field, key: Name)
    requires !NeedsRefresh(m, resets, env)
    ensures var after := Applied(base, before, m, resets);
            && OverrideSet(Some(after.config)) == OverrideSet(before) - FieldsOf(resets) + OwnChanges(m, resets)
            && FieldValue(after, f) == (if f in resets then Some(Inherited(f, env))
                                        else if f in OwnChanges(m, resets) then DraftValue(m, f)
                                        else FieldValue(base, f))
            && (ForeignKey(key) ==> Get(after.config, key) == Get(base.config, key))
  {
    AttachedMeans(Committed(base, m), Desired(before, m, resets), f, key);
    OwnChangesAreOverridden(m, resets);
    CommittedMeans(base, m, f);
    CommittedKey(base, m, key);
    RefreshedMeans(m, resets, env, f);
    RereadKeeps(m, f);
  }

  /** The fields an apply has reset are already at rest: synchronising right after changes none of them. */
  lemma ResetFieldsAreSettled(base: Content, before: Option<Config>, m: Material, resets: seq<Field>, env: Environment, f: Field)
    requires !NeedsRefresh(m, resets, env) && f in resets
    ensures var after := Applied(base, before, m, resets);
            && f !in OverrideSet(Some(after.config))
            && FieldValue(Synchronized(after, env), f) == FieldValue(after, f)
            && FieldValue(Overlaid(after, env), f) == FieldValue(after, f)
  {
    var after := Applied(base, before, m, resets);
    AppliedMeans(base, before, m, resets, env, f, OverridesKey);
    SynchronizedMeans(after, env, f, OverridesKey);
    OverlayIsSynchronization(after, env, f, OverridesKey);
  }

  function RevisionOf(row: Option<Row>): int {
    if row.Some? then row.value.revision else 0
  }

  function ConfigOf(row: Option<Row>): Option<Config> {
    if row.Some? then Some(row.value.content.config) else None
  }

  function ContentOf(row: Option<Row>, initial: Content): Content {
    if row.Some? then row.value.content else initial
  }

  /** The row after a commit at `now` with its overrides attached. */
  function AppliedRow(before: Option<Row>, m: Material, resets: seq<Field>, initial: Content, now: int): Row {
    Row(Applied(ContentOf(before, initial), ConfigOf(before), m, resets), Max(now, RevisionOf(before) + 1))
  }

  /**
   One apply on the settings table: the commit refuses when the stored revision is not the draft's base,
   and otherwise replaces the row and attaches the overrides.
   */
  method Apply(table: SettingsTable, baseRevision: int, m: Material, resets: seq<Field>, initial: Content, now: int) returns (committed: bool)
    modifies table
    ensures committed == (RevisionOf(old(table.active)) == baseRevision)
    ensures table.active == if committed then Some(AppliedRow(old(table.active), m, resets, initial, now)) else old(table.active)
  {
    var before := table.active;
    var overrides := DesiredOverrides(ConfigOf(before), m, resets);
    if RevisionOf(before) != baseRevision {
      return false;
    }
    var next, revision := Committed(ContentOf(before, initial), m), Max(now, RevisionOf(before) + 1);
    table.active := Some(Row(next, revision));
    table.active := Some(Row(Attached(next, overrides), revision));
    return true;
  }

  datatype ApplyResult = Unchanged | Kept | RolledBack

  /**
   The whole apply, undisturbed: the row is captured, the draft committed, and if the health check fails
   the captured row comes back under a revision larger than the applied one, or no row again.
   */
  method ApplyWithRollback(table: SettingsTable, baseRevision: int, m: Material, resets: seq<Field>, initial: Content,
                           appliedAt: int, healthy: bool, restoredAt: int)
    returns (result: ApplyResult)
    modifies table
    ensures result.Unchanged? <==> RevisionOf(old(table.active)) != baseRevision
    ensures result.Unchanged? ==> table.active == old(table.active)
    ensures result.Kept? <==> !result.Unchanged? && healthy
    ensures result.Kept? ==> table.active == Some(AppliedRow(old(table.active), m, resets, initial, appliedAt))
    ensures result.RolledBack? && old(table.active).None? ==> table.active.None?
    ensures result.RolledBack? && old(table.active).Some? ==>
              table.active.Some? && table.active.value.content == old(table.active).value.content
              && table.active.value.revision >= restoredAt && table.active.value.revision > appliedAt
              && table.active.value.revision > old(table.active).value.revision + 1
  {
    var before := table.active;
    var committed := Apply(table, baseRevision, m, resets, initial, appliedAt);
    if !committed {
      return Unchanged;
    }
    if healthy {
      return Kept;
    }
    var restored := table.RestoreCas(before, table.active.value.revision, restoredAt);
    assert restored;
    result := RolledBack;
  }
}
