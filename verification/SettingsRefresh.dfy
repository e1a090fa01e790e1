/**
 When the refresh of a reset draft comes to rest. The refresh compares JSON texts, so a refresh that
 changes no value may still see a change; this decides exactly when it does.
 */
module SettingsRefresh {
  import opened Prelude
  import opened SettingsFields
  import opened SettingsDrafts

  /** A secret taken from the environment is written behind whatever is there already. */
  predicate Moved(resets: seq<Field>, env: Environment, f: Field) {
    f in resets && ConfiguredText(SecretText(f, env))
  }

  predicate ResetBefore(resets: seq<Field>, f: Field, g: Field) {
    exists i, j :: 0 <= i < j < |resets| && resets[i] == f && resets[j] == g
  }

  /**
   The FreeIPA password comes from the environment and is written behind an XYOps key, either one of
   the draft's own or one reset earlier in the list.
   */
  predicate Restless(m: Material, resets: seq<Field>, env: Environment) {
    && Moved(resets, env, IpaPassword)
    && (if XyopsApiKey in resets then Moved(resets, env, XyopsApiKey) && ResetBefore(resets, XyopsApiKey, IpaPassword)
        else TextOf(Get(m.secrets, FieldKey(XyopsApiKey))).Some?)
  }

  // ----- the changes come to rest after one refresh

  /** What a refresh makes of one entry it does not move. */
  function Rewritten(e: Entry, done: set<Field>, env: Environment): Config {
    match e.key
    case FieldKey(f) => if f in done && !IsSecret(f) then [Entry(e.key, EnvironmentValue(f, env))] else [e]
    case ClearKey(f) => if f in done && IsSecret(f) then [] else [e]
    case _ => [e]
  }

  function Rewrite(c: Config, done: set<Field>, env: Environment): Config {
    if c == [] then [] else Rewritten(c[0], done, env) + Rewrite(c[1..], done, env)
  }

  /** The clear marks a refresh leaves at the end. */
  function ClearMarks(resets: seq<Field>, env: Environment, n: nat): Config
    requires n <= |resets|
  {
    if n == 0 then []
    else
      var f := resets[n - 1];
      ClearMarks(resets, env, n - 1)
      + if IsSecret(f) && !ConfiguredText(SecretText(f, env)) then [Entry(ClearKey(f), Bool(true))] else []
  }

  function DoneAfter(resets: seq<Field>, n: nat): set<Field>
    requires n <= |resets|
  {
    if n == 0 then {} else DoneAfter(resets, n - 1) + {resets[n - 1]}
  }

  lemma {:induction false} DoneAfterMeans(resets: seq<Field>, n: nat, f: Field)
    requires n <= |resets|
    ensures f in DoneAfter(resets, n) <==> exists i :: 0 <= i < n && resets[i] == f
  {
    if n > 0 {
      DoneAfterMeans(resets, n - 1, f);
    }
  }

  lemma Reassociate(a: Config, b: Config, c: Config)
    ensures a + (b + c) == a + b + c
  {
  }

  lemma RewriteAfterHead(c: Config, d: Config, done: set<Field>, env: Environment)
    requires c != []
    ensures Rewrite(c + d, done, env) == Rewritten(c[0], done, env) + Rewrite(c[1..] + d, done, env)
  {
    assert (c + d)[1..] == c[1..] + d;
  }

  lemma {:induction false} RewriteOfConcat(c: Config, d: Config, done: set<Field>, env: Environment)
    ensures Rewrite(c + d, done, env) == Rewrite(c, done, env) + Rewrite(d, done, env)
  {
    if c == [] {
      assert c + d == d;
    } else {
      RewriteAfterHead(c, d, done, env);
      RewriteOfConcat(c[1..], d, done, env);
      Reassociate(Rewritten(c[0], done, env), Rewrite(c[1..], done, env), Rewrite(d, done, env));
    }
  }

  lemma {:induction false} RewriteTwice(c: Config, done: set<Field>, env: Environment)
    ensures Rewrite(Rewrite(c, done, env), done, env) == Rewrite(c, done, env)
  {
    if c != [] {
      var head, tail := Rewritten(c[0], done, env), Rewrite(c[1..], done, env);
      RewriteTwice(c[1..], done, env);
      RewriteOfConcat(head, tail, done, env);
      if head != [] {
        assert Rewrite(head, done, env) == Rewritten(head[0], done, env) + [];
      }
    }
  }

  predicate Dropped(e: Entry, done: set<Field>) {
    e.key.ClearKey? && IsSecret(e.key.field) && e.key.field in done
  }

  lemma {:induction false} RewriteOfDropped(c: Config, done: set<Field>, env: Environment)
    requires forall i :: 0 <= i < |c| ==> Dropped(c[i], done)
    ensures Rewrite(c, done, env) == []
  {
    if c != [] {
      assert Dropped(c[0], done);
      RewriteOfDropped(c[1..], done, env);
    }
  }

  lemma {:induction false} MarksAreDropped(resets: seq<Field>, env: Environment, n: nat, i: nat)
    requires n <= |resets| && i < |ClearMarks(resets, env, n)|
    ensures Dropped(ClearMarks(resets, env, n)[i], DoneAfter(resets, n))
  {
    if n > 0 {
      var earlier := ClearMarks(resets, env, n - 1);
      if i < |earlier| {
        MarksAreDropped(resets, env, n - 1, i);
      }
    }
  }

  lemma ReplaceAfterHead(c: Config, d: Config, key: Name, value: Json)
    requires c != []
    ensures Replace(c + d, key, value) == Replace([c[0]], key, value) + Replace(c[1..] + d, key, value)
    ensures Replace(c, key, value) == Replace([c[0]], key, value) + Replace(c[1..], key, value)
  {
    assert (c + d)[1..] == c[1..] + d;
    assert [c[0]][1..] == [];
  }

  lemma {:induction false} ReplaceOfConcat(c: Config, d: Config, key: Name, value: Json)
    ensures Replace(c + d, key, value) == Replace(c, key, value) + Replace(d, key, value)
  {
    if c == [] {
      assert c + d == d;
    } else {
      ReplaceAfterHead(c, d, key, value);
      ReplaceOfConcat(c[1..], d, key, value);
      Reassociate(Replace([c[0]], key, value), Replace(c[1..], key, value), Replace(d, key, value));
    }
  }

  lemma RemoveAfterHead(c: Config, d: Config, key: Name)
    requires c != []
    ensures Remove(c + d, key) == Remove([c[0]], key) + Remove(c[1..] + d, key)
    ensures Remove(c, key) == Remove([c[0]], key) + Remove(c[1..], key)
  {
    RemoveHead(c + d, key);
    RemoveHead(c, key);
    assert (c + d)[1..] == c[1..] + d;
  }

  lemma RemoveHead(c: Config, key: Name)
    requires c != []
    ensures Remove(c, key) == Remove([c[0]], key) + Remove(c[1..], key)
  {
    assert [c[0]][1..] == [];
  }

  lemma {:induction false} RemoveOfConcat(c: Config, d: Config, key: Name)
    ensures Remove(c + d, key) == Remove(c, key) + Remove(d, key)
  {
    if c == [] {
      assert c + d == d;
    } else {
      RemoveAfterHead(c, d, key);
      RemoveOfConcat(c[1..], d, key);
      Reassociate(Remove([c[0]], key), Remove(c[1..], key), Remove(d, key));
    }
  }

  lemma {:induction false} RemoveAbsent(c: Config, key: Name)
    requires !Has(c, key)
    ensures Remove(c, key) == c
  {
    if c != [] {
      RemoveAbsent(c[1..], key);
      assert c == [c[0]] + c[1..];
    }
  }

  lemma RewrittenField(e: Entry, done: set<Field>, env: Environment, f: Field)
    requires f !in done && !IsSecret(f)
    ensures Replace(Rewritten(e, done, env), FieldKey(f), EnvironmentValue(f, env)) == Rewritten(e, done + {f}, env)
  {
    var head := Rewritten(e, done, env);
    assert head == [] || head[1..] == [];
  }

  lemma RewrittenSecret(e: Entry, done: set<Field>, env: Environment, f: Field)
    requires f !in done && IsSecret(f)
    ensures Remove(Rewritten(e, done, env), ClearKey(f)) == Rewritten(e, done + {f}, env)
  {
    var head := Rewritten(e, done, env);
    assert head == [] || head[1..] == [];
  }

  lemma {:induction false} RewriteField(c: Config, done: set<Field>, env: Environment, f: Field)
    requires f !in done && !IsSecret(f)
    ensures Replace(Rewrite(c, done, env), FieldKey(f), EnvironmentValue(f, env)) == Rewrite(c, done + {f}, env)
  {
    if c != [] {
      RewriteField(c[1..], done, env, f);
      RewrittenField(c[0], done, env, f);
      ReplaceOfConcat(Rewritten(c[0], done, env), Rewrite(c[1..], done, env), FieldKey(f), EnvironmentValue(f, env));
    }
  }

  lemma {:induction false} RewriteSecret(c: Config, done: set<Field>, env: Environment, f: Field)
    requires f !in done && IsSecret(f)
    ensures Remove(Rewrite(c, done, env), ClearKey(f)) == Rewrite(c, done + {f}, env)
  {
    if c != [] {
      RewriteSecret(c[1..], done, env, f);
      RewrittenSecret(c[0], done, env, f);
      RemoveOfConcat(Rewritten(c[0], done, env), Rewrite(c[1..], done, env), ClearKey(f));
    }
  }

  lemma {:induction false} RewriteHas(c: Config, done: set<Field>, env: Environment, f: Field)
    ensures Has(Rewrite(c, done, env), FieldKey(f)) <==> Has(c, FieldKey(f))
  {
    if c != [] {
      RewriteHas(c[1..], done, env, f);
      GetOfConcat(Rewritten(c[0], done, env), Rewrite(c[1..], done, env), FieldKey(f));
    }
  }

  lemma {:induction false} MarksHold(resets: seq<Field>, env: Environment, n: nat, key: Name)
    requires n <= |resets| && Has(ClearMarks(resets, env, n), key)
    ensures key.ClearKey? && IsSecret(key.field) && key.field in DoneAfter(resets, n)
  {
    if n > 0 {
      var f, earlier := resets[n - 1], ClearMarks(resets, env, n - 1);
      if IsSecret(f) && !ConfiguredText(SecretText(f, env)) {
        GetOfConcat(earlier, [Entry(ClearKey(f), Bool(true))], key);
      } else {
        assert ClearMarks(resets, env, n) == earlier;
      }
      if Has(earlier, key) {
        MarksHold(resets, env, n - 1, key);
      }
    }
  }

  /** The draft holds every reset field, as it does from its creation on. */
  predicate HoldsResets(changes: Config, resets: seq<Field>) {
    forall i :: 0 <= i < |resets| && !IsSecret(resets[i]) ==> Has(changes, FieldKey(resets[i]))
  }

  function ResolveChanges(changes: Config, resets: seq<Field>, env: Environment, n: nat): Config
    requires n <= |resets|
  {
    if n == 0 then changes else ResolveChange(ResolveChanges(changes, resets, env, n - 1), resets[n - 1], env)
  }

  function ResolveSecrets(secrets: Config, resets: seq<Field>, env: Environment, n: nat): Config
    requires n <= |resets|
  {
    if n == 0 then secrets else ResolveSecret(ResolveSecrets(secrets, resets, env, n - 1), resets[n - 1], env)
  }

  lemma {:induction false} ResolvedApart(m: Material, resets: seq<Field>, env: Environment, n: nat)
    requires n <= |resets|
    ensures ResolveFields(m, resets, env, n)
         == Material(ResolveChanges(m.changes, resets, env, n), ResolveSecrets(m.secrets, resets, env, n))
  {
    if n > 0 {
      ResolvedApart(m, resets, env, n - 1);
      FieldApart(ResolveFields(m, resets, env, n - 1), ResolveChanges(m.changes, resets, env, n - 1),
                 ResolveSecrets(m.secrets, resets, env, n - 1), resets[n - 1], env);
    }
  }

  lemma FieldApart(m: Material, changes: Config, secrets: Config, f: Field, env: Environment)
    requires m == Material(changes, secrets)
    ensures ResolveField(m, f, env) == Material(ResolveChange(changes, f, env), ResolveSecret(secrets, f, env))
  {
  }

  lemma {:induction false} ResolvedChanges(changes: Config, resets: seq<Field>, env: Environment, n: nat)
    requires n <= |resets| && NoDuplicates(resets) && HoldsResets(changes, resets)
    ensures ResolveChanges(changes, resets, env, n)
         == Rewrite(changes, DoneAfter(resets, n), env) + ClearMarks(resets, env, n)
  {
    if n == 0 {
      RewriteNothing(changes, env);
    } else {
      ResolvedChanges(changes, resets, env, n - 1);
      ResolvedStep(ResolveChanges(changes, resets, env, n - 1), changes, resets, env, n);
    }
  }

  lemma ResolvedStep(earlier: Config, changes: Config, resets: seq<Field>, env: Environment, n: nat)
    requires 0 < n <= |resets| && NoDuplicates(resets) && HoldsResets(changes, resets)
    requires earlier == Rewrite(changes, DoneAfter(resets, n - 1), env) + ClearMarks(resets, env, n - 1)
    ensures ResolveChange(earlier, resets[n - 1], env)
         == Rewrite(changes, DoneAfter(resets, n), env) + ClearMarks(resets, env, n)
  {
    DoneAfterMeans(resets, n - 1, resets[n - 1]);
    if IsSecret(resets[n - 1]) {
      ResolvedSecretStep(changes, resets, env, n);
    } else {
      ResolvedFieldStep(changes, resets, env, n);
    }
  }

  lemma {:induction false} RewriteNothing(c: Config, env: Environment)
    ensures Rewrite(c, {}, env) == c
  {
    if c != [] {
      RewriteNothing(c[1..], env);
      assert c == [c[0]] + c[1..];
    }
  }

  lemma ResolvedSecretStep(changes: Config, resets: seq<Field>, env: Environment, n: nat)
    requires 0 < n <= |resets| && IsSecret(resets[n - 1]) && resets[n - 1] !in DoneAfter(resets, n - 1)
    ensures ResolveChange(Rewrite(changes, DoneAfter(resets, n - 1), env) + ClearMarks(resets, env, n - 1), resets[n - 1], env)
         == Rewrite(changes, DoneAfter(resets, n), env) + ClearMarks(resets, env, n)
  {
    var f, done, marks := resets[n - 1], DoneAfter(resets, n - 1), ClearMarks(resets, env, n - 1);
    var written := Rewrite(changes, done, env);
    if Has(marks, ClearKey(f)) {
      MarksHold(resets, env, n - 1, ClearKey(f));
    }
    RewriteSecret(changes, done, env, f);
    SecretInFront(written, marks, f, env);
  }

  lemma SecretInFront(written: Config, marks: Config, f: Field, env: Environment)
    requires IsSecret(f) && !Has(marks, ClearKey(f))
    ensures ResolveChange(written + marks, f, env)
         == Remove(written, ClearKey(f)) + (marks + if ConfiguredText(SecretText(f, env)) then [] else [Entry(ClearKey(f), Bool(true))])
  {
    var rest, mark := Remove(written, ClearKey(f)), Entry(ClearKey(f), Bool(true));
    RemovedInFront(written, marks, ClearKey(f));
    if ConfiguredText(SecretText(f, env)) {
      assert marks + [] == marks;
    } else {
      Reassociate(rest, marks, [mark]);
    }
  }

  lemma RemovedInFront(written: Config, marks: Config, key: Name)
    requires !Has(marks, key)
    ensures Remove(written + marks, key) == Remove(written, key) + marks
    ensures !Has(Remove(written + marks, key), key)
  {
    RemoveOfConcat(written, marks, key);
    RemoveAbsent(marks, key);
    GetOfRemove(written + marks, key, key);
  }

  lemma FieldInFront(written: Config, marks: Config, f: Field, env: Environment)
    requires !IsSecret(f) && Has(written, FieldKey(f)) && !Has(marks, FieldKey(f))
    ensures ResolveChange(written + marks, f, env) == Replace(written, FieldKey(f), EnvironmentValue(f, env)) + marks
  {
    GetOfConcat(written, marks, FieldKey(f));
    ReplaceOfConcat(written, marks, FieldKey(f), EnvironmentValue(f, env));
    ReplaceAbsent(marks, FieldKey(f), EnvironmentValue(f, env));
  }

  lemma ResolvedFieldStep(changes: Config, resets: seq<Field>, env: Environment, n: nat)
    requires 0 < n <= |resets| && HoldsResets(changes, resets)
    requires !IsSecret(resets[n - 1]) && resets[n - 1] !in DoneAfter(resets, n - 1)
    ensures ResolveChange(Rewrite(changes, DoneAfter(resets, n - 1), env) + ClearMarks(resets, env, n - 1), resets[n - 1], env)
         == Rewrite(changes, DoneAfter(resets, n), env) + ClearMarks(resets, env, n)
  {
    var f, done := resets[n - 1], DoneAfter(resets, n - 1);
    FieldLeavesMarks(resets, env, n);
    RewriteField(changes, done, env, f);
    RewriteHas(changes, done, env, f);
    FieldInFront(Rewrite(changes, done, env), ClearMarks(resets, env, n - 1), f, env);
  }

  lemma FieldLeavesMarks(resets: seq<Field>, env: Environment, n: nat)
    requires 0 < n <= |resets| && !IsSecret(resets[n - 1])
    ensures DoneAfter(resets, n) == DoneAfter(resets, n - 1) + {resets[n - 1]} && ClearMarks(resets, env, n) == ClearMarks(resets, env, n - 1)
    ensures !Has(ClearMarks(resets, env, n - 1), FieldKey(resets[n - 1]))
  {
    if Has(ClearMarks(resets, env, n - 1), FieldKey(resets[n - 1])) {
      MarksHold(resets, env, n - 1, FieldKey(resets[n - 1]));
    }
  }

  lemma ResetsStillHeld(changes: Config, resets: seq<Field>, env: Environment)
    requires NoDuplicates(resets) && HoldsResets(changes, resets)
    ensures HoldsResets(ResolveChanges(changes, resets, env, |resets|), resets)
  {
    var done, marks := DoneAfter(resets, |resets|), ClearMarks(resets, env, |resets|);
    ResolvedChanges(changes, resets, env, |resets|);
    forall i | 0 <= i < |resets| && !IsSecret(resets[i])
      ensures Has(ResolveChanges(changes, resets, env, |resets|), FieldKey(resets[i]))
    {
      RewriteHas(changes, done, env, resets[i]);
      GetOfConcat(Rewrite(changes, done, env), marks, FieldKey(resets[i]));
    }
  }

  lemma RewriteOfResolved(changes: Config, resets: seq<Field>, env: Environment)
    ensures var n, done := |resets|, DoneAfter(resets, |resets|);
            Rewrite(Rewrite(changes, done, env) + ClearMarks(resets, env, n), done, env) == Rewrite(changes, done, env)
  {
    var n, done := |resets|, DoneAfter(resets, |resets|);
    RewriteOfConcat(Rewrite(changes, done, env), ClearMarks(resets, env, n), done, env);
    RewriteTwice(changes, done, env);
    forall i | 0 <= i < |ClearMarks(resets, env, n)| ensures Dropped(ClearMarks(resets, env, n)[i], done) {
      MarksAreDropped(resets, env, n, i);
    }
    RewriteOfDropped(ClearMarks(resets, env, n), done, env);
  }

  /** After one refresh the changes read the same to the next. */
  lemma ChangesComeToRest(changes: Config, resets: seq<Field>, env: Environment)
    requires NoDuplicates(resets) && HoldsResets(changes, resets)
    ensures var first := ResolveChanges(changes, resets, env, |resets|);
            ResolveChanges(first, resets, env, |resets|) == first
  {
    ResetsStillHeld(changes, resets, env);
    ResolvedChanges(changes, resets, env, |resets|);
    ResolvedChanges(ResolveChanges(changes, resets, env, |resets|), resets, env, |resets|);
    RewriteOfResolved(changes, resets, env);
  }

  // ----- the secrets

  /** Which secrets the resets name, and in which order. */
  datatype SecretResets = Neither | OnlyPassword | OnlyKey | PasswordThenKey | KeyThenPassword

  function Next(s: SecretResets, f: Field): SecretResets {
    if f == IpaPassword && s == Neither then OnlyPassword
    else if f == IpaPassword && s == OnlyKey then KeyThenPassword
    else if f == XyopsApiKey && s == Neither then OnlyKey
    else if f == XyopsApiKey && s == OnlyPassword then PasswordThenKey
    else s
  }

  function SecretsReset(resets: seq<Field>, n: nat): SecretResets
    requires n <= |resets|
  {
    if n == 0 then Neither else Next(SecretsReset(resets, n - 1), resets[n - 1])
  }

  lemma {:induction false} SecretsResetMeans(resets: seq<Field>, n: nat)
    requires n <= |resets|
    ensures SecretsReset(resets, n) !in {Neither, OnlyKey} <==> AmongFirst(resets, n, IpaPassword)
    ensures SecretsReset(resets, n) !in {Neither, OnlyPassword} <==> AmongFirst(resets, n, XyopsApiKey)
  {
    if n > 0 {
      SecretsResetMeans(resets, n - 1);
    }
  }

  lemma {:induction false} KeyFirst(resets: seq<Field>, n: nat)
    requires n <= |resets| && NoDuplicates(resets)
    ensures SecretsReset(resets, n) == KeyThenPassword
       <==> exists i, j :: 0 <= i < j < n && resets[i] == XyopsApiKey && resets[j] == IpaPassword
  {
    if n > 0 {
      KeyFirst(resets, n - 1);
      SecretsResetMeans(resets, n - 1);
      AmongFirstMeans(resets, n - 1, XyopsApiKey);
      AmongFirstMeans(resets, n - 1, IpaPassword);
    }
  }

  // ----- when the refresh comes to rest

  function Held(f: Field, text: Option<string>): Config {
    if text.Some? then [Entry(FieldKey(f), Str(text.value))] else []
  }

  function Supplied(f: Field, env: Environment): Option<string> {
    if ConfiguredText(SecretText(f, env)) then Some(SecretText(f, env)) else None
  }

  function PasswordAfter(password: Option<string>, s: SecretResets, env: Environment): Option<string> {
    if s.Neither? || s.OnlyKey? then password else Supplied(IpaPassword, env)
  }

  function KeyAfter(key: Option<string>, s: SecretResets, env: Environment): Option<string> {
    if s.Neither? || s.OnlyPassword? then key else Supplied(XyopsApiKey, env)
  }

  predicate PasswordLast(s: SecretResets) {
    s.OnlyPassword? || s.KeyThenPassword?
  }

  /** What a refresh leaves of the two secrets, in the order it writes them. */
  function AfterPass(password: Option<string>, key: Option<string>, s: SecretResets, env: Environment): Config {
    var p, k := Held(IpaPassword, PasswordAfter(password, s, env)), Held(XyopsApiKey, KeyAfter(key, s, env));
    if PasswordLast(s) then k + p else p + k
  }

  function Other(f: Field): Field {
    if f == IpaPassword then XyopsApiKey else IpaPassword
  }

  lemma HeldAlone(f: Field, text: Option<string>, g: Field)
    ensures Remove(Held(f, text), FieldKey(g)) == if g == f then [] else Held(f, text)
    ensures g != f ==> !Has(Held(f, text), FieldKey(g))
  {
    if text.Some? {
      assert Held(f, text)[1..] == [];
      assert Get([], FieldKey(g)) == None;
    }
  }

  /** Resolving a secret leaves the other one in front of it, whichever came first. */
  lemma ResolveSecretMoves(f: Field, own: Option<string>, other: Option<string>, env: Environment, first: bool)
    requires IsSecret(f)
    ensures var mine, theirs := Held(f, own), Held(Other(f), other);
            ResolveSecret(if first then mine + theirs else theirs + mine, f, env) == theirs + Held(f, Supplied(f, env))
  {
    var mine, theirs := Held(f, own), Held(Other(f), other);
    HeldAlone(f, own, f);
    HeldAlone(Other(f), other, f);
    if first {
      RemoveOfConcat(mine, theirs, FieldKey(f));
      assert [] + theirs == theirs;
    } else {
      RemoveOfConcat(theirs, mine, FieldKey(f));
      assert theirs + [] == theirs;
    }
  }

  lemma PasswordStep(password: Option<string>, key: Option<string>, s: SecretResets, env: Environment)
    requires s.Neither? || s.OnlyKey?
    ensures ResolveSecret(AfterPass(password, key, s, env), IpaPassword, env) == AfterPass(password, key, Next(s, IpaPassword), env)
  {
    ResolveSecretMoves(IpaPassword, password, KeyAfter(key, s, env), env, true);
  }

  lemma KeyStep(password: Option<string>, key: Option<string>, s: SecretResets, env: Environment)
    requires s.Neither? || s.OnlyPassword?
    ensures ResolveSecret(AfterPass(password, key, s, env), XyopsApiKey, env) == AfterPass(password, key, Next(s, XyopsApiKey), env)
  {
    ResolveSecretMoves(XyopsApiKey, key, PasswordAfter(password, s, env), env, s.OnlyPassword?);
  }

  lemma NotYetReset(resets: seq<Field>, n: nat)
    requires 0 < n <= |resets| && NoDuplicates(resets)
    ensures resets[n - 1] == IpaPassword ==> SecretsReset(resets, n - 1) in {Neither, OnlyKey}
    ensures resets[n - 1] == XyopsApiKey ==> SecretsReset(resets, n - 1) in {Neither, OnlyPassword}
  {
    SecretsResetMeans(resets, n - 1);
    AmongFirstMeans(resets, n - 1, resets[n - 1]);
    assert !AmongFirst(resets, n - 1, resets[n - 1]);
  }

  lemma PassStep(password: Option<string>, key: Option<string>, resets: seq<Field>, env: Environment, n: nat)
    requires 0 < n <= |resets| && NoDuplicates(resets)
    ensures ResolveSecret(AfterPass(password, key, SecretsReset(resets, n - 1), env), resets[n - 1], env)
         == AfterPass(password, key, SecretsReset(resets, n), env)
  {
    NotYetReset(resets, n);
    if resets[n - 1] == IpaPassword {
      PasswordStep(password, key, SecretsReset(resets, n - 1), env);
    } else if resets[n - 1] == XyopsApiKey {
      KeyStep(password, key, SecretsReset(resets, n - 1), env);
    }
  }

  lemma {:induction false} PassMeans(password: Option<string>, key: Option<string>, resets: seq<Field>, env: Environment, n: nat)
    requires n <= |resets| && NoDuplicates(resets)
    ensures ResolveSecrets(Held(IpaPassword, password) + Held(XyopsApiKey, key), resets, env, n)
         == AfterPass(password, key, SecretsReset(resets, n), env)
  {
    if n > 0 {
      PassMeans(password, key, resets, env, n - 1);
      PassStep(password, key, resets, env, n);
    }
  }

  /** The secrets as they are read back, in their fixed order. */
  function Canonical(secrets: Config): Config {
    SecretEntry(secrets, IpaPassword) + SecretEntry(secrets, XyopsApiKey)
  }

  lemma CanonicalOfHeld(password: Option<string>, key: Option<string>)
    ensures Canonical(Held(IpaPassword, password) + Held(XyopsApiKey, key)) == Held(IpaPassword, password) + Held(XyopsApiKey, key)
    ensures Canonical(Held(XyopsApiKey, key) + Held(IpaPassword, password)) == Held(IpaPassword, password) + Held(XyopsApiKey, key)
  {
    var p, k := Held(IpaPassword, password), Held(XyopsApiKey, key);
    GetOfConcat(p, k, FieldKey(IpaPassword));
    GetOfConcat(p, k, FieldKey(XyopsApiKey));
    GetOfConcat(k, p, FieldKey(IpaPassword));
    GetOfConcat(k, p, FieldKey(XyopsApiKey));
  }

  lemma HeldOrder(password: Option<string>, key: Option<string>)
    ensures Held(XyopsApiKey, key) + Held(IpaPassword, password) != Held(IpaPassword, password) + Held(XyopsApiKey, key)
       <==> password.Some? && key.Some?
  {
    if password.Some? && key.Some? {
      assert (Held(XyopsApiKey, key) + Held(IpaPassword, password))[0] != (Held(IpaPassword, password) + Held(XyopsApiKey, key))[0];
    }
  }

  /** A second pass writes what the first wrote, and sees a change just when the password ended up last. */
  lemma SecondPass(password: Option<string>, key: Option<string>, resets: seq<Field>, env: Environment)
    requires NoDuplicates(resets)
    ensures var s := SecretsReset(resets, |resets|);
            var first := AfterPass(password, key, s, env);
            && ResolveSecrets(Canonical(first), resets, env, |resets|) == first
            && (first != Canonical(first) <==>
                  PasswordLast(s) && PasswordAfter(password, s, env).Some? && KeyAfter(key, s, env).Some?)
  {
    var s := SecretsReset(resets, |resets|);
    var p, k := PasswordAfter(password, s, env), KeyAfter(key, s, env);
    CanonicalOfHeld(p, k);
    HeldOrder(p, k);
    PassMeans(p, k, resets, env, |resets|);
  }

  /**
   Storing a refreshed draft and refreshing it again stores the same draft. Yet the second refresh
   still reports a change exactly for a restless draft, and so does every later one: such a draft is
   sent back from every apply.
   */
  lemma RefreshComesToRest(m: Material, resets: seq<Field>, env: Environment)
    requires NoDuplicates(resets) && HoldsResets(m.changes, resets)
    ensures var first := Refreshed(m, resets, env);
            && Refreshed(first, resets, env) == first
            && (NeedsRefresh(first, resets, env) <==> Restless(m, resets, env))
  {
    var n, first := |resets|, Refreshed(m, resets, env);
    var password, key := TextOf(Get(m.secrets, FieldKey(IpaPassword))), TextOf(Get(m.secrets, FieldKey(XyopsApiKey)));
    ResolvedApart(Reread(m), resets, env, n);
    ResolvedApart(Reread(first), resets, env, n);
    ChangesComeToRest(m.changes, resets, env);
    assert Canonical(m.secrets) == Held(IpaPassword, password) + Held(XyopsApiKey, key);
    PassMeans(password, key, resets, env, n);
    assert first.secrets == AfterPass(password, key, SecretsReset(resets, n), env);
    SecondPass(password, key, resets, env);
    RestlessMeans(m, resets, env);
  }

  lemma RestlessMeans(m: Material, resets: seq<Field>, env: Environment)
    requires NoDuplicates(resets)
    ensures var s := SecretsReset(resets, |resets|);
            Restless(m, resets, env) <==>
              && PasswordLast(s)
              && Supplied(IpaPassword, env).Some?
              && KeyAfter(TextOf(Get(m.secrets, FieldKey(XyopsApiKey))), s, env).Some?
  {
    SecretsResetMeans(resets, |resets|);
    AmongFirstMeans(resets, |resets|, IpaPassword);
    AmongFirstMeans(resets, |resets|, XyopsApiKey);
    KeyFirst(resets, |resets|);
  }

  /** A restless draft needs a refresh as it stands: the refresh ends with the password behind a key. */
  lemma RestlessFromTheStart(m: Material, resets: seq<Field>, env: Environment)
    requires NoDuplicates(resets) && Restless(m, resets, env)
    ensures NeedsRefresh(m, resets, env)
  {
    var n, s := |resets|, SecretsReset(resets, |resets|);
    var password, key := TextOf(Get(m.secrets, FieldKey(IpaPassword))), TextOf(Get(m.secrets, FieldKey(XyopsApiKey)));
    ResolvedApart(Reread(m), resets, env, n);
    assert Canonical(m.secrets) == Held(IpaPassword, password) + Held(XyopsApiKey, key);
    PassMeans(password, key, resets, env, n);
    RestlessMeans(m, resets, env);
    PasswordLastDiffers(password, key, PasswordAfter(password, s, env), KeyAfter(key, s, env));
  }

  lemma PasswordLastDiffers(password: Option<string>, key: Option<string>, p: Option<string>, k: Option<string>)
    requires p.Some? && k.Some?
    ensures Held(XyopsApiKey, k) + Held(IpaPassword, p) != Held(IpaPassword, password) + Held(XyopsApiKey, key)
  {
    var after, before := Held(XyopsApiKey, k) + Held(IpaPassword, p), Held(IpaPassword, password) + Held(XyopsApiKey, key);
    assert |after| == 2 && after[1].key == FieldKey(IpaPassword);
    assert |before| == 2 ==> before[1].key == FieldKey(XyopsApiKey);
  }
}
