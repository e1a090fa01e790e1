/**
 The stored settings content and its inheritance from the environment: which fields the database
 overrides, what a synchronisation writes, and the virtual row that readers see instead.
 */
module SettingsFields {
  import opened Prelude
  import opened Text

  datatype Field = DemoMode | IpaUrl | IpaUsername | IpaPassword | XyopsUrl | XyopsApiKey

  const SETTING_FIELDS: seq<Field> := [DemoMode, IpaUrl, IpaUsername, IpaPassword, XyopsUrl, XyopsApiKey]
  const ALL_FIELDS: set<Field> := {DemoMode, IpaUrl, IpaUsername, IpaPassword, XyopsUrl, XyopsApiKey}

  function Position(f: Field): (i: nat)
    ensures i < 6 && SETTING_FIELDS[i] == f
  {
    match f
    case DemoMode => 0
    case IpaUrl => 1
    case IpaUsername => 2
    case IpaPassword => 3
    case XyopsUrl => 4
    case XyopsApiKey => 5
  }

  predicate IsSecret(f: Field) {
    f.IpaPassword? || f.XyopsApiKey?
  }

  // ----- JSON objects, with the key order that their text has

  /** The keys the settings code knows by name, and any other key. */
  datatype Name = FieldKey(field: Field) | ClearKey(field: Field) | OverridesKey | ResetFieldsKey | BaseRevisionKey | ChangesKey
                | OtherKey(text: string)

  /** What a list may hold: strings that spell a field's name, and anything else. */
  datatype Item = FieldName(field: Field) | OtherItem(text: string)

  datatype Json = Null | Bool(b: bool) | Number(text: string) | Str(s: string) | List(items: seq<Item>) | Object(text: string)
  datatype Entry = Entry(key: Name, value: Json)
  type Config = seq<Entry>

  function Get(c: Config, key: Name): Option<Json> {
    if c == [] then None else if c[0].key == key then Some(c[0].value) else Get(c[1..], key)
  }

  predicate Has(c: Config, key: Name) {
    Get(c, key).Some?
  }

  /** An existing key keeps its place, a new one goes last. */
  function Put(c: Config, key: Name, value: Json): Config {
    if Has(c, key) then Replace(c, key, value) else c + [Entry(key, value)]
  }

  function Replace(c: Config, key: Name, value: Json): (r: Config)
    ensures |r| == |c|
  {
    if c == [] then [] else [if c[0].key == key then Entry(key, value) else c[0]] + Replace(c[1..], key, value)
  }

  function Remove(c: Config, key: Name): Config {
    if c == [] then [] else (if c[0].key == key then [] else [c[0]]) + Remove(c[1..], key)
  }

  lemma {:induction false} GetOfConcat(c: Config, d: Config, key: Name)
    ensures Get(c + d, key) == if Has(c, key) then Get(c, key) else Get(d, key)
  {
    if c == [] {
      assert c + d == d;
    } else {
      GetOfConcat(c[1..], d, key);
      assert (c + d)[1..] == c[1..] + d;
    }
  }

  lemma {:induction false} GetOfReplace(c: Config, key: Name, value: Json, other: Name)
    ensures Get(Replace(c, key, value), other) == if other == key && Has(c, key) then Some(value) else Get(c, other)
  {
    if c != [] {
      GetOfReplace(c[1..], key, value, other);
      assert Replace(c, key, value)[1..] == Replace(c[1..], key, value);
    }
  }

  lemma GetOfPut(c: Config, key: Name, value: Json, other: Name)
    ensures Get(Put(c, key, value), other) == if other == key then Some(value) else Get(c, other)
  {
    if Has(c, key) {
      GetOfReplace(c, key, value, other);
    } else {
      GetOfConcat(c, [Entry(key, value)], other);
    }
  }

  lemma {:induction false} GetOfRemove(c: Config, key: Name, other: Name)
    ensures Get(Remove(c, key), other) == if other == key then None else Get(c, other)
  {
    if c != [] {
      GetOfRemove(c[1..], key, other);
      if c[0].key == key {
        assert Remove(c, key) == Remove(c[1..], key);
      } else {
        assert Remove(c, key)[1..] == Remove(c[1..], key);
      }
    }
  }

  /** A JSON object holds a key once. */
  predicate Unique(c: Config) {
    c == [] || (!Has(c[1..], c[0].key) && Unique(c[1..]))
  }

  lemma {:induction false} ReplaceAbsent(c: Config, key: Name, value: Json)
    requires !Has(c, key)
    ensures Replace(c, key, value) == c
  {
    if c != [] {
      ReplaceAbsent(c[1..], key, value);
      assert c == [c[0]] + c[1..];
    }
  }

  lemma {:induction false} PutSame(c: Config, key: Name, value: Json)
    requires Unique(c) && Get(c, key) == Some(value)
    ensures Put(c, key, value) == c
  {
    if c[0].key == key {
      ReplaceAbsent(c[1..], key, value);
    } else {
      PutSame(c[1..], key, value);
    }
    assert c == [c[0]] + c[1..];
  }

  lemma {:induction false} UniqueReplace(c: Config, key: Name, value: Json)
    requires Unique(c)
    ensures Unique(Replace(c, key, value))
  {
    if c != [] {
      UniqueReplace(c[1..], key, value);
      GetOfReplace(c[1..], key, value, c[0].key);
      assert Replace(c, key, value)[1..] == Replace(c[1..], key, value);
    }
  }

  lemma {:induction false} UniqueAppend(c: Config, e: Entry)
    requires Unique(c) && !Has(c, e.key)
    ensures Unique(c + [e])
  {
    if c == [] {
      assert c + [e] == [e];
    } else {
      UniqueAppend(c[1..], e);
      assert (c + [e])[1..] == c[1..] + [e];
      GetOfConcat(c[1..], [e], c[0].key);
    }
  }

  lemma UniquePut(c: Config, key: Name, value: Json)
    requires Unique(c)
    ensures Unique(Put(c, key, value))
  {
    if Has(c, key) {
      UniqueReplace(c, key, value);
    } else {
      UniqueAppend(c, Entry(key, value));
    }
  }

  // ----- the environment

  /** The environment as the fields read it: URLs and names already normalised, secrets verbatim. */
  datatype Environment = Environment(demoMode: bool, ipaUrl: string, ipaUsername: string, ipaPassword: string,
                                     xyopsUrl: string, xyopsApiKey: string)

  function EnvironmentValue(f: Field, env: Environment): Json {
    match f
    case DemoMode => Bool(env.demoMode)
    case IpaUrl => Str(env.ipaUrl)
    case IpaUsername => Str(env.ipaUsername)
    case IpaPassword => Str(env.ipaPassword)
    case XyopsUrl => Str(env.xyopsUrl)
    case XyopsApiKey => Str(env.xyopsApiKey)
  }

  predicate ConfiguredText(s: string) {
    Trim(s) != ""
  }

  /** What an inherited field is worth: its environment value, and for a blank secret nothing at all. */
  function Inherited(f: Field, env: Environment): Json {
    match f
    case IpaPassword => Str(if ConfiguredText(env.ipaPassword) then env.ipaPassword else "")
    case XyopsApiKey => Str(if ConfiguredText(env.xyopsApiKey) then env.xyopsApiKey else "")
    case _ => EnvironmentValue(f, env)
  }

  // ----- overrides

  /** No row overrides nothing; a row from before the list existed overrides everything. */
  function OverrideSet(c: Option<Config>): set<Field> {
    if c.None? then {}
    else if !Has(c.value, OverridesKey) then ALL_FIELDS
    else
      match Get(c.value, OverridesKey).value
      case List(items) => Named(items)
      case _ => {}
  }

  function Named(items: seq<Item>): set<Field> {
    set f | f in ALL_FIELDS && FieldName(f) in items
  }

  /** The overridden ones of the first `n` fields. */
  function NamesUpTo(overrides: set<Field>, n: nat): seq<Item>
    requires n <= 6
  {
    if n == 0 then []
    else NamesUpTo(overrides, n - 1) + if SETTING_FIELDS[n - 1] in overrides then [FieldName(SETTING_FIELDS[n - 1])] else []
  }

  function OverrideList(overrides: set<Field>): Json {
    List(NamesUpTo(overrides, |SETTING_FIELDS|))
  }

  lemma {:induction false} NamesUpToMean(overrides: set<Field>, n: nat, f: Field)
    requires n <= 6
    ensures FieldName(f) in NamesUpTo(overrides, n) <==> Position(f) < n && f in overrides
  {
    if n > 0 {
      NamesUpToMean(overrides, n - 1, f);
    }
  }

  /** Writing the normalised list and reading it back gives the same overrides. */
  lemma OverridesRoundTrip(c: Config, overrides: set<Field>)
    ensures OverrideSet(Some(Put(c, OverridesKey, OverrideList(overrides)))) == overrides
  {
    GetOfPut(c, OverridesKey, OverrideList(overrides), OverridesKey);
    NamedOfList(overrides);
  }

  /** Which fields a stored object overrides: all without a list, the named ones with one, none with anything else in its place. */
  lemma OverridesRead(c: Option<Config>, f: Field)
    ensures f in OverrideSet(c)
       <==> && c.Some?
            && match Get(c.value, OverridesKey)
               case None => true
               case Some(List(items)) => FieldName(f) in items
               case _ => false
  {
    assert f == SETTING_FIELDS[Position(f)];
  }

  /** The items name some of the first `n` fields, in the order of the fields and each once. */
  predicate InOrder(names: seq<Item>, n: nat) {
    names == []
    || var last := |names| - 1;
       names[last].FieldName? && Position(names[last].field) < n && InOrder(names[..last], Position(names[last].field))
  }

  lemma InOrderUpTo(names: seq<Item>, n: nat, m: nat)
    requires InOrder(names, n) && n <= m
    ensures InOrder(names, m)
  {
  }

  /** The normalised list names the overrides in the order of the fields, each once. */
  lemma {:induction false} NamesInOrder(overrides: set<Field>, n: nat)
    requires n <= 6
    ensures InOrder(NamesUpTo(overrides, n), n)
  {
    if n > 0 {
      NamesInOrder(overrides, n - 1);
      var earlier := NamesUpTo(overrides, n - 1);
      assert Position(SETTING_FIELDS[n - 1]) == n - 1;
      if SETTING_FIELDS[n - 1] in overrides {
        assert NamesUpTo(overrides, n)[..|earlier|] == earlier;
      } else {
        assert NamesUpTo(overrides, n) == earlier;
        InOrderUpTo(earlier, n - 1, n);
      }
    }
  }

  lemma NamedOfList(overrides: set<Field>)
    ensures Named(NamesUpTo(overrides, |SETTING_FIELDS|)) == overrides
  {
    forall f: Field ensures f in Named(NamesUpTo(overrides, |SETTING_FIELDS|)) <==> f in overrides {
      NamesUpToMean(overrides, |SETTING_FIELDS|, f);
    }
  }

  // ----- content

  datatype Secrets = Secrets(ipaPassword: string, xyopsApiKey: string)
  datatype Content = Content(config: Config, secrets: Secrets)
  datatype Row = Row(content: Content, revision: int)

  /** A field's stored value, wherever it is kept. */
  function FieldValue(c: Content, f: Field): Option<Json> {
    match f
    case IpaPassword => Some(Str(c.secrets.ipaPassword))
    case XyopsApiKey => Some(Str(c.secrets.xyopsApiKey))
    case _ => Get(c.config, FieldKey(f))
  }

  predicate ForeignKey(key: Name) {
    !key.FieldKey? && !key.OverridesKey?
  }

  // ----- inheriting

  function Assign(c: Content, f: Field, env: Environment): Content {
    match f
    case IpaPassword => c.(secrets := c.secrets.(ipaPassword := Inherited(f, env).s))
    case XyopsApiKey => c.(secrets := c.secrets.(xyopsApiKey := Inherited(f, env).s))
    case _ => c.(config := Put(c.config, FieldKey(f), EnvironmentValue(f, env)))
  }

  /** The content after the first `n` fields have been visited. */
  function Inherit(c: Content, overrides: set<Field>, env: Environment, n: nat): Content
    requires n <= 6
  {
    if n == 0 then c
    else
      var earlier := Inherit(c, overrides, env, n - 1);
      if SETTING_FIELDS[n - 1] in overrides then earlier else Assign(earlier, SETTING_FIELDS[n - 1], env)
  }

  function Synchronized(c: Content, env: Environment): Content {
    var overrides := OverrideSet(Some(c.config));
    if overrides == ALL_FIELDS then c
    else Inherit(c.(config := Put(c.config, OverridesKey, OverrideList(overrides))), overrides, env, |SETTING_FIELDS|)
  }

  function Overlaid(c: Content, env: Environment): Content {
    var overrides := OverrideSet(Some(c.config));
    if overrides == ALL_FIELDS then c else Inherit(c, overrides, env, |SETTING_FIELDS|)
  }

  lemma AssignMeans(c: Content, f: Field, env: Environment, g: Field, key: Name)
    ensures FieldValue(Assign(c, f, env), g) == if g == f then Some(Inherited(f, env)) else FieldValue(c, g)
    ensures key != FieldKey(f) ==> Get(Assign(c, f, env).config, key) == Get(c.config, key)
  {
    if !IsSecret(f) {
      GetOfPut(c.config, FieldKey(f), EnvironmentValue(f, env), key);
      GetOfPut(c.config, FieldKey(f), EnvironmentValue(f, env), FieldKey(g));
    }
  }

  /** Inheriting touches the visited fields that are not overridden, and nothing else. */
  lemma {:induction false} InheritMeans(c: Content, overrides: set<Field>, env: Environment, n: nat, f: Field, key: Name)
    requires n <= 6
    ensures FieldValue(Inherit(c, overrides, env, n), f)
         == if Position(f) < n && f !in overrides then Some(Inherited(f, env)) else FieldValue(c, f)
    ensures ForeignKey(key) || key == OverridesKey ==> Get(Inherit(c, overrides, env, n).config, key) == Get(c.config, key)
  {
    if n > 0 {
      InheritMeans(c, overrides, env, n - 1, f, key);
      AssignMeans(Inherit(c, overrides, env, n - 1), SETTING_FIELDS[n - 1], env, f, key);
    }
  }

  /**
   What a synchronisation leaves behind: overridden fields as they were, every other field at its
   environment value, the same overrides, and everything else in the object untouched.
   */
  lemma SynchronizedMeans(c: Content, env: Environment, f: Field, key: Name)
    ensures var s := Synchronized(c, env);
            var overrides := OverrideSet(Some(c.config));
            && FieldValue(s, f) == (if f in overrides then FieldValue(c, f) else Some(Inherited(f, env)))
            && OverrideSet(Some(s.config)) == overrides
            && (ForeignKey(key) ==> Get(s.config, key) == Get(c.config, key))
  {
    var overrides := OverrideSet(Some(c.config));
    if overrides != ALL_FIELDS {
      var listed := Put(c.config, OverridesKey, OverrideList(overrides));
      OverridesRoundTrip(c.config, overrides);
      GetOfPut(c.config, OverridesKey, OverrideList(overrides), key);
      GetOfPut(c.config, OverridesKey, OverrideList(overrides), FieldKey(f));
      InheritMeans(c.(config := listed), overrides, env, |SETTING_FIELDS|, f, key);
      InheritMeans(c.(config := listed), overrides, env, |SETTING_FIELDS|, f, OverridesKey);
    }
  }

  /** Each field that is not overridden has its own environment variable's value, a blank secret none. */
  lemma EachFieldInherits(c: Content, env: Environment)
    ensures var s := Synchronized(c, env);
            var overrides := OverrideSet(Some(c.config));
            && (DemoMode !in overrides ==> Get(s.config, FieldKey(DemoMode)) == Some(Bool(env.demoMode)))
            && (IpaUrl !in overrides ==> Get(s.config, FieldKey(IpaUrl)) == Some(Str(env.ipaUrl)))
            && (IpaUsername !in overrides ==> Get(s.config, FieldKey(IpaUsername)) == Some(Str(env.ipaUsername)))
            && (XyopsUrl !in overrides ==> Get(s.config, FieldKey(XyopsUrl)) == Some(Str(env.xyopsUrl)))
            && (IpaPassword !in overrides ==> s.secrets.ipaPassword == if AllSpace(env.ipaPassword) then "" else env.ipaPassword)
            && (XyopsApiKey !in overrides ==> s.secrets.xyopsApiKey == if AllSpace(env.xyopsApiKey) then "" else env.xyopsApiKey)
  {
    SynchronizedMeans(c, env, DemoMode, OverridesKey);
    SynchronizedMeans(c, env, IpaUrl, OverridesKey);
    SynchronizedMeans(c, env, IpaUsername, OverridesKey);
    SynchronizedMeans(c, env, XyopsUrl, OverridesKey);
    SynchronizedMeans(c, env, IpaPassword, OverridesKey);
    SynchronizedMeans(c, env, XyopsApiKey, OverridesKey);
    BlankIsSpace(env.ipaPassword);
    BlankIsSpace(env.xyopsApiKey);
  }

  /** A text is configured unless it is nothing but white space. */
  lemma BlankIsSpace(s: string)
    ensures ConfiguredText(s) <==> !AllSpace(s)
  {
    TrimIsTrimmed(s);
    var rest := s[Lead(s)..];
    if !ConfiguredText(s) {
      assert AllSpace(rest);
      assert Lead(s) == |s|;
      assert s == s[..Lead(s)];
    }
  }

  /**
   A row without an override list is left alone. Any other row that does not override everything gets
   the list of its overrides, and one whose list is not a list inherits every field.
   */
  lemma SynchronizedList(c: Content, env: Environment)
    ensures !Has(c.config, OverridesKey) ==> Synchronized(c, env) == c
    ensures OverrideSet(Some(c.config)) != ALL_FIELDS ==>
              Get(Synchronized(c, env).config, OverridesKey) == Some(OverrideList(OverrideSet(Some(c.config))))
  {
    var overrides := OverrideSet(Some(c.config));
    if overrides != ALL_FIELDS {
      var listed := Put(c.config, OverridesKey, OverrideList(overrides));
      GetOfPut(c.config, OverridesKey, OverrideList(overrides), OverridesKey);
      InheritMeans(c.(config := listed), overrides, env, |SETTING_FIELDS|, DemoMode, OverridesKey);
    }
  }

  lemma AssignSettled(c: Content, f: Field, env: Environment)
    requires Unique(c.config) && FieldValue(c, f) == Some(Inherited(f, env))
    ensures Assign(c, f, env) == c
  {
    if !IsSecret(f) {
      PutSame(c.config, FieldKey(f), EnvironmentValue(f, env));
    }
  }

  lemma {:induction false} InheritSettled(c: Content, overrides: set<Field>, env: Environment, n: nat)
    requires n <= 6 && Unique(c.config)
    requires forall f: Field :: f !in overrides ==> FieldValue(c, f) == Some(Inherited(f, env))
    ensures Inherit(c, overrides, env, n) == c
  {
    if n > 0 {
      InheritSettled(c, overrides, env, n - 1);
      if SETTING_FIELDS[n - 1] !in overrides {
        AssignSettled(c, SETTING_FIELDS[n - 1], env);
      }
    }
  }

  lemma {:induction false} InheritUnique(c: Content, overrides: set<Field>, env: Environment, n: nat)
    requires n <= 6 && Unique(c.config)
    ensures Unique(Inherit(c, overrides, env, n).config)
  {
    if n > 0 {
      InheritUnique(c, overrides, env, n - 1);
      UniquePut(Inherit(c, overrides, env, n - 1).config, FieldKey(SETTING_FIELDS[n - 1]), EnvironmentValue(SETTING_FIELDS[n - 1], env));
    }
  }

  /** A second synchronisation in the same environment reproduces the stored text exactly. */
  lemma SynchronizedIsIdempotent(c: Content, env: Environment)
    requires Unique(c.config)
    ensures Synchronized(Synchronized(c, env), env) == Synchronized(c, env)
  {
    var overrides := OverrideSet(Some(c.config));
    if overrides != ALL_FIELDS {
      var s := Synchronized(c, env);
      var list := OverrideList(overrides);
      UniquePut(c.config, OverridesKey, list);
      InheritUnique(c.(config := Put(c.config, OverridesKey, list)), overrides, env, |SETTING_FIELDS|);
      forall f: Field ensures FieldValue(s, f) == (if f in overrides then FieldValue(c, f) else Some(Inherited(f, env))) {
        SynchronizedMeans(c, env, f, OverridesKey);
      }
      SynchronizedMeans(c, env, DemoMode, OverridesKey);
      InheritMeans(c.(config := Put(c.config, OverridesKey, list)), overrides, env, |SETTING_FIELDS|, DemoMode, OverridesKey);
      GetOfPut(c.config, OverridesKey, list, OverridesKey);
      PutSame(s.config, OverridesKey, list);
      InheritSettled(s, overrides, env, |SETTING_FIELDS|);
    }
  }

  /** Readers of the virtual row see exactly what a synchronisation would store, but for the override list. */
  lemma OverlayIsSynchronization(c: Content, env: Environment, f: Field, key: Name)
    ensures FieldValue(Overlaid(c, env), f) == FieldValue(Synchronized(c, env), f)
    ensures Overlaid(c, env).secrets == Synchronized(c, env).secrets
    ensures ForeignKey(key) ==> Get(Overlaid(c, env).config, key) == Get(Synchronized(c, env).config, key)
    ensures Get(Overlaid(c, env).config, OverridesKey) == Get(c.config, OverridesKey)
    ensures OverrideSet(Some(Overlaid(c, env).config)) == OverrideSet(Some(Synchronized(c, env).config))
  {
    OverlaidMeans(c, env, f, key);
    OverlaidMeans(c, env, IpaPassword, OverridesKey);
    OverlaidMeans(c, env, XyopsApiKey, OverridesKey);
    SynchronizedMeans(c, env, f, key);
    SynchronizedMeans(c, env, IpaPassword, key);
    SynchronizedMeans(c, env, XyopsApiKey, key);
  }

  lemma OverlaidMeans(c: Content, env: Environment, f: Field, key: Name)
    ensures var overrides := OverrideSet(Some(c.config));
            FieldValue(Overlaid(c, env), f) == if f in overrides then FieldValue(c, f) else Some(Inherited(f, env))
    ensures ForeignKey(key) || key == OverridesKey ==> Get(Overlaid(c, env).config, key) == Get(c.config, key)
  {
    InheritMeans(c, OverrideSet(Some(c.config)), env, |SETTING_FIELDS|, f, key);
  }

  // ----- the operations

  /** The loop over the fields that both the synchronisation and the overlay run. */
  method InheritFields(start: Content, overrides: set<Field>, env: Environment) returns (c: Content)
    ensures c == Inherit(start, overrides, env, |SETTING_FIELDS|)
  {
    c := start;
    for i := 0 to |SETTING_FIELDS|
      invariant c == Inherit(start, overrides, env, i)
    {
      var field := SETTING_FIELDS[i];
      if field !in overrides {
        if field == IpaPassword {
          c := c.(secrets := c.secrets.(ipaPassword := if ConfiguredText(env.ipaPassword) then env.ipaPassword else ""));
        } else if field == XyopsApiKey {
          c := c.(secrets := c.secrets.(xyopsApiKey := if ConfiguredText(env.xyopsApiKey) then env.xyopsApiKey else ""));
        } else {
          c := c.(config := Put(c.config, FieldKey(field), EnvironmentValue(field, env)));
        }
      }
    }
  }

  /** The row after a synchronisation at `now`: untouched when its content is settled already. */
  function SynchronizedRow(row: Row, env: Environment, now: int): Row {
    var next := Synchronized(row.content, env);
    if next == row.content then row else Row(next, Max(now, row.revision + 1))
  }

  /** A synchronisation writes at most once, and every write raises the revision. */
  lemma SynchronizedRowSettles(row: Row, env: Environment, now: int, later: int)
    requires Unique(row.content.config)
    ensures var s := SynchronizedRow(row, env, now);
            && SynchronizedRow(s, env, later) == s
            && s.content == Synchronized(row.content, env)
            && (s.content == row.content ==> s == row)
            && (s.content != row.content ==> s.revision > row.revision && s.revision >= now && s.revision in {now, row.revision + 1})
  {
    SynchronizedIsIdempotent(row.content, env);
  }

  /** The settings row as its operations change it. */
  class SettingsTable {
    var active: Option<Row>

    constructor (row: Option<Row>)
      ensures active == row
    {
      active := row;
    }

    /** Stores the inherited values; nothing happens without a row or with every field overridden. */
    method Synchronize(env: Environment, now: int)
      modifies this
      ensures active == if old(active).None? then None else Some(SynchronizedRow(old(active).value, env, now))
    {
      if active.None? {
        return;
      }
      var row := active.value;
      var overrides := OverrideSet(Some(row.content.config));
      if overrides == ALL_FIELDS {
        return;
      }
      var listed := row.content.(config := Put(row.content.config, OverridesKey, OverrideList(overrides)));
      var next := InheritFields(listed, overrides, env);
      if next == row.content {
        return;
      }
      active := Some(Row(next, Max(now, row.revision + 1)));
    }

    /** Puts a captured row back, or takes the row away, provided the attempted revision is still in place. */
    method RestoreCas(before: Option<Row>, attempted: int, now: int) returns (ok: bool)
      modifies this
      ensures ok <==> old(active).Some? && old(active).value.revision == attempted
      ensures !ok ==> active == old(active)
      ensures ok && before.None? ==> active == None
      ensures ok && before.Some? ==> active == Some(Row(before.value.content, Max(now, attempted + 1)))
    {
      if active.None? || active.value.revision != attempted {
        return false;
      }
      active := if before.None? then None else Some(Row(before.value.content, Max(now, attempted + 1)));
      ok := true;
    }

    /** The row readers are given instead of the stored one; the table does not change. */
    method ReadInherited(env: Environment) returns (seen: Option<Row>)
      ensures seen == if active.None? then None else Some(Row(Overlaid(active.value.content, env), active.value.revision))
    {
      seen := active;
      if active.Some? {
        var overrides := OverrideSet(Some(active.value.content.config));
        if overrides != ALL_FIELDS {
          var content := InheritFields(active.value.content, overrides, env);
          seen := Some(Row(content, active.value.revision));
        }
      }
    }
  }
}
