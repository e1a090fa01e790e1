/**
 Creating a settings draft: the checks on a request with resets, its translation into plain changes,
 and the normalisation that accepts or refuses it.
 */
module SettingsRequests {
  import opened Prelude
  import opened Text
  import opened SettingsFields
  import opened SettingsDrafts
  import opened SettingsRefresh

  datatype Refusal = ResetConflict(fields: set<Field>)
                   | NotOverridden(fields: set<Field>)
                   | Unsupported(key: Name)
                   | NotBoolean(key: Name)
                   | NotText(key: Name)
                   | TooLong(key: Name)
                   | NotAUrl(key: Name)
                   | HasControls(key: Name)
                   | SetAndCleared(field: Field)
                   | NoChanges

  datatype Outcome<+T> = Accepted(value: T) | Refused(reason: Refusal) {
    predicate IsFailure() {
      Refused?
    }

    function PropagateFailure<U>(): Outcome<U>
      requires IsFailure()
    {
      Refused(reason)
    }

    function Extract(): T
      requires !IsFailure()
    {
      value
    }
  }

  /** An HTTP(S) URL without credentials as the URL parser writes it back, or nothing. */
  type UrlParser = string -> Option<string>

  // ----- resets

  predicate Touches(body: Config, f: Field) {
    Has(body, FieldKey(f)) || (IsSecret(f) && Has(body, ClearKey(f)))
  }

  function ResetConflicts(body: Config, resets: seq<Field>): set<Field> {
    set f | f in ALL_FIELDS && f in resets && Touches(body, f)
  }

  /** One reset, written into the request as an ordinary change. */
  function ResetOne(body: Config, f: Field, env: Environment): Config {
    if !IsSecret(f) then Put(body, FieldKey(f), EnvironmentValue(f, env))
    else
      var unmarked := Remove(body, ClearKey(f));
      if ConfiguredText(SecretText(f, env)) then Put(unmarked, FieldKey(f), Str(SecretText(f, env)))
      else Put(Remove(unmarked, FieldKey(f)), ClearKey(f), Bool(true))
  }

  function ResetFirst(body: Config, resets: seq<Field>, env: Environment, n: nat): Config
    requires n <= |resets|
  {
    if n == 0 then body else ResetOne(ResetFirst(body, resets, env, n - 1), resets[n - 1], env)
  }

  /** Without resets the request goes on as it came. */
  function Transformed(body: Config, resets: seq<Field>, env: Environment): Config {
    if resets == [] then body else ResetFirst(Remove(body, ResetFieldsKey), resets, env, |resets|)
  }

  method TransformBody(body: Config, resets: seq<Field>, env: Environment) returns (changes: Config)
    ensures changes == Transformed(body, resets, env)
  {
    if resets == [] {
      return body;
    }
    changes := Remove(body, ResetFieldsKey);
    for i := 0 to |resets|
      invariant changes == ResetFirst(Remove(body, ResetFieldsKey), resets, env, i)
    {
      var field := resets[i];
      if IsSecret(field) {
        changes := Remove(changes, ClearKey(field));
        if ConfiguredText(SecretText(field, env)) {
          changes := Put(changes, FieldKey(field), Str(SecretText(field, env)));
        } else {
          changes := Put(Remove(changes, FieldKey(field)), ClearKey(field), Bool(true));
        }
      } else {
        changes := Put(changes, FieldKey(field), EnvironmentValue(field, env));
      }
    }
  }

  // ----- normalising

  predicate Supported(key: Name) {
    key.FieldKey? || (key.ClearKey? && IsSecret(key.field)) || key.BaseRevisionKey? || key.ChangesKey?
  }

  function CheckKeys(body: Config): Outcome<bool> {
    if body == [] then Accepted(true)
    else if !Supported(body[0].key) then Refused(Unsupported(body[0].key))
    else CheckKeys(body[1..])
  }

  predicate HasControl(s: string) {
    exists i :: 0 <= i < |s| && (s[i] <= '\U{1F}' || s[i] == '\U{7F}')
  }

  /** The text without its last character when that is a slash. */
  function WithoutSlash(s: string): (r: string)
    ensures s == if s == r then s else r + "/"
    ensures s == r ==> s == "" || s[|s| - 1] != '/'
  {
    if s != "" && s[|s| - 1] == '/' then s[..|s| - 1] else s
  }

  function CleanUrl(value: Json, key: Name, parse: UrlParser): Outcome<string> {
    if !value.Str? then Refused(NotText(key))
    else
      var trimmed := Trim(value.s);
      if trimmed == "" then Accepted("")
      else if |trimmed| > 2048 then Refused(TooLong(key))
      else
        match parse(trimmed)
        case None => Refused(NotAUrl(key))
        case Some(href) => Accepted(WithoutSlash(href))
  }

  function CleanString(value: Json, key: Name, limit: nat): Outcome<string> {
    if !value.Str? then Refused(NotText(key))
    else
      var trimmed := Trim(value.s);
      if |trimmed| > limit then Refused(TooLong(key))
      else if HasControl(trimmed) then Refused(HasControls(key))
      else Accepted(trimmed)
  }

  /** What a plain field's value becomes. */
  function CleanField(f: Field, value: Json, parse: UrlParser): Outcome<Json> {
    if f == DemoMode then if value.Bool? then Accepted(value) else Refused(NotBoolean(FieldKey(f)))
    else if f == IpaUsername then var text :- CleanString(value, FieldKey(f), 256); Accepted(Str(text))
    else var url :- CleanUrl(value, FieldKey(f), parse); Accepted(Str(url))
  }

  function PlainPart(body: Config, f: Field, parse: UrlParser): Outcome<Config> {
    match Get(body, FieldKey(f))
    case None => Accepted([])
    case Some(value) => var clean :- CleanField(f, value, parse); Accepted([Entry(FieldKey(f), clean)])
  }

  function ClearPart(body: Config, f: Field): Outcome<Config> {
    match Get(body, ClearKey(f))
    case None => Accepted([])
    case Some(value) => if value.Bool? then Accepted([Entry(ClearKey(f), value)]) else Refused(NotBoolean(ClearKey(f)))
  }

  function SecretPart(body: Config, f: Field): Outcome<Config> {
    match Get(body, FieldKey(f))
    case None => Accepted([])
    case Some(value) =>
      if !value.Str? || |value.s| > 4096 then Refused(TooLong(FieldKey(f)))
      else Accepted(if value.s != "" then [Entry(FieldKey(f), value)] else [])
  }

  function NormalizedChanges(body: Config, parse: UrlParser): Outcome<Config> {
    var demoMode :- PlainPart(body, DemoMode, parse);
    var ipaUrl :- PlainPart(body, IpaUrl, parse);
    var ipaUsername :- PlainPart(body, IpaUsername, parse);
    var xyopsUrl :- PlainPart(body, XyopsUrl, parse);
    var clearPassword :- ClearPart(body, IpaPassword);
    var clearKey :- ClearPart(body, XyopsApiKey);
    Accepted(demoMode + (ipaUrl + (ipaUsername + (xyopsUrl + (clearPassword + clearKey)))))
  }

  function NormalizedSecrets(body: Config): Outcome<Config> {
    var password :- SecretPart(body, IpaPassword);
    var key :- SecretPart(body, XyopsApiKey);
    Accepted(password + key)
  }

  predicate SetsAndClears(m: Material, f: Field) {
    Cleared(m.changes, f) && Has(m.secrets, FieldKey(f))
  }

  function Normalized(body: Config, parse: UrlParser): Outcome<Material> {
    var _ :- CheckKeys(body);
    var changes :- NormalizedChanges(body, parse);
    var secrets :- NormalizedSecrets(body);
    var m := Material(changes, secrets);
    if SetsAndClears(m, IpaPassword) then Refused(SetAndCleared(IpaPassword))
    else if SetsAndClears(m, XyopsApiKey) then Refused(SetAndCleared(XyopsApiKey))
    else if changes == [] && secrets == [] then Refused(NoChanges)
    else Accepted(m)
  }

  /** The draft a request makes while `row` is stored, or why it makes none. */
  function CreateDraft(row: Option<Row>, body: Config, resets: seq<Field>, env: Environment, parse: UrlParser): Outcome<Material> {
    if ResetConflicts(body, resets) != {} then Refused(ResetConflict(ResetConflicts(body, resets)))
    else if !(FieldsOf(resets) <= OverrideSet(ConfigOf(row))) then Refused(NotOverridden(FieldsOf(resets) - OverrideSet(ConfigOf(row))))
    else Normalized(Transformed(body, resets, env), parse)
  }

  // ----- what the draft holds

  /** Text without a control character. */
  predicate Printable(s: string) {
    forall c :: c in s ==> '\U{1F}' < c && c != '\U{7F}'
  }

  /** The value a plain field is given by a request's value, if that value is fit for it. */
  function PlainValue(f: Field, value: Json, parse: UrlParser): Option<Json> {
    match (f, value)
    case (DemoMode, Bool(_)) => Some(value)
    case (IpaUsername, Str(s)) => if |Trim(s)| <= 256 && Printable(Trim(s)) then Some(Str(Trim(s))) else None
    case (IpaUrl, Str(s)) => UrlValue(Trim(s), parse)
    case (XyopsUrl, Str(s)) => UrlValue(Trim(s), parse)
    case _ => None
  }

  function UrlValue(trimmed: string, parse: UrlParser): Option<Json> {
    if trimmed == "" then Some(Str(""))
    else if |trimmed| <= 2048 && parse(trimmed).Some? then Some(Str(WithoutSlash(parse(trimmed).value)))
    else None
  }

  /**
   A plain field's value is accepted exactly when it is fit: the demo mode takes a boolean as it is,
   the user name printable text of at most 256 characters once trimmed, a URL blank text or text of
   at most 2048 characters that parses, kept as the parser writes it back but for one last slash.
   */
  lemma CleanFieldMeans(f: Field, value: Json, parse: UrlParser)
    requires !IsSecret(f)
    ensures var clean := CleanField(f, value, parse);
            && (clean.Accepted? <==> PlainValue(f, value, parse).Some?)
            && (clean.Accepted? ==> PlainValue(f, value, parse) == Some(clean.value))
    ensures f == DemoMode ==> PlainValue(f, value, parse) == if value.Bool? then Some(value) else None
    ensures f == IpaUsername ==>
              && (PlainValue(f, value, parse).Some? <==> value.Str? && |Trim(value.s)| <= 256 && Printable(Trim(value.s)))
              && (PlainValue(f, value, parse).Some? ==> PlainValue(f, value, parse) == Some(Str(Trim(value.s))))
    ensures f == IpaUrl || f == XyopsUrl ==>
              && (PlainValue(f, value, parse).Some? <==>
                  value.Str? && (Trim(value.s) == "" || (|Trim(value.s)| <= 2048 && parse(Trim(value.s)).Some?)))
              && (PlainValue(f, value, parse).Some? ==>
                  PlainValue(f, value, parse) == Some(Str(if Trim(value.s) == "" then "" else WithoutSlash(parse(Trim(value.s)).value))))
  {
    if value.Str? {
      var trimmed := Trim(value.s);
      assert HasControl(trimmed) <==> !Printable(trimmed) by {
        if HasControl(trimmed) {
          var i :| 0 <= i < |trimmed| && (trimmed[i] <= '\U{1F}' || trimmed[i] == '\U{7F}');
          assert trimmed[i] in trimmed;
        }
      }
    }
  }

  /** What a request asks a field to become, if anything. */
  function Requested(body: Config, f: Field, parse: UrlParser): Option<Json> {
    if IsSecret(f) then
      if Cleared(body, f) then Some(Str(""))
      else
        match TextOf(Get(body, FieldKey(f)))
        case Some(text) => if text != "" then Some(Str(text)) else None
        case None => None
    else
      match Get(body, FieldKey(f))
      case None => None
      case Some(value) => PlainValue(f, value, parse)
  }

  predicate Part(c: Config, key: Name) {
    c == [] || (|c| == 1 && c[0].key == key)
  }

  lemma PartMeans(c: Config, key: Name, other: Name)
    requires Part(c, key)
    ensures other != key ==> !Has(c, other)
    ensures c != [] ==> Get(c, key) == Some(c[0].value)
  {
    if c != [] {
      assert c[1..] == [];
      assert Get([], other) == None;
    }
  }

  lemma SixParts(a: Config, b: Config, c: Config, d: Config, e: Config, g: Config, key: Name)
    requires Part(a, FieldKey(DemoMode)) && Part(b, FieldKey(IpaUrl)) && Part(c, FieldKey(IpaUsername))
    requires Part(d, FieldKey(XyopsUrl)) && Part(e, ClearKey(IpaPassword)) && Part(g, ClearKey(XyopsApiKey))
    ensures Get(a + (b + (c + (d + (e + g)))), key)
         == match key
            case FieldKey(f) =>
              (match f
               case DemoMode => Get(a, key)
               case IpaUrl => Get(b, key)
               case IpaUsername => Get(c, key)
               case XyopsUrl => Get(d, key)
               case _ => None)
            case ClearKey(f) => if f == IpaPassword then Get(e, key) else if f == XyopsApiKey then Get(g, key) else None
            case _ => None
  {
    GetOfConcat(a, b + (c + (d + (e + g))), key);
    GetOfConcat(b, c + (d + (e + g)), key);
    GetOfConcat(c, d + (e + g), key);
    GetOfConcat(d, e + g, key);
    GetOfConcat(e, g, key);
    PartMeans(a, FieldKey(DemoMode), key);
    PartMeans(b, FieldKey(IpaUrl), key);
    PartMeans(c, FieldKey(IpaUsername), key);
    PartMeans(d, FieldKey(XyopsUrl), key);
    PartMeans(e, ClearKey(IpaPassword), key);
    PartMeans(g, ClearKey(XyopsApiKey), key);
  }

  /** The changes of an accepted request, key by key. */
  lemma ChangesMean(body: Config, parse: UrlParser, f: Field)
    requires NormalizedChanges(body, parse).Accepted?
    ensures var changes := NormalizedChanges(body, parse).value;
            if IsSecret(f) then Get(changes, ClearKey(f)) == Get(body, ClearKey(f))
            else Get(changes, FieldKey(f)) == Requested(body, f, parse) && (Has(changes, FieldKey(f)) <==> Has(body, FieldKey(f)))
  {
    var a, b := PlainPart(body, DemoMode, parse).value, PlainPart(body, IpaUrl, parse).value;
    var c, d := PlainPart(body, IpaUsername, parse).value, PlainPart(body, XyopsUrl, parse).value;
    var e, g := ClearPart(body, IpaPassword).value, ClearPart(body, XyopsApiKey).value;
    SixParts(a, b, c, d, e, g, if IsSecret(f) then ClearKey(f) else FieldKey(f));
    if !IsSecret(f) && Has(body, FieldKey(f)) {
      CleanFieldMeans(f, Get(body, FieldKey(f)).value, parse);
    }
  }

  lemma SecretsMean(body: Config, f: Field)
    requires NormalizedSecrets(body).Accepted? && IsSecret(f)
    ensures var text := TextOf(Get(body, FieldKey(f)));
            TextOf(Get(NormalizedSecrets(body).value, FieldKey(f))) == if text.Some? && text.value != "" then text else None
  {
    var p, k := SecretPart(body, IpaPassword).value, SecretPart(body, XyopsApiKey).value;
    GetOfConcat(p, k, FieldKey(f));
    PartMeans(p, FieldKey(IpaPassword), FieldKey(f));
    PartMeans(k, FieldKey(XyopsApiKey), FieldKey(f));
  }

  lemma NormalizedMeans(body: Config, parse: UrlParser, f: Field)
    requires Normalized(body, parse).Accepted?
    ensures DraftValue(Normalized(body, parse).value, f) == Requested(body, f, parse)
  {
    ChangesMean(body, parse, f);
    if IsSecret(f) {
      SecretsMean(body, f);
    }
  }

  // ----- what is accepted

  /** The value is of the kind and size that its key takes. */
  predicate Fit(key: Name, value: Json, parse: UrlParser) {
    match key
    case FieldKey(f) => if IsSecret(f) then value.Str? && |value.s| <= 4096 else PlainValue(f, value, parse).Some?
    case ClearKey(f) => value.Bool?
    case _ => true
  }

  /** The request gives a secret some text. */
  predicate GivesText(body: Config, f: Field) {
    IsSecret(f) && TextOf(Get(body, FieldKey(f))).Some? && TextOf(Get(body, FieldKey(f))) != Some("")
  }

  /** The request says something about a field. */
  predicate Mentions(body: Config, f: Field) {
    if IsSecret(f) then Has(body, ClearKey(f)) || GivesText(body, f) else Has(body, FieldKey(f))
  }

  ghost predicate KeysFit(body: Config, parse: UrlParser) {
    forall key: Name :: Has(body, key) ==> Supported(key) && Fit(key, Get(body, key).value, parse)
  }

  ghost predicate Acceptable(body: Config, parse: UrlParser) {
    && KeysFit(body, parse)
    && (forall f: Field :: GivesText(body, f) ==> !Cleared(body, f))
    && (exists f: Field :: Mentions(body, f))
  }

  /** Why a request is refused, read off the request. */
  ghost predicate IsReason(body: Config, reason: Refusal, parse: UrlParser) {
    match reason
    case Unsupported(key) => Has(body, key) && !Supported(key)
    case NotBoolean(key) => key in {FieldKey(DemoMode), ClearKey(IpaPassword), ClearKey(XyopsApiKey)} && Has(body, key) && !Get(body, key).value.Bool?
    case NotText(key) => key in {FieldKey(IpaUrl), FieldKey(IpaUsername), FieldKey(XyopsUrl)} && Has(body, key) && !Get(body, key).value.Str?
    case TooLong(key) =>
      && key.FieldKey? && Has(body, key)
      && var value := Get(body, key).value;
         if IsSecret(key.field) then !value.Str? || |value.s| > 4096
         else key.field != DemoMode && value.Str? && |Trim(value.s)| > (if key.field == IpaUsername then 256 else 2048)
    case NotAUrl(key) =>
      && key in {FieldKey(IpaUrl), FieldKey(XyopsUrl)} && Has(body, key)
      && Get(body, key).value.Str? && Trim(Get(body, key).value.s) != "" && parse(Trim(Get(body, key).value.s)) == None
    case HasControls(key) =>
      key == FieldKey(IpaUsername) && Has(body, key) && Get(body, key).value.Str? && !Printable(Trim(Get(body, key).value.s))
    case SetAndCleared(f) => GivesText(body, f) && Cleared(body, f)
    case NoChanges => forall f: Field :: !Mentions(body, f)
    case _ => false
  }

  lemma {:induction false} KeysAreSupported(body: Config)
    ensures CheckKeys(body).Accepted? ==> forall key: Name :: Has(body, key) ==> Supported(key)
    ensures CheckKeys(body).Refused? ==> CheckKeys(body).reason.Unsupported? && var key := CheckKeys(body).reason.key; Has(body, key) && !Supported(key)
  {
    if body != [] && Supported(body[0].key) {
      KeysAreSupported(body[1..]);
    }
  }

  predicate FitAt(body: Config, key: Name, parse: UrlParser) {
    Has(body, key) ==> Fit(key, Get(body, key).value, parse)
  }

  /** A part passes exactly when its value is fit, and a refusal gives a true reason. */
  lemma PlainPartMeans(body: Config, f: Field, parse: UrlParser)
    requires !IsSecret(f)
    ensures PlainPart(body, f, parse).Accepted? <==> FitAt(body, FieldKey(f), parse)
    ensures PlainPart(body, f, parse).Refused? ==> IsReason(body, PlainPart(body, f, parse).reason, parse)
  {
    if Has(body, FieldKey(f)) {
      CleanFieldMeans(f, Get(body, FieldKey(f)).value, parse);
    }
  }

  lemma ClearPartMeans(body: Config, f: Field, parse: UrlParser)
    requires IsSecret(f)
    ensures ClearPart(body, f).Accepted? <==> FitAt(body, ClearKey(f), parse)
    ensures ClearPart(body, f).Refused? ==> IsReason(body, ClearPart(body, f).reason, parse)
  {
  }

  lemma SecretPartMeans(body: Config, f: Field, parse: UrlParser)
    requires IsSecret(f)
    ensures SecretPart(body, f).Accepted? <==> FitAt(body, FieldKey(f), parse)
    ensures SecretPart(body, f).Refused? ==> IsReason(body, SecretPart(body, f).reason, parse)
  {
  }

  /** All parts pass, or the first that does not gives its reason. */
  lemma ChangesPass(body: Config, parse: UrlParser)
    ensures NormalizedChanges(body, parse).Accepted?
       <==> && PlainPart(body, DemoMode, parse).Accepted? && PlainPart(body, IpaUrl, parse).Accepted?
            && PlainPart(body, IpaUsername, parse).Accepted? && PlainPart(body, XyopsUrl, parse).Accepted?
            && ClearPart(body, IpaPassword).Accepted? && ClearPart(body, XyopsApiKey).Accepted?
    ensures NormalizedChanges(body, parse).Refused? ==>
              exists f: Field :: if IsSecret(f) then ClearPart(body, f).Refused? && NormalizedChanges(body, parse).reason == ClearPart(body, f).reason
                                 else PlainPart(body, f, parse).Refused? && NormalizedChanges(body, parse).reason == PlainPart(body, f, parse).reason
  {
    var failed :=
      if PlainPart(body, DemoMode, parse).Refused? then DemoMode
      else if PlainPart(body, IpaUrl, parse).Refused? then IpaUrl
      else if PlainPart(body, IpaUsername, parse).Refused? then IpaUsername
      else if PlainPart(body, XyopsUrl, parse).Refused? then XyopsUrl
      else if ClearPart(body, IpaPassword).Refused? then IpaPassword
      else XyopsApiKey;
    assert NormalizedChanges(body, parse).Refused? ==>
             if IsSecret(failed) then ClearPart(body, failed).Refused? && NormalizedChanges(body, parse).reason == ClearPart(body, failed).reason
             else PlainPart(body, failed, parse).Refused? && NormalizedChanges(body, parse).reason == PlainPart(body, failed, parse).reason;
  }

  lemma ChangesFit(body: Config, parse: UrlParser)
    ensures NormalizedChanges(body, parse).Accepted?
       <==> forall f: Field :: if IsSecret(f) then FitAt(body, ClearKey(f), parse) else FitAt(body, FieldKey(f), parse)
    ensures NormalizedChanges(body, parse).Refused? ==> IsReason(body, NormalizedChanges(body, parse).reason, parse)
  {
    ChangesPass(body, parse);
    forall f: Field
      ensures if IsSecret(f) then ClearPart(body, f).Accepted? <==> FitAt(body, ClearKey(f), parse)
              else PlainPart(body, f, parse).Accepted? <==> FitAt(body, FieldKey(f), parse)
      ensures if IsSecret(f) then ClearPart(body, f).Refused? ==> IsReason(body, ClearPart(body, f).reason, parse)
              else PlainPart(body, f, parse).Refused? ==> IsReason(body, PlainPart(body, f, parse).reason, parse)
    {
      if IsSecret(f) {
        ClearPartMeans(body, f, parse);
      } else {
        PlainPartMeans(body, f, parse);
      }
    }
  }

  lemma SecretsFit(body: Config, parse: UrlParser)
    ensures NormalizedSecrets(body).Accepted? <==> FitAt(body, FieldKey(IpaPassword), parse) && FitAt(body, FieldKey(XyopsApiKey), parse)
    ensures NormalizedSecrets(body).Refused? ==> IsReason(body, NormalizedSecrets(body).reason, parse)
  {
    SecretPartMeans(body, IpaPassword, parse);
    SecretPartMeans(body, XyopsApiKey, parse);
  }

  lemma KeysFitExactly(body: Config, parse: UrlParser)
    requires forall key: Name :: Has(body, key) ==> Supported(key)
    ensures KeysFit(body, parse) <==> forall f: Field :: FitAt(body, FieldKey(f), parse) && (IsSecret(f) ==> FitAt(body, ClearKey(f), parse))
  {
    if forall f: Field :: FitAt(body, FieldKey(f), parse) && (IsSecret(f) ==> FitAt(body, ClearKey(f), parse)) {
      forall key: Name | Has(body, key) ensures Fit(key, Get(body, key).value, parse) {
        assert Supported(key);
        if key.FieldKey? || key.ClearKey? {
          assert FitAt(body, FieldKey(key.field), parse);
        }
      }
    } else {
      var f :| !(FitAt(body, FieldKey(f), parse) && (IsSecret(f) ==> FitAt(body, ClearKey(f), parse)));
      assert !KeysFit(body, parse);
    }
  }

  /** The changes and secrets of a request are accepted exactly when every value is fit. */
  lemma ValuesMean(body: Config, parse: UrlParser)
    requires CheckKeys(body).Accepted?
    ensures NormalizedChanges(body, parse).Accepted? && NormalizedSecrets(body).Accepted? <==> KeysFit(body, parse)
    ensures NormalizedChanges(body, parse).Refused? ==> IsReason(body, NormalizedChanges(body, parse).reason, parse)
    ensures NormalizedSecrets(body).Refused? ==> IsReason(body, NormalizedSecrets(body).reason, parse)
  {
    ChangesFit(body, parse);
    SecretsFit(body, parse);
    KeysAreSupported(body);
    KeysFitExactly(body, parse);
  }

  /** What is accepted says something about a field exactly when the request does, and the same about the secrets. */
  lemma MentionsMean(body: Config, parse: UrlParser, f: Field)
    requires NormalizedChanges(body, parse).Accepted? && NormalizedSecrets(body).Accepted?
    ensures var m := Material(NormalizedChanges(body, parse).value, NormalizedSecrets(body).value);
            && (Mentions(body, f) <==> if IsSecret(f) then Has(m.changes, ClearKey(f)) || Has(m.secrets, FieldKey(f)) else Has(m.changes, FieldKey(f)))
            && (IsSecret(f) ==> (SetsAndClears(m, f) <==> GivesText(body, f) && Cleared(body, f)))
  {
    ChangesMean(body, parse, f);
    if IsSecret(f) {
      SecretGiven(body, f);
    }
  }

  lemma SecretGiven(body: Config, f: Field)
    requires NormalizedSecrets(body).Accepted? && IsSecret(f)
    ensures Has(NormalizedSecrets(body).value, FieldKey(f)) <==> GivesText(body, f)
  {
    var p, k := SecretPart(body, IpaPassword).value, SecretPart(body, XyopsApiKey).value;
    GetOfConcat(p, k, FieldKey(f));
    PartMeans(p, FieldKey(IpaPassword), FieldKey(f));
    PartMeans(k, FieldKey(XyopsApiKey), FieldKey(f));
  }

  /** Nothing is left of a request exactly when it says nothing about any field. */
  lemma EmptyMeans(body: Config, parse: UrlParser)
    requires NormalizedChanges(body, parse).Accepted? && NormalizedSecrets(body).Accepted?
    ensures NormalizedChanges(body, parse).value == [] && NormalizedSecrets(body).value == [] <==> forall f: Field :: !Mentions(body, f)
  {
    var changes, secrets := NormalizedChanges(body, parse).value, NormalizedSecrets(body).value;
    forall f: Field ensures Mentions(body, f) ==> changes != [] || secrets != [] {
      MentionsMean(body, parse, f);
    }
    if changes != [] || secrets != [] {
      var a, b := PlainPart(body, DemoMode, parse).value, PlainPart(body, IpaUrl, parse).value;
      var c, d := PlainPart(body, IpaUsername, parse).value, PlainPart(body, XyopsUrl, parse).value;
      var e, g := ClearPart(body, IpaPassword).value, ClearPart(body, XyopsApiKey).value;
      var p, k := SecretPart(body, IpaPassword).value, SecretPart(body, XyopsApiKey).value;
      assert a != [] ==> Mentions(body, DemoMode);
      assert b != [] ==> Mentions(body, IpaUrl);
      assert c != [] ==> Mentions(body, IpaUsername);
      assert d != [] ==> Mentions(body, XyopsUrl);
      assert e != [] || p != [] ==> Mentions(body, IpaPassword);
      assert g != [] || k != [] ==> Mentions(body, XyopsApiKey);
    }
  }

  /** A request is accepted exactly when it is acceptable, and refused for a reason that it gives. */
  lemma AcceptedExactly(body: Config, parse: UrlParser)
    ensures Normalized(body, parse).Accepted? <==> Acceptable(body, parse)
    ensures Normalized(body, parse).Refused? ==> IsReason(body, Normalized(body, parse).reason, parse)
  {
    KeysAreSupported(body);
    if CheckKeys(body).Accepted? {
      ValuesMean(body, parse);
      if NormalizedChanges(body, parse).Accepted? && NormalizedSecrets(body).Accepted? {
        MentionsMean(body, parse, IpaPassword);
        MentionsMean(body, parse, XyopsApiKey);
        EmptyMeans(body, parse);
      }
    }
  }

  lemma ResetOneMeans(body: Config, f: Field, env: Environment, key: Name)
    ensures key != FieldKey(f) && (!IsSecret(f) || key != ClearKey(f)) ==> Get(ResetOne(body, f, env), key) == Get(body, key)
    ensures !IsSecret(f) ==> Get(ResetOne(body, f, env), FieldKey(f)) == Some(EnvironmentValue(f, env))
    ensures IsSecret(f) ==> var text := SecretText(f, env);
                            if ConfiguredText(text) then
                              Get(ResetOne(body, f, env), FieldKey(f)) == Some(Str(text)) && !Has(ResetOne(body, f, env), ClearKey(f))
                            else !Has(ResetOne(body, f, env), FieldKey(f)) && Cleared(ResetOne(body, f, env), f)
  {
    if IsSecret(f) {
      ResetSecretMeans(body, f, env, key);
      ResetSecretMeans(body, f, env, FieldKey(f));
      ResetSecretMeans(body, f, env, ClearKey(f));
    } else {
      GetOfPut(body, FieldKey(f), EnvironmentValue(f, env), key);
      GetOfPut(body, FieldKey(f), EnvironmentValue(f, env), FieldKey(f));
    }
  }

  lemma ResetSecretMeans(body: Config, f: Field, env: Environment, key: Name)
    requires IsSecret(f)
    ensures Get(ResetOne(body, f, env), key)
         == if key == FieldKey(f) then if ConfiguredText(SecretText(f, env)) then Some(Str(SecretText(f, env))) else None
            else if key == ClearKey(f) then if ConfiguredText(SecretText(f, env)) then None else Some(Bool(true))
            else Get(body, key)
  {
    var unmarked := Remove(body, ClearKey(f));
    GetOfRemove(body, ClearKey(f), key);
    if ConfiguredText(SecretText(f, env)) {
      GetOfPut(unmarked, FieldKey(f), Str(SecretText(f, env)), key);
    } else {
      GetOfRemove(unmarked, FieldKey(f), key);
      GetOfPut(Remove(unmarked, FieldKey(f)), ClearKey(f), Bool(true), key);
    }
  }

  /** What a reset asks for, put the way a request would. */
  function ResetRequest(f: Field, env: Environment, parse: UrlParser): Option<Json> {
    if IsSecret(f) then Some(Inherited(f, env)) else PlainValue(f, EnvironmentValue(f, env), parse)
  }

  lemma RequestedOfReset(body: Config, f: Field, env: Environment, parse: UrlParser, g: Field)
    ensures Requested(ResetOne(body, f, env), g, parse) == if g == f then ResetRequest(f, env, parse) else Requested(body, g, parse)
    ensures !IsSecret(f) ==> Has(ResetOne(body, f, env), FieldKey(f))
    ensures g != f ==> Get(ResetOne(body, f, env), FieldKey(g)) == Get(body, FieldKey(g))
  {
    ResetOneMeans(body, f, env, FieldKey(g));
    ResetOneMeans(body, f, env, ClearKey(g));
  }

  lemma {:induction false} RequestedOfResets(body: Config, resets: seq<Field>, env: Environment, n: nat, parse: UrlParser, g: Field)
    requires n <= |resets|
    ensures Requested(ResetFirst(body, resets, env, n), g, parse)
         == if AmongFirst(resets, n, g) then ResetRequest(g, env, parse) else Requested(body, g, parse)
    ensures AmongFirst(resets, n, g) && !IsSecret(g) ==> Has(ResetFirst(body, resets, env, n), FieldKey(g))
  {
    if n > 0 {
      var earlier, f := ResetFirst(body, resets, env, n - 1), resets[n - 1];
      RequestedOfResets(body, resets, env, n - 1, parse, g);
      RequestedOfReset(earlier, f, env, parse, g);
      assert ResetFirst(body, resets, env, n) == ResetOne(earlier, f, env);
    }
  }

  lemma RequestedOfTransformed(body: Config, resets: seq<Field>, env: Environment, parse: UrlParser, g: Field)
    ensures Requested(Transformed(body, resets, env), g, parse)
         == if g in resets then ResetRequest(g, env, parse) else Requested(body, g, parse)
    ensures g in resets && !IsSecret(g) ==> Has(Transformed(body, resets, env), FieldKey(g))
  {
    if resets != [] {
      RequestedOfResets(Remove(body, ResetFieldsKey), resets, env, |resets|, parse, g);
      AmongFirstMeans(resets, |resets|, g);
      GetOfRemove(body, ResetFieldsKey, FieldKey(g));
      GetOfRemove(body, ResetFieldsKey, ClearKey(g));
    }
  }

  /** What a reset makes of a key, if it is about that key. */
  function ResetKey(f: Field, env: Environment, key: Name, before: Option<Json>): Option<Json> {
    if key == FieldKey(f) then
      if !IsSecret(f) then Some(EnvironmentValue(f, env)) else if ConfiguredText(SecretText(f, env)) then Some(Str(SecretText(f, env))) else None
    else if IsSecret(f) && key == ClearKey(f) then if ConfiguredText(SecretText(f, env)) then None else Some(Bool(true))
    else before
  }

  lemma ResetOneKey(body: Config, f: Field, env: Environment, key: Name)
    ensures Get(ResetOne(body, f, env), key) == ResetKey(f, env, key, Get(body, key))
  {
    ResetOneMeans(body, f, env, key);
  }

  predicate AboutField(key: Name, f: Field) {
    key == FieldKey(f) || (IsSecret(f) && key == ClearKey(f))
  }

  /** No reset writes the key. */
  predicate NoFieldKey(key: Name) {
    !key.FieldKey? && (key.ClearKey? ==> !IsSecret(key.field))
  }

  /** What the first `n` resets make of a key. */
  function KeyAfter(resets: seq<Field>, env: Environment, n: nat, key: Name, start: Option<Json>): Option<Json>
    requires n <= |resets|
  {
    if n == 0 then start else ResetKey(resets[n - 1], env, key, KeyAfter(resets, env, n - 1, key, start))
  }

  lemma {:induction false} ResetFirstKey(body: Config, resets: seq<Field>, env: Environment, n: nat, key: Name)
    requires n <= |resets|
    ensures Get(ResetFirst(body, resets, env, n), key) == KeyAfter(resets, env, n, key, Get(body, key))
  {
    if n > 0 {
      ResetFirstKey(body, resets, env, n - 1, key);
      var earlier := ResetFirst(body, resets, env, n - 1);
      ResetOneKey(earlier, resets[n - 1], env, key);
      assert ResetFirst(body, resets, env, n) == ResetOne(earlier, resets[n - 1], env);
    }
  }

  lemma {:induction false} KeyAfterMeans(resets: seq<Field>, env: Environment, n: nat, f: Field, key: Name, start: Option<Json>)
    requires n <= |resets|
    ensures AboutField(key, f) ==> KeyAfter(resets, env, n, key, start) == if AmongFirst(resets, n, f) then ResetKey(f, env, key, None) else start
    ensures NoFieldKey(key) ==> KeyAfter(resets, env, n, key, start) == start
  {
    if n > 0 {
      KeyAfterMeans(resets, env, n - 1, f, key, start);
    }
  }

  /** The request with its resets written in, key by key: reset fields as the environment has them, the rest as it came. */
  lemma TransformedMeans(body: Config, resets: seq<Field>, env: Environment, f: Field, key: Name)
    ensures AboutField(key, f) ==>
              Get(Transformed(body, resets, env), key) == if f in resets then ResetKey(f, env, key, None) else Get(body, key)
    ensures NoFieldKey(key) ==>
              Get(Transformed(body, resets, env), key) == if key == ResetFieldsKey && resets != [] then None else Get(body, key)
  {
    if resets != [] {
      ResetFirstKey(Remove(body, ResetFieldsKey), resets, env, |resets|, key);
      KeyAfterMeans(resets, env, |resets|, f, key, Get(Remove(body, ResetFieldsKey), key));
      AmongFirstMeans(resets, |resets|, f);
      GetOfRemove(body, ResetFieldsKey, key);
    }
  }

  /** The environment's value for a field is one that a request could carry. */
  predicate ResetFits(f: Field, env: Environment, parse: UrlParser) {
    if IsSecret(f) then ConfiguredText(SecretText(f, env)) ==> |SecretText(f, env)| <= 4096
    else PlainValue(f, EnvironmentValue(f, env), parse).Some?
  }

  /** What a request with resets must be like, apart from the values of its resets. */
  ghost predicate RequestFits(body: Config, resets: seq<Field>, parse: UrlParser) {
    && (forall key: Name :: Has(body, key) && (key != ResetFieldsKey || resets == []) ==> Supported(key) && Fit(key, Get(body, key).value, parse))
    && (forall f: Field :: GivesText(body, f) ==> !Cleared(body, f))
    && (resets != [] || exists f: Field :: Mentions(body, f))
  }

  lemma TransformedKeys(body: Config, resets: seq<Field>, env: Environment, f: Field)
    ensures var t := Transformed(body, resets, env);
            && Get(t, FieldKey(f)) == (if f in resets then ResetKey(f, env, FieldKey(f), None) else Get(body, FieldKey(f)))
            && (IsSecret(f) ==> Get(t, ClearKey(f)) == if f in resets then ResetKey(f, env, ClearKey(f), None) else Get(body, ClearKey(f)))
  {
    TransformedMeans(body, resets, env, f, FieldKey(f));
    TransformedMeans(body, resets, env, f, ClearKey(f));
  }

  /** Field by field, the transformed request is fit where the request and its resets are. */
  lemma TransformedFits(body: Config, resets: seq<Field>, env: Environment, parse: UrlParser, f: Field)
    requires f in resets ==> !Touches(body, f)
    ensures var t := Transformed(body, resets, env);
            && (GivesText(t, f) && Cleared(t, f) <==> GivesText(body, f) && Cleared(body, f))
            && (f in resets ==> Mentions(t, f) && !Mentions(body, f))
            && (f !in resets ==> (Mentions(t, f) <==> Mentions(body, f)))
            && (f in resets && Has(t, FieldKey(f)) ==> (Fit(FieldKey(f), Get(t, FieldKey(f)).value, parse) <==> ResetFits(f, env, parse)))
            && (f in resets && !Has(t, FieldKey(f)) ==> ResetFits(f, env, parse))
            && (f in resets && IsSecret(f) && Has(t, ClearKey(f)) ==> Fit(ClearKey(f), Get(t, ClearKey(f)).value, parse))
  {
    TransformedKeys(body, resets, env, f);
    if IsSecret(f) && ConfiguredText(SecretText(f, env)) {
      assert SecretText(f, env) != "" by {
        TrimOfTrimmed("");
      }
    }
  }

  lemma TransformedAcceptable(body: Config, resets: seq<Field>, env: Environment, parse: UrlParser)
    requires forall f :: f in resets ==> !Touches(body, f)
    ensures Acceptable(Transformed(body, resets, env), parse)
       <==> RequestFits(body, resets, parse) && forall f :: f in resets ==> ResetFits(f, env, parse)
  {
    var t := Transformed(body, resets, env);
    forall f: Field ensures GivesText(t, f) && Cleared(t, f) <==> GivesText(body, f) && Cleared(body, f) {
      TransformedFits(body, resets, env, parse, f);
    }
    TransformedMentions(body, resets, env, parse);
    TransformedKeysFit(body, resets, env, parse);
  }

  lemma TransformedMentions(body: Config, resets: seq<Field>, env: Environment, parse: UrlParser)
    requires forall f :: f in resets ==> !Touches(body, f)
    ensures (exists f: Field :: Mentions(Transformed(body, resets, env), f)) <==> resets != [] || exists f: Field :: Mentions(body, f)
  {
    forall f: Field
      ensures Mentions(Transformed(body, resets, env), f) <==> f in resets || Mentions(body, f)
    {
      TransformedFits(body, resets, env, parse, f);
    }
    if resets != [] {
      assert resets[0] in resets;
    }
  }

  lemma TransformedKeysFit(body: Config, resets: seq<Field>, env: Environment, parse: UrlParser)
    requires forall f :: f in resets ==> !Touches(body, f)
    ensures KeysFit(Transformed(body, resets, env), parse)
       <==> && (forall key: Name :: Has(body, key) && (key != ResetFieldsKey || resets == []) ==> Supported(key) && Fit(key, Get(body, key).value, parse))
            && (forall f :: f in resets ==> ResetFits(f, env, parse))
  {
    var t := Transformed(body, resets, env);
    forall f | f in resets
      ensures KeysFit(t, parse) ==> ResetFits(f, env, parse)
    {
      TransformedFits(body, resets, env, parse, f);
    }
    forall key: Name
      ensures if exists f :: f in resets && AboutField(key, f)
              then !Has(body, key) && (Has(t, key) ==> Supported(key))
                   && (Has(t, key) && (forall f :: f in resets ==> ResetFits(f, env, parse)) ==> Fit(key, Get(t, key).value, parse))
              else Get(t, key) == if key == ResetFieldsKey && resets != [] then None else Get(body, key)
    {
      if key.FieldKey? || key.ClearKey? {
        TransformedMeans(body, resets, env, key.field, key);
        if key.field in resets {
          TransformedFits(body, resets, env, parse, key.field);
        }
      } else {
        TransformedMeans(body, resets, env, DemoMode, key);
      }
    }
  }

  /**
   A draft is created exactly when every reset field is overridden and not touched by the request, the
   environment's value for it could be asked for, and the rest of the request is fit.
   */
  lemma CreatedExactly(row: Option<Row>, body: Config, resets: seq<Field>, env: Environment, parse: UrlParser)
    ensures CreateDraft(row, body, resets, env, parse).Accepted?
       <==> && (forall f :: f in resets ==> !Touches(body, f) && f in OverrideSet(ConfigOf(row)) && ResetFits(f, env, parse))
            && RequestFits(body, resets, parse)
    ensures forall fields :: CreateDraft(row, body, resets, env, parse) == Refused(ResetConflict(fields)) ==>
              fields != {} && forall f :: f in fields <==> f in resets && Touches(body, f)
    ensures forall fields :: CreateDraft(row, body, resets, env, parse) == Refused(NotOverridden(fields)) ==>
              fields != {} && forall f :: f in fields <==> f in resets && f !in OverrideSet(ConfigOf(row))
  {
    forall f: Field ensures f in ALL_FIELDS {
      assert f == SETTING_FIELDS[Position(f)];
    }
    if ResetConflicts(body, resets) == {} {
      assert forall f :: f in resets ==> f !in ResetConflicts(body, resets);
      TransformedAcceptable(body, resets, env, parse);
      AcceptedExactly(Transformed(body, resets, env), parse);
      if !(FieldsOf(resets) <= OverrideSet(ConfigOf(row))) {
        var f :| f in FieldsOf(resets) && f !in OverrideSet(ConfigOf(row));
        assert f in FieldsOf(resets) - OverrideSet(ConfigOf(row));
      }
    } else {
      var f :| f in ResetConflicts(body, resets);
    }
  }

  lemma CreatedDraftHoldsResets(row: Option<Row>, body: Config, resets: seq<Field>, env: Environment, parse: UrlParser)
    requires CreateDraft(row, body, resets, env, parse).Accepted?
    ensures HoldsResets(CreateDraft(row, body, resets, env, parse).value.changes, resets)
  {
    var transformed := Transformed(body, resets, env);
    var changes := NormalizedChanges(transformed, parse).value;
    assert CreateDraft(row, body, resets, env, parse).value.changes == changes;
    forall i | 0 <= i < |resets| && !IsSecret(resets[i])
      ensures Has(changes, FieldKey(resets[i]))
    {
      ChangesMean(transformed, parse, resets[i]);
      RequestedOfTransformed(body, resets, env, parse, resets[i]);
    }
  }

  /**
   An accepted request becomes a draft that holds what was asked for and, for every reset field, the
   environment's value; a reset field was overridden and not asked for.
   */
  lemma DraftOfRequest(row: Option<Row>, body: Config, resets: seq<Field>, env: Environment, parse: UrlParser, f: Field)
    requires CreateDraft(row, body, resets, env, parse).Accepted?
    ensures DraftValue(CreateDraft(row, body, resets, env, parse).value, f)
         == if f in resets then ResetRequest(f, env, parse) else Requested(body, f, parse)
    ensures f in resets ==> Requested(body, f, parse) == None && f in OverrideSet(ConfigOf(row))
  {
    NormalizedMeans(Transformed(body, resets, env), parse, f);
    RequestedOfTransformed(body, resets, env, parse, f);
    if f in resets {
      assert f in FieldsOf(resets);
      assert f !in ResetConflicts(body, resets);
    }
  }

  /** A draft after refreshes in a sequence of environments. */
  function RefreshedIn(m: Material, resets: seq<Field>, envs: seq<Environment>): Material
    decreases |envs|
  {
    if envs == [] then m else Refreshed(RefreshedIn(m, resets, envs[..|envs| - 1]), resets, envs[|envs| - 1])
  }

  lemma {:induction false} RefreshesKeepTheRest(m: Material, resets: seq<Field>, envs: seq<Environment>, f: Field)
    requires f !in resets
    ensures DraftValue(RefreshedIn(m, resets, envs), f) == DraftValue(m, f)
    decreases |envs|
  {
    if envs != [] {
      RefreshesKeepTheRest(m, resets, envs[..|envs| - 1], f);
      RefreshedMeans(RefreshedIn(m, resets, envs[..|envs| - 1]), resets, envs[|envs| - 1], f);
    }
  }

  /** The fields a request asks to change. */
  function RequestedFields(body: Config, parse: UrlParser): set<Field> {
    set f | f in ALL_FIELDS && Requested(body, f, parse).Some?
  }

  /**
   From the request to the row, whatever refreshes come between: once a refresh in `env` has nothing to
   change, applying the draft to `current` gives the requested fields what was asked for, the reset
   fields what `env` supplies, and leaves every other field and key alone. The overrides lose the
   reset fields and gain the requested ones.
   */
  lemma RequestReachesRow(row: Option<Row>, body: Config, resets: seq<Field>, created: Environment, between: seq<Environment>,
                          env: Environment, parse: UrlParser, current: Option<Row>, initial: Content, now: int, f: Field, key: Name)
    requires CreateDraft(row, body, resets, created, parse).Accepted?
    requires var m := RefreshedIn(CreateDraft(row, body, resets, created, parse).value, resets, between);
             !NeedsRefresh(m, resets, env)
    ensures var m := RefreshedIn(CreateDraft(row, body, resets, created, parse).value, resets, between);
            var after := AppliedRow(current, m, resets, initial, now).content;
            && OverrideSet(Some(after.config)) == OverrideSet(ConfigOf(current)) - FieldsOf(resets) + RequestedFields(body, parse)
            && FieldValue(after, f) == (if f in resets then Some(Inherited(f, env))
                                        else if f in RequestedFields(body, parse) then Requested(body, f, parse)
                                        else FieldValue(ContentOf(current, initial), f))
            && (ForeignKey(key) ==> Get(after.config, key) == Get(ContentOf(current, initial).config, key))
  {
    var first := CreateDraft(row, body, resets, created, parse).value;
    var m := RefreshedIn(first, resets, between);
    forall g: Field
      ensures g !in resets ==> DraftValue(m, g) == Requested(body, g, parse)
      ensures g in resets ==> g !in RequestedFields(body, parse)
    {
      DraftOfRequest(row, body, resets, created, parse, g);
      if g !in resets {
        RefreshesKeepTheRest(first, resets, between, g);
      }
    }
    assert OwnChanges(m, resets) == RequestedFields(body, parse);
    AppliedMeans(ContentOf(current, initial), ConfigOf(current), m, resets, env, f, key);
  }

  /** A draft refreshed `times` times in one environment. */
  function RefreshedOften(m: Material, resets: seq<Field>, env: Environment, times: nat): Material {
    if times == 0 then m else Refreshed(RefreshedOften(m, resets, env, times - 1), resets, env)
  }

  /** Refreshing often in one environment is refreshing once. */
  lemma {:induction false} OftenIsOnce(m: Material, resets: seq<Field>, env: Environment, times: nat)
    requires NoDuplicates(resets) && HoldsResets(m.changes, resets) && times > 0
    ensures RefreshedOften(m, resets, env, times) == Refreshed(m, resets, env)
  {
    if times > 1 {
      OftenIsOnce(m, resets, env, times - 1);
      RefreshComesToRest(m, resets, env);
    } else {
      assert RefreshedOften(m, resets, env, 0) == m;
    }
  }

  /** However often a restless draft is refreshed, and be it never, the next refresh sees a change and sends it back. */
  lemma StaysRestless(m: Material, resets: seq<Field>, env: Environment, times: nat)
    requires NoDuplicates(resets) && HoldsResets(m.changes, resets) && Restless(m, resets, env)
    ensures NeedsRefresh(RefreshedOften(m, resets, env, times), resets, env)
  {
    if times > 0 {
      OftenIsOnce(m, resets, env, times);
      RefreshComesToRest(m, resets, env);
    } else {
      RestlessFromTheStart(m, resets, env);
    }
  }

  /** Such a draft exists: set the XYOps key and reset the FreeIPA password to a configured one. */
  lemma RestlessDraftIsAccepted(row: Row, env: Environment, parse: UrlParser)
    requires !Has(row.content.config, OverridesKey) && env.ipaPassword == "p"
    ensures var created := CreateDraft(Some(row), [Entry(FieldKey(XyopsApiKey), Str("k"))], [IpaPassword], env, parse);
            created.Accepted? && Restless(created.value, [IpaPassword], env)
  {
    var body, resets := [Entry(FieldKey(XyopsApiKey), Str("k"))], [IpaPassword];
    var transformed := Transformed(body, resets, env);
    PlainPassword(env);
    RestlessRequest(body, env, "k");
    TwoSecrets(transformed, parse);
    assert !Touches(body, IpaPassword) by {
      assert body[1..] == [] && Get([], FieldKey(IpaPassword)) == None && Get([], ClearKey(IpaPassword)) == None;
    }
  }

  lemma PlainPassword(env: Environment)
    requires env.ipaPassword == "p"
    ensures ConfiguredText(SecretText(IpaPassword, env))
  {
    TrimOfTrimmed("p");
  }

  lemma RestlessRequest(body: Config, env: Environment, key: string)
    requires body == [Entry(FieldKey(XyopsApiKey), Str(key))] && ConfiguredText(env.ipaPassword)
    ensures Transformed(body, [IpaPassword], env) == [Entry(FieldKey(XyopsApiKey), Str(key)), Entry(FieldKey(IpaPassword), Str(env.ipaPassword))]
  {
    assert body[1..] == [];
    assert Remove(body, ResetFieldsKey) == body && Remove(body, ClearKey(IpaPassword)) == body;
    assert !Has(body, FieldKey(IpaPassword)) by {
      assert Get([], FieldKey(IpaPassword)) == None;
    }
    assert ResetFirst(body, [IpaPassword], env, 1) == ResetOne(ResetFirst(body, [IpaPassword], env, 0), IpaPassword, env);
  }

  lemma TwoSecrets(body: Config, parse: UrlParser)
    requires body == [Entry(FieldKey(XyopsApiKey), Str("k")), Entry(FieldKey(IpaPassword), Str("p"))]
    ensures Normalized(body, parse)
         == Accepted(Material([], [Entry(FieldKey(IpaPassword), Str("p")), Entry(FieldKey(XyopsApiKey), Str("k"))]))
  {
    forall key: Name
      ensures Get(body, key) == if key == FieldKey(XyopsApiKey) then Some(Str("k")) else if key == FieldKey(IpaPassword) then Some(Str("p")) else None
    {
      assert body[1..] == [Entry(FieldKey(IpaPassword), Str("p"))];
      assert body[1..][1..] == [] && Get([], key) == None;
    }
    assert CheckKeys(body) == Accepted(true) by {
      assert CheckKeys(body[1..][1..]) == Accepted(true);
    }
    assert PlainPart(body, DemoMode, parse) == PlainPart(body, IpaUrl, parse) == PlainPart(body, IpaUsername, parse)
        == PlainPart(body, XyopsUrl, parse) == ClearPart(body, IpaPassword) == ClearPart(body, XyopsApiKey) == Accepted([]);
    var nothing: Config := [];
    assert nothing + (nothing + (nothing + (nothing + (nothing + nothing)))) == nothing;
    assert NormalizedChanges(body, parse) == Accepted([]);
    assert SecretPart(body, IpaPassword) == Accepted([Entry(FieldKey(IpaPassword), Str("p"))]);
    assert SecretPart(body, XyopsApiKey) == Accepted([Entry(FieldKey(XyopsApiKey), Str("k"))]);
    var password, key := [Entry(FieldKey(IpaPassword), Str("p"))], [Entry(FieldKey(XyopsApiKey), Str("k"))];
    assert NormalizedSecrets(body) == Accepted(password + key);
    assert password + key == [Entry(FieldKey(IpaPassword), Str("p")), Entry(FieldKey(XyopsApiKey), Str("k"))];
  }
}
