/** Redaction of secrets in source configs, on arbitrary JSON trees. */
module Redaction {
  import opened Common
  import opened Text

  datatype JSON =
    | Null
    | Bool(b: bool)
    | Number(n: int)
    | Str(s: string)
    | Arr(items: seq<JSON>)
    | Obj(fields: map<string, JSON>)

  const REDACTED := Str("[REDACTED]")

  predicate IsSensitiveConfigKey(key: string) {
    ToLower(TrimSpace(key)) in {
      "password", "passwd", "secret", "token", "access_token", "refresh_token", "api_key", "apikey",
      "client_secret", "private_key", "authorization", "bearer_token"}
  }

  function RedactConfigValue(v: JSON): JSON {
    match v
    case Obj(fields) =>
      Obj(map k | k in fields :: if IsSensitiveConfigKey(k) then REDACTED else RedactConfigValue(fields[k]))
    case Arr(items) => Arr(seq(|items|, i requires 0 <= i < |items| => RedactConfigValue(items[i])))
    case _ => v
  }

  // ---------------------------------------------------------------- what redaction does, path by path

  datatype Step = Field(key: string) | Item(index: nat)

  /** The value a path leads to. */
  function At(v: JSON, path: seq<Step>): Option<JSON>
    decreases |path|
  {
    if path == [] then Some(v)
    else
      match (v, path[0])
      case (Obj(fields), Field(k)) => if k in fields then At(fields[k], path[1..]) else None
      case (Arr(items), Item(i)) => if i < |items| then At(items[i], path[1..]) else None
      case _ => None
  }

  predicate Exposed(path: seq<Step>) {
    forall i :: 0 <= i < |path| && path[i].Field? ==> !IsSensitiveConfigKey(path[i].key)
  }

  /** A path without a sensitive key leads to the same place, where only what is below may be redacted. */
  lemma {:induction false} RedactionKeepsShape(v: JSON, path: seq<Step>)
    requires Exposed(path)
    ensures At(RedactConfigValue(v), path)
            == match At(v, path) case None => None case Some(x) => Some(RedactConfigValue(x))
    decreases |path|
  {
    if path != [] {
      assert Exposed(path[1..]);
      match (v, path[0]) {
        case (Obj(fields), Field(k)) => if k in fields { RedactionKeepsShape(fields[k], path[1..]); }
        case (Arr(items), Item(i)) => if i < |items| { RedactionKeepsShape(items[i], path[1..]); }
        case _ =>
      }
    }
  }

  lemma {:induction false} AtConcat(v: JSON, path: seq<Step>, rest: seq<Step>)
    ensures At(v, path + rest) == match At(v, path) case None => None case Some(x) => At(x, rest)
    decreases |path|
  {
    if path == [] {
      assert path + rest == rest;
    } else {
      assert (path + rest)[1..] == path[1..] + rest;
      match (v, path[0]) {
        case (Obj(fields), Field(k)) => if k in fields { AtConcat(fields[k], path[1..], rest); }
        case (Arr(items), Item(i)) => if i < |items| { AtConcat(items[i], path[1..], rest); }
        case _ =>
      }
    }
  }

  /** Whatever a sensitive key held is replaced by the marker, and nothing below it remains. */
  lemma {:induction false} SecretsAreHidden(v: JSON, path: seq<Step>, key: string, below: seq<Step>)
    requires Exposed(path) && IsSensitiveConfigKey(key)
    ensures At(RedactConfigValue(v), path + [Field(key)])
            == if At(v, path + [Field(key)]).Some? then Some(REDACTED) else None
    ensures below != [] ==> At(RedactConfigValue(v), path + [Field(key)] + below).None?
  {
    RedactionKeepsShape(v, path);
    AtConcat(v, path, [Field(key)]);
    AtConcat(RedactConfigValue(v), path, [Field(key)]);
    AtConcat(RedactConfigValue(v), path + [Field(key)], below);
  }

  predicate NoSecrets(v: JSON) {
    match v
    case Obj(fields) =>
      forall k :: k in fields ==> if IsSensitiveConfigKey(k) then fields[k] == REDACTED else NoSecrets(fields[k])
    case Arr(items) => forall i :: 0 <= i < |items| ==> NoSecrets(items[i])
    case _ => true
  }

  /** Redaction changes nothing exactly when there is no secret left. */
  lemma {:induction false} UnchangedIffNoSecrets(v: JSON)
    ensures RedactConfigValue(v) == v <==> NoSecrets(v)
  {
    match v
    case Obj(fields) =>
      var redacted := RedactConfigValue(v).fields;
      forall k | k in fields
        ensures redacted[k] == fields[k] <==> if IsSensitiveConfigKey(k) then fields[k] == REDACTED
              else NoSecrets(fields[k])
      {
        UnchangedIffNoSecrets(fields[k]);
      }
      assert redacted == fields <==> forall k :: k in fields ==> redacted[k] == fields[k];
    case Arr(items) =>
      var redacted := RedactConfigValue(v).items;
      forall i | 0 <= i < |items| ensures redacted[i] == items[i] <==> NoSecrets(items[i]) {
        UnchangedIffNoSecrets(items[i]);
      }
      assert redacted == items <==> forall i :: 0 <= i < |items| ==> redacted[i] == items[i];
    case _ =>
  }

  lemma {:induction false} RedactedHasNoSecrets(v: JSON)
    ensures NoSecrets(RedactConfigValue(v))
  {
    match v
    case Obj(fields) =>
      forall k | k in fields && !IsSensitiveConfigKey(k) ensures NoSecrets(RedactConfigValue(fields[k])) {
        RedactedHasNoSecrets(fields[k]);
      }
    case Arr(items) =>
      forall i | 0 <= i < |items| ensures NoSecrets(RedactConfigValue(items[i])) {
        RedactedHasNoSecrets(items[i]);
      }
    case _ =>
  }

  /** Redacting a redacted config again (as a cache hit does) changes nothing. */
  lemma {:induction false} RedactionIdempotent(v: JSON)
    ensures RedactConfigValue(RedactConfigValue(v)) == RedactConfigValue(v)
  {
    RedactedHasNoSecrets(v);
    UnchangedIffNoSecrets(RedactConfigValue(v));
  }

  // ---------------------------------------------------------------- stored configs

  /** Raw bytes of a config: none, not JSON, or JSON. */
  datatype RawConfig = Empty | Invalid | Parsed(value: JSON)

  function RedactConfig(raw: RawConfig): RawConfig {
    match raw
    case Parsed(v) => Parsed(RedactConfigValue(v))
    case _ => Parsed(Obj(map[]))
  }

  lemma RedactConfigIdempotent(raw: RawConfig)
    ensures RedactConfig(RedactConfig(raw)) == RedactConfig(raw)
    ensures RedactConfig(raw).Parsed? && NoSecrets(RedactConfig(raw).value)
  {
    if raw.Parsed? {
      RedactionIdempotent(raw.value);
      RedactedHasNoSecrets(raw.value);
    }
  }

  predicate Scalar(v: JSON) {
    !v.Obj? && !v.Arr?
  }

  /**
   What a user is shown of a stored config: the same structure with every scalar that is not under a sensitive
   key, the marker for everything that is, and an empty object for what is no JSON.
   */
  ghost predicate Shows(shown: RawConfig, stored: RawConfig) {
    && shown.Parsed?
    && (!stored.Parsed? ==> shown.value == Obj(map[]))
    && (stored.Parsed? ==>
          && (forall path :: Exposed(path) ==> SamePlace(shown.value, stored.value, path))
          && (forall path, key :: Exposed(path) && IsSensitiveConfigKey(key) ==>
                Hides(shown.value, stored.value, path, key)))
  }

  predicate SamePlace(shown: JSON, stored: JSON, path: seq<Step>) {
    match At(stored, path)
    case None => At(shown, path).None?
    case Some(x) => At(shown, path).Some? && (Scalar(x) ==> At(shown, path).value == x)
  }

  predicate Hides(shown: JSON, stored: JSON, path: seq<Step>, key: string) {
    At(shown, path + [Field(key)])
    == if At(stored, path + [Field(key)]).Some? then Some(Str("[REDACTED]")) else None
  }

  lemma RedactConfigShows(raw: RawConfig)
    ensures Shows(RedactConfig(raw), raw)
  {
    if raw.Parsed? {
      forall path | Exposed(path) ensures SamePlace(RedactConfigValue(raw.value), raw.value, path) {
        RedactionKeepsShape(raw.value, path);
      }
      forall path, key | Exposed(path) && IsSensitiveConfigKey(key)
        ensures Hides(RedactConfigValue(raw.value), raw.value, path, key)
      {
        SecretsAreHidden(raw.value, path, key, []);
      }
    }
  }

  /** The names that are sensitive, whatever their case and the white space around them. */
  lemma SensitiveNames(key: string, name: string)
    requires ToLower(TrimSpace(key)) == name
    ensures name in ["password", "passwd", "secret", "token", "access_token", "refresh_token", "api_key", "apikey",
                     "client_secret", "private_key", "authorization", "bearer_token"]
            <==> IsSensitiveConfigKey(key)
  {
  }
}
