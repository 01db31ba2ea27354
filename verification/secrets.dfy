/**
 * Secret lookup with a time-limited cache: a cached value is served while it
 * has not expired; in development an environment variable wins; otherwise
 * the secret store is asked, its reply (plain text, a JSON string or a JSON
 * object holding the key) is normalised, and a usable value is cached for
 * five minutes. When the store fails, the environment variable is the last
 * resort.
 */
module Secrets {
  import opened Strings
  import opened Env

  // ------------------------------------------------------------ normalisation

  const ByteOrderMark: char := '\U{FEFF}'

  /**
   * `normalizeOpenAIKey`: one leading byte-order mark removed, then white
   * space trimmed at both ends. The empty string is returned as it is.
   */
  function Normalize(raw: string): (r: string)
    ensures |r| <= |raw|
    ensures r == "" || (!IsSpace(r[0]) && !IsSpace(r[|r| - 1]))
    ensures r == "" || (r[0] != ByteOrderMark && r[|r| - 1] != ByteOrderMark)
  {
    if raw == "" then raw
    else Trim(if raw[0] == ByteOrderMark then raw[1..] else raw)
  }

  /** A key with no white space or byte-order mark at its edges is already normal. */
  lemma NormalizeKeepsClean(key: string)
    requires key == "" || (!IsSpace(key[0]) && !IsSpace(key[|key| - 1]))
    ensures Normalize(key) == key
  {
    if key != "" {
      assert key[0] != ByteOrderMark;
      TrimOfTrimmed(key);
    }
  }

  /** Normalising twice is normalising once. */
  lemma NormalizeIdempotent(raw: string)
    ensures Normalize(Normalize(raw)) == Normalize(raw)
  {
    NormalizeKeepsClean(Normalize(raw));
  }

  /** A key made only of white space and byte-order marks normalises to nothing. */
  lemma BlankNormalizesEmpty(raw: string)
    requires forall k | 0 <= k < |raw| :: IsSpace(raw[k])
    ensures Normalize(raw) == ""
  {
    if raw != [] {
      var rest := if raw[0] == ByteOrderMark then raw[1..] else raw;
      assert forall k | 0 <= k < |rest| :: IsSpace(rest[k]) by {
        forall k | 0 <= k < |rest| ensures IsSpace(rest[k]) {
          if raw[0] == ByteOrderMark {
            assert rest[k] == raw[k + 1];
          }
        }
      }
      TrimEmptyIff(rest);
    }
  }

  // ------------------------------------------------------------ parsed secrets

  /**
   * What `JSON.parse` yields, as far as key selection looks at it: a string,
   * an object (or array) with its own properties in enumeration order, or any
   * other value, given by its `String(...)` text and its truthiness.
   */
  datatype Json =
    | JString(text: string)
    | JObject(entries: seq<(string, Json)>)
    | JScalar(text: string, truthy: bool)

  /** JavaScript truthiness of a parsed value: objects always, strings when not empty. */
  predicate Truthy(j: Json) {
    match j
    case JString(s) => s != ""
    case JObject(_) => true
    case JScalar(_, t) => t
  }

  /** `parsed[name]`: the value of the property called `name`, if there is one. */
  function Field(entries: seq<(string, Json)>, name: string): (r: Option<Json>)
    ensures r.Some? <==> exists k | 0 <= k < |entries| :: entries[k].0 == name
    ensures r.Some? ==> exists k | 0 <= k < |entries| :: entries[k] == (name, r.value)
  {
    if entries == [] then None
    else if entries[0].0 == name then Some(entries[0].1)
    else
      var r := Field(entries[1..], name);
      assert forall k | 1 <= k < |entries| :: entries[k] == entries[1..][k - 1];
      r
  }

  /** The property names tried, in order of preference. */
  const PreferredKeys: seq<string> := ["apiKey", "api_key", "OPENAI_API_KEY", "openai_api_key", "value", "key"]

  /** `parsed[name]` is set to a truthy value. */
  predicate SetTruthy(entries: seq<(string, Json)>, name: string) {
    Field(entries, name).Some? && Truthy(Field(entries, name).value)
  }

  /** `parsed.a || parsed.b || …` over `names[from..]`: the first truthy property, if any. */
  function FirstTruthy(entries: seq<(string, Json)>, names: seq<string>, from: nat): (r: Option<Json>)
    requires from <= |names|
    ensures r.None? <==> forall i | from <= i < |names| :: !SetTruthy(entries, names[i])
    ensures r.Some? ==> exists i | from <= i < |names| ::
      && SetTruthy(entries, names[i]) && Field(entries, names[i]) == r
      && forall j | from <= j < i :: !SetTruthy(entries, names[j])
    decreases |names| - from
  {
    if from == |names| then None
    else if SetTruthy(entries, names[from]) then Field(entries, names[from])
    else FirstTruthy(entries, names, from + 1)
  }

  /**
   * `rawKey`: the first truthy preferred property, else the first property
   * value of the object (which may itself be falsy), else nothing.
   */
  function ChosenKey(entries: seq<(string, Json)>): (r: Option<Json>)
    ensures r.None? <==> entries == [] && FirstTruthy(entries, PreferredKeys, 0).None?
    ensures FirstTruthy(entries, PreferredKeys, 0).None? && entries != [] ==> r == Some(entries[0].1)
  {
    var preferred := FirstTruthy(entries, PreferredKeys, 0);
    if preferred.Some? then preferred
    else if entries == [] then None
    else Some(entries[0].1)
  }

  /** A non-empty `apiKey` string wins over every other property. */
  lemma ApiKeyFirst(entries: seq<(string, Json)>, key: string)
    requires Field(entries, "apiKey") == Some(JString(key)) && key != ""
    ensures ChosenKey(entries) == Some(JString(key))
  {
  }

  /** An object with none of the preferred properties set falls back to its first value. */
  lemma FirstValueFallback(entries: seq<(string, Json)>)
    requires entries != []
    requires forall k | 0 <= k < |entries| :: entries[k].0 !in PreferredKeys
    ensures ChosenKey(entries) == Some(entries[0].1)
  {
    forall i | 0 <= i < |PreferredKeys| ensures Field(entries, PreferredKeys[i]).None? {
      assert PreferredKeys[i] in PreferredKeys;
      assert forall k | 0 <= k < |entries| :: entries[k].0 != PreferredKeys[i];
    }
  }

  // ------------------------------------------------------------ the store's reply

  /**
   * The store's reply: its text and (already decoded from UTF-8) binary
   * forms, either of which may be missing, or the error it raised.
   */
  datatype Fetch =
    | Fetched(secretString: Option<string>, secretBinary: Option<string>)
    | FetchFailed(message: string)

  datatype Outcome = Value(secret: string) | Failed(message: string)

  /**
   * The secret in a text reply, after normalisation: a JSON string gives its
   * normalised content; a JSON object gives its chosen key when that is a
   * non-empty string and otherwise the whole text; any other JSON value
   * gives its normalised `String(...)`; text that is not JSON is used as it
   * is. `parse` is `JSON.parse`, `None` when it throws.
   */
  function SecretOfText(text: string, parse: string -> Option<Json>): (r: string)
    ensures Normalize(r) == r
  {
    var cleaned := Normalize(text);
    NormalizeIdempotent(text);
    match parse(cleaned)
    case None => cleaned
    case Some(JString(s)) => NormalizeIdempotent(s); Normalize(s)
    case Some(JScalar(t, _)) => NormalizeIdempotent(t); Normalize(t)
    case Some(JObject(entries)) =>
      match ChosenKey(entries)
      case Some(JString(key)) =>
        if key != "" then NormalizeIdempotent(key); Normalize(key) else cleaned
      case _ => cleaned
  }

  const EmptyValue: string := "Secret value is empty"

  function InvalidValue(name: string): string {
    "Secret value is empty or invalid for " + name
  }

  /**
   * The store fetch of `getSecret`: a non-empty text reply is read by
   * `SecretOfText`; otherwise a binary reply is normalised; a reply with
   * neither is an error, and so is a value that ends up empty.
   */
  function FromStore(name: string, fetch: Fetch, parse: string -> Option<Json>): (r: Outcome)
    ensures r.Value? ==> r.secret != "" && Normalize(r.secret) == r.secret
    ensures fetch.FetchFailed? ==> r == Failed(fetch.message)
    ensures fetch.Fetched? && (fetch.secretString.None? || fetch.secretString.value == "") && fetch.secretBinary.None?
      ==> r == Failed(EmptyValue)
  {
    match fetch
    case FetchFailed(message) => Failed(message)
    case Fetched(text, binary) =>
      if text.Some? && text.value != "" then
        var secret := SecretOfText(text.value, parse);
        if secret == "" then Failed(InvalidValue(name)) else Value(secret)
      else if binary.Some? then
        var secret := Normalize(binary.value);
        NormalizeIdempotent(binary.value);
        if secret == "" then Failed(InvalidValue(name)) else Value(secret)
      else Failed(EmptyValue)
  }

  /** A plain-text key (not JSON) comes back normalised. */
  lemma PlainTextSecret(name: string, text: string, parse: string -> Option<Json>)
    requires text != "" && parse(Normalize(text)).None? && Normalize(text) != ""
    ensures FromStore(name, Fetched(Some(text), None), parse) == Value(Normalize(text))
  {
  }

  /** A JSON object whose chosen key is not a usable string yields the whole cleaned text. */
  lemma UnusableKeyFallsBackToText(name: string, text: string, parse: string -> Option<Json>, entries: seq<(string, Json)>)
    requires text != "" && parse(Normalize(text)) == Some(JObject(entries))
    requires !(ChosenKey(entries).Some? && ChosenKey(entries).value.JString? && ChosenKey(entries).value.text != "")
    requires Normalize(text) != ""
    ensures FromStore(name, Fetched(Some(text), None), parse) == Value(Normalize(text))
  {
    assert SecretOfText(text, parse) == Normalize(text) by {
      var chosen := ChosenKey(entries);
      assert !(chosen.Some? && chosen.value.JString? && chosen.value.text != "");
    }
  }

  // ------------------------------------------------------------ the cache

  const CacheTtl: int := 5 * 60 * 1000

  datatype CacheEntry = CacheEntry(value: string, expiresAt: int)

  function FailureMessage(name: string, message: string): string {
    "Failed to retrieve secret " + name + " from AWS Secrets Manager. Error: " + message
  }

  /** `process.env[name]` when both the name and the value are non-empty. */
  function EnvValue(vars: Environment, fallbackName: Option<string>): (r: Option<string>)
    ensures r.Some? <==> fallbackName.Some? && fallbackName.value != "" && fallbackName.value in vars && vars[fallbackName.value] != ""
    ensures r.Some? ==> r.value == vars[fallbackName.value]
  {
    if fallbackName.Some? && fallbackName.value != "" && fallbackName.value in vars && vars[fallbackName.value] != ""
    then Some(vars[fallbackName.value])
    else None
  }

  /** The module-level secret cache. */
  class SecretCache {
    var entries: map<string, CacheEntry>

    /** Every cached secret came from a successful store fetch, so it is non-empty and normalised. */
    ghost predicate Valid()
      reads this
    {
      forall name | name in entries :: entries[name].value != "" && Normalize(entries[name].value) == entries[name].value
    }

    constructor()
      ensures entries == map[] && Valid()
    {
      entries := map[];
    }

    /**
     * `getSecret` at time `now`: an unexpired cache entry is returned without
     * asking the store; in development a set fallback variable is returned
     * normalised; otherwise the store's reply is read, and a usable value is
     * cached until `now + CacheTtl` and returned; on failure the fallback
     * variable is returned normalised, or the wrapped error. `fetched` tells
     * whether the store was asked.
     */
    method GetSecret(name: string, fallbackName: Option<string>, vars: Environment, now: int,
                     fetch: Fetch, parse: string -> Option<Json>)
      returns (r: Outcome, fetched: bool)
      requires Valid()
      modifies this
      ensures Valid()
      ensures name in old(entries) && old(entries)[name].expiresAt > now ==>
        r == Value(old(entries)[name].value) && !fetched && entries == old(entries)
      ensures (!(name in old(entries) && old(entries)[name].expiresAt > now) && SettingIs(vars, "NODE_ENV", "development")
                && EnvValue(vars, fallbackName).Some?) ==>
        r == Value(Normalize(EnvValue(vars, fallbackName).value)) && !fetched && entries == old(entries)
      ensures fetched ==> match FromStore(name, fetch, parse)
        case Value(secret) => r == Value(secret) && entries == old(entries)[name := CacheEntry(secret, now + CacheTtl)]
        case Failed(message) =>
          && entries == old(entries)
          && r == (if EnvValue(vars, fallbackName).Some? then Value(Normalize(EnvValue(vars, fallbackName).value))
                   else Failed(FailureMessage(name, message)))
      ensures fetched <==> (!(name in old(entries) && old(entries)[name].expiresAt > now)
                            && !(SettingIs(vars, "NODE_ENV", "development") && EnvValue(vars, fallbackName).Some?))
      ensures r.Value? ==> Normalize(r.secret) == r.secret
      ensures name in old(entries) && old(entries)[name].expiresAt > now ==> r.Value? && r.secret != ""
    {
      if name in entries && entries[name].expiresAt > now {
        return Value(entries[name].value), false;
      }
      var envValue := EnvValue(vars, fallbackName);
      if envValue.Some? {
        NormalizeIdempotent(envValue.value);
      }
      if SettingIs(vars, "NODE_ENV", "development") && envValue.Some? {
        return Value(Normalize(envValue.value)), false;
      }
      fetched := true;
      var outcome := FromStore(name, fetch, parse);
      match outcome {
        case Value(secret) =>
          entries := entries[name := CacheEntry(secret, now + CacheTtl)];
          r := outcome;
        case Failed(message) =>
          if envValue.Some? {
            r := Value(Normalize(envValue.value));
          } else {
            r := Failed(FailureMessage(name, message));
          }
      }
    }

    /** `getOpenAIApiKey`: the secret named by OPENAI_SECRET_NAME (default `openai/sainathyai`), falling back to OPENAI_API_KEY. */
    method GetOpenAIApiKey(vars: Environment, now: int, fetch: Fetch, parse: string -> Option<Json>)
      returns (r: Outcome, fetched: bool)
      requires Valid()
      modifies this
      ensures Valid()
      ensures var name := Setting(vars, "OPENAI_SECRET_NAME", "openai/sainathyai");
        name in old(entries) && old(entries)[name].expiresAt > now ==> r == Value(old(entries)[name].value) && !fetched
      ensures r.Value? ==> Normalize(r.secret) == r.secret
    {
      r, fetched := GetSecret(Setting(vars, "OPENAI_SECRET_NAME", "openai/sainathyai"), Some("OPENAI_API_KEY"), vars, now, fetch, parse);
    }

    /** `clearSecretCache`: a non-empty name removes that entry only; no name, or the empty one, empties the cache. */
    method Clear(name: Option<string>)
      requires Valid()
      modifies this
      ensures Valid()
      ensures name.Some? && name.value != "" ==> entries == old(entries) - {name.value}
      ensures name.None? || name.value == "" ==> entries == map[]
    {
      if name.Some? && name.value != "" {
        entries := entries - {name.value};
      } else {
        entries := map[];
      }
    }
  }
}
