/**
 * Start-up configuration read from the process environment (src/config.js). The environment is a
 * map from variable names to values; a name absent from the map is an unset variable.
 */
module Config {
  import opened Strings
  import opened Wrappers
  import Utils
  import C = Constants

  type Env = map<string, string>

  /** `process.env[name] || fallback`: an unset or empty variable falls back. */
  function EnvOr(env: Env, name: string, fallback: string): (r: string)
    ensures name in env && env[name] != "" ==> r == env[name]
    ensures name !in env || env[name] == "" ==> r == fallback
  {
    if name in env && env[name] != "" then env[name] else fallback
  }

  /** A boolean setting: the value, lower-cased, is exactly `"true"`. */
  predicate IsTrue(value: string) {
    Lower(value) == "true"
  }

  /** A flag read with a default, as PRIVATE_CHAT_ONLY, ACCEPT_BAYAR_ALIAS and RECONNECT_ENABLED are. */
  predicate Flag(env: Env, name: string, default: string): (on: bool)
    ensures name in env && env[name] != "" ==> (on <==> Lower(env[name]) == "true")
    ensures name !in env || env[name] == "" ==> (on <==> Lower(default) == "true")
  {
    IsTrue(EnvOr(env, name, default))
  }

  /** A flag is on for every letter case of `true` and off for anything else; unset or empty means the default. */
  lemma FlagValues(env: Env, name: string, default: string)
    ensures name in env && env[name] != "" ==> (Flag(env, name, default) <==> Lower(env[name]) == "true")
    ensures name !in env || env[name] == "" ==> (Flag(env, name, default) <==> IsTrue(default))
    ensures Flag(env[name := "TRUE"], name, default) && Flag(env[name := "True"], name, default)
    ensures !Flag(env[name := "1"], name, default) && !Flag(env[name := "yes"], name, default)
  {
    assert Lower("TRUE") == "true";
    assert Lower("True") == "true";
    assert Lower("1")[0] == '1';
    assert Lower("yes")[0] == 'y';
  }

  // ---------------------------------------------------------------- comma-separated lists

  /** One piece of a trigger list, trimmed and then lower-cased. */
  function CleanPiece(p: string): (t: string)
    ensures IsTrimmed(t) && IsLower(t)
  {
    LowerIsLower(Trim(p));
    LowerKeepsTrimmed(Trim(p));
    Lower(Trim(p))
  }

  /** The pieces of a trigger list: each trimmed and lower-cased, empty pieces dropped. */
  function CleanTriggers(pieces: seq<string>): (r: seq<string>)
    ensures |r| <= |pieces|
    ensures forall i :: 0 <= i < |r| ==> r[i] != "" && IsTrimmed(r[i]) && IsLower(r[i])
    ensures forall x :: x in r <==> x != "" && exists p :: p in pieces && x == CleanPiece(p)
  {
    if pieces == [] then []
    else
      var t := CleanPiece(pieces[0]);
      var rest := CleanTriggers(pieces[1..]);
      assert forall p :: p in pieces <==> p == pieces[0] || p in pieces[1..];
      if t == "" then rest else PrependClean(t, rest); [t] + rest
  }

  /** A clean trigger in front of clean triggers leaves them all clean. */
  lemma PrependClean(t: string, rest: seq<string>)
    requires t != "" && IsTrimmed(t) && IsLower(t)
    requires forall i :: 0 <= i < |rest| ==> rest[i] != "" && IsTrimmed(rest[i]) && IsLower(rest[i])
    ensures var r := [t] + rest; forall i :: 0 <= i < |r| ==> r[i] != "" && IsTrimmed(r[i]) && IsLower(r[i])
  {
    var r := [t] + rest;
    assert forall i :: 0 < i < |r| ==> r[i] == rest[i - 1];
  }

  /** `raw.split(",").map(s => s.trim().toLowerCase()).filter(Boolean)`. */
  function TriggerList(raw: string): (r: seq<string>)
    ensures forall i :: 0 <= i < |r| ==> r[i] != "" && IsTrimmed(r[i]) && IsLower(r[i])
  {
    CleanTriggers(Split(raw, ','))
  }

  /** The pieces of an owner or product list: each trimmed, empty pieces dropped, case kept. */
  function CleanRaw(pieces: seq<string>): (r: seq<string>)
    ensures |r| <= |pieces|
    ensures forall i :: 0 <= i < |r| ==> r[i] != "" && IsTrimmed(r[i])
    ensures forall x :: x in r <==> x != "" && exists p :: p in pieces && x == Trim(p)
  {
    if pieces == [] then []
    else
      var t := Trim(pieces[0]);
      var rest := CleanRaw(pieces[1..]);
      assert forall p :: p in pieces <==> p == pieces[0] || p in pieces[1..];
      if t == "" then rest else PrependRaw(t, rest); [t] + rest
  }

  /** A trimmed piece in front of trimmed pieces leaves them all trimmed. */
  lemma PrependRaw(t: string, rest: seq<string>)
    requires t != "" && IsTrimmed(t)
    requires forall i :: 0 <= i < |rest| ==> rest[i] != "" && IsTrimmed(rest[i])
    ensures var r := [t] + rest; forall i :: 0 <= i < |r| ==> r[i] != "" && IsTrimmed(r[i])
  {
    var r := [t] + rest;
    assert forall i :: 0 < i < |r| ==> r[i] == rest[i - 1];
  }

  /** `raw.split(",").map(s => s.trim()).filter(Boolean)`. */
  function RawList(raw: string): (r: seq<string>)
    ensures forall i :: 0 <= i < |r| ==> r[i] != "" && IsTrimmed(r[i])
  {
    CleanRaw(Split(raw, ','))
  }

  /** A trigger list keeps every entry of the raw list that has any text, and nothing else. */
  lemma TriggerListMembers(raw: string, x: string)
    ensures x in TriggerList(raw) <==> x != "" && exists p :: p in Split(raw, ',') && x == Lower(Trim(p))
  {
  }

  /** A single entry: a raw list keeps the trimmed text as it is spelled, a trigger list lower-cases it. */
  lemma SingleEntryLists(raw: string)
    requires ',' !in raw
    ensures RawList(raw) == if Trim(raw) == "" then [] else [Trim(raw)]
    ensures TriggerList(raw) == if Trim(raw) == "" then [] else [Lower(Trim(raw))]
  {
    SplitWithoutSeparator(raw, ',');
  }

  /** Line 24: appends `bayar` to the QRIS triggers when the alias is accepted and it is not there yet. */
  function WithBayarAlias(triggers: seq<string>, accept: bool): (r: seq<string>)
    ensures "bayar" in r <==> accept || "bayar" in triggers
    ensures |triggers| <= |r| <= |triggers| + 1 && r[..|triggers|] == triggers
    ensures multiset(r)["bayar"] == (if accept && "bayar" !in triggers then 1 else multiset(triggers)["bayar"])
    ensures forall x :: x != "bayar" ==> multiset(r)[x] == multiset(triggers)[x]
  {
    if accept && "bayar" !in triggers then triggers + ["bayar"] else triggers
  }

  /** The rule never duplicates `bayar`, and applying it again changes nothing. */
  lemma BayarAliasOnce(triggers: seq<string>, accept: bool)
    ensures multiset(triggers)["bayar"] <= 1 ==> multiset(WithBayarAlias(triggers, accept))["bayar"] <= 1
    ensures WithBayarAlias(WithBayarAlias(triggers, accept), accept) == WithBayarAlias(triggers, accept)
  {
  }

  // ---------------------------------------------------------------- rate limiting

  /**
   * Lines 59-64: RATE_LIMIT_ENABLED decides when it is set at all (even to the empty string);
   * otherwise RATE_ENABLED does; with neither set, rate limiting is on.
   */
  function RateEnabled(env: Env): (on: bool)
    ensures "RATE_LIMIT_ENABLED" in env ==> on == IsTrue(env["RATE_LIMIT_ENABLED"])
    ensures "RATE_LIMIT_ENABLED" !in env && "RATE_ENABLED" in env ==> on == IsTrue(env["RATE_ENABLED"])
    ensures "RATE_LIMIT_ENABLED" !in env && "RATE_ENABLED" !in env ==> on
  {
    if "RATE_LIMIT_ENABLED" in env then IsTrue(env["RATE_LIMIT_ENABLED"])
    else if "RATE_ENABLED" in env then IsTrue(env["RATE_ENABLED"])
    else true
  }

  /** The precedence rule: once RATE_LIMIT_ENABLED is set, RATE_ENABLED no longer matters. */
  lemma RateLimitTakesPrecedence(env: Env, value: string)
    requires "RATE_LIMIT_ENABLED" in env
    ensures RateEnabled(env["RATE_ENABLED" := value]) == RateEnabled(env) == IsTrue(env["RATE_LIMIT_ENABLED"])
    ensures !RateEnabled(env["RATE_LIMIT_ENABLED" := ""])
  {
    assert "RATE_LIMIT_ENABLED" in env["RATE_ENABLED" := value];
  }

  /** Unset, rate limiting is on; either variable alone switches it by its own value. */
  lemma RateEnabledDefaults(value: string)
    ensures RateEnabled(map[])
    ensures RateEnabled(map["RATE_ENABLED" := value]) == IsTrue(value)
    ensures RateEnabled(map["RATE_LIMIT_ENABLED" := value]) == IsTrue(value)
  {
    assert "RATE_LIMIT_ENABLED" !in map["RATE_ENABLED" := value];
  }

  // ---------------------------------------------------------------- numbers

  /** `parseInt(process.env[name] || default, 10)`; `None` is `NaN`. */
  function IntSetting(env: Env, name: string, default: nat): Option<int> {
    ParseInt(EnvOr(env, name, Decimal(default)))
  }

  const MsPerHour := 60 * 60 * 1000

  /** Lines 70-73: a cooldown in milliseconds, from a setting in hours. */
  function HoursSettingMs(env: Env, name: string, defaultHours: nat): (ms: Option<int>)
    ensures ms.Some? <==> IntSetting(env, name, defaultHours).Some?
    ensures ms.Some? ==> ms.value == IntSetting(env, name, defaultHours).value * 3600000
  {
    match IntSetting(env, name, defaultHours)
    case None => None
    case Some(h) => Some(h * MsPerHour)
  }

  /** A setting of `h` hours, and an unset one with default `h`, is `h` times 3,600,000 ms. */
  lemma HoursSettingRoundTrip(env: Env, name: string, h: nat, defaultHours: nat)
    ensures HoursSettingMs(env[name := Decimal(h)], name, defaultHours) == Some(h * 3600000)
    ensures name !in env ==> HoursSettingMs(env, name, defaultHours) == Some(defaultHours * 3600000)
  {
    ParseIntDecimal(h);
    ParseIntDecimal(defaultHours);
  }

  // ---------------------------------------------------------------- owners

  /** OWNER_NUMBERS_NORMALIZED: each raw owner number through the Indonesian-number normaliser. */
  function NormalizeNumbers(raw: seq<string>): (r: seq<string>)
    ensures |r| == |raw|
    ensures forall i :: 0 <= i < |r| ==> r[i] == Utils.NormalizeIndoNumberDigits(raw[i]) && IsDigits(r[i])
  {
    seq(|raw|, i requires 0 <= i < |raw| => Utils.NormalizeIndoNumberDigits(raw[i]))
  }

  /** OWNER_JIDS_NORMALIZED: each raw owner JID through the JID normaliser. */
  function NormalizeJids(raw: seq<string>): (r: seq<string>)
    ensures |r| == |raw|
    ensures forall i :: 0 <= i < |r| ==> r[i] == Utils.NormalizeJidForCompare(raw[i])
  {
    seq(|raw|, i requires 0 <= i < |raw| => Utils.NormalizeJidForCompare(raw[i]))
  }

  /** The pre-normalised owner lists are already normal: normalising them again changes nothing. */
  lemma OwnerListsNormal(numbers: seq<string>, jids: seq<string>)
    ensures NormalizeNumbers(NormalizeNumbers(numbers)) == NormalizeNumbers(numbers)
    ensures NormalizeJids(NormalizeJids(jids)) == NormalizeJids(jids)
  {
    forall i | 0 <= i < |numbers| {
      Utils.IndoNumberIdempotent(numbers[i]);
    }
    forall i | 0 <= i < |jids| {
      Utils.NormalizeJidIdempotent(jids[i]);
    }
  }

  // ---------------------------------------------------------------- all settings

  datatype Settings = Settings(
    privateChatOnly: bool,
    acceptBayarAlias: bool,
    catalogTriggers: seq<string>,
    qrisTriggers: seq<string>,
    thanksTriggers: seq<string>,
    thanksReply: string,
    qrisCatalogSavedPath: string,
    ownerNumbersRaw: seq<string>,
    ownerJidsRaw: seq<string>,
    ownerNumbersNormalized: seq<string>,
    ownerJidsNormalized: seq<string>,
    globalQrisMediaGapMs: int,
    qrisImageCaption: string,
    rateEnabled: bool,
    rateMinMs: int,
    rateMaxMs: int,
    menuCooldownMs: int,
    qrisCooldownMs: int,
    productCooldownMs: int,
    thanksCooldownMs: int,
    reconnectEnabled: bool,
    reconnectBaseDelayMs: int,
    reconnectMaxDelayMs: int,
    productKeys: seq<string>)

  /** The numeric settings, each parsed; a `NaN` (unparsable) value is `None`. */
  datatype Numbers = Numbers(
    gap: Option<int>, rateMin: Option<int>, rateMax: Option<int>,
    menu: Option<int>, qris: Option<int>, product: Option<int>, thanks: Option<int>,
    baseDelay: Option<int>, maxDelay: Option<int>)
  {
    predicate AllParsed() {
      gap.Some? && rateMin.Some? && rateMax.Some? && menu.Some? && qris.Some? && product.Some?
      && thanks.Some? && baseDelay.Some? && maxDelay.Some?
    }
  }

  function ReadNumbers(env: Env): Numbers {
    Numbers(
      IntSetting(env, "GLOBAL_QRIS_MEDIA_GAP_MS", C.DefaultGlobalQrisMediaGapMs),
      IntSetting(env, "RATE_MIN_MS", C.DefaultRateMinMs),
      IntSetting(env, "RATE_MAX_MS", C.DefaultRateMaxMs),
      HoursSettingMs(env, "MENU_COOLDOWN_HOURS", C.DefaultMenuCooldownHours),
      HoursSettingMs(env, "QRIS_COOLDOWN_HOURS", C.DefaultQrisCooldownHours),
      HoursSettingMs(env, "PRODUCT_COOLDOWN_HOURS", C.DefaultProductCooldownHours),
      HoursSettingMs(env, "THANKS_COOLDOWN_HOURS", C.DefaultThanksCooldownHours),
      IntSetting(env, "RECONNECT_BASE_DELAY_MS", C.DefaultReconnectBaseDelayMs),
      IntSetting(env, "RECONNECT_MAX_DELAY_MS", C.DefaultReconnectMaxDelayMs))
  }

  /** The settings src/config.js exports, or `None` when a numeric setting reads as `NaN`. */
  function LoadSettings(env: Env): (s: Option<Settings>)
    ensures s.Some? <==> ReadNumbers(env).AllParsed()
    ensures s.Some? ==> s.value.rateEnabled == RateEnabled(env)
    ensures s.Some? ==> s.value.privateChatOnly == Flag(env, "PRIVATE_CHAT_ONLY", C.DefaultPrivateChatOnly)
    ensures s.Some? ==> var n := ReadNumbers(env);
      && s.value.globalQrisMediaGapMs == n.gap.value && s.value.rateMinMs == n.rateMin.value
      && s.value.rateMaxMs == n.rateMax.value && s.value.menuCooldownMs == n.menu.value
      && s.value.qrisCooldownMs == n.qris.value && s.value.productCooldownMs == n.product.value
      && s.value.thanksCooldownMs == n.thanks.value && s.value.reconnectBaseDelayMs == n.baseDelay.value
      && s.value.reconnectMaxDelayMs == n.maxDelay.value
    ensures s.Some? ==> s.value.acceptBayarAlias == Flag(env, "ACCEPT_BAYAR_ALIAS", C.DefaultAcceptBayarAlias)
    ensures s.Some? ==> s.value.reconnectEnabled == Flag(env, "RECONNECT_ENABLED", C.DefaultReconnectEnabled)
    ensures s.Some? ==> s.value.catalogTriggers == TriggerList(EnvOr(env, "CATALOG_TRIGGERS", C.DefaultCatalogTriggers))
    ensures s.Some? ==> s.value.qrisTriggers == WithBayarAlias(
      TriggerList(EnvOr(env, "QRIS_TRIGGERS", C.DefaultQrisTriggers)), s.value.acceptBayarAlias)
    ensures s.Some? ==> s.value.thanksTriggers == TriggerList(EnvOr(env, "THANKS_TRIGGERS", C.DefaultThanksTriggers))
    ensures s.Some? ==> s.value.ownerNumbersRaw == RawList(EnvOr(env, "OWNER_NUMBERS", ""))
    ensures s.Some? ==> s.value.ownerJidsRaw == RawList(EnvOr(env, "OWNER_JIDS", ""))
    ensures s.Some? ==> s.value.ownerNumbersNormalized == NormalizeNumbers(s.value.ownerNumbersRaw)
    ensures s.Some? ==> s.value.ownerJidsNormalized == NormalizeJids(s.value.ownerJidsRaw)
    ensures s.Some? ==> s.value.productKeys == RawList(EnvOr(env, "PRODUCT_KEYS", ""))
    ensures s.Some? ==> s.value.thanksReply == Trim(EnvOr(env, "THANKS_REPLY", C.DefaultThanksReply))
    ensures s.Some? ==> s.value.qrisImageCaption == Trim(EnvOr(env, "QRIS_IMAGE_CAPTION", C.DefaultQrisImageCaption))
    ensures s.Some? ==> s.value.qrisCatalogSavedPath == EnvOr(env, "QRIS_CATALOG_SAVED_PATH", C.DefaultQrisCatalogSavedPath)
  {
    var n := ReadNumbers(env);
    if !n.AllParsed() then None else Some(Assemble(env, n))
  }

  function Assemble(env: Env, n: Numbers): (s: Settings)
    requires n.AllParsed()
    ensures s.rateEnabled == RateEnabled(env)
    ensures s.privateChatOnly == Flag(env, "PRIVATE_CHAT_ONLY", C.DefaultPrivateChatOnly)
    ensures && s.globalQrisMediaGapMs == n.gap.value && s.rateMinMs == n.rateMin.value
      && s.rateMaxMs == n.rateMax.value && s.menuCooldownMs == n.menu.value
      && s.qrisCooldownMs == n.qris.value && s.productCooldownMs == n.product.value
      && s.thanksCooldownMs == n.thanks.value && s.reconnectBaseDelayMs == n.baseDelay.value
      && s.reconnectMaxDelayMs == n.maxDelay.value
    ensures s.acceptBayarAlias == Flag(env, "ACCEPT_BAYAR_ALIAS", C.DefaultAcceptBayarAlias)
    ensures s.reconnectEnabled == Flag(env, "RECONNECT_ENABLED", C.DefaultReconnectEnabled)
    ensures s.catalogTriggers == TriggerList(EnvOr(env, "CATALOG_TRIGGERS", C.DefaultCatalogTriggers))
    ensures s.qrisTriggers == WithBayarAlias(
      TriggerList(EnvOr(env, "QRIS_TRIGGERS", C.DefaultQrisTriggers)), s.acceptBayarAlias)
    ensures s.thanksTriggers == TriggerList(EnvOr(env, "THANKS_TRIGGERS", C.DefaultThanksTriggers))
    ensures s.ownerNumbersRaw == RawList(EnvOr(env, "OWNER_NUMBERS", ""))
    ensures s.ownerJidsRaw == RawList(EnvOr(env, "OWNER_JIDS", ""))
    ensures s.ownerNumbersNormalized == NormalizeNumbers(s.ownerNumbersRaw)
    ensures s.ownerJidsNormalized == NormalizeJids(s.ownerJidsRaw)
    ensures s.productKeys == RawList(EnvOr(env, "PRODUCT_KEYS", ""))
    ensures s.thanksReply == Trim(EnvOr(env, "THANKS_REPLY", C.DefaultThanksReply))
    ensures s.qrisImageCaption == Trim(EnvOr(env, "QRIS_IMAGE_CAPTION", C.DefaultQrisImageCaption))
    ensures s.qrisCatalogSavedPath == EnvOr(env, "QRIS_CATALOG_SAVED_PATH", C.DefaultQrisCatalogSavedPath)
  {
    var acceptBayar := Flag(env, "ACCEPT_BAYAR_ALIAS", C.DefaultAcceptBayarAlias);
    var numbersRaw := RawList(EnvOr(env, "OWNER_NUMBERS", ""));
    var jidsRaw := RawList(EnvOr(env, "OWNER_JIDS", ""));
    Settings(
      Flag(env, "PRIVATE_CHAT_ONLY", C.DefaultPrivateChatOnly), acceptBayar,
      TriggerList(EnvOr(env, "CATALOG_TRIGGERS", C.DefaultCatalogTriggers)),
      WithBayarAlias(TriggerList(EnvOr(env, "QRIS_TRIGGERS", C.DefaultQrisTriggers)), acceptBayar),
      TriggerList(EnvOr(env, "THANKS_TRIGGERS", C.DefaultThanksTriggers)),
      Trim(EnvOr(env, "THANKS_REPLY", C.DefaultThanksReply)),
      EnvOr(env, "QRIS_CATALOG_SAVED_PATH", C.DefaultQrisCatalogSavedPath),
      numbersRaw, jidsRaw, NormalizeNumbers(numbersRaw), NormalizeJids(jidsRaw),
      n.gap.value,
      Trim(EnvOr(env, "QRIS_IMAGE_CAPTION", C.DefaultQrisImageCaption)),
      RateEnabled(env), n.rateMin.value, n.rateMax.value,
      n.menu.value, n.qris.value, n.product.value, n.thanks.value,
      Flag(env, "RECONNECT_ENABLED", C.DefaultReconnectEnabled),
      n.baseDelay.value, n.maxDelay.value,
      RawList(EnvOr(env, "PRODUCT_KEYS", "")))
  }

  /**
   * What the exported record promises: every trigger is non-empty, trimmed and lower-case, `bayar`
   * is a QRIS trigger when the alias is accepted, owner and product entries are trimmed and
   * non-empty, and the pre-normalised owner lists are digits and normal JIDs, already fixed points.
   */
  lemma SettingsClean(env: Env)
    requires LoadSettings(env).Some?
    ensures var s := LoadSettings(env).value;
      && (forall i :: 0 <= i < |s.catalogTriggers| ==> s.catalogTriggers[i] != "" && IsTrimmed(s.catalogTriggers[i]) && IsLower(s.catalogTriggers[i]))
      && (forall i :: 0 <= i < |s.thanksTriggers| ==> s.thanksTriggers[i] != "" && IsTrimmed(s.thanksTriggers[i]) && IsLower(s.thanksTriggers[i]))
      && (s.acceptBayarAlias ==> "bayar" in s.qrisTriggers)
      && (forall i :: 0 <= i < |s.productKeys| ==> s.productKeys[i] != "" && IsTrimmed(s.productKeys[i]))
      && (forall i :: 0 <= i < |s.ownerNumbersNormalized| ==> IsDigits(s.ownerNumbersNormalized[i]))
      && NormalizeNumbers(s.ownerNumbersNormalized) == s.ownerNumbersNormalized
      && NormalizeJids(s.ownerJidsNormalized) == s.ownerJidsNormalized
  {
    var s := LoadSettings(env).value;
    OwnerListsNormal(s.ownerNumbersRaw, s.ownerJidsRaw);
  }

  /** With nothing set, every numeric setting takes its documented default. */
  lemma DefaultNumbers(env: Env)
    requires env.Keys == {}
    ensures ReadNumbers(env) == Numbers(Some(8000), Some(2500), Some(7000),
      Some(86400000), Some(86400000), Some(86400000), Some(86400000), Some(2000), Some(30000))
  {
    var n := ReadNumbers(env);
    assert n.gap == Some(8000) && n.rateMin == Some(2500) && n.rateMax == Some(7000) by {
      UnsetInt(env, "GLOBAL_QRIS_MEDIA_GAP_MS", C.DefaultGlobalQrisMediaGapMs);
      UnsetInt(env, "RATE_MIN_MS", C.DefaultRateMinMs);
      UnsetInt(env, "RATE_MAX_MS", C.DefaultRateMaxMs);
    }
    assert n.menu == Some(86400000) && n.qris == Some(86400000) by {
      UnsetInt(env, "MENU_COOLDOWN_HOURS", C.DefaultMenuCooldownHours);
      UnsetInt(env, "QRIS_COOLDOWN_HOURS", C.DefaultQrisCooldownHours);
    }
    assert n.product == Some(86400000) && n.thanks == Some(86400000) by {
      UnsetInt(env, "PRODUCT_COOLDOWN_HOURS", C.DefaultProductCooldownHours);
      UnsetInt(env, "THANKS_COOLDOWN_HOURS", C.DefaultThanksCooldownHours);
    }
    assert n.baseDelay == Some(2000) && n.maxDelay == Some(30000) by {
      UnsetInt(env, "RECONNECT_BASE_DELAY_MS", C.DefaultReconnectBaseDelayMs);
      UnsetInt(env, "RECONNECT_MAX_DELAY_MS", C.DefaultReconnectMaxDelayMs);
    }
  }

  /** An unset integer setting reads as its default. */
  lemma UnsetInt(env: Env, name: string, default: nat)
    requires name !in env
    ensures IntSetting(env, name, default) == Some(default)
  {
    ParseIntDecimal(default);
  }
}
