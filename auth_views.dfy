/** The token endpoints' response shaping: a token lifetime written as whole
    seconds plus a human label, the renaming of SimpleJWT's `access` and
    `refresh` entries, the `refresh_token` request alias and the default
    `token_type`. A dictionary is a `map` from key to scalar value. */
module AuthViews {
  import opened Wrappers
  import opened Json
  import opened Text

  type Data = map<string, Value>

  // ---------------------------------------------------------------------
  // _duration_breakdown
  // ---------------------------------------------------------------------

  /** The units tried, largest first, with their length in seconds. */
  const Units: seq<(string, nat)> := [("day", 86400), ("hour", 3600), ("minute", 60), ("second", 1)]

  /** A unit is taken when it divides the total exactly and the total is at
      least one unit. The unit is positive, so Python's floored `%` and
      Dafny's Euclidean `%` agree here. */
  predicate Fits(total: int, unitSeconds: nat) {
    unitSeconds > 0 && total % unitSeconds == 0 && total >= unitSeconds
  }

  /** The first unit at or after position `from` that fits. */
  function FirstFit(total: int, from: nat): (r: Option<nat>)
    requires from <= |Units|
    ensures r.Some? ==> from <= r.value < |Units| && Fits(total, Units[r.value].1)
    ensures r.Some? ==> forall k :: from <= k < r.value ==> !Fits(total, Units[k].1)
    ensures r.None? ==> forall k :: from <= k < |Units| ==> !Fits(total, Units[k].1)
    decreases |Units| - from
  {
    if from == |Units| then None
    else if Fits(total, Units[from].1) then Some(from)
    else FirstFit(total, from + 1)
  }

  /** `f"{amount} {unit_label}{plural}"` with `"s"` unless the amount is one. */
  function UnitLabel(amount: nat, unitLabel: string): string {
    NatToString(amount) + " " + unitLabel + (if amount != 1 then "s" else "")
  }

  /** The pair `_duration_breakdown` returns. */
  datatype Breakdown = Breakdown(seconds: int, display: string)

  /** `_duration_breakdown` on the lifetime already truncated to whole
      seconds: the total comes back unchanged; a positive total is written
      in the largest unit (day, hour, minute, second) that divides it
      exactly, as `amount * unit == total`; anything below one second falls
      back to `"<total> seconds"`. */
  function DurationBreakdown(total: int): (r: Breakdown)
    ensures r.seconds == total
    ensures total < 1 ==> r.display == IntToString(total) + " seconds"
    ensures total >= 1 ==>
      exists k :: 0 <= k < |Units| && Fits(total, Units[k].1)
        && (forall j :: 0 <= j < k ==> !Fits(total, Units[j].1))
        && (total / Units[k].1) * Units[k].1 == total
        && r.display == UnitLabel(total / Units[k].1, Units[k].0)
  {
    var fit := FirstFit(total, 0);
    assert total >= 1 ==> Fits(total, Units[3].1);
    match fit
    case Some(k) =>
      Breakdown(total, UnitLabel(total / Units[k].1, Units[k].0))
    case None =>
      Breakdown(total, IntToString(total) + " seconds")
  }

  /** The label ends in `s` exactly when the amount is not one (none of the
      unit names ends in `s` itself). */
  lemma PluralSuffix(amount: nat, k: nat)
    requires k < |Units|
    ensures var s := UnitLabel(amount, Units[k].0); s[|s| - 1] == 's' <==> amount != 1
  {
    var s := UnitLabel(amount, Units[k].0);
    if amount == 1 {
      assert s == NatToString(amount) + " " + Units[k].0;
    }
  }

  /** The fallback is reached only below one second, because "second"
      divides every positive total. */
  lemma FallbackOnlyBelowOne(total: int)
    ensures FirstFit(total, 0).None? <==> total < 1
  {
    if total >= 1 {
      assert Fits(total, Units[3].1);
    }
  }

  lemma DurationBreakdownWholeUnits()
    ensures DurationBreakdown(86400) == Breakdown(86400, "1 day")
    ensures DurationBreakdown(604800) == Breakdown(604800, "7 days")
  {
    assert FirstFit(86400, 0) == Some(0);
    assert FirstFit(604800, 0) == Some(0);
  }

  lemma DurationBreakdownMinutes()
    ensures DurationBreakdown(300) == Breakdown(300, "5 minutes")
    ensures DurationBreakdown(5400) == Breakdown(5400, "90 minutes")
  {
    assert FirstFit(300, 0) == Some(2);
    assert FirstFit(5400, 0) == Some(2);
    assert NatToString(90) == "90";
  }

  lemma DurationBreakdownSeconds()
    ensures DurationBreakdown(90) == Breakdown(90, "90 seconds")
    ensures DurationBreakdown(1) == Breakdown(1, "1 second")
  {
    assert FirstFit(90, 0) == Some(3);
    assert FirstFit(1, 0) == Some(3);
    assert NatToString(90) == "90";
  }

  /** Zero and negative lifetimes take the fallback label. */
  lemma DurationBreakdownFallback()
    ensures DurationBreakdown(0) == Breakdown(0, "0 seconds")
    ensures DurationBreakdown(-5) == Breakdown(-5, "-5 seconds")
  {
    assert FirstFit(0, 0) == None;
    assert FirstFit(-5, 0) == None;
  }

  // ---------------------------------------------------------------------
  // TokenResponseFormatter._format_response
  // ---------------------------------------------------------------------

  /** The raw SimpleJWT keys that are renamed and never copied. */
  const RawKeys: set<string> := {"access", "refresh"}

  /** The three entries written for one token kind when its raw key is
      present: the token under its new name, its lifetime in seconds and
      the lifetime's label. */
  function TokenEntries(data: Data, raw: string, out: OutKeys, lifetime: int): Data {
    if raw in data then
      var b := DurationBreakdown(lifetime);
      map[out.token := data[raw], out.expiresIn := Int(b.seconds), out.display := Str(b.display)]
    else map[]
  }

  /** The three output names for one token kind. */
  datatype OutKeys = OutKeys(token: string, expiresIn: string, display: string)

  const AccessKeys := OutKeys("access_token", "access_token_expires_in", "access_token_expires_in_display")
  const RefreshKeys := OutKeys("refresh_token", "refresh_token_expires_in", "refresh_token_expires_in_display")

  /** Every entry except the raw token keys. */
  function Passthrough(data: Data): Data {
    map k | k in data && k !in RawKeys :: data[k]
  }

  /** The dictionary `_format_response` builds: the renamed token entries
      first, then every other entry copied over them. */
  function Formatted(data: Data, accessLifetime: int, refreshLifetime: int): Data {
    TokenEntries(data, "access", AccessKeys, accessLifetime)
      + TokenEntries(data, "refresh", RefreshKeys, refreshLifetime)
      + Passthrough(data)
  }

  /** `_format_response`: fills a fresh dictionary, the token entries and
      then every remaining entry of `data`, one key at a time. */
  method FormatResponse(data: Data, accessLifetime: int, refreshLifetime: int) returns (formatted: Data)
    ensures formatted == Formatted(data, accessLifetime, refreshLifetime)
  {
    formatted := map[];
    if "access" in data {
      var b := DurationBreakdown(accessLifetime);
      formatted := formatted[AccessKeys.token := data["access"]];
      formatted := formatted[AccessKeys.expiresIn := Int(b.seconds)];
      formatted := formatted[AccessKeys.display := Str(b.display)];
    }
    assert formatted == TokenEntries(data, "access", AccessKeys, accessLifetime);
    ghost var tokens := formatted;
    if "refresh" in data {
      var b := DurationBreakdown(refreshLifetime);
      formatted := formatted[RefreshKeys.token := data["refresh"]];
      formatted := formatted[RefreshKeys.expiresIn := Int(b.seconds)];
      formatted := formatted[RefreshKeys.display := Str(b.display)];
    }
    assert formatted == tokens + TokenEntries(data, "refresh", RefreshKeys, refreshLifetime);
    tokens := formatted;
    var rest := data.Keys;
    while rest != {}
      invariant rest <= data.Keys
      invariant formatted == tokens + CopiedOutside(data, rest)
      decreases rest
    {
      var key :| key in rest;
      CopiedStep(data, rest, key);
      if key !in RawKeys {
        UpdateOverride(tokens, CopiedOutside(data, rest), key, data[key]);
        formatted := formatted[key := data[key]];
      }
      rest := rest - {key};
    }
    assert CopiedOutside(data, {}) == Passthrough(data);
  }

  /** The entries of `data` already copied while the keys of `rest` are
      still to be visited. */
  function CopiedOutside(data: Data, rest: set<string>): Data {
    map k | k in data && k !in rest && k !in RawKeys :: data[k]
  }

  lemma UpdateOverride(a: Data, b: Data, key: string, v: Value)
    ensures (a + b)[key := v] == a + b[key := v]
  {
  }

  lemma CopiedStep(data: Data, rest: set<string>, key: string)
    requires key in rest && key in data
    ensures key !in RawKeys ==> CopiedOutside(data, rest - {key}) == CopiedOutside(data, rest)[key := data[key]]
    ensures key in RawKeys ==> CopiedOutside(data, rest - {key}) == CopiedOutside(data, rest)
  {
  }

  /** What the formatted dictionary holds, key by key: the raw token keys
      are gone; every other input entry is copied unchanged; a renamed token
      entry and its lifetime entries are present when the raw key was,
      unless an input entry of the same name overrides them; nothing else
      appears. */
  lemma FormattedMeaning(data: Data, accessLifetime: int, refreshLifetime: int)
    ensures var f := Formatted(data, accessLifetime, refreshLifetime);
      && "access" !in f && "refresh" !in f
      && (forall k :: k in data && k !in RawKeys ==> k in f && f[k] == data[k])
      && (forall k :: k in f ==> k in data - RawKeys || k in TokenKeys(data))
  {
  }

  /** The renamed tokens and their lifetimes, where no input entry of the
      same name overrides them. */
  lemma FormattedTokens(data: Data, accessLifetime: int, refreshLifetime: int)
    ensures var f := Formatted(data, accessLifetime, refreshLifetime);
      && ("access" in data && "access_token" !in data ==> "access_token" in f && f["access_token"] == data["access"])
      && ("refresh" in data && "refresh_token" !in data ==> "refresh_token" in f && f["refresh_token"] == data["refresh"])
      && ("access" in data && "access_token_expires_in" !in data ==>
            "access_token_expires_in" in f && f["access_token_expires_in"] == Int(accessLifetime))
      && ("refresh" in data && "refresh_token_expires_in" !in data ==>
            "refresh_token_expires_in" in f && f["refresh_token_expires_in"] == Int(refreshLifetime))
  {
  }

  /** The keys the token entries can add. */
  function TokenKeys(data: Data): set<string> {
    (if "access" in data then {AccessKeys.token, AccessKeys.expiresIn, AccessKeys.display} else {})
    + (if "refresh" in data then {RefreshKeys.token, RefreshKeys.expiresIn, RefreshKeys.display} else {})
  }

  /** The labels are the display form of the lifetimes. */
  lemma FormattedDisplay(data: Data, accessLifetime: int, refreshLifetime: int)
    requires "access" in data && "access_token_expires_in_display" !in data
    ensures var f := Formatted(data, accessLifetime, refreshLifetime);
      "access_token_expires_in_display" in f
      && f["access_token_expires_in_display"] == Str(DurationBreakdown(accessLifetime).display)
  {
  }

  /** Likewise for the refresh token's display entry. */
  lemma FormattedRefreshDisplay(data: Data, accessLifetime: int, refreshLifetime: int)
    requires "refresh" in data && "refresh_token_expires_in_display" !in data
    ensures var f := Formatted(data, accessLifetime, refreshLifetime);
      "refresh_token_expires_in_display" in f
      && f["refresh_token_expires_in_display"] == Str(DurationBreakdown(refreshLifetime).display)
  {
  }

  // ---------------------------------------------------------------------
  // The validate methods
  // ---------------------------------------------------------------------

  /** `data.setdefault("token_type", "Bearer")`. */
  function WithTokenType(data: Data): (r: Data)
    ensures "token_type" in r
    ensures r["token_type"] == (if "token_type" in data then data["token_type"] else Str("Bearer"))
    ensures forall k :: k in data ==> k in r && r[k] == data[k]
    ensures r.Keys == data.Keys + {"token_type"}
  {
    if "token_type" in data then data else data["token_type" := Str("Bearer")]
  }

  /** The request attributes after the `refresh_token` alias is handled. */
  function AliasApplied(attrs: Data): (r: Data)
    ensures "refresh_token" !in r
    ensures forall k :: k in attrs && k != "refresh_token" && k != "refresh" ==> k in r && r[k] == attrs[k]
    ensures forall k :: k in r ==> k in attrs || k == "refresh"
    ensures AliasFills(attrs) ==> "refresh" in r && r["refresh"] == attrs["refresh_token"]
    ensures !AliasFills(attrs) ==> ("refresh" in r <==> "refresh" in attrs)
    ensures !AliasFills(attrs) && "refresh" in attrs ==> r["refresh"] == attrs["refresh"]
  {
    var rest := attrs - {"refresh_token"};
    if AliasFills(attrs) then rest["refresh" := attrs["refresh_token"]] else rest
  }

  /** The alias is used when it is truthy and `refresh` is missing or falsy. */
  predicate AliasFills(attrs: Data) {
    && "refresh_token" in attrs && Truthy(attrs["refresh_token"])
    && !("refresh" in attrs && Truthy(attrs["refresh"]))
  }

  /** The first lines of `CustomTokenRefreshSerializer.validate`: pop the
      alias (absent counts as `None`), then copy it into `refresh` when it
      is truthy and `refresh` is not. */
  method ApplyRefreshAlias(attrs: Data) returns (r: Data)
    ensures r == AliasApplied(attrs)
  {
    var refreshToken := if "refresh_token" in attrs then attrs["refresh_token"] else Null;
    r := attrs - {"refresh_token"};
    var current := if "refresh" in r then r["refresh"] else Null;
    if Truthy(refreshToken) && !Truthy(current) {
      r := r["refresh" := refreshToken];
    }
  }

  /** A truthy `refresh` is never replaced by the alias, and applying the
      alias rule twice changes nothing more. */
  lemma AliasKeepsRefresh(attrs: Data)
    ensures "refresh" in attrs && Truthy(attrs["refresh"]) ==>
      "refresh" in AliasApplied(attrs) && AliasApplied(attrs)["refresh"] == attrs["refresh"]
    ensures AliasApplied(AliasApplied(attrs)) == AliasApplied(attrs)
  {
    var r := AliasApplied(attrs);
    assert !AliasFills(r);
    assert r - {"refresh_token"} == r;
  }

  /** `CustomTokenObtainPairSerializer.validate`, given what SimpleJWT's own
      `validate` returned: the default token type, then the formatting. */
  method ObtainPairValidate(data: Data, accessLifetime: int, refreshLifetime: int) returns (r: Data)
    ensures r == Formatted(WithTokenType(data), accessLifetime, refreshLifetime)
    ensures "token_type" in r && "access" !in r && "refresh" !in r
  {
    var typed := WithTokenType(data);
    r := FormatResponse(typed, accessLifetime, refreshLifetime);
    FormattedMeaning(typed, accessLifetime, refreshLifetime);
  }

  /** `CustomTokenRefreshSerializer.validate`; SimpleJWT's `validate` is the
      parameter `simpleJwtValidate`. */
  method RefreshValidate(attrs: Data, simpleJwtValidate: Data -> Data, accessLifetime: int, refreshLifetime: int)
    returns (r: Data)
    ensures r == Formatted(WithTokenType(simpleJwtValidate(AliasApplied(attrs))), accessLifetime, refreshLifetime)
    ensures "token_type" in r && "access" !in r && "refresh" !in r
  {
    var prepared := ApplyRefreshAlias(attrs);
    var data := simpleJwtValidate(prepared);
    var typed := WithTokenType(data);
    r := FormatResponse(typed, accessLifetime, refreshLifetime);
    FormattedMeaning(typed, accessLifetime, refreshLifetime);
  }

  /** The response always names a token type: the one SimpleJWT gave, else
      `"Bearer"`. */
  lemma TokenTypeReported(data: Data, accessLifetime: int, refreshLifetime: int)
    ensures var f := Formatted(WithTokenType(data), accessLifetime, refreshLifetime);
      "token_type" in f
      && f["token_type"] == (if "token_type" in data then data["token_type"] else Str("Bearer"))
  {
    FormattedMeaning(WithTokenType(data), accessLifetime, refreshLifetime);
  }
}
