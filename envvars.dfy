/**
 * The environment helpers of env.go over an abstract environment: a map
 * from names to values, where an unset name reads as "" just as `os.Getenv`
 * returns it.
 */
module EnvVars {
  import opened Outcomes
  import opened Text

  type Environment = map<string, string>

  datatype EnvError = EmptyName | EmptyValue(name: string)

  const MinInt64: int := -0x8000_0000_0000_0000
  const MaxInt64: int := 0x7FFF_FFFF_FFFF_FFFF

  function Getenv(env: Environment, name: string): string {
    if name in env then env[name] else ""
  }

  /** The trimmed value of a variable; an empty name or a blank value is an error. */
  function SanitizeEnv(env: Environment, name: string): (r: Result<string, EnvError>)
    ensures name == "" ==> r == Err(EmptyName)
    ensures r.Ok? ==> r.value == TrimSpace(Getenv(env, name)) && r.value != ""
  {
    if |name| == 0 then Err(EmptyName)
    else
      var v := TrimSpace(Getenv(env, name));
      if |v| == 0 then Err(EmptyValue(name)) else Ok(v)
  }

  /**
   * A named variable is an error exactly when it is unset or all white
   * space; otherwise the value has no white space at either end and sits
   * inside the raw value.
   */
  lemma SanitizeFacts(env: Environment, name: string)
    requires name != ""
    ensures SanitizeEnv(env, name).Err? <==> forall i :: 0 <= i < |Getenv(env, name)| ==> IsSpace(Getenv(env, name)[i])
    ensures SanitizeEnv(env, name).Err? ==> SanitizeEnv(env, name) == Err(EmptyValue(name))
    ensures var r := SanitizeEnv(env, name); var raw := Getenv(env, name);
      var k := |raw| - |TrimLeft(raw)|;
      r.Ok? ==> (!IsSpace(r.value[0]) && !IsSpace(r.value[|r.value| - 1])
        && 0 <= k && k + |r.value| <= |raw| && raw[k..k + |r.value|] == r.value)
  {
    var raw := Getenv(env, name);
    TrimSpaceEmpty(raw);
    TrimSpaceShape(raw);
  }

  /** The trimmed value, or the default when there is none. */
  function GetEnv(env: Environment, name: string, default: string): (r: string)
    ensures SanitizeEnv(env, name).Err? ==> r == default
    ensures SanitizeEnv(env, name).Ok? ==> r == TrimSpace(Getenv(env, name)) && r != ""
  {
    match SanitizeEnv(env, name)
    case Err(_) => default
    case Ok(v) => v
  }

  /** `strconv.Atoi` on a 64-bit platform: an optional sign, at least one decimal digit, and the result within range. */
  function Atoi(s: string): (r: Option<int>)
    ensures r.Some? ==> MinInt64 <= r.value <= MaxInt64
  {
    var neg := |s| > 0 && s[0] == '-';
    var digits := if |s| > 0 && (s[0] == '+' || s[0] == '-') then s[1..] else s;
    if |digits| == 0 || !AllDigits(digits) then None
    else
      var n: int := ParseDigits(digits);
      var v: int := if neg then -n else n;
      if v < MinInt64 || v > MaxInt64 then None else Some(v)
  }

  /** Every 64-bit integer printed in decimal reads back. */
  lemma AtoiDecimal(v: int)
    requires MinInt64 <= v <= MaxInt64
    ensures v >= 0 ==> Atoi(Decimal(v)) == Some(v)
    ensures v < 0 ==> Atoi("-" + Decimal(-v)) == Some(v)
  {
    if v >= 0 {
      ParseDecimal(v);
      assert Decimal(v)[0] != '-' && Decimal(v)[0] != '+' by {
        assert IsDigit(Decimal(v)[0]);
      }
    } else {
      ParseDecimal(-v);
      assert ("-" + Decimal(-v))[1..] == Decimal(-v);
    }
  }

  /** A value that is blank, not an integer, or outside 64 bits gives the default. */
  function GetEnvAsInt(env: Environment, name: string, default: int): (r: int)
    ensures SanitizeEnv(env, name).Err? ==> r == default
    ensures SanitizeEnv(env, name).Ok? && Atoi(SanitizeEnv(env, name).value).None? ==> r == default
    ensures SanitizeEnv(env, name).Ok? && Atoi(SanitizeEnv(env, name).value).Some? ==>
      r == Atoi(TrimSpace(Getenv(env, name))).value && MinInt64 <= r <= MaxInt64
  {
    match SanitizeEnv(env, name)
    case Err(_) => default
    case Ok(v) =>
      match Atoi(v)
      case None => default
      case Some(n) => n
  }

  /** `strconv.ParseBool`: the six spellings of each truth value. */
  function ParseBool(s: string): Option<bool> {
    if s in {"1", "t", "T", "TRUE", "true", "True"} then Some(true)
    else if s in {"0", "f", "F", "FALSE", "false", "False"} then Some(false)
    else None
  }

  /** `strconv.FormatBool` reads back, and so do the one-letter and digit forms; "yes" does not. */
  lemma ParseBoolSpellings(b: bool)
    ensures ParseBool(if b then "true" else "false") == Some(b)
    ensures ParseBool(if b then "1" else "0") == Some(b)
    ensures ParseBool(if b then "T" else "F") == Some(b)
    ensures ParseBool("yes") == None && ParseBool("") == None && ParseBool("tRUE") == None
  {
  }

  /** An unparseable value gives the default. */
  function GetEnvAsBool(env: Environment, name: string, default: bool): (r: bool)
    ensures SanitizeEnv(env, name).Err? ==> r == default
    ensures SanitizeEnv(env, name).Ok? ==>
      r == (if ParseBool(TrimSpace(Getenv(env, name))).Some? then ParseBool(TrimSpace(Getenv(env, name))).value else default)
  {
    match SanitizeEnv(env, name)
    case Err(_) => default
    case Ok(v) =>
      match ParseBool(v)
      case None => default
      case Some(b) => b
  }

  /** The untrimmed value split at every comma; only an exactly empty value gives the default. */
  function GetEnvSlice(env: Environment, key: string, default: seq<string>): seq<string> {
    var v := Getenv(env, key);
    if v == "" then default else SplitOn(v, ",")
  }

  /** A non-empty value gives one part more than it has commas, no part holds a comma, and the parts joined with commas give the value back. */
  lemma GetEnvSliceParts(env: Environment, key: string, default: seq<string>)
    ensures Getenv(env, key) == "" ==> GetEnvSlice(env, key, default) == default
    ensures var v := Getenv(env, key); var parts := GetEnvSlice(env, key, default);
      v != "" ==> (|parts| == multiset(v)[','] + 1 && Join(parts, ",") == v
        && forall k :: 0 <= k < |parts| ==> !Contains(parts[k], ","))
  {
    var v := Getenv(env, key);
    if v != "" {
      SplitCount(v, ',');
      JoinSplit(v, ",");
      SplitPartsFree(v, ",");
    }
  }
}
