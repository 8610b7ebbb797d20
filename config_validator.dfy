/** Required-setting lookup (`ConfigValidator.GetSetting`) and the access-token guard that
    every Azure DevOps service runs before it opens a connection. */
module ConfigValidator {
  import opened Wrappers
  import opened Text

  /** The exceptions the services throw; each carries its message. */
  datatype Error = InvalidOperation(message: string)

  /** `IConfiguration` seen through its indexer: a key either has a value or reads as null. */
  type Configuration = map<string, string>

  /** `configuration[key]`. */
  function Lookup(config: Configuration, key: string): (v: Option<string>)
    ensures v.Some? <==> key in config
    ensures v.Some? ==> v.value == config[key]
  {
    if key in config then Some(config[key]) else None
  }

  /** `GetSetting`: the value under `key`, or `InvalidOperationException(message)` when that
      value is null, empty or white space only. */
  function GetSetting(config: Configuration, key: string, message: string): (r: Result<string, Error>)
    ensures r.Success? <==> key in config && !IsWhiteSpaceOnly(config[key])
    ensures r.Success? ==> r.value == config[key]
    ensures r.Failure? ==> r.error == InvalidOperation(message)
  {
    var value := Lookup(config, key);
    if IsNullOrWhiteSpace(value) then Failure(InvalidOperation(message)) else Success(value.value)
  }

  /** Whenever `GetSetting` returns, what it returns holds at least one character that is
      not white space. */
  lemma GetSettingNonBlank(config: Configuration, key: string, message: string)
    requires GetSetting(config, key, message).Success?
    ensures var v := GetSetting(config, key, message).value;
      exists i :: 0 <= i < |v| && !IsWhiteSpace(v[i])
  {
  }

  /** `GetSetting` reads `key` and nothing else: two configurations that agree on `key`
      give the same outcome. */
  lemma GetSettingReadsOnlyKey(c1: Configuration, c2: Configuration, key: string, message: string)
    requires Lookup(c1, key) == Lookup(c2, key)
    ensures GetSetting(c1, key, message) == GetSetting(c2, key, message)
  {
  }

  const PatKey: string := "Ado:Pat"
  const PatMissingMessage: string :=
    "Azure DevOps PAT is not configured. Set 'Ado:Pat' in configuration."

  /** The personal-access-token guard at the head of every service method: the token
      under `Ado:Pat`, or `InvalidOperationException` with the fixed message when it is
      null or blank. */
  function RequirePat(config: Configuration): (r: Result<string, Error>)
    ensures r.Failure? <==> IsNullOrWhiteSpace(Lookup(config, PatKey))
    ensures r.Failure? ==> r.error == InvalidOperation(PatMissingMessage)
    ensures r.Success? ==> PatKey in config && r.value == config[PatKey]
  {
    GetSetting(config, PatKey, PatMissingMessage)
  }

  /** Missing, empty and white-space tokens are all refused; a real token is handed back. */
  lemma RequirePatCases(token: string)
    ensures RequirePat(map[]) == Failure(InvalidOperation(PatMissingMessage))
    ensures RequirePat(map[PatKey := ""]) == Failure(InvalidOperation(PatMissingMessage))
    ensures RequirePat(map[PatKey := " \t"]) == Failure(InvalidOperation(PatMissingMessage))
    ensures token != [] && !IsWhiteSpace(token[0]) ==> RequirePat(map[PatKey := token]) == Success(token)
  {
    assert !IsWhiteSpaceOnly(token) <== token != [] && !IsWhiteSpace(token[0]);
  }
}
