/** The package settings of env.go: the names of the environment variables
    the package reads, the deployment environment chosen at start-up from
    `MONO_ENV`, and whether TLS is on. */
module Env {
  import opened Common

  const EnvMonoEnv: string := "MONO_ENV"
  const EnvMonoRps: string := "MONO_RPS"
  const EnvMonoRpsClients: string := "MONO_RPS_CLIENTS"

  /** `Environment`; `EnvUnspecified` is the zero value. */
  datatype Environment = EnvUnspecified | EnvLocal | EnvDev | EnvProd

  const EnableTLSUnspecified: int := 0
  const EnableTLSTrue: int := 1
  const EnableTLSFalse: int := 2

  /** The message `init` panics with. */
  function UnknownEnvMessage(value: string): string
  {
    "unknown environment variable MONO_ENV: " + value
  }

  /** The environment the switch of `init` selects for the value of
      `MONO_ENV` (empty when unset) and the answer of `isDocker`, which the
      switch consults only for the empty value; `None` where it panics. */
  function Resolve(value: string, docker: bool): (r: Option<Environment>)
    ensures r.Some? ==> r.value != EnvUnspecified
    ensures r.None? ==> value != []
    ensures ToLower(value) == "" ==> r == Some(if docker then EnvProd else EnvLocal)
    ensures ToLower(value) == "local" ==> r == Some(EnvLocal)
    ensures ToLower(value) == "dev" ==> r == Some(EnvDev)
    ensures ToLower(value) == "prod" ==> r == Some(EnvProd)
    ensures r.None? <==> ToLower(value) !in {"", "local", "dev", "prod"}
  {
    var v := ToLower(value);
    if v == "" then Some(if docker then EnvProd else EnvLocal)
    else if v == "local" then Some(EnvLocal)
    else if v == "dev" then Some(EnvDev)
    else if v == "prod" then Some(EnvProd)
    else None
  }

  lemma LowerCharIdempotent(c: char)
    ensures LowerChar(LowerChar(c)) == LowerChar(c)
  {
  }

  lemma ToLowerIdempotent(s: string)
    ensures ToLower(ToLower(s)) == ToLower(s)
  {
    forall i | 0 <= i < |s|
      ensures ToLower(ToLower(s))[i] == ToLower(s)[i]
    {
      LowerCharIdempotent(s[i]);
    }
  }

  /** `MONO_ENV` is matched without regard to case. */
  lemma ResolveIgnoresCase(value: string, docker: bool)
    ensures Resolve(value, docker) == Resolve(ToLower(value), docker)
  {
    ToLowerIdempotent(value);
  }

  /** A name in capitals selects the same environment. */
  lemma ResolveCapitals(docker: bool)
    ensures Resolve("PROD", docker) == Some(EnvProd)
  {
    assert ToLower("PROD") == "prod";
  }

  /** `enableTLS` for a given setting and environment: an explicit setting
      wins, and an unspecified one means TLS everywhere but locally. */
  function TlsEnabled(setting: int, env: Environment): (r: bool)
    ensures setting != EnableTLSUnspecified ==> (r <==> setting == EnableTLSTrue)
    ensures setting == EnableTLSFalse ==> !r
    ensures setting == EnableTLSUnspecified ==> (r <==> env != EnvLocal)
  {
    if setting != EnableTLSUnspecified then setting == EnableTLSTrue else env != EnvLocal
  }

  /** The package variables of env.go that the modelled code reads and writes. */
  class Package {
    var currentEnv: Environment
    var enableTLS: int

    /** The variables before `init` runs. */
    constructor ()
      ensures currentEnv == EnvUnspecified && enableTLS == EnableTLSUnspecified
    {
      currentEnv := EnvUnspecified;
      enableTLS := EnableTLSUnspecified;
    }

    predicate IsLocal() reads this { currentEnv == EnvLocal }
    predicate IsDev() reads this { currentEnv == EnvDev }
    predicate IsProd() reads this { currentEnv == EnvProd }

    /** `enableTLS`. */
    predicate EnableTls()
      reads this
    {
      TlsEnabled(enableTLS, currentEnv)
    }

    /** `init`: when no environment is set yet, selects one from the value of
        `MONO_ENV` (`monoEnv`, empty when unset) and the answer of `isDocker`;
        a value it does not know is a panic, returned here as its message. */
    method Init(monoEnv: string, docker: bool) returns (panic: Option<string>)
      modifies this
      ensures enableTLS == old(enableTLS)
      ensures old(currentEnv) != EnvUnspecified ==> currentEnv == old(currentEnv) && panic == None
      ensures old(currentEnv) == EnvUnspecified && Resolve(monoEnv, docker).Some? ==>
                currentEnv == Resolve(monoEnv, docker).value && panic == None
      ensures old(currentEnv) == EnvUnspecified && Resolve(monoEnv, docker).None? ==>
                currentEnv == EnvUnspecified && panic == Some(UnknownEnvMessage(monoEnv))
      ensures panic.None? ==> (IsLocal() || IsDev() || IsProd())
      ensures !(IsLocal() && IsDev()) && !(IsLocal() && IsProd()) && !(IsDev() && IsProd())
    {
      panic := None;
      if currentEnv == EnvUnspecified {
        match Resolve(monoEnv, docker)
        case Some(e) => currentEnv := e;
        case None => panic := Some(UnknownEnvMessage(monoEnv));
      }
    }
  }
}
