/**
 * Environments: how a project is served. The factory picks the environment
 * class for a config's `kind`.
 */
module Environments {
  import opened Wrappers
  import opened Errors
  import opened Registry

  datatype EnvironmentClass = EnvStaticWeb | EnvNodeJsWeb

  /** The part of an environment config the factory reads; the rest is
      handed over untouched. */
  datatype EnvironmentConfig = EnvironmentConfig(kind: string, settings: map<string, string>)

  /** A constructed environment: its class and what it was constructed with. */
  datatype Environment = Environment(cls: EnvironmentClass, config: EnvironmentConfig, workdir: string)

  /** The `environments` table of the factory. */
  const EnvironmentTable: map<string, EnvironmentClass> :=
    map["static-web" := EnvStaticWeb, "nodejs-web" := EnvNodeJsWeb]

  /** The kind tag under which a class is registered. */
  function Tag(c: EnvironmentClass): string
  {
    match c
    case EnvStaticWeb => "static-web"
    case EnvNodeJsWeb => "nodejs-web"
  }

  /** `Environments.create(config, workdir)`. */
  function Create(config: EnvironmentConfig, workdir: string): (r: Result<Environment, Error>)
    ensures r.Success? ==> r.value.config == config && r.value.workdir == workdir
    ensures r.Success? ==> Tag(r.value.cls) == config.kind
    ensures r.Failure? ==> r.error == ConfigError(NotFoundMessage("Environment", config.kind))
  {
    match Lookup(EnvironmentTable, config.kind, "Environment")
    case Failure(e) => Failure(e)
    case Success(c) => Success(Environment(c, config, workdir))
  }

  /** Each class is built for its own tag, and exactly the two tags are
      known. */
  lemma CreateByTag(config: EnvironmentConfig, workdir: string)
    ensures forall c :: config.kind == Tag(c) ==> Create(config, workdir) == Success(Environment(c, config, workdir))
    ensures Create(config, workdir).Success? <==> config.kind == "static-web" || config.kind == "nodejs-web"
  {
    assert "static-web"[0] != "nodejs-web"[0];
    assert EnvironmentTable.Keys == {"static-web", "nodejs-web"};
  }
}
