/**
 * The terminal an environment runs its commands in: a working directory and
 * the process environment merged with the one a project asks for.
 */
module Terminals {
  import opened Wrappers

  /** A child process handle, as far as the terminal keeps one. */
  datatype Process = Process(pid: nat)

  /** A terminal right after construction. */
  datatype Terminal = Terminal(workdir: string, env: map<string, string>, process: Option<Process>)

  /** `new Terminal(workdir, env)`, with `process.env` passed in: the
      supplied variables override the process's own. */
  function NewTerminal(workdir: string, env: map<string, string>, processEnv: map<string, string>): (t: Terminal)
    ensures t.workdir == workdir && t.process == None
    ensures t.env.Keys == processEnv.Keys + env.Keys
    ensures forall k :: k in env ==> t.env[k] == env[k]
    ensures forall k :: k in processEnv && k !in env ==> t.env[k] == processEnv[k]
  {
    Terminal(workdir, processEnv + env, None)
  }
}
