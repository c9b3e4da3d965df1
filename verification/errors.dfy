/**
 * Error routing: `catchErrors` wraps a middleware and decides where a thrown
 * error goes; `errorMiddleware` decides what the client sees; `ConfigError`
 * marks errors caused by a project's configuration.
 */
module Errors {

  /** A thrown error: a `ConfigError`, or any other `Error` with its name. */
  datatype Error =
    | ConfigError(message: string)
    | OtherError(name: string, message: string)

  /** The `name` property of the error. */
  function Name(e: Error): string
  {
    match e
    case ConfigError(_) => "ConfigError"
    case OtherError(name, _) => name
  }

  /** `new ConfigError(message)`, with the message defaulting to the empty
      string. */
  function NewConfigError(message: string := ""): (e: Error)
    ensures e.ConfigError? && Name(e) == "ConfigError"
    ensures e.message == message
  {
    ConfigError(message)
  }

  /** What the response object of a request is. */
  datatype Target =
    | Socket         // an upgrade request: the "response" is a `net.Socket`
    | HttpResponse   // an ordinary request

  /** How the wrapped middleware's promise settled. */
  datatype Completion = Completed | Threw(err: Error)

  /** Which handler `catchErrors` invokes. */
  datatype Handling =
    | Handled                        // nothing more to do
    | ErrorMiddlewareCalled(err: Error)
    | NextCalled(err: Error)         // `next(err)`: Express's error chain

  /** The decision `catchErrors` makes once the middleware has settled. */
  function CatchErrors(c: Completion, target: Target): (h: Handling)
    ensures c.Completed? <==> h.Handled?
    ensures h.ErrorMiddlewareCalled? <==> c.Threw? && target.Socket?
    ensures h.NextCalled? <==> c.Threw? && target.HttpResponse?
    ensures !h.Handled? ==> h.err == c.err
  {
    match c
    case Completed => Handled
    case Threw(err) => if target.Socket? then ErrorMiddlewareCalled(err) else NextCalled(err)
  }

  const SetupMessage := "Uh oh! Something about this project has been setup incorrectly."
  const UnexpectedMessage := "Uh oh! Something unexpected happened."

  /** The observable steps `errorMiddleware` takes, in order. */
  datatype Effect =
    | LogStack(err: Error)            // `logger.error(err.stack)`
    | IgnoreSocketErrors              // `res.on('error', _ => {})`
    | Destroy(err: Error)             // `res.destroy(err)`
    | Respond(status: int, body: string)

  /** The steps `errorMiddleware` takes for `err` on `target`. */
  function ErrorMiddleware(err: Error, target: Target): (effects: seq<Effect>)
    ensures |effects| >= 2 && effects[0] == LogStack(err)
    ensures forall i :: 1 <= i < |effects| ==> !effects[i].LogStack?
    ensures target.Socket? ==>
      && effects[|effects| - 1] == Destroy(err)
      && (forall i :: 0 <= i < |effects| ==> !effects[i].Respond?)
    ensures target.HttpResponse? ==>
      && |effects| == 2
      && effects[1].Respond? && effects[1].status == 500
      && (effects[1].body == SetupMessage <==> err.ConfigError?)
      && (effects[1].body == UnexpectedMessage <==> !err.ConfigError?)
  {
    match target
    case Socket => [LogStack(err), IgnoreSocketErrors, Destroy(err)]
    case HttpResponse =>
      var body := if err.ConfigError? then SetupMessage else UnexpectedMessage;
      [LogStack(err), Respond(500, body)]
  }

  /** What a client is shown depends only on whether the error is a
      `ConfigError`: neither its message nor its name reaches the response. */
  lemma ResponseHidesDetails(e1: Error, e2: Error)
    requires e1.ConfigError? == e2.ConfigError?
    ensures ErrorMiddleware(e1, HttpResponse)[1..] == ErrorMiddleware(e2, HttpResponse)[1..]
  {
  }

  /** A socket whose middleware throws is destroyed with that very error,
      after the error is logged, and nothing is written to it. */
  lemma SocketThrowDestroys(err: Error)
    ensures CatchErrors(Threw(err), Socket) == ErrorMiddlewareCalled(err)
    ensures var effects := ErrorMiddleware(err, Socket);
      effects[0] == LogStack(err) && Destroy(err) in effects
      && forall e :: e in effects ==> !e.Respond?
  {
    var effects := ErrorMiddleware(err, Socket);
    assert effects[|effects| - 1] == Destroy(err);
  }
}
