/**
  The exceptions the bot raises or lets reach `main`: the five classes of
  exceptions.py and the Python built-ins its code can raise. Every constructor
  carries the argument the exception was raised with.
*/
module Exceptions {

  datatype Error =
    | Not200Error(message: string)        // the HTTP answer was not 200 OK
    | SendMessageError(message: string)   // the messenger refused the message
    | EmptyAnswerApiError(message: string) // the answer has no `homeworks` key
    | EnvError(message: string)           // a credential is missing
    | RequestError(message: string)       // the HTTP request itself failed
    | TypeError(message: string)
    | KeyError(message: string)
    | AttributeError(message: string)
    | JSONDecodeError(message: string)    // the body of a 200 answer is not JSON
  {
    /** `str(error)`: the argument, except that a `KeyError` shows the
        `repr` of its argument, in quotes. */
    function Text(): string
    {
      if KeyError? then "'" + message + "'" else message
    }
  }
}
