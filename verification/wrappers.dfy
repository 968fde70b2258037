/** Optional values (Java's nullable references) and results (a value or a thrown exception). */
module Wrappers {

  /** A nullable reference: `None` plays the role of Java's `null`. */
  datatype Option<+T> = None | Some(value: T) {
    function GetOr(default: T): T {
      match this
      case Some(v) => v
      case None => default
    }
  }

  /** The outcome of a Java call: a returned value or a thrown exception. */
  datatype Result<+T, +E> = Success(value: T) | Failure(error: E)
}

/** The Java exceptions the modelled code throws, catches and wraps, as plain values. */
module Failures {
  import opened Wrappers

  datatype Kind =
    | BadRequest            // application BadRequestException
    | ResourceNotFound      // application ResourceNotFoundException
    | Runtime               // java.lang.RuntimeException
    | IllegalState          // java.lang.IllegalStateException
    | IllegalArgument       // java.lang.IllegalArgumentException
    | NullPointer           // java.lang.NullPointerException
    | IO                    // java.io.IOException
    | DateTimeParse         // java.time.format.DateTimeParseException
    | ExpiredJwt            // io.jsonwebtoken.ExpiredJwtException
    | MalformedJwt          // io.jsonwebtoken.MalformedJwtException
    | UnsupportedJwt        // io.jsonwebtoken.UnsupportedJwtException
    | SignatureJwt          // io.jsonwebtoken.SignatureException
    | WeakKey               // io.jsonwebtoken.security.WeakKeyException
    | OtherJwt              // any other io.jsonwebtoken.JwtException
    | BadCredentials        // Spring's AuthenticationException (bad credentials and the like)

  /** A thrown exception: its class, its message and the exception it wraps, if any. */
  datatype Exception = Exception(kind: Kind, message: string, cause: Option<Exception>)

  /** The exception kinds that are subclasses of io.jsonwebtoken.JwtException. */
  predicate IsJwtException(k: Kind) {
    k in {ExpiredJwt, MalformedJwt, UnsupportedJwt, SignatureJwt, WeakKey, OtherJwt}
  }

  function Throw(kind: Kind, message: string): Exception {
    Exception(kind, message, None)
  }

  function Wrap(kind: Kind, message: string, cause: Exception): Exception {
    Exception(kind, message, Some(cause))
  }
}
