/**
 * The servlet and Spring Security objects the request handlers write to: the HTTP
 * response, the security context and the filter chain. Each keeps only the state the
 * modelled code reads or writes.
 */
module Servlet {
  import opened Wrappers
  import opened Failures
  import opened Security

  /** An HttpServletResponse: status, headers set through setters, the text written to its
      writer, and whether it has been committed by sendError or sendRedirect. */
  class HttpResponse {
    var status: int
    var contentType: Option<string>
    var characterEncoding: Option<string>
    var body: string
    var errorMessage: Option<string>
    var redirectLocation: Option<string>
    var committed: bool

    constructor ()
      ensures status == 200 && contentType.None? && characterEncoding.None? && body == []
      ensures errorMessage.None? && redirectLocation.None? && !committed
    {
      status := 200;
      contentType := None;
      characterEncoding := None;
      body := [];
      errorMessage := None;
      redirectLocation := None;
      committed := false;
    }

    method SetStatus(code: int)
      modifies this
      ensures status == code
      ensures contentType == old(contentType) && characterEncoding == old(characterEncoding)
      ensures body == old(body) && errorMessage == old(errorMessage)
      ensures redirectLocation == old(redirectLocation) && committed == old(committed)
    {
      status := code;
    }

    method SetContentType(value: string)
      modifies this
      ensures contentType == Some(value)
      ensures status == old(status) && characterEncoding == old(characterEncoding)
      ensures body == old(body) && errorMessage == old(errorMessage)
      ensures redirectLocation == old(redirectLocation) && committed == old(committed)
    {
      contentType := Some(value);
    }

    method SetCharacterEncoding(value: string)
      modifies this
      ensures characterEncoding == Some(value)
      ensures status == old(status) && contentType == old(contentType)
      ensures body == old(body) && errorMessage == old(errorMessage)
      ensures redirectLocation == old(redirectLocation) && committed == old(committed)
    {
      characterEncoding := Some(value);
    }

    /** getWriter().write(text) */
    method Write(text: string)
      modifies this
      ensures body == old(body) + text
      ensures status == old(status) && contentType == old(contentType)
      ensures characterEncoding == old(characterEncoding) && errorMessage == old(errorMessage)
      ensures redirectLocation == old(redirectLocation) && committed == old(committed)
    {
      body := body + text;
    }

    /** sendError: sets the status and message and commits the response. */
    method SendError(code: int, message: string)
      requires !committed
      modifies this
      ensures status == code && errorMessage == Some(message) && committed
      ensures contentType == old(contentType) && characterEncoding == old(characterEncoding)
      ensures body == old(body) && redirectLocation == old(redirectLocation)
    {
      status := code;
      errorMessage := Some(message);
      committed := true;
    }

    /** sendRedirect: a 302 to the location, committing the response. */
    method SendRedirect(location: string)
      requires !committed
      modifies this
      ensures status == 302 && redirectLocation == Some(location) && committed
      ensures contentType == old(contentType) && characterEncoding == old(characterEncoding)
      ensures body == old(body) && errorMessage == old(errorMessage)
    {
      status := 302;
      redirectLocation := Some(location);
      committed := true;
    }
  }

  /** The request's SecurityContext: the installed Authentication, if any. */
  class SecurityContext {
    var authentication: Option<Authentication>

    constructor (initial: Option<Authentication>)
      ensures authentication == initial
    {
      authentication := initial;
    }

    method SetAuthentication(a: Authentication)
      modifies this
      ensures authentication == Some(a)
    {
      authentication := Some(a);
    }
  }

  /** The rest of the filter chain: the number of times it was continued, and the
      exception it throws when continued (`None` when it completes normally). */
  class FilterChain {
    var invocations: nat
    const failure: Option<Exception>

    constructor (failure: Option<Exception>)
      ensures invocations == 0 && this.failure == failure
    {
      invocations := 0;
      this.failure := failure;
    }

    method DoFilter() returns (thrown: Option<Exception>)
      modifies this
      ensures invocations == old(invocations) + 1
      ensures thrown == failure
    {
      invocations := invocations + 1;
      thrown := failure;
    }
  }
}
