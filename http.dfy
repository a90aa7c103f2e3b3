/**
 * The slice of JAX-RS the service uses: a response value with its status, entity, media type
 * and headers, the ResponseBuilder steps that produce it, and the exceptions the service's
 * collaborators can raise, with a value-or-exception result for each external step.
 */
module Http {
  import opened Wrappers
  import opened Octets

  const OK: int := 200
  const CREATED: int := 201
  const NOT_FOUND: int := 404
  const INTERNAL_SERVER_ERROR: int := 500

  /** A response body: none, a text message, or the bytes of an artifact stream. */
  datatype Entity = NoEntity | Text(text: string) | Stream(content: seq<byte>)

  datatype Response = Response(status: int, entity: Entity, mediaType: Option<string>, headers: seq<(string, string)>)

  /** Response.status(s).entity(text).build(). */
  function Message(s: int, text: string): Response {
    Response(s, Text(text), None, [])
  }

  /** Response.ok(entity, type): status 200 with the entity and its media type. */
  function OkWith(entity: Entity, mediaType: Option<string>): Response {
    Response(OK, entity, mediaType, [])
  }

  /** ResponseBuilder.status(s): replaces the status, keeps everything else. */
  function WithStatus(r: Response, s: int): (r': Response)
    ensures r'.status == s && r'.entity == r.entity && r'.mediaType == r.mediaType && r'.headers == r.headers
  {
    r.(status := s)
  }

  /** ResponseBuilder.type(t): replaces the media type, keeps everything else. */
  function WithType(r: Response, t: string): (r': Response)
    ensures r'.mediaType == Some(t) && r'.status == r.status && r'.entity == r.entity && r'.headers == r.headers
  {
    r.(mediaType := Some(t))
  }

  /** ResponseBuilder.header(name, value): adds one header after those already set. */
  function WithHeader(r: Response, name: string, value: string): (r': Response)
    ensures |r'.headers| == |r.headers| + 1
    ensures r'.headers[..|r.headers|] == r.headers && r'.headers[|r.headers|..] == [(name, value)]
    ensures r'.status == r.status && r'.entity == r.entity && r'.mediaType == r.mediaType
  {
    r.(headers := r.headers + [(name, value)])
  }

  /**
   * The exception classes the service distinguishes: TestGridDAOException, ArtifactReaderException,
   * IOException, Velocity's ResourceNotFoundException, TestGridRuntimeException,
   * IllegalArgumentException (a failed enum lookup), InvalidPathException, and any other exception.
   */
  datatype Thrown = Dao | ArtifactReader | Io | ResourceNotFound | TestGridRuntime | IllegalArgument | InvalidPath | Other

  /** The result of a call that either returns a value or throws. */
  datatype Attempt<T> = Done(value: T) | Threw(error: Thrown)

  /** What a resource method does: return a response, or let an exception escape to the container. */
  datatype Outcome = Returned(response: Response) | Escaped(error: Thrown)
}
