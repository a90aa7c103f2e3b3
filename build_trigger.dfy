/**
 * POST /products/trigger-build: composes a GET request to the Jenkins remote build trigger of
 * a job, with the configured credentials in a Basic Authorization header, and reports whether
 * Jenkins answered 201 Created. The HTTPS connection is a parameter: for the composed request
 * it yields a status code or throws.
 */
module BuildTrigger {
  import opened Wrappers
  import opened JavaText
  import opened Http
  import opened BasicAuth

  /** The configuration properties JENKINS_USER, JENKINS_TOKEN, JENKINS_HOST and JENKINS_BUILD_TOKEN. */
  datatype JenkinsConfig = JenkinsConfig(user: string, token: string, host: string, buildToken: string)

  /** What is sent: the URL, the Authorization header and the request method. */
  datatype TriggerRequest = TriggerRequest(url: string, authorization: string, verb: string)

  /**
   * What the connection does with the request: the response code, or an exception from
   * building the URL, opening or configuring the connection (TLS set-up included), or reading the code.
   */
  datatype TransportResult = Responded(code: int) | Failed(error: Thrown)

  const JOB_PATH := "/job/"
  const BUILD_PATH := "/build?token="
  const TRIGGERED := "Successfully triggered the job"

  /** The remote build trigger URL; the job name and the build token are inserted unescaped. */
  function TriggerUrl(host: string, jobName: string, buildToken: string): string {
    host + JOB_PATH + jobName + BUILD_PATH + buildToken
  }

  /** Reads the job name and build token back out of a trigger URL for a known host. */
  function SplitTriggerUrl(host: string, url: string): Option<(string, string)> {
    var prefix := host + JOB_PATH;
    if |url| < |prefix| || url[..|prefix|] != prefix then None
    else
      var rest := url[|prefix|..];
      var k := IndexOf(rest, '/');
      if |rest| - k < |BUILD_PATH| || rest[k..k + |BUILD_PATH|] != BUILD_PATH then None
      else Some((rest[..k], rest[k + |BUILD_PATH|..]))
  }

  /** A job name without '/' and any build token are read back unchanged from the URL. */
  lemma SplitTriggerUrlInverse(host: string, jobName: string, buildToken: string)
    requires '/' !in jobName
    ensures SplitTriggerUrl(host, TriggerUrl(host, jobName, buildToken)) == Some((jobName, buildToken))
  {
    var prefix := host + JOB_PATH;
    var rest := jobName + BUILD_PATH + buildToken;
    var url := prefix + rest;
    assert TriggerUrl(host, jobName, buildToken) == url;
    assert url[..|prefix|] == prefix && url[|prefix|..] == rest;
    assert BUILD_PATH[0] == '/';
    SplitAtFirst(jobName, BUILD_PATH, buildToken);
  }

  /**
   * The job name is not escaped: a job name that contains "/build?token=" moves part of the
   * request into the token, so two different (job, token) pairs give the same URL.
   */
  lemma JobNameInjection(host: string)
    ensures TriggerUrl(host, "a/build?token=x", "t") == TriggerUrl(host, "a", "x/build?token=t")
  {
  }

  /** The request sent for a job: the trigger URL, the Basic header for the configured user, method GET. */
  function ComposeRequest(c: JenkinsConfig, jobName: string): (r: TriggerRequest)
    ensures r.verb == "GET"
    ensures ':' !in c.user ==> ParseBasic(r.authorization) == Some((c.user, c.token))
    ensures '/' !in jobName ==> SplitTriggerUrl(c.host, r.url) == Some((jobName, c.buildToken))
  {
    var r := TriggerRequest(TriggerUrl(c.host, jobName, c.buildToken), AuthorizationHeader(c.user, c.token), "GET");
    assert ':' !in c.user ==> ParseBasic(r.authorization) == Some((c.user, c.token)) by {
      if ':' !in c.user {
        ParseAuthorizationHeader(c.user, c.token);
      }
    }
    assert '/' !in jobName ==> SplitTriggerUrl(c.host, r.url) == Some((jobName, c.buildToken)) by {
      if '/' !in jobName {
        SplitTriggerUrlInverse(c.host, jobName, c.buildToken);
      }
    }
    r
  }

  function RejectedMessage(jobName: string, code: int): string {
    "Error occurred while triggering the build : " + jobName + " with response code : " + IntToString(code)
  }

  function ConnectionMessage(jobName: string): string {
    "Error occurred while opening the connection to the build : " + jobName
  }

  function FailedMessage(jobName: string): string {
    "Error occurred while triggering the build : " + jobName
  }

  /**
   * triggerBuildforProduct: every exception raised inside the try block is caught, so such an
   * exception always gives a response. The configuration reads before the try are plain values here.
   */
  function TriggerBuildForProduct(c: JenkinsConfig, jobName: string, transport: TriggerRequest -> TransportResult): (r: Response)
    ensures r.status == OK <==> transport(ComposeRequest(c, jobName)) == Responded(CREATED)
    ensures r.status == OK ==> r == Message(OK, TRIGGERED)
    ensures r.status != OK ==> r.status == INTERNAL_SERVER_ERROR && r.entity.Text?
    ensures var answer := transport(ComposeRequest(c, jobName));
      answer.Responded? && answer.code != CREATED ==>
        r == Message(INTERNAL_SERVER_ERROR, RejectedMessage(jobName, answer.code))
    ensures transport(ComposeRequest(c, jobName)) == Failed(Io) ==>
      r == Message(INTERNAL_SERVER_ERROR, ConnectionMessage(jobName))
    ensures var answer := transport(ComposeRequest(c, jobName));
      answer.Failed? && answer.error != Io ==> r == Message(INTERNAL_SERVER_ERROR, FailedMessage(jobName))
  {
    match transport(ComposeRequest(c, jobName))
    case Responded(code) =>
      if code == CREATED then WithStatus(OkWith(Text(TRIGGERED), None), OK)
      else Message(INTERNAL_SERVER_ERROR, RejectedMessage(jobName, code))
    case Failed(Io) => Message(INTERNAL_SERVER_ERROR, ConnectionMessage(jobName))
    case Failed(_) => Message(INTERNAL_SERVER_ERROR, FailedMessage(jobName))
  }

  /** The rejection message names the response code Jenkins gave: different codes give different messages. */
  lemma RejectedMessageInjective(jobName: string, c1: int, c2: int)
    ensures RejectedMessage(jobName, c1) == RejectedMessage(jobName, c2) <==> c1 == c2
  {
    var prefix := "Error occurred while triggering the build : " + jobName + " with response code : ";
    if RejectedMessage(jobName, c1) == RejectedMessage(jobName, c2) {
      assert IntToString(c1) == RejectedMessage(jobName, c1)[|prefix|..];
      assert IntToString(c2) == RejectedMessage(jobName, c2)[|prefix|..];
      IntToStringInjective(c1, c2);
    }
  }

  /** A code other than 201, an IOException and any other exception each give their own message. */
  lemma FailureKindsDistinct(jobName: string, code: int)
    ensures RejectedMessage(jobName, code) != ConnectionMessage(jobName)
    ensures RejectedMessage(jobName, code) != FailedMessage(jobName)
    ensures ConnectionMessage(jobName) != FailedMessage(jobName)
  {
    assert RejectedMessage(jobName, code)[21] == 't' && ConnectionMessage(jobName)[21] == 'o';
    assert |RejectedMessage(jobName, code)| > |FailedMessage(jobName)|;
    assert FailedMessage(jobName)[21] == 't';
  }

  /** The outcome depends on the connection only through its answer to the composed request. */
  lemma OnlyComposedRequestMatters(c: JenkinsConfig, jobName: string, t1: TriggerRequest -> TransportResult,
                                   t2: TriggerRequest -> TransportResult)
    requires t1(ComposeRequest(c, jobName)) == t2(ComposeRequest(c, jobName))
    ensures TriggerBuildForProduct(c, jobName, t1) == TriggerBuildForProduct(c, jobName, t2)
  {
  }
}
