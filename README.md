# WSO2 Test Grid: product reports, build trigger and the Host bean

This project is a Dafny model of part of the WSO2 Test Grid web API (`ProductService`) and of the `Host` model object. It covers three things:

- **Report resources.** `HEAD /products/reports` answers whether the latest HTML report of a product is in the remote artifact store (AWS S3). `GET /products/reports` serves that report.
  - The store object's key is derived from the product and a grouping axis (an `AxisColumn` constant): `<artifact dir>/<requested product name>/<stored product name>-<AXIS><html extension>`, joined as `java.nio.file.Paths.get` joins it on Linux.
  - Every response and every catch clause of both resources is modelled, with its exact status code and message.
- **Build trigger.** `POST /products/trigger-build` composes a GET request to the Jenkins remote build trigger `<host>/job/<job>/build?token=<build token>`.
  - The request carries an HTTP Basic `Authorization` header: "Basic " followed by the Base64 of the UTF-8 octets of `user:token`, as in section 2 of RFC 7617 and section 4 of RFC 4648.
  - The answer is 200 "Successfully triggered the job" exactly when Jenkins replies 201. Any other code, and any exception raised inside the `try` block, gives a 500 with the message for that case.
- **`Host`.** A class with `ip`, `label` and `ports` fields and their getters and setters. `getPorts` never returns null. `toString` shows the IP address and the ports but not the label.

External collaborators are parameters, not code:
- The product database lookup is an `Attempt<Option<Product>>`.
- The artifact store is a record of functions: creating the reader, asking whether a key exists, and opening a stream.
- The HTTPS connection is a function from the composed request to a response code or an exception.

Each external step either returns a value or throws one of the exception kinds the service distinguishes (`Http.Thrown`). An exception that no catch clause handles is an `Escaped` outcome.

Modules:
- `Wrappers`, `Octets`: Option and byte.
- `JavaText`: the JDK string operations used, `toUpperCase(Locale.ENGLISH)` and `Integer.toString` (with a parser as its inverse), and `IndexOf`, a helper the model's own readers of composed texts use (the source does not call `indexOf`).
- `JavaPaths`: `Paths.get(...).toString()` on Linux.
- `Utf8`, `Base64`, `BasicAuth`: the Authorization header and its decoders.
- `Http`: the JAX-RS response, the builder steps, and the exception kinds.
- `ReportKey`, `ReportService`: the report resources.
- `BuildTrigger`: the trigger resource.
- `HostModel`: `Host`.

Behaviour of the code that the model keeps as written:
- An unknown `group-by` value makes `AxisColumn.valueOf` throw an `IllegalArgumentException`. Neither report resource catches it, so it escapes to the container and is not answered as a client error (`ReportService.UnknownAxisEscapes`).
- The product is looked up in the database before the axis is validated. A TestGridDAOException from the lookup is therefore reported as a 500 naming the requested product even when the axis is invalid (`ReportService.LookupFails`).
- A served report has media type `application/html`. The resource's `application/octet-stream` is replaced by the later `type(...)` call.
- The file name uses the name stored in the product record, while the directory uses the requested product name. The two are kept apart.
- The messages are reproduced as written, spelling included ("Couldn't found", "Could't found").

## Model

| member | source | states |
|---|---|---|
| JavaText.ToUpperEnglish | web/src/main/java/org/wso2/testgrid/web/api/ProductService.java:209 | upper-casing keeps the length and maps every character on its own, a-z to A-Z, everything else unchanged |
| JavaText.ToUpperIdempotent | web/src/main/java/org/wso2/testgrid/web/api/ProductService.java:209 | an upper-cased group-by upper-cases to itself |
| JavaText.IntToString | web/src/main/java/org/wso2/testgrid/web/api/ProductService.java:341 | the decimal text of the response code in the rejection message, with a leading '-' for a negative code; its partners are ParseIntToString and IntToStringInjective |
| JavaText.ParseIntToString | web/src/main/java/org/wso2/testgrid/web/api/ProductService.java:340-341 | the decimal text of a response code parses back to the same integer, negative codes included |
| JavaText.IntToStringInjective | web/src/main/java/org/wso2/testgrid/web/api/ProductService.java:340-341 | two codes have the same decimal text exactly when they are equal |
| JavaPaths.PathsGet | web/src/main/java/org/wso2/testgrid/web/api/ProductService.java:212 | `Paths.get(dir, requested, file).toString()` on Linux: elements split at '/', empty ones dropped, rejoined with single '/', a leading '/' kept, no result when an argument holds NUL; its partners are the four lemmas below |
| JavaPaths.PathsGetOfNames | web/src/main/java/org/wso2/testgrid/web/api/ProductService.java:212 | three plain names join to `d/p/f` with one separator between each pair |
| JavaPaths.PathsGetSkipsEmpty | web/src/main/java/org/wso2/testgrid/web/api/ProductService.java:212 | an empty middle argument gives no path level and no extra separator |
| JavaPaths.PathsGetRejectsNul | web/src/main/java/org/wso2/testgrid/web/api/ProductService.java:212 | a NUL in any argument makes `Paths.get` throw InvalidPathException |
| JavaPaths.LastSegmentOfPath | web/src/main/java/org/wso2/testgrid/web/api/ProductService.java:212 | a plain final name is the text after the last '/' of the joined path |
| Utf8.Encode | web/src/main/java/org/wso2/testgrid/web/api/ProductService.java:322-323 | `getBytes(UTF_8)`: the concatenation of each character's encoding, never shorter than the text; its partner is DecodeEncode |
| Utf8.EncodeChar | web/src/main/java/org/wso2/testgrid/web/api/ProductService.java:323 | each character takes 1 to 4 octets, and exactly one octet when it is below U+0080 |
| Utf8.DecodeEncode | web/src/main/java/org/wso2/testgrid/web/api/ProductService.java:322-323 | the strict UTF-8 decoder gives back every encoded string |
| Base64.Encode | web/src/main/java/org/wso2/testgrid/web/api/ProductService.java:321-323 | the output has length 4 * ceil(n / 3) |
| Base64.EncodeAlphabet | web/src/main/java/org/wso2/testgrid/web/api/ProductService.java:321-323 | every output character is in the Base64 alphabet or is '=' |
| Base64.DecodeEncode | web/src/main/java/org/wso2/testgrid/web/api/ProductService.java:321-323 | decoding the encoding of any octets gives them back |
| Base64.EncodeDecode | web/src/main/java/org/wso2/testgrid/web/api/ProductService.java:321-323 | any string the strict decoder accepts is the encoding of what it decodes to |
| Base64.DecodeIff | web/src/main/java/org/wso2/testgrid/web/api/ProductService.java:321-323 | a string decodes to given octets exactly when it is their encoding |
| BasicAuth.AuthorizationHeader | web/src/main/java/org/wso2/testgrid/web/api/ProductService.java:321-323 | the header starts with "Basic " and the rest is Base64 alphabet or padding |
| BasicAuth.AuthorizationHeaderContent | web/src/main/java/org/wso2/testgrid/web/api/ProductService.java:321-323 | for every user and token, the text after "Basic " Base64-decodes to the UTF-8 octets of user ":" token, and those octets decode to that text |
| BasicAuth.ParseAuthorizationHeader | web/src/main/java/org/wso2/testgrid/web/api/ProductService.java:321-323 | a user name without ':' and any token are read back from the header unchanged |
| BasicAuth.AuthorizationHeaderInjective | web/src/main/java/org/wso2/testgrid/web/api/ProductService.java:321-323 | for user names without ':', two headers are equal exactly when the credentials are |
| BasicAuth.ColonInUserIsAmbiguous | web/src/main/java/org/wso2/testgrid/web/api/ProductService.java:322 | user "a:b" with token "c" gives the same header as user "a" with token "b:c" |
| Http.WithStatus | web/src/main/java/org/wso2/testgrid/web/api/ProductService.java:268 | the status is replaced and the entity, media type and headers are kept |
| Http.WithType | web/src/main/java/org/wso2/testgrid/web/api/ProductService.java:269 | the media type is replaced and the status, entity and headers are kept |
| Http.WithHeader | web/src/main/java/org/wso2/testgrid/web/api/ProductService.java:270 | one header is appended after those already set and nothing else changes |
| ReportKey.ResolveKey | web/src/main/java/org/wso2/testgrid/web/api/ProductService.java:209-212 | fails with IllegalArgumentException exactly when the upper-cased group-by is not an axis; a derived file name is `<stored name>-<AXIS><ext>` |
| ReportKey.ResolveKeyIgnoresCase | web/src/main/java/org/wso2/testgrid/web/api/ProductService.java:209 | an upper-cased group-by gives the same result as the group-by itself |
| ReportKey.ResolveKeySameUpper | web/src/main/java/org/wso2/testgrid/web/api/ProductService.java:209 | group-by values that differ only in letter case give the same key or the same failure |
| ReportKey.ResolveKeyShape | web/src/main/java/org/wso2/testgrid/web/api/ProductService.java:210-212 | with plain names the key is `<dir>/<requested name>/<stored name>-<AXIS><ext>` |
| ReportKey.ResolveKeyFileNameIsLastSegment | web/src/main/java/org/wso2/testgrid/web/api/ProductService.java:260-262 | when the stored product name, the extension and the axes contain no '/', the file name served is the last segment of the bucket key (a stored name "a/b" would give the last segment "b-<AXIS><ext>") |
| ReportKey.ResolveKeyEmptyRequestedName | web/src/main/java/org/wso2/testgrid/web/api/ProductService.java:212 | an empty requested product name puts the file directly under the artifact directory |
| ReportKey.ResolveKeyRejectsNul | web/src/main/java/org/wso2/testgrid/web/api/ProductService.java:212 | once the group-by names an axis, a NUL in the requested product name makes the key derivation throw InvalidPathException (for an unknown axis `valueOf` throws IllegalArgumentException first) |
| ReportService.HeadCatch | web/src/main/java/org/wso2/testgrid/web/api/ProductService.java:224-236 | a built response is returned unchanged; exactly the DAO, artifact-reader and IO exceptions are caught, each as a 500; any other exception escapes as itself |
| ReportService.IsProductReportExist | web/src/main/java/org/wso2/testgrid/web/api/ProductService.java:197-237 | a returned response is a text message with status 200, 404 or 500; the caught kinds never escape |
| ReportService.HeadOkIff | web/src/main/java/org/wso2/testgrid/web/api/ProductService.java:207-219 | HEAD answers 200 exactly when the product is found, its key derives, the reader is created and the store reports the key present |
| ReportService.HeadAnswersPresence | web/src/main/java/org/wso2/testgrid/web/api/ProductService.java:216-221 | for a found product whose key derives and whose reader is created, HEAD answers 200 when the store reports the key present and 404 "Couldn't found the Artifact in the remote location" when it reports it absent |
| ReportService.HeadStoreFails | web/src/main/java/org/wso2/testgrid/web/api/ProductService.java:213-236 | an exception from creating the reader or querying the store gives the matching 500 for the DAO, artifact-reader and IO kinds, and escapes for every other kind |
| ReportService.ReportResponse | web/src/main/java/org/wso2/testgrid/web/api/ProductService.java:266-271 | a 200 whose entity is the stream's bytes, whose media type is application/html (the later `type` call replaces application/octet-stream) and whose one header is the Content-Disposition naming the file |
| ReportService.GetCatch | web/src/main/java/org/wso2/testgrid/web/api/ProductService.java:275-295 | exactly five kinds are caught; resource-not-found gives 404 and the other four give 500; any other exception escapes as itself |
| ReportService.GetProductReport | web/src/main/java/org/wso2/testgrid/web/api/ProductService.java:246-296 | a returned response has status 200, 404 or 500, and a 200 carries a stream; the caught kinds never escape |
| ReportService.ProductMissing | web/src/main/java/org/wso2/testgrid/web/api/ProductService.java:223-273 | a product that is not found gives 404 with each resource's message, whatever the store and the group-by |
| ReportService.LookupFails | web/src/main/java/org/wso2/testgrid/web/api/ProductService.java:224-227 | a TestGridDAOException from the lookup is a 500 naming the requested product in both resources, even for an invalid axis |
| ReportService.LookupOtherEscapes | web/src/main/java/org/wso2/testgrid/web/api/ProductService.java:203-236 | an exception from the lookup that HEAD's catch clauses do not name escapes HEAD as itself, and one that none of GET's five clauses names escapes GET as itself |
| ReportService.NulNameEscapes | web/src/main/java/org/wso2/testgrid/web/api/ProductService.java:212 | a NUL in the requested product name with a valid axis makes `Paths.get` throw InvalidPathException, which escapes both resources as itself |
| ReportService.UnknownAxisEscapes | web/src/main/java/org/wso2/testgrid/web/api/ProductService.java:209 | for a product that exists, an unknown axis escapes both resources as IllegalArgumentException |
| ReportService.ShowSuccessIgnored | web/src/main/java/org/wso2/testgrid/web/api/ProductService.java:199-202 | the show-success parameter changes neither resource's outcome |
| ReportService.GetServesStoredBytes | web/src/main/java/org/wso2/testgrid/web/api/ProductService.java:266-271 | a 200 from GET, for any product, carries the store's bytes for the derived key, type application/html, and one Content-Disposition header naming the file |
| ReportService.GetFileNameIsKeySegment | web/src/main/java/org/wso2/testgrid/web/api/ProductService.java:260-270 | when the stored name, the extension and the axes contain no '/', the file name in the header is the last segment of the key served |
| ReportService.GetStoreFails | web/src/main/java/org/wso2/testgrid/web/api/ProductService.java:263-295 | an exception from creating the reader or opening the stream gives the matching response of the five catch clauses (404 for resource-not-found, 500 for the others) and escapes for every other kind |
| ReportService.GetStreamOpens | web/src/main/java/org/wso2/testgrid/web/api/ProductService.java:257-271 | for a found product whose key derives, once the reader is created and the stream opens, GET returns exactly the report response built from the stream's bytes and the file name |
| ReportService.GetIgnoresExistence | web/src/main/java/org/wso2/testgrid/web/api/ProductService.java:253-271 | GET gives the same outcome whatever the store says about whether the key exists |
| ReportService.HeadFoundThenGetServes | web/src/main/java/org/wso2/testgrid/web/api/ProductService.java:216-271 | when HEAD finds the report and the stream opens, GET answers 200 |
| BuildTrigger.TriggerUrl | web/src/main/java/org/wso2/testgrid/web/api/ProductService.java:324-325 | `<host>/job/<job>/build?token=<build token>`, with job name and token not escaped; its partner is SplitTriggerUrl, read back by SplitTriggerUrlInverse |
| BuildTrigger.SplitTriggerUrlInverse | web/src/main/java/org/wso2/testgrid/web/api/ProductService.java:324-325 | a job name without '/' and any build token are read back from the trigger URL |
| BuildTrigger.JobNameInjection | web/src/main/java/org/wso2/testgrid/web/api/ProductService.java:324-325 | the unescaped job name "a/build?token=x" with token "t" gives the same URL as job "a" with token "x/build?token=t" |
| BuildTrigger.ComposeRequest | web/src/main/java/org/wso2/testgrid/web/api/ProductService.java:321-329 | the request uses method GET, carries the configured credentials in its header and the job and build token in its URL |
| BuildTrigger.TriggerBuildForProduct | web/src/main/java/org/wso2/testgrid/web/api/ProductService.java:305-356 | 200 with "Successfully triggered the job" exactly when the connection answers 201; another code gives a 500 naming the job and the code; an IOException gives the 500 "opening the connection" message naming the job; any other exception gives the generic 500 naming the job; no exception raised inside the `try` block escapes |
| BuildTrigger.RejectedMessage | web/src/main/java/org/wso2/testgrid/web/api/ProductService.java:340-341 | the message for a code other than 201, naming the job and the code; RejectedMessageInjective shows the code can be read from it |
| BuildTrigger.ConnectionMessage | web/src/main/java/org/wso2/testgrid/web/api/ProductService.java:347 | the message for an IOException, naming the job |
| BuildTrigger.FailedMessage | web/src/main/java/org/wso2/testgrid/web/api/ProductService.java:352 | the message for any other exception, naming the job; FailureKindsDistinct shows the three messages differ |
| BuildTrigger.RejectedMessageInjective | web/src/main/java/org/wso2/testgrid/web/api/ProductService.java:340-341 | the rejection message names the code: different codes give different messages |
| BuildTrigger.FailureKindsDistinct | web/src/main/java/org/wso2/testgrid/web/api/ProductService.java:340-353 | a rejected code, an IOException and any other exception give three different messages |
| BuildTrigger.OnlyComposedRequestMatters | web/src/main/java/org/wso2/testgrid/web/api/ProductService.java:334 | the outcome depends on the connection only through its answer to the composed request |
| HostModel.ParseHostTextInverse | common/src/main/java/org/wso2/testgrid/common/Host.java:61-66 | when the IP has no quote, the IP text and the ports text are read back from the Host text |
| HostModel.SplitJoinPorts | common/src/main/java/org/wso2/testgrid/common/Host.java:64 | a list of at least one port, whose texts contain no ',', is read back from the list text in order (the text of an empty list would read back as one empty text) |
| HostModel.NullPortsShowAsNull | common/src/main/java/org/wso2/testgrid/common/Host.java:52-64 | toString tells a null port list from an empty one, although getPorts returns an empty list for both |
| HostModel.Host.constructor | common/src/main/java/org/wso2/testgrid/common/Host.java:28-34 | a new Host has every field null |
| HostModel.Host.GetIp | common/src/main/java/org/wso2/testgrid/common/Host.java:36-38 | returns the ip field |
| HostModel.Host.SetIp | common/src/main/java/org/wso2/testgrid/common/Host.java:40-42 | sets ip and leaves label and ports as they were |
| HostModel.Host.GetLabel | common/src/main/java/org/wso2/testgrid/common/Host.java:44-46 | returns the label field |
| HostModel.Host.SetLabel | common/src/main/java/org/wso2/testgrid/common/Host.java:48-50 | sets label, leaves ip and ports as they were, and leaves toString unchanged |
| HostModel.Host.GetPorts | common/src/main/java/org/wso2/testgrid/common/Host.java:52-54 | returns the stored list, or an empty list when ports is null |
| HostModel.Host.SetPorts | common/src/main/java/org/wso2/testgrid/common/Host.java:56-58 | sets ports and leaves ip and label as they were |
| HostModel.Host.ToString | common/src/main/java/org/wso2/testgrid/common/Host.java:61-66 | starts with "Host{ip='" and ends with '}'; when the IP has no quote, it gives back the IP text and the port list text, and the label plays no part |

## Left out

- The product listing resources (`ProductService.java:82-189`): they are database queries, outside this model.
- The artifact store is a record of functions. Whether a key exists and the stream at that key are independent answers, and the store's contents are not modelled. The region and bucket configuration lookups are folded into creating the reader.
- The database lookup and `new ProductUOW()` are one `Attempt`. The database is not modelled.
- Exceptions are over-approximated. Any external step may throw any modelled kind, and the model does not say which Java class each step can throw. The catch clauses, which decide the outcome, are modelled as written.
- A response entity is the complete byte content of the stream. Streaming, and closing the stream or the connection, are not modelled.
- TLS set-up and the trust-all socket factory (`ProductService.java:327-332`, `:364-383`): their failures are among the connection's exceptions. `openConnection`, `setRequestMethod` (a `ProtocolException`) and a handshake failure during `getResponseCode` (an `SSLHandshakeException`) are IOExceptions and give the "opening the connection" message. The security exceptions of `createSslSocketFactory`, and a failed cast to `HttpsURLConnection`, reach the generic catch. The model leaves the kind to the connection parameter (`Failed(Io)` or `Failed(Other)`).
- Logging (`logger.error` calls): it has no effect on any response.
- Configuration values are plain strings. A missing (null) configuration property, and the null handling of `StringUtil.concatStrings`, are not modelled. `concatStrings` is taken to be plain concatenation.
- `AxisColumn` is not part of this model. Its constants are a parameter (`ReportConstants.axes`), and a constant's text in the file name is taken to be its name.
- `Constants.AWS_BUCKET_ARTIFACT_DIR` and `Constants.HTML_EXTENSION` are not part of this model. They are parameters of `ReportConstants`.
- Null query parameters (a missing product-name) and a null product name in the database record are not modelled.
- JavaText.ToUpperEnglish: maps only the basic Latin letters a-z. Java's English-locale upper-casing also changes other letters, some into two characters (for example 'ß' becomes "SS"). Those characters are not modelled.
- Utf8.Encode: Dafny characters are Unicode scalar values. Java strings may hold lone surrogates, which `getBytes(UTF_8)` replaces with '?'; this is not modelled.
- BasicAuth.AuthorizationHeader: `new String(..., Charset.defaultCharset())` is taken to read the ASCII output of the encoder unchanged. That holds for every ASCII-compatible default charset, and other charsets are not modelled.
- JavaPaths: only the Linux file system provider is modelled. On Windows the separator and the rules differ. On macOS the JDK provider keeps the path in Unicode decomposed form (NFD) and `toString` gives the composed form (NFC), so a decomposed product name ("cafe\u0301") gives a composed bucket key there; that normalisation is not modelled.
- JavaPaths.PathsGet: the platform's native path encoding is assumed to map every character. Java encodes the joined path in that charset and throws InvalidPathException for a character it cannot map (for example "café" under an ASCII locale); the model returns a key there, where the exception would escape both report resources.
- BuildTrigger.TriggerBuildForProduct: `catch (Exception e)` does not catch a `java.lang.Error`, which would escape. Errors are not modelled. The four `ConfigurationContext.getProperty` reads and the two `logger.error` calls (`ProductService.java:309-318`) run before the `try` at `:320`, so an exception from them would escape the resource; the model takes them as plain values that do not throw.
- `Host`'s `Serializable` support and `serialVersionUID` are not modelled.
- HostModel.Host.SetPorts: the ports list is a value. Java keeps a reference to the caller's list, so a later change to that list shows through `getPorts` and `toString`. That aliasing is not modelled, and adding to the fresh empty list `getPorts` returns for a null field is lost in Java as in the model.
- `Port` is not part of this model: a port is kept as the text its `toString` gives. Null elements in the list are not modelled.
- The React dashboard files are outside this model.
