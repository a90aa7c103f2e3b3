/**
 * The two report resources of ProductService: HEAD /products/reports answers whether the
 * latest report of a product is in the artifact store, and GET /products/reports serves it.
 * The database lookup and the artifact store are parameters: each of their steps either
 * returns a value or throws one of the modelled exceptions, and each resource's catch
 * clauses are modelled as written.
 */
module ReportService {
  import opened Wrappers
  import opened Octets
  import opened Http
  import opened JavaText
  import opened JavaPaths
  import opened ReportKey

  /** The product record the lookup returns; only its name takes part in the report key. */
  datatype Product = Product(name: string)

  /** The query parameters product-name, show-success and group-by (group-by defaults to "SCENARIO"). */
  datatype ReportQuery = ReportQuery(productName: string, showSuccess: bool, groupBy: string)

  /**
   * The artifact store as the service sees it: creating the AWS artifact reader (reading the
   * region and bucket configuration included), then asking whether a key exists, or opening
   * the stream of the object at a key.
   */
  datatype ArtifactStore = ArtifactStore(
    create: Attempt<()>,
    contains: string -> Attempt<bool>,
    stream: string -> Attempt<seq<byte>>)

  const HEAD_FOUND := "The artifact exists in the remote storage"
  const HEAD_ARTIFACT_MISSING := "Couldn't found the Artifact in the remote location"
  const HEAD_PRODUCT_MISSING := "Could't found the Product in Test Grid"
  const GET_PRODUCT_MISSING := "Product not found"
  const READER_FAILED := "Error occurred while creating AWS artifact reader."
  const CONFIG_FAILED := "Error occurred while accessing configurations."
  const REPORT_MISSING := "Error occurred while getting the report."
  const STORAGE_FAILED := "Error occurred while accessing the remote storage"
  const REPORT_MEDIA_TYPE := "application/html"

  function DaoFailed(productName: string): string {
    "Error occurred while fetching the product for product name : '" + productName + "' "
  }

  /** The try block of isProductReportExist: the response it builds, or the exception it throws. */
  function HeadBody(k: ReportConstants, q: ReportQuery, lookup: Attempt<Option<Product>>, store: ArtifactStore): Attempt<Response> {
    match lookup
    case Threw(e) => Threw(e)
    case Done(None) => Done(Message(NOT_FOUND, HEAD_PRODUCT_MISSING))
    case Done(Some(p)) =>
      match ResolveKey(k, q.productName, p.name, q.groupBy)
      case Threw(e) => Threw(e)
      case Done(key) =>
        match store.create
        case Threw(e) => Threw(e)
        case Done(_) =>
          match store.contains(key.bucketKey)
          case Threw(e) => Threw(e)
          case Done(true) => Done(Message(OK, HEAD_FOUND))
          case Done(false) => Done(Message(NOT_FOUND, HEAD_ARTIFACT_MISSING))
  }

  /** The catch clauses of isProductReportExist; any other exception escapes. */
  function HeadCatch(productName: string, a: Attempt<Response>): (r: Outcome)
    ensures a.Done? ==> r == Returned(a.value)
    ensures a.Threw? ==> (r.Returned? <==> a.error in {Dao, ArtifactReader, Io})
    ensures a.Threw? && r.Returned? ==> r.response.status == INTERNAL_SERVER_ERROR
    ensures a.Threw? && !r.Returned? ==> r == Escaped(a.error)
  {
    match a
    case Done(resp) => Returned(resp)
    case Threw(Dao) => Returned(Message(INTERNAL_SERVER_ERROR, DaoFailed(productName)))
    case Threw(ArtifactReader) => Returned(Message(INTERNAL_SERVER_ERROR, READER_FAILED))
    case Threw(Io) => Returned(Message(INTERNAL_SERVER_ERROR, CONFIG_FAILED))
    case Threw(e) => Escaped(e)
  }

  /** HEAD /products/reports. */
  function IsProductReportExist(k: ReportConstants, q: ReportQuery, lookup: Attempt<Option<Product>>, store: ArtifactStore): (r: Outcome)
    ensures r.Returned? ==> r.response.status in {OK, NOT_FOUND, INTERNAL_SERVER_ERROR}
    ensures r.Returned? ==> r.response.mediaType == None && r.response.headers == [] && r.response.entity.Text?
    ensures r.Escaped? ==> r.error !in {Dao, ArtifactReader, Io}
  {
    HeadCatch(q.productName, HeadBody(k, q, lookup, store))
  }

  /**
   * The response getProductReport builds around the opened stream: the later type call
   * replaces application/octet-stream, and the one header names the file.
   */
  function ReportResponse(content: seq<byte>, fileName: string): (r: Response)
    ensures r.status == OK && r.entity == Stream(content)
    ensures r.mediaType == Some(REPORT_MEDIA_TYPE)
    ensures r.headers == [("Content-Disposition", "attachment; filename=\"" + fileName + "\"")]
  {
    var r := OkWith(Stream(content), Some("application/octet-stream"));
    var r := WithStatus(r, OK);
    var r := WithType(r, REPORT_MEDIA_TYPE);
    WithHeader(r, "Content-Disposition", "attachment; filename=\"" + fileName + "\"")
  }

  /** The try block of getProductReport. */
  function GetBody(k: ReportConstants, q: ReportQuery, lookup: Attempt<Option<Product>>, store: ArtifactStore): Attempt<Response> {
    match lookup
    case Threw(e) => Threw(e)
    case Done(None) => Done(Message(NOT_FOUND, GET_PRODUCT_MISSING))
    case Done(Some(p)) =>
      match ResolveKey(k, q.productName, p.name, q.groupBy)
      case Threw(e) => Threw(e)
      case Done(key) =>
        match store.create
        case Threw(e) => Threw(e)
        case Done(_) =>
          match store.stream(key.bucketKey)
          case Threw(e) => Threw(e)
          case Done(content) => Done(ReportResponse(content, key.fileName))
  }

  /** The catch clauses of getProductReport: those of the HEAD resource, and two more. */
  function GetCatch(productName: string, a: Attempt<Response>): (r: Outcome)
    ensures a.Done? ==> r == Returned(a.value)
    ensures a.Threw? ==> (r.Returned? <==> a.error in {Dao, ArtifactReader, Io, ResourceNotFound, TestGridRuntime})
    ensures a.Threw? && r.Returned? ==> r.response.status == (if a.error == ResourceNotFound then NOT_FOUND else INTERNAL_SERVER_ERROR)
    ensures a.Threw? && !r.Returned? ==> r == Escaped(a.error)
  {
    match a
    case Done(resp) => Returned(resp)
    case Threw(Dao) => Returned(Message(INTERNAL_SERVER_ERROR, DaoFailed(productName)))
    case Threw(ArtifactReader) => Returned(Message(INTERNAL_SERVER_ERROR, READER_FAILED))
    case Threw(Io) => Returned(Message(INTERNAL_SERVER_ERROR, CONFIG_FAILED))
    case Threw(ResourceNotFound) => Returned(Message(NOT_FOUND, REPORT_MISSING))
    case Threw(TestGridRuntime) => Returned(Message(INTERNAL_SERVER_ERROR, STORAGE_FAILED))
    case Threw(e) => Escaped(e)
  }

  /** GET /products/reports. */
  function GetProductReport(k: ReportConstants, q: ReportQuery, lookup: Attempt<Option<Product>>, store: ArtifactStore): (r: Outcome)
    ensures r.Returned? ==> r.response.status in {OK, NOT_FOUND, INTERNAL_SERVER_ERROR}
    ensures r.Returned? && r.response.status == OK ==> r.response.entity.Stream?
    ensures r.Escaped? ==> r.error !in {Dao, ArtifactReader, Io, ResourceNotFound, TestGridRuntime}
  {
    GetCatch(q.productName, GetBody(k, q, lookup, store))
  }

  /** HEAD answers 200 exactly when the product is found, its key derives, and the store reports the key present. */
  lemma HeadOkIff(k: ReportConstants, q: ReportQuery, lookup: Attempt<Option<Product>>, store: ArtifactStore)
    ensures IsProductReportExist(k, q, lookup, store) == Returned(Message(OK, HEAD_FOUND)) <==>
      (lookup.Done? && lookup.value.Some? &&
       var key := ResolveKey(k, q.productName, lookup.value.value.name, q.groupBy);
       key.Done? && store.create.Done? && store.contains(key.value.bucketKey) == Done(true))
  {
  }

  /** When the product is not found, neither resource touches the store or looks at the group-by. */
  lemma ProductMissing(k: ReportConstants, q: ReportQuery, store: ArtifactStore)
    ensures IsProductReportExist(k, q, Done(None), store) == Returned(Message(NOT_FOUND, HEAD_PRODUCT_MISSING))
    ensures GetProductReport(k, q, Done(None), store) == Returned(Message(NOT_FOUND, GET_PRODUCT_MISSING))
  {
  }

  /** A TestGridDAOException from the lookup is reported as a server error naming the product, whatever the group-by. */
  lemma LookupFails(k: ReportConstants, q: ReportQuery, store: ArtifactStore)
    ensures IsProductReportExist(k, q, Threw(Dao), store) == Returned(Message(INTERNAL_SERVER_ERROR, DaoFailed(q.productName)))
    ensures GetProductReport(k, q, Threw(Dao), store) == Returned(Message(INTERNAL_SERVER_ERROR, DaoFailed(q.productName)))
  {
  }

  /**
   * An unknown group-by axis for a product that exists is not caught by either resource:
   * the IllegalArgumentException escapes to the container.
   */
  lemma UnknownAxisEscapes(k: ReportConstants, q: ReportQuery, p: Product, store: ArtifactStore)
    requires ToUpperEnglish(q.groupBy) !in k.axes
    ensures IsProductReportExist(k, q, Done(Some(p)), store) == Escaped(IllegalArgument)
    ensures GetProductReport(k, q, Done(Some(p)), store) == Escaped(IllegalArgument)
  {
  }

  /**
   * Any other exception from the lookup is not caught: it escapes each resource as itself
   * (GET also catches the two storage kinds, HEAD does not).
   */
  lemma LookupOtherEscapes(k: ReportConstants, q: ReportQuery, store: ArtifactStore, e: Thrown)
    ensures e !in {Dao, ArtifactReader, Io} ==> IsProductReportExist(k, q, Threw(e), store) == Escaped(e)
    ensures e !in {Dao, ArtifactReader, Io, ResourceNotFound, TestGridRuntime} ==>
      GetProductReport(k, q, Threw(e), store) == Escaped(e)
  {
  }

  /**
   * A NUL in the requested product name, with a valid axis, makes Paths.get throw
   * InvalidPathException, which neither resource catches.
   */
  lemma NulNameEscapes(k: ReportConstants, q: ReportQuery, p: Product, store: ArtifactStore)
    requires '\0' in q.productName
    requires ToUpperEnglish(q.groupBy) in k.axes
    ensures IsProductReportExist(k, q, Done(Some(p)), store) == Escaped(InvalidPath)
    ensures GetProductReport(k, q, Done(Some(p)), store) == Escaped(InvalidPath)
  {
    ResolveKeyRejectsNul(k, q.productName, p.name, q.groupBy);
  }

  /** show-success plays no part in either resource. */
  lemma ShowSuccessIgnored(k: ReportConstants, q: ReportQuery, b: bool, lookup: Attempt<Option<Product>>, store: ArtifactStore)
    ensures IsProductReportExist(k, q.(showSuccess := b), lookup, store) == IsProductReportExist(k, q, lookup, store)
    ensures GetProductReport(k, q.(showSuccess := b), lookup, store) == GetProductReport(k, q, lookup, store)
  {
  }

  /**
   * A served report carries the store's bytes unchanged, the media type application/html, and
   * one Content-Disposition header naming the report file.
   */
  lemma GetServesStoredBytes(k: ReportConstants, q: ReportQuery, p: Product, store: ArtifactStore)
    requires GetProductReport(k, q, Done(Some(p)), store).Returned?
    requires GetProductReport(k, q, Done(Some(p)), store).response.status == OK
    ensures var key := ResolveKey(k, q.productName, p.name, q.groupBy);
      var r := GetProductReport(k, q, Done(Some(p)), store).response;
      key.Done? && store.create.Done? && store.stream(key.value.bucketKey).Done? &&
      r.entity == Stream(store.stream(key.value.bucketKey).value) &&
      r.mediaType == Some(REPORT_MEDIA_TYPE) &&
      r.headers == [("Content-Disposition", "attachment; filename=\"" + key.value.fileName + "\"")]
  {
  }

  /** When the names involved contain no '/', the file name in the header is the last segment of the key served. */
  lemma GetFileNameIsKeySegment(k: ReportConstants, q: ReportQuery, p: Product, store: ArtifactStore)
    requires '/' !in p.name && '/' !in k.htmlExtension
    requires forall a :: a in k.axes ==> '/' !in a
    requires GetProductReport(k, q, Done(Some(p)), store).Returned?
    requires GetProductReport(k, q, Done(Some(p)), store).response.status == OK
    ensures var key := ResolveKey(k, q.productName, p.name, q.groupBy);
      key.Done? && LastSegment(key.value.bucketKey) == key.value.fileName &&
      GetProductReport(k, q, Done(Some(p)), store).response.headers ==
        [("Content-Disposition", "attachment; filename=\"" + LastSegment(key.value.bucketKey) + "\"")]
  {
    GetServesStoredBytes(k, q, p, store);
    ResolveKeyFileNameIsLastSegment(k, q.productName, p.name, q.groupBy);
  }

  /** A product that is found, a key that derives and a reader that is created: HEAD answers as the store does. */
  lemma HeadAnswersPresence(k: ReportConstants, q: ReportQuery, p: Product, store: ArtifactStore, present: bool)
    requires ResolveKey(k, q.productName, p.name, q.groupBy).Done?
    requires store.create.Done?
    requires store.contains(ResolveKey(k, q.productName, p.name, q.groupBy).value.bucketKey) == Done(present)
    ensures IsProductReportExist(k, q, Done(Some(p)), store) ==
      Returned(if present then Message(OK, HEAD_FOUND) else Message(NOT_FOUND, HEAD_ARTIFACT_MISSING))
  {
  }

  /** The exception raised while creating the reader or querying the store, for a found product, as HEAD reports it. */
  lemma HeadStoreFails(k: ReportConstants, q: ReportQuery, p: Product, store: ArtifactStore, e: Thrown)
    requires ResolveKey(k, q.productName, p.name, q.groupBy).Done?
    requires store.create == Threw(e) ||
      (store.create.Done? && store.contains(ResolveKey(k, q.productName, p.name, q.groupBy).value.bucketKey) == Threw(e))
    ensures var r := IsProductReportExist(k, q, Done(Some(p)), store);
      (e == Dao ==> r == Returned(Message(INTERNAL_SERVER_ERROR, DaoFailed(q.productName)))) &&
      (e == ArtifactReader ==> r == Returned(Message(INTERNAL_SERVER_ERROR, READER_FAILED))) &&
      (e == Io ==> r == Returned(Message(INTERNAL_SERVER_ERROR, CONFIG_FAILED))) &&
      (e !in {Dao, ArtifactReader, Io} ==> r == Escaped(e))
  {
  }

  /** The exception raised while creating the reader or opening the stream, for a found product, as GET reports it. */
  lemma GetStoreFails(k: ReportConstants, q: ReportQuery, p: Product, store: ArtifactStore, e: Thrown)
    requires ResolveKey(k, q.productName, p.name, q.groupBy).Done?
    requires store.create == Threw(e) ||
      (store.create.Done? && store.stream(ResolveKey(k, q.productName, p.name, q.groupBy).value.bucketKey) == Threw(e))
    ensures var r := GetProductReport(k, q, Done(Some(p)), store);
      (e == Dao ==> r == Returned(Message(INTERNAL_SERVER_ERROR, DaoFailed(q.productName)))) &&
      (e == ArtifactReader ==> r == Returned(Message(INTERNAL_SERVER_ERROR, READER_FAILED))) &&
      (e == Io ==> r == Returned(Message(INTERNAL_SERVER_ERROR, CONFIG_FAILED))) &&
      (e == ResourceNotFound ==> r == Returned(Message(NOT_FOUND, REPORT_MISSING))) &&
      (e == TestGridRuntime ==> r == Returned(Message(INTERNAL_SERVER_ERROR, STORAGE_FAILED))) &&
      (e !in {Dao, ArtifactReader, Io, ResourceNotFound, TestGridRuntime} ==> r == Escaped(e))
  {
  }

  /**
   * GET never asks the store whether the key exists: whatever the store would answer to that
   * question, GET does the same, so it opens the stream even where HEAD answers 404.
   */
  lemma GetIgnoresExistence(k: ReportConstants, q: ReportQuery, lookup: Attempt<Option<Product>>, store: ArtifactStore,
                            contains: string -> Attempt<bool>)
    ensures GetProductReport(k, q, lookup, store.(contains := contains)) == GetProductReport(k, q, lookup, store)
  {
  }

  /** For a found product whose key derives, once the reader is created and the stream opens, GET serves the stream. */
  lemma GetStreamOpens(k: ReportConstants, q: ReportQuery, p: Product, store: ArtifactStore)
    requires ResolveKey(k, q.productName, p.name, q.groupBy).Done?
    requires store.create.Done?
    requires store.stream(ResolveKey(k, q.productName, p.name, q.groupBy).value.bucketKey).Done?
    ensures var key := ResolveKey(k, q.productName, p.name, q.groupBy).value;
      GetProductReport(k, q, Done(Some(p)), store) ==
        Returned(ReportResponse(store.stream(key.bucketKey).value, key.fileName))
  {
  }

  /** Where the HEAD resource finds the report and the stream opens, GET serves it with status 200. */
  lemma HeadFoundThenGetServes(k: ReportConstants, q: ReportQuery, lookup: Attempt<Option<Product>>, store: ArtifactStore)
    requires IsProductReportExist(k, q, lookup, store) == Returned(Message(OK, HEAD_FOUND))
    requires var key := ResolveKey(k, q.productName, lookup.value.value.name, q.groupBy).value;
      store.stream(key.bucketKey).Done?
    ensures GetProductReport(k, q, lookup, store).Returned?
    ensures GetProductReport(k, q, lookup, store).response.status == OK
  {
    HeadOkIff(k, q, lookup, store);
  }
}
