/**
 * Where a product's latest report lives in the artifact store. The grouping axis is the
 * AxisColumn constant named by the upper-cased group-by parameter; the file name is
 * "<stored product name>-<AXIS><html extension>", and the bucket key is that file under
 * "<artifact directory>/<requested product name>", joined as Paths.get joins them.
 */
module ReportKey {
  import opened Wrappers
  import opened JavaText
  import opened JavaPaths
  import opened Http

  /**
   * The constants the key depends on: Constants.AWS_BUCKET_ARTIFACT_DIR, Constants.HTML_EXTENSION,
   * and the names of the AxisColumn enum constants.
   */
  datatype ReportConstants = ReportConstants(artifactDir: string, htmlExtension: string, axes: set<string>)

  datatype ReportKey = ReportKey(fileName: string, bucketKey: string)

  /** A plain path segment: non-empty, with no separator and no NUL. */
  predicate PlainName(s: string) {
    s != "" && '/' !in s && '\0' !in s
  }

  /**
   * Derives the report's file name and bucket key. AxisColumn.valueOf throws
   * IllegalArgumentException for an unknown axis, and Paths.get throws InvalidPathException
   * for a NUL character; the derivation itself does no I/O.
   */
  function ResolveKey(k: ReportConstants, requestedName: string, storedName: string, groupBy: string): (r: Attempt<ReportKey>)
    ensures r == Threw(IllegalArgument) <==> ToUpperEnglish(groupBy) !in k.axes
    ensures r.Done? ==> r.value.fileName == storedName + "-" + ToUpperEnglish(groupBy) + k.htmlExtension
  {
    var axis := ToUpperEnglish(groupBy);
    if axis !in k.axes then Threw(IllegalArgument)
    else
      var fileName := storedName + "-" + axis + k.htmlExtension;
      match PathsGet([k.artifactDir, requestedName, fileName])
      case None => Threw(InvalidPath)
      case Some(key) => Done(ReportKey(fileName, key))
  }

  /** The group-by parameter is matched without regard to the case of its letters. */
  lemma ResolveKeyIgnoresCase(k: ReportConstants, requestedName: string, storedName: string, groupBy: string)
    ensures ResolveKey(k, requestedName, storedName, ToUpperEnglish(groupBy)) == ResolveKey(k, requestedName, storedName, groupBy)
  {
    ToUpperIdempotent(groupBy);
  }

  /** Two spellings of the group-by that differ only in letter case give the same key or the same failure. */
  lemma ResolveKeySameUpper(k: ReportConstants, requestedName: string, storedName: string, g1: string, g2: string)
    requires ToUpperEnglish(g1) == ToUpperEnglish(g2)
    ensures ResolveKey(k, requestedName, storedName, g1) == ResolveKey(k, requestedName, storedName, g2)
  {
  }

  /** With plain names throughout, the key is "<dir>/<requested>/<stored>-<AXIS><ext>". */
  lemma ResolveKeyShape(k: ReportConstants, requestedName: string, storedName: string, groupBy: string)
    requires PlainName(k.artifactDir) && PlainName(requestedName)
    requires '/' !in storedName && '\0' !in storedName
    requires '/' !in k.htmlExtension && '\0' !in k.htmlExtension
    requires ToUpperEnglish(groupBy) in k.axes
    requires forall a :: a in k.axes ==> '/' !in a && '\0' !in a
    ensures var f := storedName + "-" + ToUpperEnglish(groupBy) + k.htmlExtension;
      ResolveKey(k, requestedName, storedName, groupBy) == Done(ReportKey(f, k.artifactDir + "/" + requestedName + "/" + f))
  {
    var axis := ToUpperEnglish(groupBy);
    var f := storedName + "-" + axis + k.htmlExtension;
    assert PlainName(f) by {
      assert f[|storedName|] == '-';
      assert forall c :: c in f ==> c in storedName || c == '-' || c in axis || c in k.htmlExtension;
    }
    PathsGetOfNames(k.artifactDir, requestedName, f);
  }

  /** When the stored name, the extension and the axes contain no '/', the served file name is the last segment of the bucket key. */
  lemma ResolveKeyFileNameIsLastSegment(k: ReportConstants, requestedName: string, storedName: string, groupBy: string)
    requires '/' !in storedName && '/' !in k.htmlExtension
    requires forall a :: a in k.axes ==> '/' !in a
    requires ResolveKey(k, requestedName, storedName, groupBy).Done?
    ensures var key := ResolveKey(k, requestedName, storedName, groupBy).value;
      LastSegment(key.bucketKey) == key.fileName
  {
    var axis := ToUpperEnglish(groupBy);
    var f := storedName + "-" + axis + k.htmlExtension;
    assert f != "" && '/' !in f by {
      assert f[|storedName|] == '-';
      assert forall c :: c in f ==> c in storedName || c == '-' || c in axis || c in k.htmlExtension;
    }
    assert [k.artifactDir, requestedName, f] == [k.artifactDir, requestedName] + [f];
    LastSegmentOfPath([k.artifactDir, requestedName], f);
  }

  /** An empty requested product name adds no directory level: the file sits directly under the artifact directory. */
  lemma ResolveKeyEmptyRequestedName(k: ReportConstants, storedName: string, groupBy: string)
    requires PlainName(k.artifactDir)
    requires '/' !in storedName && '\0' !in storedName
    requires '/' !in k.htmlExtension && '\0' !in k.htmlExtension
    requires ToUpperEnglish(groupBy) in k.axes
    requires forall a :: a in k.axes ==> '/' !in a && '\0' !in a
    ensures var f := storedName + "-" + ToUpperEnglish(groupBy) + k.htmlExtension;
      ResolveKey(k, "", storedName, groupBy) == Done(ReportKey(f, k.artifactDir + "/" + f))
  {
    var axis := ToUpperEnglish(groupBy);
    var f := storedName + "-" + axis + k.htmlExtension;
    assert PlainName(f) by {
      assert f[|storedName|] == '-';
      assert forall c :: c in f ==> c in storedName || c == '-' || c in axis || c in k.htmlExtension;
    }
    PathsGetSkipsEmpty(k.artifactDir, f);
  }

  /**
   * Once the group-by names an axis, a NUL character in the requested product name makes the
   * derivation throw InvalidPathException (an unknown axis throws IllegalArgumentException first).
   */
  lemma ResolveKeyRejectsNul(k: ReportConstants, requestedName: string, storedName: string, groupBy: string)
    requires '\0' in requestedName
    requires ToUpperEnglish(groupBy) in k.axes
    ensures ResolveKey(k, requestedName, storedName, groupBy) == Threw(InvalidPath)
  {
    var f := storedName + "-" + ToUpperEnglish(groupBy) + k.htmlExtension;
    PathsGetRejectsNul([k.artifactDir, requestedName, f], 1);
  }
}
