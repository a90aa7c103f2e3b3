/**
 * java.nio.file.Paths.get on the Linux file system, as far as Path.toString shows it:
 * the non-empty arguments are joined with '/', and the result is normalised to its
 * name elements (no repeated '/', no trailing '/'), keeping a leading '/' for an
 * absolute path. A NUL character anywhere makes Paths.get throw InvalidPathException.
 */
module JavaPaths {
  import opened Wrappers
  import opened JavaText

  /** The name elements of one path string: its maximal runs of characters other than '/'. */
  function NameElements(s: string): (r: seq<string>)
    ensures forall i :: 0 <= i < |r| ==> r[i] != "" && '/' !in r[i]
    decreases |s|
  {
    if s == [] then []
    else if s[0] == '/' then NameElements(s[1..])
    else
      var k := IndexOf(s, '/');
      [s[..k]] + NameElements(s[k..])
  }

  /** The name elements of all the arguments, in order. */
  function Elements(parts: seq<string>): (r: seq<string>)
    ensures forall i :: 0 <= i < |r| ==> r[i] != "" && '/' !in r[i]
  {
    if parts == [] then [] else Elements(parts[..|parts| - 1]) + NameElements(parts[|parts| - 1])
  }

  /** Name elements written out with one '/' between neighbours. */
  function JoinSlash(es: seq<string>): string {
    if |es| == 0 then ""
    else if |es| == 1 then es[0]
    else JoinSlash(es[..|es| - 1]) + "/" + es[|es| - 1]
  }

  /** The joined path is absolute when its first non-empty argument starts with '/'. */
  predicate Absolute(parts: seq<string>) {
    if parts == [] then false
    else if parts[0] == "" then Absolute(parts[1..])
    else parts[0][0] == '/'
  }

  predicate NulFree(parts: seq<string>) {
    forall i :: 0 <= i < |parts| ==> '\0' !in parts[i]
  }

  /** Paths.get(parts[0], parts[1..]).toString(); None stands for InvalidPathException. */
  function PathsGet(parts: seq<string>): Option<string> {
    if !NulFree(parts) then None
    else Some((if Absolute(parts) then "/" else "") + JoinSlash(Elements(parts)))
  }

  /** The text after the last '/' of a path string (all of it when there is no '/'). */
  function LastSegment(s: string): string
    decreases |s|
  {
    if s == [] || s[|s| - 1] == '/' then [] else LastSegment(s[..|s| - 1]) + [s[|s| - 1]]
  }

  /** A non-empty string without '/' is a single name element. */
  lemma NameElementsOfName(f: string)
    requires f != "" && '/' !in f
    ensures NameElements(f) == [f]
  {
    assert IndexOf(f, '/') == |f|;
    assert f[..|f|] == f;
    assert f[|f|..] == [];
  }

  lemma {:induction false} LastSegmentOfName(f: string)
    requires '/' !in f
    ensures LastSegment(f) == f
    decreases |f|
  {
    if f != [] {
      LastSegmentOfName(f[..|f| - 1]);
      assert f[..|f| - 1] + [f[|f| - 1]] == f;
    }
  }

  lemma {:induction false} LastSegmentAfterSlash(x: string, f: string)
    requires '/' !in f
    ensures LastSegment(x + "/" + f) == f
    decreases |f|
  {
    var s := x + "/" + f;
    if f != [] {
      var g := f[..|f| - 1];
      assert s[..|s| - 1] == x + "/" + g;
      LastSegmentAfterSlash(x, g);
      assert g + [f[|f| - 1]] == f;
    } else {
      assert s[|s| - 1] == '/';
    }
  }

  /** When the last argument is a plain file name, it is the last segment of the path. */
  lemma LastSegmentOfPath(parts: seq<string>, f: string)
    requires f != "" && '/' !in f
    requires PathsGet(parts + [f]).Some?
    ensures LastSegment(PathsGet(parts + [f]).value) == f
  {
    var all := parts + [f];
    assert all[..|all| - 1] == parts;
    NameElementsOfName(f);
    var es := Elements(parts);
    assert Elements(all) == es + [f];
    var prefix := if Absolute(all) then "/" else "";
    var es' := es + [f];
    assert PathsGet(all).value == prefix + JoinSlash(es');
    if es == [] {
      assert JoinSlash(es') == f;
      if prefix == "" {
        LastSegmentOfName(f);
        assert prefix + JoinSlash(es') == f;
      } else {
        LastSegmentAfterSlash("", f);
        assert "" + "/" + f == prefix + JoinSlash(es');
      }
    } else {
      assert es'[..|es'| - 1] == es;
      assert JoinSlash(es') == JoinSlash(es) + "/" + f;
      assert prefix + JoinSlash(es') == prefix + JoinSlash(es) + "/" + f;
      LastSegmentAfterSlash(prefix + JoinSlash(es), f);
    }
  }

  lemma ElementsSnoc(parts: seq<string>, p: string)
    ensures Elements(parts + [p]) == Elements(parts) + NameElements(p)
  {
    assert (parts + [p])[..|parts|] == parts;
  }

  lemma JoinSlashSnoc(es: seq<string>, e: string)
    requires |es| >= 1
    ensures JoinSlash(es + [e]) == JoinSlash(es) + "/" + e
  {
    assert (es + [e])[..|es|] == es;
  }

  /** Arguments that are all plain names give a relative path of exactly those names. */
  lemma {:induction false} ElementsOfNames(parts: seq<string>)
    requires forall i :: 0 <= i < |parts| ==> parts[i] != "" && '/' !in parts[i]
    ensures Elements(parts) == parts
  {
    if parts != [] {
      var init := parts[..|parts| - 1];
      var last := parts[|parts| - 1];
      ElementsOfNames(init);
      NameElementsOfName(last);
      assert init + [last] == parts;
      ElementsSnoc(init, last);
    }
  }

  /** Three plain names are joined with exactly one '/' between each pair. */
  lemma PathsGetOfNames(d: string, p: string, f: string)
    requires d != "" && '/' !in d && '\0' !in d
    requires p != "" && '/' !in p && '\0' !in p
    requires f != "" && '/' !in f && '\0' !in f
    ensures PathsGet([d, p, f]) == Some(d + "/" + p + "/" + f)
  {
    var parts := [d, p, f];
    assert forall i :: 0 <= i < 3 ==> parts[i] in {d, p, f};
    ElementsOfNames(parts);
    assert [d] + [p] == [d, p] && [d, p] + [f] == parts;
    JoinSlashSnoc([d], p);
    JoinSlashSnoc([d, p], f);
    assert JoinSlash(parts) == d + "/" + p + "/" + f;
    assert !Absolute(parts) && NulFree(parts);
    assert PathsGet(parts) == Some("" + JoinSlash(parts));
    assert "" + JoinSlash(parts) == JoinSlash(parts);
  }

  /** An empty argument is skipped: it contributes neither a name nor a separator. */
  lemma PathsGetSkipsEmpty(d: string, f: string)
    requires d != "" && '/' !in d && '\0' !in d
    requires f != "" && '/' !in f && '\0' !in f
    ensures PathsGet([d, "", f]) == Some(d + "/" + f)
  {
    var parts := [d, "", f];
    assert forall i :: 0 <= i < 3 ==> parts[i] in {d, "", f};
    assert [d] + [""] == [d, ""] && [d, ""] + [f] == parts;
    ElementsOfNames([d]);
    ElementsSnoc([d], "");
    assert NameElements("") == [];
    ElementsSnoc([d, ""], f);
    NameElementsOfName(f);
    assert Elements(parts) == [d] + [f];
    JoinSlashSnoc([d], f);
    assert JoinSlash([d] + [f]) == d + "/" + f;
    assert !Absolute(parts) && NulFree(parts);
    assert PathsGet(parts) == Some("" + (d + "/" + f));
    assert "" + (d + "/" + f) == d + "/" + f;
  }

  /** A NUL character in any argument makes Paths.get fail. */
  lemma PathsGetRejectsNul(parts: seq<string>, i: nat)
    requires i < |parts| && '\0' in parts[i]
    ensures PathsGet(parts) == None
  {
  }
}
