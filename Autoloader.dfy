/** The plugin's class autoloader: a class name, with or without its
    namespace, becomes the path of the file under `class/` that defines it. */
module Autoloader {
  import opened Common

  /** The namespace separator. */
  const Backslash: char := '\\'

  /** The last element of `explode('\\', cls)`: everything after the last backslash. */
  function LastSegment(cls: string): (r: string)
    ensures Backslash !in r
    ensures |r| <= |cls| && r == cls[|cls| - |r|..]
    // the segment is as long as it can be: it stops at a backslash or at the start
    ensures |r| < |cls| ==> cls[|cls| - |r| - 1] == Backslash
  {
    if cls == [] then []
    else if cls[|cls| - 1] == Backslash then []
    else LastSegment(cls[..|cls| - 1]) + [cls[|cls| - 1]]
  }

  /** `strtolower` on one character (ASCII letters only) followed by the `'_'` to `'-'` replacement. */
  function FileChar(c: char): (d: char)
    ensures d != '_' && !('A' <= d <= 'Z')
    ensures c == '_' ==> d == '-'
    ensures 'A' <= c <= 'Z' ==> 'a' <= d <= 'z' && d as int - 'a' as int == c as int - 'A' as int
    ensures c != '_' && !('A' <= c <= 'Z') ==> d == c
  {
    if c == '_' then '-'
    else if 'A' <= c <= 'Z' then (c as int - 'A' as int + 'a' as int) as char
    else c
  }

  /** The file-name part derived from a class name. */
  function FileName(name: string): (r: string)
    ensures |r| == |name|
    ensures forall i :: 0 <= i < |r| ==> r[i] == FileChar(name[i])
    ensures '_' !in r
  {
    seq(|name|, i requires 0 <= i < |name| => FileChar(name[i]))
  }

  /** The path the autoloader looks for, under the plugin's directory `dir`. */
  function ClassPath(dir: string, cls: string): string {
    dir + "/class/class-" + FileName(LastSegment(cls)) + ".php"
  }

  /** `autoloader`: the file it includes, if that file exists. */
  function Autoload(dir: string, cls: string, fileExists: string -> bool): (r: Option<string>)
    ensures r.Some? <==> fileExists(ClassPath(dir, cls))
    ensures r.Some? ==> r.value == ClassPath(dir, cls)
  {
    var path := ClassPath(dir, cls);
    if fileExists(path) then Some(path) else None
  }

  /** A name without a backslash is its own last segment. */
  lemma {:induction false} SegmentOfPlainName(name: string)
    requires Backslash !in name
    ensures LastSegment(name) == name
  {
    if name != [] {
      var init, last := name[..|name| - 1], name[|name| - 1];
      assert Backslash !in init by {
        assert forall k :: 0 <= k < |init| ==> init[k] == name[k];
      }
      assert LastSegment(name) == LastSegment(init) + [last] by {
        assert last != Backslash;
      }
      SegmentOfPlainName(init);
      assert name == init + [last];
    }
  }

  /** Whatever precedes the last backslash does not matter. */
  lemma {:induction false} SegmentAfterSeparator(prefix: string, name: string)
    requires Backslash !in name
    ensures LastSegment(prefix + [Backslash] + name) == name
  {
    var s := prefix + [Backslash] + name;
    if name == [] {
      assert s[|s| - 1] == Backslash;
    } else {
      var init := name[..|name| - 1];
      assert s[..|s| - 1] == prefix + [Backslash] + init;
      assert Backslash !in init;
      SegmentAfterSeparator(prefix, init);
      assert name == init + [name[|name| - 1]];
    }
  }

  /** A class resolves to the same file in every namespace. */
  lemma NamespaceIrrelevant(dir: string, ns: string, name: string)
    requires Backslash !in name
    ensures ClassPath(dir, ns + [Backslash] + name) == ClassPath(dir, name)
  {
    SegmentAfterSeparator(ns, name);
    SegmentOfPlainName(name);
  }

  /** The mapping is idempotent: a derived file name maps to itself. */
  lemma FileNameIdempotent(name: string)
    ensures FileName(FileName(name)) == FileName(name)
  {
  }

  /** Names differing only in letter case, or in `'_'` against `'-'`, share a file. */
  lemma SameFileForSpellings(a: string, b: string)
    requires |a| == |b|
    requires forall i :: 0 <= i < |a| ==> FileChar(a[i]) == FileChar(b[i])
    ensures FileName(a) == FileName(b)
  {
  }

  lemma RelationshipFileName()
    ensures FileName("Cloner_Relationship") == "cloner-relationship"
  {
  }

  /** The relationship class, named with its namespace, is found in its own file. */
  lemma RelationshipClassPath(dir: string)
    ensures ClassPath(dir, "cty_cloner" + [Backslash] + "Cloner_Relationship") == dir + "/class/class-" + "cloner-relationship" + ".php"
  {
    var name := "Cloner_Relationship";
    assert Backslash !in name;
    SegmentAfterSeparator("cty_cloner", name);
    RelationshipFileName();
  }
}
