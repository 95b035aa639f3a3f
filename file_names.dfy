/**
 * File handles and the string operations the core performs on file
 * names: `String.lastIndexOf`, `String.endsWith`, `Project.getFileExtension`
 * and the ordering `Arrays.sort` puts file names in.
 */
module FileNames {

  /**
   * A `java.io.File`, reduced to what the core reads of it: the path of
   * its parent directory (`getParent`) and its last name component
   * (`getName`).
   */
  datatype File = File(parent: string, name: string)

  /** `s.lastIndexOf(c)`: the index of the last `c` in `s`, or -1 if there is none. */
  function LastIndexOf(s: string, c: char): (i: int)
    ensures -1 <= i < |s|
    ensures 0 <= i ==> s[i] == c
    ensures forall k :: i < k < |s| ==> s[k] != c
  {
    if |s| == 0 then -1
    else if s[|s| - 1] == c then |s| - 1
    else LastIndexOf(s[..|s| - 1], c)
  }

  /** `s.endsWith(suffix)`. */
  predicate EndsWith(s: string, suffix: string) {
    |suffix| <= |s| && s[|s| - |suffix|..] == suffix
  }

  /**
   * `Project.getFileExtension`: the text after the last '.' of the name,
   * or "" when the name has no '.'.
   */
  function FileExtension(name: string): (ext: string)
    ensures '.' !in ext
    ensures '.' !in name ==> ext == ""
  {
    var i := LastIndexOf(name, '.');
    if i == -1 then "" else name[i + 1..]
  }

  /** A name with a '.' is its stem, the last '.', and its extension. */
  lemma ExtensionSplitsName(name: string)
    requires '.' in name
    ensures var ext := FileExtension(name);
      |ext| < |name| && name == name[..|name| - |ext| - 1] + "." + ext
  {
    var i := LastIndexOf(name, '.');
    assert name == name[..i] + "." + name[i + 1..];
  }

  /**
   * The order `String.compareTo` puts names in: lexicographic on
   * characters, a proper prefix first.
   */
  predicate NameAtMost(a: string, b: string) {
    if a == [] then true
    else if b == [] then false
    else if a[0] != b[0] then a[0] < b[0]
    else NameAtMost(a[1..], b[1..])
  }

  /** A sequence of files in non-decreasing order of name. */
  predicate SortedByName(files: seq<File>) {
    forall i, j :: 0 <= i < j < |files| ==> NameAtMost(files[i].name, files[j].name)
  }

  /**
   * The extension is exactly the suffix that follows a '.': a name ends
   * with "." + `ext` for an `ext` without '.' iff `ext` is its extension.
   */
  lemma {:induction false} EndsWithDotIff(name: string, ext: string)
    requires '.' !in ext
    ensures EndsWith(name, "." + ext) <==> ('.' in name && FileExtension(name) == ext)
  {
    var e := FileExtension(name);
    if EndsWith(name, "." + ext) {
      var k := |name| - |ext| - 1;
      assert name[k] == '.';
      var i := LastIndexOf(name, '.');
      assert name[k..] == "." + ext;
      assert forall j :: k < j < |name| ==> name[j] == ext[j - k - 1];
      assert i == k;
      assert name[i + 1..] == ext;
    }
    if '.' in name && e == ext {
      ExtensionSplitsName(name);
      assert name[|name| - |ext| - 1..] == "." + ext;
    }
  }
}
