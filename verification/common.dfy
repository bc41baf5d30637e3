/**
  Vocabulary shared by every part of the recorder model: optional values
  (the `null`/`undefined` of Java, Kotlin and JavaScript), the abstract file
  system, the `file://` scheme normalisation, and the JavaScript notions of
  whitespace, `trim()` and string length.
 */
module Common {

  /** A value that may be absent; `None` stands for `null` and `undefined`. */
  datatype Option<+T> = None | Some(value: T)

  /** JavaScript truthiness of an optional string: present and not empty. */
  predicate Truthy(o: Option<string>) {
    o.Some? && o.value != ""
  }

  /** The file system as the recorder sees it: absolute path to size in bytes.
      A path that is not a key does not exist. */
  type FileSys = map<string, nat>

  /** The file exists and holds at least one byte. */
  predicate HasContent(fs: FileSys, path: string) {
    path in fs && fs[path] > 0
  }

  // ---------------------------------------------------------------------------
  // The `file://` scheme
  // ---------------------------------------------------------------------------

  const FileScheme: string := "file://"

  predicate HasFileScheme(s: string) {
    |s| >= |FileScheme| && s[..|FileScheme|] == FileScheme
  }

  /** `s.startsWith('file://') ? s : 'file://' + s`, the normalisation every
      layer applies before it hands a path to the user interface. */
  function ToFileUri(p: string): (u: string)
    ensures HasFileScheme(u)
    ensures |u| >= |p| && u[|u| - |p|..] == p
    ensures HasFileScheme(p) ==> u == p
  {
    if HasFileScheme(p) then p else FileScheme + p
  }

  /** The path a `file://` URI designates; anything else is taken as a path. */
  function StripFileScheme(u: string): (p: string)
    ensures |p| <= |u| && u[|u| - |p|..] == p
    ensures HasFileScheme(u) ==> FileScheme + p == u
  {
    if HasFileScheme(u) then u[|FileScheme|..] else u
  }

  /** Normalising twice is normalising once. */
  lemma ToFileUriIdempotent(p: string)
    ensures ToFileUri(ToFileUri(p)) == ToFileUri(p)
  {
  }

  /** Prefixing and stripping the scheme are inverse on plain paths, so a
      normalised URI still designates the file it was made from. */
  lemma StripToFileUri(p: string)
    requires !HasFileScheme(p)
    ensures StripFileScheme(ToFileUri(p)) == p
  {
    assert ToFileUri(p) == FileScheme + p;
    assert (FileScheme + p)[..|FileScheme|] == FileScheme;
    assert (FileScheme + p)[|FileScheme|..] == p;
  }

  /** Two strings that normalise to the same URI designate the same path. */
  lemma SameUriSamePath(p: string)
    ensures StripFileScheme(ToFileUri(ToFileUri(p))) == StripFileScheme(ToFileUri(p))
  {
    ToFileUriIdempotent(p);
  }

  // ---------------------------------------------------------------------------
  // JavaScript whitespace, `trim()` and `length`
  // ---------------------------------------------------------------------------

  /** The characters JavaScript's `\s` and `String.prototype.trim` treat as
      white space: WhiteSpace and LineTerminator of the ECMAScript grammar. */
  predicate IsWhitespace(c: char) {
    || c == '\t' || c == '\n' || c == '\U{000B}' || c == '\U{000C}' || c == '\r'
    || c == ' ' || c == '\U{00A0}' || c == '\U{1680}'
    || ('\U{2000}' <= c <= '\U{200A}')
    || c == '\U{2028}' || c == '\U{2029}' || c == '\U{202F}' || c == '\U{205F}'
    || c == '\U{3000}' || c == '\U{FEFF}'
  }

  predicate AllWhitespace(s: string) {
    forall i :: 0 <= i < |s| ==> IsWhitespace(s[i])
  }

  predicate NoWhitespace(s: string) {
    forall i :: 0 <= i < |s| ==> !IsWhitespace(s[i])
  }

  /** Drops leading white space. */
  function TrimStart(s: string): (r: string)
    ensures |r| <= |s| && r == s[|s| - |r|..]
    ensures r == [] || !IsWhitespace(r[0])
    ensures AllWhitespace(s[..|s| - |r|])
  {
    if |s| > 0 && IsWhitespace(s[0]) then
      var r := TrimStart(s[1..]);
      TrimStartStep(s, r);
      r
    else
      s
  }

  /** Dropping one more leading white space character keeps the dropped
      prefix white. */
  lemma TrimStartStep(s: string, r: string)
    requires |s| > 0 && IsWhitespace(s[0])
    requires |r| <= |s| - 1 && AllWhitespace(s[1..][..|s| - 1 - |r|])
    ensures AllWhitespace(s[..|s| - |r|])
  {
    var dropped := s[..|s| - |r|];
    var rest := s[1..][..|s| - 1 - |r|];
    forall k | 0 <= k < |dropped|
      ensures IsWhitespace(dropped[k])
    {
      if k > 0 {
        assert dropped[k] == rest[k - 1];
      }
    }
  }

  /** Drops trailing white space. */
  function TrimEnd(s: string): (r: string)
    ensures |r| <= |s| && r == s[..|r|]
    ensures r == [] || !IsWhitespace(r[|r| - 1])
    ensures AllWhitespace(s[|r|..])
  {
    if |s| > 0 && IsWhitespace(s[|s| - 1]) then
      var r := TrimEnd(s[..|s| - 1]);
      TrimEndStep(s, r);
      r
    else
      s
  }

  /** Dropping one more trailing white space character keeps the dropped
      suffix white. */
  lemma TrimEndStep(s: string, r: string)
    requires |s| > 0 && IsWhitespace(s[|s| - 1])
    requires |r| <= |s| - 1 && r == s[..|s| - 1][..|r|] && AllWhitespace(s[..|s| - 1][|r|..])
    ensures r == s[..|r|]
    ensures AllWhitespace(s[|r|..])
  {
    var dropped := s[|r|..];
    var rest := s[..|s| - 1][|r|..];
    forall k | 0 <= k < |dropped|
      ensures IsWhitespace(dropped[k])
    {
      if k < |rest| {
        assert dropped[k] == rest[k];
      }
    }
  }

  /** `String.prototype.trim`. */
  function Trim(s: string): (r: string)
    ensures |r| <= |s|
    ensures r == [] || (!IsWhitespace(r[0]) && !IsWhitespace(r[|r| - 1]))
  {
    TrimEnd(TrimStart(s))
  }

  /** A string is empty after trimming exactly when it is all white space. */
  lemma TrimEmptyIffBlank(s: string)
    ensures Trim(s) == [] <==> AllWhitespace(s)
  {
    var t := TrimStart(s);
    assert t != [] ==> t[0] == s[|s| - |t|];
    assert Trim(s) == [] ==> AllWhitespace(t[0..]);
    assert s[..|s|] == s;
  }

  /** `String.prototype.length`: UTF-16 code units, so a character outside the
      Basic Multilingual Plane counts twice. */
  function Utf16Length(s: string): (n: nat)
    ensures |s| <= n <= 2 * |s|
    ensures n == 0 <==> s == []
  {
    if s == [] then 0
    else (if s[0] as int > 0xFFFF then 2 else 1) + Utf16Length(s[1..])
  }
}
