/**
  `validateAudioFile(uri)`: the check run on a recording before it is played
  or uploaded. The URI gets the `file://` scheme; the file must exist, must
  not be empty and must load as audio. File information comes from the
  abstract file system; whether the audio loads, and any exception from the
  file-information call, are outcomes handed in.
 */
module AudioValidation {
  import opened Common

  /** The object `validateAudioFile` resolves to. `details` is the loader's
      message, present only when loading failed. */
  datatype AudioCheck = AudioCheck(
    valid: bool,
    error: Option<string>,
    details: Option<string>,
    uri: string,
    size: Option<nat>)

  /** How the attempt to load the audio ends: it loads, or throws a message. */
  datatype LoadResult = Loads | LoadFails(message: string)

  const MissingFile: string := "File doesn't exist"
  const EmptyFile: string := "File is empty"
  const UnloadableFile: string := "Could not load audio file"

  /** `validateAudioFile(uri)`. `infoError` is the message of an exception
      thrown while reading the file's information, which the outer `catch`
      reports against the URI as given. */
  function ValidateAudioFile(uri: string, fs: FileSys, infoError: Option<string>, load: LoadResult): (r: AudioCheck)
    ensures infoError.Some? ==> r == AudioCheck(false, infoError, None, uri, None)
    ensures infoError.None? ==> r.uri == ToFileUri(uri)
    ensures r.valid <==> infoError.None? && HasContent(fs, StripFileScheme(ToFileUri(uri))) && load.Loads?
    ensures r.valid ==> r.error.None? && r.size == Some(fs[StripFileScheme(ToFileUri(uri))])
    ensures !r.valid ==> r.error.Some? && r.size.None?
    ensures infoError.None? && StripFileScheme(ToFileUri(uri)) !in fs ==> r.error == Some(MissingFile)
    ensures infoError.None? && StripFileScheme(ToFileUri(uri)) in fs && fs[StripFileScheme(ToFileUri(uri))] == 0 ==>
      r.error == Some(EmptyFile)
  {
    var normalized := ToFileUri(uri);
    var path := StripFileScheme(normalized);
    if infoError.Some? then AudioCheck(false, infoError, None, uri, None)
    else if path !in fs then AudioCheck(false, Some(MissingFile), None, normalized, None)
    else if fs[path] == 0 then AudioCheck(false, Some(EmptyFile), None, normalized, None)
    else match load
      case Loads => AudioCheck(true, None, None, normalized, Some(fs[path]))
      case LoadFails(msg) => AudioCheck(false, Some(UnloadableFile), Some(msg), normalized, None)
  }

  /** Validation does not care whether the caller already added the scheme:
      a path and its `file://` URI give the same verdict on the same file. */
  lemma ValidationIgnoresScheme(uri: string, fs: FileSys, load: LoadResult)
    ensures ValidateAudioFile(ToFileUri(uri), fs, None, load) == ValidateAudioFile(uri, fs, None, load)
  {
    ToFileUriIdempotent(uri);
  }

  /** A plain path is checked against itself: the URI designates exactly the
      path it was made from. */
  lemma ValidationChecksThePath(path: string, fs: FileSys, load: LoadResult)
    requires !HasFileScheme(path)
    ensures ValidateAudioFile(path, fs, None, load).valid <==> HasContent(fs, path) && load.Loads?
    ensures ValidateAudioFile(path, fs, None, load).valid ==>
      ValidateAudioFile(path, fs, None, load).size == Some(fs[path])
  {
    StripToFileUri(path);
  }
}
