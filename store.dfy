/**
 * The project directory as a flat store from paths (relative to the
 * working directory) to file contents, with the three file helpers of
 * src/lib/fs.ts that the core uses. `JSON.parse` and `JSON.stringify` are
 * not modelled: a manifest file holds its parsed value, and a text file
 * stands for content that is not valid JSON (`touch` writes "").
 */
module Store {
  import opened Wrappers
  import opened Json

  datatype File = JsonFile(doc: Json) | TextFile(text: string)

  datatype ReadError = NotFound | ParseError | NotAnObject

  /** `join(dir, "package.json")`; the working directory itself is "". */
  function ManifestPath(dir: string): (p: string)
    ensures dir != "" ==> p != "package.json"
  {
    if dir == "" then "package.json" else dir + "/package.json"
  }

  /** What `getPackageJson(dir)` yields for the given directory contents:
      the parsed document, whatever kind of JSON value it is. */
  function ReadDocument(files: map<string, File>, dir: string): (r: Result<Json, ReadError>)
    ensures r.Ok? <==> ManifestPath(dir) in files && files[ManifestPath(dir)].JsonFile?
    ensures r.Ok? ==> files[ManifestPath(dir)] == JsonFile(r.value)
    ensures r == Err(NotFound) <==> ManifestPath(dir) !in files
  {
    var path := ManifestPath(dir);
    if path !in files then Err(NotFound)
    else match files[path]
      case TextFile(_) => Err(ParseError)
      case JsonFile(doc) => Ok(doc)
  }

  /** The manifest as an object: a document that is not a JSON object is
      refused, as the property accesses of `addEntrypoint` throw on it. */
  function ReadManifest(files: map<string, File>, dir: string): (r: Result<map<string, Json>, ReadError>)
    ensures r.Ok? ==> ManifestPath(dir) in files && files[ManifestPath(dir)] == JsonFile(Obj(r.value))
    ensures ManifestPath(dir) in files && files[ManifestPath(dir)].JsonFile? && files[ManifestPath(dir)].doc.Obj?
      ==> r.Ok?
    ensures r == Err(NotFound) <==> ManifestPath(dir) !in files
  {
    match ReadDocument(files, dir)
    case Err(e) => Err(e)
    case Ok(doc) => if doc.Obj? then Ok(doc.fields) else Err(NotAnObject)
  }

  class Disk {
    var files: map<string, File>

    constructor (files: map<string, File>)
      ensures this.files == files
    {
      this.files := files;
    }

    /** Reads and parses `package.json` in `dir`. */
    method GetPackageJson(dir: string) returns (r: Result<Json, ReadError>)
      ensures r == ReadDocument(files, dir)
    {
      var path := ManifestPath(dir);
      if path !in files {
        return Err(NotFound);
      }
      match files[path]
      case TextFile(_) => r := Err(ParseError);
      case JsonFile(doc) => r := Ok(doc);
    }

    /** Writes `contents` as `package.json` in `dir`, replacing what was there. */
    method WritePackageJson(contents: Json, dir: string)
      modifies this
      ensures files == old(files)[ManifestPath(dir) := JsonFile(contents)]
    {
      files := files[ManifestPath(dir) := JsonFile(contents)];
    }

    /** Writes "", truncating a file that already exists. */
    method Touch(path: string)
      modifies this
      ensures files == old(files)[path := TextFile("")]
    {
      files := files[path := TextFile("")];
    }
  }
}
