/** The address handling of the "load model" button: the entered address is
    trimmed, a trailing `model.json` is cut off, a trailing '/' is ensured,
    and the model and metadata files are requested under that folder. */
module ModelUrl {
  import opened Strings

  const ModelFile: string := "model.json"
  const MetadataFile: string := "metadata.json"

  /** The folder address derived from what the user entered. */
  function FormatUrl(url: string): (r: string)
    ensures EndsWith(r, "/") && !EndsWith(r, ModelFile)
    ensures |r| <= |Trim(url)| + 1
    ensures NoOuterWhitespace(r)
  {
    FolderOfTrimmed(Trim(url));
    FolderOf(Trim(url))
  }

  /** The folder for an address already trimmed: a trailing `model.json` is
      cut off and a '/' appended unless one ends it already. */
  function FolderOf(t: string): (r: string)
    ensures EndsWith(r, "/") && !EndsWith(r, ModelFile)
    ensures |r| <= |t| + 1
  {
    var u := if EndsWith(t, ModelFile) then t[..|t| - |ModelFile|] else t;
    var r := if EndsWith(u, "/") then u else u + "/";
    SlashIsNotModelFile(r);
    r
  }

  /** The folder of an address without surrounding whitespace has none
      either: it starts where the address starts and ends in '/'. */
  lemma FolderOfTrimmed(t: string)
    requires NoOuterWhitespace(t)
    ensures NoOuterWhitespace(FolderOf(t))
  {
    var u := if EndsWith(t, ModelFile) then t[..|t| - |ModelFile|] else t;
    var r := FolderOf(t);
    assert r == if EndsWith(u, "/") then u else u + "/";
    EndsWithLast(r, "/");
    if u != [] {
      assert r[0] == u[0] == t[0];
    } else {
      assert r == "/";
    }
  }

  /** An address ending in '/' does not end in the model file name. */
  lemma SlashIsNotModelFile(s: string)
    requires EndsWith(s, "/")
    ensures !EndsWith(s, ModelFile)
  {
    EndsWithLast(s, "/");
    if EndsWith(s, ModelFile) {
      EndsWithLast(s, ModelFile);
    }
  }

  /** An address without surrounding whitespace that already names a folder
      is kept as it is. */
  lemma FolderKept(url: string)
    requires NoOuterWhitespace(url) && EndsWith(url, "/")
    ensures FormatUrl(url) == url
  {
    TrimOfTrimmed(url);
    SlashIsNotModelFile(url);
  }

  /** The folder address and the address of the model file inside it give
      the same folder. */
  lemma FolderOrModelFile(folder: string)
    requires NoOuterWhitespace(folder) && !EndsWith(folder, ModelFile)
    ensures FormatUrl(folder + ModelFile) == FormatUrl(folder)
  {
    var s := folder + ModelFile;
    assert s[|s| - |ModelFile|..] == ModelFile;
    assert s[..|s| - |ModelFile|] == folder;
    assert s[|s| - 1] == 'n';
    if folder != [] {
      assert s[0] == folder[0];
    }
    TrimOfTrimmed(s);
    TrimOfTrimmed(folder);
  }

  /** An entry whose trimmed form already ends in '/' is that folder. */
  lemma FormatUrlKeepsFolder(url: string)
    requires EndsWith(Trim(url), "/")
    ensures FormatUrl(url) == Trim(url)
  {
    SlashIsNotModelFile(Trim(url));
  }

  /** An entry whose trimmed form ends in neither '/' nor `model.json` gets
      exactly one '/' appended. */
  lemma FormatUrlAppendsSlash(url: string)
    requires !EndsWith(Trim(url), "/") && !EndsWith(Trim(url), ModelFile)
    ensures FormatUrl(url) == Trim(url) + "/"
  {
  }

  /** An entry whose trimmed form is `folder` followed by `model.json` loses
      that one file name only (a second `model.json` before it is kept) and
      gets a '/' unless `folder` ends in one. */
  lemma FormatUrlCutsModelFile(url: string, folder: string)
    requires Trim(url) == folder + ModelFile
    ensures FormatUrl(url) == if EndsWith(folder, "/") then folder else folder + "/"
  {
    var t := Trim(url);
    assert t[|t| - |ModelFile|..] == ModelFile;
    assert t[..|t| - |ModelFile|] == folder;
  }

  /** Cutting happens once: `model.jsonmodel.json` keeps its first file
      name. */
  lemma CutsOnce()
    ensures FormatUrl("model.jsonmodel.json") == "model.json/"
  {
    TrimOfTrimmed("model.jsonmodel.json");
    FormatUrlCutsModelFile("model.jsonmodel.json", "model.json");
    assert !EndsWith("model.json", "/");
  }

  /** Formatting is idempotent: a formatted address is a fixed point. */
  lemma FormatUrlIdempotent(url: string)
    ensures FormatUrl(FormatUrl(url)) == FormatUrl(url)
  {
    FolderKept(FormatUrl(url));
  }

  /** Formatting an address that was trimmed already gives the same folder. */
  lemma FormatUrlOfTrimmed(url: string)
    ensures FormatUrl(Trim(url)) == FormatUrl(url)
  {
    TrimIdempotent(url);
  }

  /** The two requests the load handler issues. */
  datatype LoadRequest = LoadRequest(modelJson: string, metadataJson: string)

  /** Clicking "load model": a blank entry is refused (the user is alerted);
      otherwise the model file is requested with a cache-busting timestamp
      `now` and the metadata file beside it. */
  function OnLoadClicked(input: string, now: nat): (r: Option<LoadRequest>)
    ensures r.None? <==> Trim(input) == []
    ensures r.Some? ==> r.value.modelJson == FormatUrl(input) + ModelFile + "?v=" + Digits(now)
    ensures r.Some? ==> r.value.metadataJson == FormatUrl(input) + MetadataFile
  {
    var entered := Trim(input);
    if entered == [] then None
    else
      FormatUrlOfTrimmed(input);
      var folder := FormatUrl(entered);
      Some(LoadRequest(folder + ModelFile + "?v=" + Digits(now), folder + MetadataFile))
  }

  datatype Option<T> = None | Some(value: T)
}
