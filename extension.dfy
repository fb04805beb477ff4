/** The extensions of extension.go that work on maps: `FuncMap`, which merges
    its functions into a template's function map, and `extensionFile`, the
    `file` template function that turns a media file name into an HTML tag
    and queues the file for publishing. Whether the file exists (`os.Stat`)
    and the `hash` of a file name are parameters. */
module Extension {
  import opened Common
  import opened Handlers

  datatype Result<T> = Ok(value: T) | Err(error: string)

  // ---------------------------------------------------------------------------
  // The tables of env.go
  // ---------------------------------------------------------------------------

  /** `Filetypes`: the extensions served as each kind of media. */
  const Filetypes: map<string, seq<string>> := map[
    "img" := [".jpg", ".jpeg", ".png", ".gif", ".bmp", ".tiff", ".heic"],
    "video" := [".mp4", ".mov", ".webm", ".heiv"],
    "audio" := [".mp3", ".wav", ".flac", ".ogg", ".aac"]
  ]

  /** A format string with two `%s` verbs, as the text around them. */
  datatype Template = Template(before: string, middle: string, after: string)

  /** `FiletypesTags`: the tag written for each kind of media; both verbs
      receive the file's URL. */
  const FiletypesTags: map<string, Template> := map[
    "img" := Template("<img src=\"", "\" alt=\"", "\">"),
    "video" := Template("<video src=\"", "\" alt=\"",
      "\" preload=\"metadata\" loop autoplay muted controls>Does you browser support videos?</video>"),
    "audio" := Template("<audio src=\"", "\" alt=\"",
      "\" onloadedmetadata=\"this.volume=0.25\" controls>Does your Linux support audio?</audio>")
  ]

  /** `fmt.Sprintf(FiletypesTags[kind], url, url)`. For a kind without a
      template the format is empty and `Sprintf` reports both arguments as
      extra. */
  function TagFor(kind: string, url: string): (r: string)
    ensures kind in FiletypesTags ==>
              r == FiletypesTags[kind].before + url + FiletypesTags[kind].middle + url + FiletypesTags[kind].after
    ensures kind !in FiletypesTags ==> r == "%!(EXTRA string=" + url + ", string=" + url + ")"
  {
    if kind in FiletypesTags then
      var t := FiletypesTags[kind];
      t.before + url + t.middle + url + t.after
    else
      "%!(EXTRA string=" + url + ", string=" + url + ")"
  }

  // ---------------------------------------------------------------------------
  // The extension-to-kind table
  // ---------------------------------------------------------------------------

  /** `ext` is listed under some kind of `table`. */
  ghost predicate Listed(table: map<string, seq<string>>, ext: string)
  {
    exists kind | kind in table :: ext in table[kind]
  }

  /** `byExt` maps exactly the listed extensions, each to a kind it is listed under. */
  ghost predicate Inverts(table: map<string, seq<string>>, byExt: map<string, string>)
  {
    && (forall ext :: ext in byExt <==> Listed(table, ext))
    && (forall ext | ext in byExt :: byExt[ext] in table && ext in table[byExt[ext]])
  }

  /** No extension is listed under two kinds. */
  ghost predicate Disjoint(table: map<string, seq<string>>)
  {
    forall k1, k2, ext | k1 in table && k2 in table && ext in table[k1] && ext in table[k2] :: k1 == k2
  }

  /** The nested loops of `newExtensionFile`, which turn a kind-to-extensions
      table into an extension-to-kind table. */
  method ByExtension(table: map<string, seq<string>>) returns (byExt: map<string, string>)
    ensures Inverts(table, byExt)
  {
    byExt := map[];
    var todo := table.Keys;
    while todo != {}
      invariant todo <= table.Keys
      invariant forall ext :: ext in byExt <==> exists kind | kind in table && kind !in todo :: ext in table[kind]
      invariant forall ext | ext in byExt :: byExt[ext] in table && ext in table[byExt[ext]]
      decreases |todo|
    {
      var kind :| kind in todo;
      var exts := table[kind];
      for i := 0 to |exts|
        invariant forall ext :: ext in byExt <==>
                    (exists k | k in table && k !in todo :: ext in table[k]) || ext in exts[..i]
        invariant forall ext | ext in byExt :: byExt[ext] in table && ext in table[byExt[ext]]
      {
        assert exts[..i + 1] == exts[..i] + [exts[i]];
        byExt := byExt[exts[i] := kind];
      }
      assert exts[..|exts|] == exts;
      todo := todo - {kind};
    }
  }

  /** When no extension is listed twice, the inverted table sends every
      listed extension to the kind it is listed under, whatever order the
      loops visit the kinds in. */
  lemma InvertsDisjoint(table: map<string, seq<string>>, byExt: map<string, string>, kind: string, ext: string)
    requires Inverts(table, byExt) && Disjoint(table)
    requires kind in table && ext in table[kind]
    ensures ext in byExt && byExt[ext] == kind
  {
    assert Listed(table, ext);
  }

  /** The extensions of `Filetypes` are listed once each. */
  lemma FiletypesDisjoint()
    ensures Disjoint(Filetypes)
  {
    var img, video, audio := Filetypes["img"], Filetypes["video"], Filetypes["audio"];
    assert forall e | e in img :: e !in video && e !in audio;
    assert forall e | e in video :: e !in audio;
  }

  /** Every kind in a table inverted from `Filetypes` has a tag template. */
  lemma FiletypesTagged(byExt: map<string, string>, ext: string)
    requires Inverts(Filetypes, byExt) && ext in byExt
    ensures byExt[ext] in FiletypesTags
  {
  }

  // ---------------------------------------------------------------------------
  // filepath.Ext
  // ---------------------------------------------------------------------------

  /** `filepath.Ext` with "/" as the separator, from the back: the suffix
      from the last "." of the last path element, or empty when that
      element has no "." (see `ExtShape`). */
  function Ext(path: string): string
  {
    if path == [] then ""
    else
      var c := path[|path| - 1];
      if c == '/' then ""
      else if c == '.' then "."
      else
        var e := Ext(path[..|path| - 1]);
        if e == "" then "" else e + [c]
  }

  /** The extension is a suffix of the path that starts with its only "."
      and holds no "/"; there is none exactly when every "." of the path is
      followed by a "/". */
  lemma {:induction false} ExtShape(path: string)
    ensures var r := Ext(path);
            && (r != [] ==> r[0] == '.' && |r| <= |path| && path[|path| - |r|..] == r)
            && (r != [] ==> forall j | 0 <= j < |r| :: r[j] != '/' && (j > 0 ==> r[j] != '.'))
            && (r == [] ==> forall i | 0 <= i < |path| && path[i] == '.' :: exists j | i < j < |path| :: path[j] == '/')
  {
    if path != [] {
      var init, c := path[..|path| - 1], path[|path| - 1];
      ExtShape(init);
      var e := Ext(init);
      if c != '/' && c != '.' && e != "" {
        assert path[|path| - |e + [c]|..] == path[|init| - |e|..|init|] + [c];
      } else if c != '/' && c != '.' {
        forall i | 0 <= i < |path| && path[i] == '.'
          ensures exists j | i < j < |path| :: path[j] == '/'
        {
          assert init[i] == '.';
          var j :| i < j < |init| && init[j] == '/';
          assert path[j] == '/';
        }
      }
    }
  }

  /** A path ending in a dot and a name without dots or slashes has that
      ending as its extension. */
  lemma {:induction false} ExtOfSuffix(stem: string, name: string)
    requires forall j | 0 <= j < |name| :: name[j] != '.' && name[j] != '/'
    ensures Ext(stem + "." + name) == "." + name
  {
    if name != [] {
      var init, c := name[..|name| - 1], name[|name| - 1];
      var path := stem + "." + name;
      ExtOfSuffix(stem, init);
      assert path[|path| - 1] == c;
      assert path[..|path| - 1] == stem + "." + init;
      assert c != '/' && c != '.';
      assert Ext(path) == Ext(stem + "." + init) + [c];
      assert "." + name == ("." + init) + [c];
    } else {
      assert stem + "." + name == stem + ".";
    }
  }

  // ---------------------------------------------------------------------------
  // FuncMap
  // ---------------------------------------------------------------------------

  /** A `template.FuncMap` handed to an extension, which writes into it. */
  class FuncTable {
    var entries: map<string, TemplateFunc>

    constructor (entries: map<string, TemplateFunc>)
      ensures this.entries == entries
    {
      this.entries := entries;
    }
  }

  /** `FuncMap.Apply`: every function of `mp` is set in `funcs` under its
      name, the others stay, and the error is nil. */
  method ApplyFuncMap(mp: map<string, TemplateFunc>, funcs: FuncTable) returns (err: Option<string>)
    modifies funcs
    ensures funcs.entries == old(funcs.entries) + mp
    ensures err == None
  {
    ghost var entries0 := funcs.entries;
    var todo := mp.Keys;
    while todo != {}
      invariant todo <= mp.Keys
      invariant funcs.entries == entries0 + map k | k in mp.Keys - todo :: mp[k]
      decreases |todo|
    {
      var k :| k in todo;
      funcs.entries := funcs.entries[k := mp[k]];
      todo := todo - {k};
    }
    assert mp == map k | k in mp.Keys - {} :: mp[k];
    err := None;
  }

  // ---------------------------------------------------------------------------
  // extensionFile
  // ---------------------------------------------------------------------------

  const FileUrlPrefix: string := "/mono/file/"
  const FileFuncName: string := "file"

  /** `extensionFile`: the files queued for publishing, the URLs of those
      already published, and the extension-to-kind table. */
  class ExtensionFile {
    var files: seq<string>
    var urls: map<string, string>
    var filetypes: map<string, string>

    constructor (filetypes: map<string, string>)
      ensures files == [] && urls == map[] && this.filetypes == filetypes
    {
      files := [];
      urls := map[];
      this.filetypes := filetypes;
    }

    /** `url`: the URL a file is published under and whether it is already
        published; a new URL is the hash of the name under `/mono/file/`,
        keeping the extension. */
    function Url(filename: string, hash: string -> string): (r: (string, bool))
      reads this
      ensures r.1 <==> filename in urls
      ensures r.1 ==> r.0 == urls[filename]
      ensures !r.1 ==> HasPrefix(r.0, FileUrlPrefix) && r.0[|FileUrlPrefix|..] == hash(filename) + Ext(filename)
    {
      if filename in urls then (urls[filename], true)
      else (FileUrlPrefix + hash(filename) + Ext(filename), false)
    }

    /** The body of the `file` template function. `statError` is the error
        `os.Stat` reports for the file, if any. An unknown extension is an
        error; otherwise the result is the file's tag, and a file not yet
        published is queued (again, if it already was). */
    method File(filename: string, statError: Option<string>, hash: string -> string) returns (r: Result<string>)
      modifies this
      ensures urls == old(urls) && filetypes == old(filetypes)
      ensures statError.Some? ==> r == Err(statError.value) && files == old(files)
      ensures statError.None? && Ext(filename) !in filetypes ==>
                r == Err("unexpected file extension: " + filename) && files == old(files)
      ensures statError.None? && Ext(filename) in filetypes ==>
                && r == Ok(TagFor(filetypes[Ext(filename)], Url(filename, hash).0))
                && files == old(files) + (if filename in urls then [] else [filename])
    {
      if statError.Some? {
        return Err(statError.value);
      }
      var ext := Ext(filename);
      if ext !in filetypes {
        return Err("unexpected file extension: " + filename);
      }
      var kind := filetypes[ext];
      var (url, cached) := Url(filename, hash);
      if !cached {
        files := files + [filename];
      }
      r := Ok(TagFor(kind, url));
    }

    /** `extensionFile.Apply`: registers the `file` function. */
    method Apply(funcs: FuncTable) returns (err: Option<string>)
      modifies funcs
      ensures funcs.entries == old(funcs.entries)[FileFuncName := TemplateFunc(FileFuncName)]
      ensures err == None
    {
      funcs.entries := funcs.entries[FileFuncName := TemplateFunc(FileFuncName)];
      err := None;
    }
  }

  /** `newExtensionFile`: nothing queued, nothing published, and the
      extension-to-kind table inverted from `table` (`Filetypes`). */
  method NewExtensionFile(table: map<string, seq<string>>) returns (extension: ExtensionFile)
    ensures fresh(extension)
    ensures extension.files == [] && extension.urls == map[]
    ensures Inverts(table, extension.filetypes)
  {
    var byExt := ByExtension(table);
    extension := new ExtensionFile(byExt);
  }

  /** A photo in a fresh extension gets an image tag. */
  lemma PhotoIsImage(byExt: map<string, string>)
    requires Inverts(Filetypes, byExt)
    ensures ".png" in byExt && byExt[".png"] == "img"
  {
    FiletypesDisjoint();
    InvertsDisjoint(Filetypes, byExt, "img", ".png");
  }
}
