/** `upload.service.ts`: names, places and checks uploaded images. */
module Upload {
  import opened Wrappers
  import opened Strings

  /** The defaults `configService.get(key, default)` falls back to. */
  const DefaultUploadDir: string := "./uploads"
  const DefaultBaseUrl: string := "http://localhost:3000"
  const DefaultAllowedFileTypes: string := "jpg,jpeg,png"
  const DefaultMaxFileSize: int := 5242880

  /** The configuration entries the service reads; `None` is an unset entry. */
  datatype Settings = Settings(
    uploadDir: Option<string>,
    baseUrl: Option<string>,
    allowedFileTypes: Option<string>,
    maxFileSize: Option<int>)

  /** `configService.get(key, default)`. */
  function Setting<T>(configured: Option<T>, default: T): (r: T)
    ensures configured.Some? ==> r == configured.value
    ensures configured.None? ==> r == default
  {
    match configured
    case Some(v) => v
    case None => default
  }

  /** The service's `baseUrl` field, fixed by the constructor. */
  function BaseUrl(settings: Settings): string
  {
    Setting(settings.baseUrl, DefaultBaseUrl)
  }

  // ---------------------------------------------------------------- file type

  /** `mimetype.split('/')[1]`: `undefined` (here `None`) when there is no '/'. */
  function Subtype(mimetype: string): (r: Option<string>)
    ensures r.None? <==> '/' !in mimetype
    ensures r.Some? ==> '/' !in r.value
  {
    var parts := Split(mimetype, '/');
    if |parts| > 1 then Some(parts[1]) else None
  }

  /** `validateFileType(mimetype)`: the part after the first '/' is one of the
      comma-separated allowed types. */
  function ValidateFileType(settings: Settings, mimetype: string): bool
  {
    var allowedTypes := Split(Setting(settings.allowedFileTypes, DefaultAllowedFileTypes), ',');
    var fileExt := Subtype(mimetype);
    fileExt.Some? && fileExt.value in allowedTypes
  }

  /** The text up to the first '/', or all of it. */
  function FirstSegment(t: string): string
  {
    if '/' in t then t[..IndexOf(t, '/')] else t
  }

  /** The subtype is the text between the first '/' and the next '/' or the end. */
  lemma SubtypeSpec(mimetype: string)
    requires '/' in mimetype
    ensures Subtype(mimetype) == Some(FirstSegment(mimetype[IndexOf(mimetype, '/') + 1..]))
  {
    var i := IndexOf(mimetype, '/');
    SplitAt(mimetype, '/', i);
  }

  /** A MIME type with exactly one '/' has the rest of the text as its subtype. */
  lemma SubtypeOf(mimetype: string, i: nat)
    requires i < |mimetype| && mimetype[i] == '/'
    requires '/' !in mimetype[..i] && '/' !in mimetype[i + 1..]
    ensures Subtype(mimetype) == Some(mimetype[i + 1..])
  {
    SplitAt(mimetype, '/', i);
  }

  /** The default list is exactly jpg, jpeg and png. */
  lemma DefaultTypes()
    ensures Split(DefaultAllowedFileTypes, ',') == ["jpg", "jpeg", "png"]
  {
    SplitDefault(DefaultAllowedFileTypes);
  }

  lemma SplitDefault(s: string)
    requires s == "jpg,jpeg,png"
    ensures Split(s, ',') == ["jpg", "jpeg", "png"]
  {
    var t := s[4..];
    DefaultPieces(s, t);
    SplitAt(s, ',', 3);
    SplitAt(t, ',', 4);
    var u := t[5..];
    assert Split(u, ',') == [u];
  }

  lemma DefaultPieces(s: string, t: string)
    requires s == "jpg,jpeg,png" && t == s[4..]
    ensures s[3] == ',' && ',' !in s[..3] && s[..3] == "jpg"
    ensures t[4] == ',' && ',' !in t[..4] && t[..4] == "jpeg" && t[5..] == "png" && ',' !in t[5..]
  {
  }

  lemma InDefault(w: string, list: seq<string>)
    requires list == ["jpg", "jpeg", "png"]
    ensures w in list <==> w == "jpg" || w == "jpeg" || w == "png"
  {
  }

  /** With no configured list, a MIME type passes iff its subtype is jpg, jpeg
      or png; a type without '/' never passes, whatever the list. */
  lemma ValidateFileTypeSpec(settings: Settings, mimetype: string)
    ensures '/' !in mimetype ==> !ValidateFileType(settings, mimetype)
    ensures settings.allowedFileTypes.None? ==>
      (ValidateFileType(settings, mimetype) <==>
        (Subtype(mimetype).Some?
         && (Subtype(mimetype).value == "jpg" || Subtype(mimetype).value == "jpeg" || Subtype(mimetype).value == "png")))
  {
    if settings.allowedFileTypes.None? && Subtype(mimetype).Some? {
      DefaultTypes();
      InDefault(Subtype(mimetype).value, Split(DefaultAllowedFileTypes, ','));
    }
  }

  /** Under the default list an `image/...` type passes iff its subtype is
      jpg, jpeg or png, so `image/gif` and `image/svg+xml` are refused. */
  lemma ImageTypes(settings: Settings, sub: string)
    requires settings.allowedFileTypes.None? && '/' !in sub
    ensures ValidateFileType(settings, "image/" + sub) <==> sub == "jpg" || sub == "jpeg" || sub == "png"
  {
    ImageSubtype("image/" + sub, sub);
    ValidateFileTypeSpec(settings, "image/" + sub);
  }

  lemma ImageSubtype(mimetype: string, sub: string)
    requires mimetype == "image/" + sub && '/' !in sub
    ensures Subtype(mimetype) == Some(sub)
  {
    assert mimetype[..5] == "image" && mimetype[6..] == sub;
    SubtypeOf(mimetype, 5);
  }

  // ---------------------------------------------------------------- file size

  /** `validateFileSize(size)`: at most the configured maximum, 5 MiB by default. */
  function ValidateFileSize(settings: Settings, size: int): bool
  {
    size <= Setting(settings.maxFileSize, DefaultMaxFileSize)
  }

  /** The bound is inclusive and the check is monotone: anything smaller than
      an accepted size is accepted too. */
  lemma ValidateFileSizeSpec(settings: Settings, size: int, smaller: int)
    ensures settings.maxFileSize.None? ==> (ValidateFileSize(settings, size) <==> size <= 5 * 1024 * 1024)
    ensures settings.maxFileSize.Some? ==> ValidateFileSize(settings, settings.maxFileSize.value)
    ensures ValidateFileSize(settings, size) && smaller <= size ==> ValidateFileSize(settings, smaller)
  {
  }

  // ---------------------------------------------------------------- saving

  /** The last position of `c` in `s`. */
  function LastIndexOf(s: string, c: char): (r: Option<nat>)
    ensures r.None? <==> c !in s
    ensures r.Some? ==> r.value < |s| && s[r.value] == c && c !in s[r.value + 1..]
  {
    if s == [] then None
    else if s[|s| - 1] == c then Some(|s| - 1)
    else
      var r := LastIndexOf(s[..|s| - 1], c);
      assert s == s[..|s| - 1] + [s[|s| - 1]];
      r
  }

  /** The last path component. */
  function Basename(path: string): (r: string)
    ensures |r| <= |path| && r == path[|path| - |r|..]
    ensures '/' !in r
  {
    match LastIndexOf(path, '/')
    case None => path
    case Some(k) => path[k + 1..]
  }

  /** `path.extname(p)`: from the last '.' of the last component to its end,
      or empty when that component has no '.' or only a leading one. */
  function Extname(path: string): (r: string)
    ensures |r| <= |path| && r == path[|path| - |r|..]
    ensures r == "" || (r[0] == '.' && '.' !in r[1..] && '/' !in r)
  {
    var base := Basename(path);
    match LastIndexOf(base, '.')
    case None => ""
    case Some(k) =>
      if k == 0 then ""
      else
        ExtensionOfBase(path, base, k);
        base[k..]
  }

  lemma ExtensionOfBase(path: string, base: string, k: nat)
    requires |base| <= |path| && base == path[|path| - |base|..] && '/' !in base
    requires 0 < k < |base| && base[k] == '.' && '.' !in base[k + 1..]
    ensures |base[k..]| <= |path| && base[k..] == path[|path| - |base[k..]|..]
    ensures base[k..][0] == '.' && '.' !in base[k..][1..] && '/' !in base[k..]
  {
    assert base[k..][1..] == base[k + 1..];
    assert forall j :: 0 <= j < |base[k..]| ==> base[k..][j] == base[k + j];
  }

  predicate IsLowerHex(c: char)
  {
    '0' <= c <= '9' || 'a' <= c <= 'f'
  }

  /** What `randomBytes(8).toString('hex')` yields: 16 lower-case hex digits. */
  predicate RandomHex(hex: string)
  {
    |hex| == 16 && forall k :: 0 <= k < |hex| ==> IsLowerHex(hex[k])
  }

  /** The stored name `${Date.now()}-${hex}${ext}`. */
  function FileName(now: nat, hex: string, originalname: string): string
  {
    NatToString(now) + "-" + hex + Extname(originalname)
  }

  datatype SavedFile = SavedFile(filename: string, url: string)

  /** `saveFile(file)`: the stored name and the public URL under `/uploads/`;
      the clock and the random bytes are parameters, the write is left out. */
  function SaveFile(settings: Settings, now: nat, hex: string, originalname: string): (r: SavedFile)
    requires RandomHex(hex)
    ensures r.filename == FileName(now, hex, originalname)
    ensures r.url == BaseUrl(settings) + "/uploads/" + r.filename
  {
    var filename := FileName(now, hex, originalname);
    SavedFile(filename, BaseUrl(settings) + "/uploads/" + filename)
  }

  lemma LastIndexOfIs(s: string, c: char, k: nat)
    requires k < |s| && s[k] == c && c !in s[k + 1..]
    ensures LastIndexOf(s, c) == Some(k)
  {
  }

  /** The generated prefix `${Date.now()}-${hex}` holds neither '.' nor '/'. */
  lemma PrefixPlain(now: nat, hex: string)
    requires RandomHex(hex)
    ensures '.' !in NatToString(now) + "-" + hex && '/' !in NatToString(now) + "-" + hex
  {
    var digits := NatToString(now);
    var prefix := digits + "-" + hex;
    forall k | 0 <= k < |prefix| ensures prefix[k] != '.' && prefix[k] != '/' {
      if k < |digits| {
        assert prefix[k] == digits[k];
      } else if k > |digits| {
        assert prefix[k] == hex[k - |digits| - 1];
      }
    }
  }

  /** The stored name is a single path component that keeps the upload's
      extension: the prefix holds no '.' or '/', so the extension is found
      again exactly where it was appended. */
  lemma SaveFileKeepsExtension(settings: Settings, now: nat, hex: string, originalname: string)
    requires RandomHex(hex)
    ensures Basename(SaveFile(settings, now, hex, originalname).filename) == SaveFile(settings, now, hex, originalname).filename
    ensures Extname(SaveFile(settings, now, hex, originalname).filename) == Extname(originalname)
  {
    var prefix := NatToString(now) + "-" + hex;
    var ext := Extname(originalname);
    PrefixPlain(now, hex);
    KeepsExtension(prefix, ext);
  }

  lemma KeepsExtension(prefix: string, ext: string)
    requires '.' !in prefix && '/' !in prefix && prefix != ""
    requires ext == "" || (ext[0] == '.' && '.' !in ext[1..] && '/' !in ext)
    ensures Basename(prefix + ext) == prefix + ext
    ensures Extname(prefix + ext) == ext
  {
    var f := prefix + ext;
    assert '/' !in f by {
      forall k | 0 <= k < |f| ensures f[k] != '/' {
        if k >= |prefix| { assert f[k] == ext[k - |prefix|]; } else { assert f[k] == prefix[k]; }
      }
    }
    if ext == "" {
      assert f == prefix;
    } else {
      assert f[|prefix|] == '.';
      assert f[|prefix| + 1..] == ext[1..];
      LastIndexOfIs(f, '.', |prefix|);
      assert f[|prefix|..] == ext;
    }
  }

  /** With no `BASE_URL` configured, files are served from
      `http://localhost:3000/uploads/`. */
  lemma DefaultUrl(settings: Settings, now: nat, hex: string, originalname: string)
    requires RandomHex(hex) && settings.baseUrl.None?
    ensures SaveFile(settings, now, hex, originalname).url
      == "http://localhost:3000/uploads/" + FileName(now, hex, originalname)
  {
    var filename := FileName(now, hex, originalname);
    Associative(DefaultBaseUrl, "/uploads/", filename);
    DefaultUrlText(DefaultBaseUrl);
  }

  lemma DefaultUrlText(base: string)
    requires base == "http://localhost:3000"
    ensures base + "/uploads/" == "http://localhost:3000/uploads/"
  {
  }

  /** A name with a dot after its first character keeps the text from its
      last dot; a dot file such as `.profile` has no extension. */
  lemma ExtnameSpec(stem: string, ext: string)
    requires '/' !in stem && '/' !in ext && '.' !in ext
    ensures stem != "" ==> Extname(stem + "." + ext) == "." + ext
    ensures Extname("." + ext) == ""
  {
    DotFile(ext);
    if stem != "" {
      StemAndExtension(stem, ext);
    }
  }

  lemma DotFile(ext: string)
    requires '/' !in ext && '.' !in ext
    ensures Extname("." + ext) == ""
  {
    var dotfile := "." + ext;
    assert dotfile[1..] == ext;
    LastIndexOfIs(dotfile, '.', 0);
    assert Basename(dotfile) == dotfile;
  }

  lemma StemAndExtension(stem: string, ext: string)
    requires stem != "" && '/' !in stem && '/' !in ext && '.' !in ext
    ensures Extname(stem + "." + ext) == "." + ext
  {
    var f := stem + "." + ext;
    assert Basename(f) == f by {
      JoinedPlain(stem, ext);
    }
    assert LastIndexOf(f, '.') == Some(|stem|) by {
      assert f[|stem| + 1..] == ext;
      LastIndexOfIs(f, '.', |stem|);
    }
    assert f[|stem|..] == "." + ext;
  }

  /** Joining two names without '/' by a '.' gives a name without '/'. */
  lemma JoinedPlain(stem: string, ext: string)
    requires '/' !in stem && '/' !in ext
    ensures '/' !in stem + "." + ext
  {
    var f := stem + "." + ext;
    forall k | 0 <= k < |f| ensures f[k] != '/' {
      if k < |stem| { assert f[k] == stem[k]; } else if k > |stem| { assert f[k] == ext[k - |stem| - 1]; }
    }
  }
}
