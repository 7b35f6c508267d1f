/** The pure parts of collateral image handling in
    src/controllers/loanController.ts:
    - the image pattern that the application schema checks (936-949);
    - `saveBase64Image`: the data-URL parse, the type whitelist, the 5 MB
      limit and the generated filename (975-1017);
    - `getCollateralImage`: the directory-traversal guard and the
      extension to content-type map (1147-1171).

    Writing, deleting and streaming files are left to the host; the
    answers of `fs.existsSync`, `Date.now()` and `crypto.randomBytes`, and
    the decoded size of the base64 data, come in as parameters. */
module CollateralFiles {
  import opened Common

  const AllowedTypes: seq<string> := ["jpeg", "jpg", "png", "gif", "webp"]
  const MaxImageBytes: nat := 5 * 1024 * 1024
  const DataPrefix: string := "data:image/"
  const Base64Marker: string := ";base64,"

  predicate IsAlnum(c: char) {
    'a' <= c <= 'z' || 'A' <= c <= 'Z' || '0' <= c <= '9'
  }

  predicate AllAlnum(s: string) {
    forall i :: 0 <= i < |s| ==> IsAlnum(s[i])
  }

  /** The length of the longest prefix of `s` made of letters and digits:
      what the greedy group `([a-zA-Z0-9]+)` takes. */
  function AlnumRun(s: string): (k: nat)
    ensures k <= |s| && AllAlnum(s[..k])
    ensures k < |s| ==> !IsAlnum(s[k])
  {
    if s == [] || !IsAlnum(s[0]) then 0
    else
      var k := 1 + AlnumRun(s[1..]);
      assert s[..k] == [s[0]] + s[1..][..k - 1];
      k
  }

  /** What `.` does not match in a JavaScript regular expression. */
  predicate IsLineTerminator(c: char) {
    c == '\n' || c == '\r' || c as int == 0x2028 || c as int == 0x2029
  }

  predicate NoLineTerminator(data: string) {
    forall i :: 0 <= i < |data| ==> !IsLineTerminator(data[i])
  }

  datatype DataUrl = DataUrl(imageType: string, data: string)

  predicate WellFormedDataUrl(u: DataUrl) {
    u.imageType != [] && AllAlnum(u.imageType) && u.data != [] && NoLineTerminator(u.data)
  }

  function DataUrlText(u: DataUrl): string {
    DataPrefix + u.imageType + Base64Marker + u.data
  }

  /** The match of `/^data:image\/([a-zA-Z0-9]+);base64,(.+)$/`: the image
      type and the base64 data, or None when the text does not match. */
  function ParseDataUrl(s: string): (r: Option<DataUrl>)
    ensures r.Some? ==> WellFormedDataUrl(r.value) && DataUrlText(r.value) == s
  {
    if DataPrefix <= s then
      var r := ParseTypeAndData(s[|DataPrefix|..]);
      PrefixRest(DataPrefix, s);
      r
    else None
  }

  lemma PrefixRest(p: string, s: string)
    requires p <= s
    ensures s == p + s[|p|..]
  {
  }

  /** What follows `data:image/`: the greedy type group, then `;base64,`
      and at least one more character, none of them a line terminator. */
  function ParseTypeAndData(rest: string): (r: Option<DataUrl>)
    ensures r.Some? ==> WellFormedDataUrl(r.value) && r.value.imageType + Base64Marker + r.value.data == rest
  {
    var k := AlnumRun(rest);
    var after := rest[k..];
    if k > 0 && Base64Marker <= after then
      var data := after[|Base64Marker|..];
      if data != [] && NoLineTerminator(data) then
        assert rest == rest[..k] + (Base64Marker + data);
        Some(DataUrl(rest[..k], data))
      else None
    else None
  }

  /** The greedy type group stops at the `;` that follows the type. */
  lemma AlnumRunOfTyped(t: string, tail: string)
    requires AllAlnum(t) && tail != [] && tail[0] == ';'
    ensures AlnumRun(t + tail) == |t|
  {
    var s := t + tail;
    assert s[|t|] == ';';
    assert s[..|t|] == t;
  }

  /** Every well-formed data URL is matched, with its own type and data. */
  lemma ParseDataUrlComplete(u: DataUrl)
    requires WellFormedDataUrl(u)
    ensures ParseDataUrl(DataUrlText(u)) == Some(u)
  {
    var s := DataUrlText(u);
    assert s == DataPrefix + (u.imageType + (Base64Marker + u.data));
    var rest := s[|DataPrefix|..];
    assert rest == u.imageType + (Base64Marker + u.data);
    AlnumRunOfTyped(u.imageType, Base64Marker + u.data);
    var after := rest[|u.imageType|..];
    assert after == Base64Marker + u.data;
    assert after[|Base64Marker|..] == u.data;
    assert rest[..|u.imageType|] == u.imageType;
  }

  /** The schema's `pattern(/^data:image\/(jpeg|jpg|png|gif|webp);base64,/)`. */
  predicate SchemaImagePattern(s: string) {
    exists i :: 0 <= i < |AllowedTypes| && DataPrefix + AllowedTypes[i] + Base64Marker <= s
  }

  datatype ImageError = InvalidFormat | UnsupportedType(imageType: string) | TooLarge

  /** What the host contributes to saving one image: `Date.now()`, the hex
      text of `crypto.randomBytes(8)` and the size of the decoded data. */
  datatype ImageEnv = ImageEnv(timestamp: nat, randomHex: string, decodedSize: nat)

  function Extension(imageType: string): string {
    if imageType == "jpeg" then "jpg" else imageType
  }

  /** `${userId}_${timestamp}_${randomId}.${ext}`. */
  function SavedFileName(userId: string, timestamp: nat, randomHex: string, imageType: string): string {
    userId + "_" + NatToString(timestamp) + "_" + randomHex + "." + Extension(imageType)
  }

  /** `saveBase64Image`: the name of the saved file, or the error it throws. */
  function SaveImage(dataUrl: string, userId: string, env: ImageEnv): (r: Result<string, ImageError>)
    ensures ParseDataUrl(dataUrl).None? ==> r == Err(InvalidFormat)
    ensures r.Ok? <==> && ParseDataUrl(dataUrl).Some?
                       && LowerAscii(ParseDataUrl(dataUrl).value.imageType) in AllowedTypes
                       && env.decodedSize <= MaxImageBytes
    ensures ParseDataUrl(dataUrl).Some? ==>
              var t := LowerAscii(ParseDataUrl(dataUrl).value.imageType);
              && (t !in AllowedTypes ==> r == Err(UnsupportedType(t)))
              && (t in AllowedTypes && env.decodedSize > MaxImageBytes ==> r == Err(TooLarge))
              && (r.Ok? ==> r.value == SavedFileName(userId, env.timestamp, env.randomHex, t)
                            && ContentTypeFor(r.value) == MimeFor(t))
  {
    match ParseDataUrl(dataUrl)
    case None => Err(InvalidFormat)
    case Some(u) => CheckAndName(LowerAscii(u.imageType), userId, env)
  }

  /** The whitelist, the size limit and the name, once the type is known. */
  function CheckAndName(imageType: string, userId: string, env: ImageEnv): (r: Result<string, ImageError>)
    ensures r.Ok? <==> imageType in AllowedTypes && env.decodedSize <= MaxImageBytes
    ensures imageType !in AllowedTypes ==> r == Err(UnsupportedType(imageType))
    ensures imageType in AllowedTypes && env.decodedSize > MaxImageBytes ==> r == Err(TooLarge)
    ensures r.Ok? ==> r.value == SavedFileName(userId, env.timestamp, env.randomHex, imageType)
                      && ContentTypeFor(r.value) == MimeFor(imageType)
  {
    if imageType !in AllowedTypes then Err(UnsupportedType(imageType))
    else if env.decodedSize > MaxImageBytes then Err(TooLarge)
    else
      SavedFileServedAsItsType(userId, env.timestamp, env.randomHex, imageType);
      Ok(SavedFileName(userId, env.timestamp, env.randomHex, imageType))
  }

  /** The loop of `createLoan` that saves the images one after another
      (src/controllers/loanController.ts:1083-1086): it stops at the first
      failure; otherwise it yields one filename per image, in input order. */
  function SaveAll(images: seq<string>, userId: string, env: seq<ImageEnv>): (r: Result<seq<string>, ImageError>)
    requires |env| == |images|
    ensures r.Ok? ==> |r.value| == |images|
                      && forall i :: 0 <= i < |images| ==> SaveImage(images[i], userId, env[i]) == Ok(r.value[i])
  {
    if images == [] then Ok([])
    else
      var first := SaveImage(images[0], userId, env[0]);
      if first.Err? then Err(first.error)
      else
        var rest := SaveAll(images[1..], userId, env[1..]);
        if rest.Err? then Err(rest.error)
        else
          SaveAllCons(images, userId, env, first.value, rest.value);
          Ok([first.value] + rest.value)
  }

  lemma SaveAllCons(images: seq<string>, userId: string, env: seq<ImageEnv>, name: string, names: seq<string>)
    requires |env| == |images| > 0 && |names| == |images| - 1
    requires SaveImage(images[0], userId, env[0]) == Ok(name)
    requires forall i :: 0 <= i < |images| - 1 ==> SaveImage(images[1..][i], userId, env[1..][i]) == Ok(names[i])
    ensures forall i :: 0 <= i < |images| ==> SaveImage(images[i], userId, env[i]) == Ok(([name] + names)[i])
  {
    var all := [name] + names;
    assert all[0] == name;
    forall i | 0 < i < |images|
      ensures SaveImage(images[i], userId, env[i]) == Ok(all[i])
    {
      var j := i - 1;
      assert images[1..][j] == images[i] && env[1..][j] == env[i] && all[i] == names[j];
    }
  }

  /** When saving fails, it fails with the error of the first image that
      could not be saved, after every image before it was saved. */
  lemma {:induction false} SaveAllStopsAtFirstFailure(images: seq<string>, userId: string, env: seq<ImageEnv>)
    requires |env| == |images|
    requires SaveAll(images, userId, env).Err?
    ensures exists i :: 0 <= i < |images| && SaveImage(images[i], userId, env[i]) == Err(SaveAll(images, userId, env).error)
                        && forall j :: 0 <= j < i ==> SaveImage(images[j], userId, env[j]).Ok?
  {
    var e := SaveAll(images, userId, env).error;
    if SaveImage(images[0], userId, env[0]).Err? {
      assert SaveImage(images[0], userId, env[0]) == Err(e);
    } else {
      SaveAllStopsAtFirstFailure(images[1..], userId, env[1..]);
      var i :| 0 <= i < |images| - 1 && SaveImage(images[1..][i], userId, env[1..][i]) == Err(e)
               && forall j :: 0 <= j < i ==> SaveImage(images[1..][j], userId, env[1..][j]).Ok?;
      assert SaveImage(images[i + 1], userId, env[i + 1]) == Err(e);
      forall j | 0 <= j < i + 1
        ensures SaveImage(images[j], userId, env[j]).Ok?
      {
        if j > 0 { assert images[j] == images[1..][j - 1] && env[j] == env[1..][j - 1]; }
      }
    }
  }

  predicate NoUpper(t: string) {
    forall i :: 0 <= i < |t| ==> !('A' <= t[i] <= 'Z')
  }

  lemma LowerOfNoUpper(t: string)
    requires NoUpper(t)
    ensures LowerAscii(t) == t
  {
  }

  /** Each whitelisted type is a non-empty lower-case word. */
  lemma AllowedTypeFacts(t: string)
    requires t in AllowedTypes
    ensures t != [] && AllAlnum(t) && NoUpper(t) && '.' !in t && '/' !in t && '\\' !in t
  {
    var i :| 0 <= i < 5 && AllowedTypes[i] == t;
    if i == 0 { assert t == "jpeg"; }
    else if i == 1 { assert t == "jpg"; }
    else if i == 2 { assert t == "png"; }
    else if i == 3 { assert t == "gif"; }
    else { assert t == "webp"; }
  }

  /** A text that starts with `data:image/`, a type and `;base64,` parses
      (when it parses at all) with exactly that type. */
  lemma ParsedTypeOfPrefix(s: string, t: string)
    requires t != [] && AllAlnum(t) && DataPrefix + t + Base64Marker <= s
    ensures ParseDataUrl(s).Some? ==> ParseDataUrl(s).value.imageType == t
  {
    var rest := s[|DataPrefix|..];
    assert t + Base64Marker <= rest;
    var tail := rest[|t|..];
    assert rest == t + tail;
    assert tail[0] == ';';
    AlnumRunOfTyped(t, tail);
    assert rest[..|t|] == t;
  }

  /** An image that passed the schema's pattern has one of the whitelisted
      types, so saving it never fails with an unsupported type. */
  lemma SchemaImageHasAllowedType(s: string, userId: string, env: ImageEnv)
    requires SchemaImagePattern(s)
    ensures !(SaveImage(s, userId, env).Err? && SaveImage(s, userId, env).error.UnsupportedType?)
  {
    var i :| 0 <= i < |AllowedTypes| && DataPrefix + AllowedTypes[i] + Base64Marker <= s;
    var t := AllowedTypes[i];
    AllowedTypeFacts(t);
    ParsedTypeOfPrefix(s, t);
    if ParseDataUrl(s).Some? {
      LowerOfNoUpper(t);
      assert LowerAscii(ParseDataUrl(s).value.imageType) == t;
    }
  }

  // ---------------------------------------------------------------------
  // Serving a collateral image

  /** `!filename || filename.includes('..') || filename.includes('/') ||
      filename.includes('\\')` is false. */
  predicate FilenameAllowed(name: string) {
    name != [] && !HasDoubleDot(name) && '/' !in name && '\\' !in name
  }

  function LastDot(s: string): (r: Option<nat>)
    ensures r.Some? ==> r.value < |s| && s[r.value] == '.' && forall j :: r.value < j < |s| ==> s[j] != '.'
    ensures r.None? ==> '.' !in s
  {
    if s == [] then None
    else if s[|s| - 1] == '.' then Some(|s| - 1)
    else
      var r := LastDot(s[..|s| - 1]);
      assert r.None? ==> forall j :: 0 <= j < |s| - 1 ==> s[j] == s[..|s| - 1][j];
      r
  }

  /** `path.extname` of a name that contains no `/` and no `..`: from the
      last dot to the end, unless there is no dot or the only dot is the
      first character. */
  function Extname(name: string): (e: string)
    ensures e != [] ==> && |e| < |name| && e == name[|name| - |e|..]
                        && e[0] == '.' && forall j :: 0 < j < |e| ==> e[j] != '.'
    ensures e == [] ==> forall j :: 0 < j < |name| ==> name[j] != '.'
  {
    match LastDot(name)
    case None => ""
    case Some(i) => if i == 0 then "" else name[i..]
  }

  /** The extension to content-type table, with octet-stream for the rest. */
  function ContentTypeFor(name: string): string {
    ContentTypeOf(LowerAscii(Extname(name)))
  }

  /** The table from a lower-cased extension to its content type. */
  function ContentTypeOf(ext: string): string {
    if ext == ".jpg" || ext == ".jpeg" then "image/jpeg"
    else if ext == ".png" then "image/png"
    else if ext == ".gif" then "image/gif"
    else if ext == ".webp" then "image/webp"
    else "application/octet-stream"
  }

  datatype ServeError = InvalidFilename | ImageNotFound

  /** The checks of `getCollateralImage` before it streams: the guard, the
      existence of the file, then the content type to send. */
  function ServeCollateral(filename: string, fileExists: bool): (r: Result<string, ServeError>)
    ensures r.Ok? ==> FilenameAllowed(filename) && fileExists
    ensures !FilenameAllowed(filename) ==> r == Err(InvalidFilename)
    ensures FilenameAllowed(filename) && !fileExists ==> r == Err(ImageNotFound)
    ensures r.Ok? ==> r.value == ContentTypeFor(filename)
  {
    if !FilenameAllowed(filename) then Err(InvalidFilename)
    else if !fileExists then Err(ImageNotFound)
    else Ok(ContentTypeFor(filename))
  }

  /** The content type for a whitelisted image type. */
  function MimeFor(imageType: string): string {
    if imageType == "jpg" then "image/jpeg" else "image/" + imageType
  }

  /** The extension of `p.q` is `.q` when q has no dot and p is not empty. */
  lemma ExtnameAfterLastDot(p: string, q: string)
    requires p != [] && '.' !in q
    ensures Extname(p + "." + q) == "." + q
  {
    var name := p + "." + q;
    assert name[|p|] == '.';
    assert forall j :: |p| < j < |name| ==> name[j] == q[j - |p| - 1];
    var r := LastDot(name);
    assert r == Some(|p|);
    assert name[|p|..] == "." + q;
  }

  /** The table entry for each whitelisted extension. */
  lemma ContentTypeOfExtension(name: string, imageType: string)
    requires imageType in AllowedTypes
    requires LowerAscii(Extname(name)) == "." + Extension(imageType)
    ensures ContentTypeFor(name) == MimeFor(imageType)
  {
    TableEntry(imageType);
  }

  /** The table maps the extension of each whitelisted type to the type's
      content type. */
  lemma TableEntry(imageType: string)
    requires imageType in AllowedTypes
    ensures ContentTypeOf("." + Extension(imageType)) == MimeFor(imageType)
  {
    var ext := "." + Extension(imageType);
    if imageType == "jpeg" || imageType == "jpg" {
      assert ext == ".jpg";
    } else if imageType == "png" {
      assert ext == ".png";
      assert ext[1] == 'p' && |ext| == 4;
    } else if imageType == "gif" {
      assert ext == ".gif";
      assert ext[1] == 'g' && |ext| == 4;
    } else {
      assert imageType == "webp" by { AllowedTypeFacts(imageType); var k :| 0 <= k < 5 && AllowedTypes[k] == imageType; }
      assert ext == ".webp";
      assert ext[1] == 'w' && |ext| == 5;
    }
  }

  /** A saved image is served with the content type of the data URL it was
      decoded from (`jpeg` and `jpg` both as image/jpeg). */
  lemma SavedFileServedAsItsType(userId: string, timestamp: nat, randomHex: string, imageType: string)
    requires imageType in AllowedTypes
    ensures ContentTypeFor(SavedFileName(userId, timestamp, randomHex, imageType)) == MimeFor(imageType)
  {
    var ext := Extension(imageType);
    AllowedTypeFacts(imageType);
    var p := userId + "_" + NatToString(timestamp) + "_" + randomHex;
    var name := SavedFileName(userId, timestamp, randomHex, imageType);
    assert name == p + "." + ext;
    ExtnameAfterLastDot(p, ext);
    assert NoUpper("." + ext);
    LowerOfNoUpper("." + ext);
    ContentTypeOfExtension(name, imageType);
  }

  /** With an id and random text free of dots and slashes, the generated
      filename passes the traversal guard, so the image can be fetched. */
  lemma SavedFilePassesGuard(userId: string, timestamp: nat, randomHex: string, imageType: string)
    requires imageType in AllowedTypes
    requires '.' !in userId && '/' !in userId && '\\' !in userId
    requires '.' !in randomHex && '/' !in randomHex && '\\' !in randomHex
    ensures FilenameAllowed(SavedFileName(userId, timestamp, randomHex, imageType))
  {
    var ext := Extension(imageType);
    var ts := NatToString(timestamp);
    var p := userId + "_" + ts + "_" + randomHex;
    var name := SavedFileName(userId, timestamp, randomHex, imageType);
    assert name == p + "." + ext;
    assert forall j :: 0 <= j < |ts| ==> IsDigit(ts[j]);
    assert '.' !in p && '/' !in p && '\\' !in p;
    AllowedTypeFacts(imageType);
    assert '.' !in ext && '/' !in ext && '\\' !in ext;
    forall i | 0 <= i < |name|
      ensures name[i] == '.' ==> i == |p|
    {
      if i < |p| { assert name[i] == p[i]; }
      else if i > |p| { assert name[i] == ext[i - |p| - 1]; }
    }
  }
}
