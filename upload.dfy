/** The display image: the upload file filter, the stored image URL, and
    the upload, replace and reset routes. */
module Upload {
  import opened Base
  import opened Schema
  import opened Store
  import opened UserModel
  import opened Response

  /** The extensions the filter lets through, without their dot. */
  const ImageExtensions: set<string> := {"jpg", "jpeg", "png", "gif"}

  /** `originalname.match(/\.(jpg|jpeg|png|gif)$/)`: somewhere in the name a
      dot is followed by one of the extensions and then the end of the name.
      The match is case-sensitive. */
  predicate HasImageExtension(name: string)
  {
    exists i | 0 <= i < |name| :: name[i] == '.' && name[i + 1..] in ImageExtensions
  }

  predicate EndsWith(s: string, suffix: string)
  {
    |suffix| <= |s| && s[|s| - |suffix|..] == suffix
  }

  /** A dot at position `i` followed by `e` up to the end is the suffix
      `"." + e`. */
  lemma DotThenRest(name: string, i: nat, e: string, suffix: string)
    requires i < |name| && name[i] == '.' && name[i + 1..] == e && suffix == "." + e
    ensures EndsWith(name, suffix)
  {
    assert name[i..] == suffix;
    assert |name| - |suffix| == i;
  }

  /** A name ending in a dot and an extension passes the filter. */
  lemma SuffixPasses(name: string, e: string, suffix: string)
    requires e in ImageExtensions && suffix == "." + e && EndsWith(name, suffix)
    ensures HasImageExtension(name)
  {
    var i := |name| - |suffix|;
    assert name[i..] == suffix;
    assert name[i] == '.';
    assert name[i + 1..] == e;
  }

  /** A name the filter accepts ends in one of the four suffixes. */
  lemma PassesHasSuffix(name: string)
    requires HasImageExtension(name)
    ensures EndsWith(name, ".jpg") || EndsWith(name, ".jpeg") || EndsWith(name, ".png") || EndsWith(name, ".gif")
  {
    var i :| 0 <= i < |name| && name[i] == '.' && name[i + 1..] in ImageExtensions;
    ExtensionAt(name, i);
  }

  /** A dot at position `i` followed by an extension up to the end is one of
      the four suffixes. */
  lemma ExtensionAt(name: string, i: nat)
    requires i < |name| && name[i] == '.' && name[i + 1..] in ImageExtensions
    ensures EndsWith(name, ".jpg") || EndsWith(name, ".jpeg") || EndsWith(name, ".png") || EndsWith(name, ".gif")
  {
    var e := name[i + 1..];
    if e == "jpg" {
      DotThenRest(name, i, "jpg", ".jpg");
    } else if e == "jpeg" {
      DotThenRest(name, i, "jpeg", ".jpeg");
    } else if e == "png" {
      DotThenRest(name, i, "png", ".png");
    } else {
      DotThenRest(name, i, "gif", ".gif");
    }
  }

  /** The filter accepts a name exactly when it ends with `.jpg`, `.jpeg`,
      `.png` or `.gif`. */
  lemma FilterIsSuffixTest(name: string)
    ensures HasImageExtension(name) <==>
      EndsWith(name, ".jpg") || EndsWith(name, ".jpeg") || EndsWith(name, ".png") || EndsWith(name, ".gif")
  {
    assert ".jpg" == "." + "jpg" && ".jpeg" == "." + "jpeg";
    assert ".png" == "." + "png" && ".gif" == "." + "gif";
    if HasImageExtension(name) {
      PassesHasSuffix(name);
    }
    if EndsWith(name, ".jpg") { SuffixPasses(name, "jpg", ".jpg"); }
    if EndsWith(name, ".jpeg") { SuffixPasses(name, "jpeg", ".jpeg"); }
    if EndsWith(name, ".png") { SuffixPasses(name, "png", ".png"); }
    if EndsWith(name, ".gif") { SuffixPasses(name, "gif", ".gif"); }
  }

  /** An upper-case extension and a name that only contains an extension
      are refused; names ending in an extension are accepted. */
  lemma FilterExamples()
    ensures !HasImageExtension("a.PNG")
    ensures !HasImageExtension("a.png.txt")
    ensures HasImageExtension("a.png") && HasImageExtension("photo.jpeg")
  {
    FilterIsSuffixTest("a.PNG");
    FilterIsSuffixTest("a.png.txt");
    FilterIsSuffixTest("a.png");
    FilterIsSuffixTest("photo.jpeg");
  }

  /** `s.replace(/\\/g, "/")`: every backslash becomes a slash. */
  function SlashBackslashes(s: string): (r: string)
    ensures |r| == |s|
    ensures forall i | 0 <= i < |s| :: r[i] == (if s[i] == '\\' then '/' else s[i])
    ensures '\\' !in r
  {
    if s == [] then []
    else [if s[0] == '\\' then '/' else s[0]] + SlashBackslashes(s[1..])
  }

  /** Normalising twice is normalising once; a string without backslashes
      is left as it is. */
  lemma SlashBackslashesIdempotent(s: string)
    ensures SlashBackslashes(SlashBackslashes(s)) == SlashBackslashes(s)
    ensures '\\' !in s ==> SlashBackslashes(s) == s
  {
    var once := SlashBackslashes(s);
    assert forall i | 0 <= i < |once| :: once[i] != '\\';
  }

  /** `path.join(dir, file)` of a directory without a trailing slash and a
      plain file name, with `/` as the separator. */
  function Join(dir: string, file: string): string
  {
    dir + "/" + file
  }

  /** The URL of a stored upload: joined under `/images/profile` and with
      the separators normalised. */
  function DisplayImageUrl(filename: string): (url: string)
    ensures |url| >= 16 && url[..16] == "/images/profile/" && '\\' !in url
  {
    var url := SlashBackslashes(Join("/images/profile", filename));
    assert forall i | 0 <= i < 16 :: url[i] == "/images/profile/"[i];
    url
  }

  /** The reset value is the schema default. */
  lemma ResetIsDefault()
    ensures Join("/images/profile", "default.png") == DefaultDisplayImage
  {
  }

  /** What multer hands the route: the client's file name and the name it
      stored the file under. */
  datatype UploadedFile = UploadedFile(originalname: string, filename: string)

  /** `POST /upload/displayImage` and `PUT /upload/displayImage`: a file the
      filter refuses is an error without a status, and so is a request with
      no file (reading `filename` of undefined); neither writes anything.
      Otherwise `displayImage` becomes the stored file's URL, the user is
      saved and projected for itself. */
  method UploadDisplayImage(db: Db, viewer: UserDoc, file: Option<UploadedFile>) returns (r: Result<UserView>)
    requires db.Valid() && viewer.Synced(db)
    modifies db`users, viewer`displayImage
    ensures db.Valid()
    ensures file.None? || !HasImageExtension(file.value.originalname) ==>
      r == Err(Unexpected) && db.users == old(db.users)
    ensures file.Some? && HasImageExtension(file.value.originalname) ==>
      var u := old(db.users)[viewer.id].(displayImage := DisplayImageUrl(file.value.filename));
      db.users == old(db.users)[viewer.id := u] && r == Ok(WrapUser(u, u)) && r.value.isMe
  {
    if file.None? || !HasImageExtension(file.value.originalname) {
      return Err(Unexpected);
    }
    viewer.displayImage := DisplayImageUrl(file.value.filename);
    PutUserSameGraph(db.users, db.quotes, db.nextId, viewer.Value());
    viewer.Save(db);
    return Ok(WrapUser(viewer.Value(), viewer.Value()));
  }

  /** `DELETE /upload/displayImage`: `displayImage` returns to the default
      and the saved user document is the response. */
  method ResetDisplayImage(db: Db, viewer: UserDoc) returns (r: User)
    requires db.Valid() && viewer.Synced(db)
    modifies db`users, viewer`displayImage
    ensures db.Valid()
    ensures r == old(db.users)[viewer.id].(displayImage := DefaultDisplayImage)
    ensures db.users == old(db.users)[viewer.id := r]
  {
    viewer.displayImage := Join("/images/profile", "default.png");
    PutUserSameGraph(db.users, db.quotes, db.nextId, viewer.Value());
    viewer.Save(db);
    return viewer.Value();
  }
}
