/** `detectKind` of both upload pages: the kind of a media file, read off
    the prefix of its MIME type. The comparison is case-sensitive, as in
    the pages. */
module MediaKind {
  import opened Optional
  import opened Text

  datatype Kind = Image | Video | Audio | Gif | Other

  function DetectKind(mime: string): (k: Kind)
    ensures k == Gif <==> mime == "image/gif"
    ensures k == Image <==> StartsWith(mime, "image/") && mime != "image/gif"
    ensures k == Video <==> StartsWith(mime, "video/")
    ensures k == Audio <==> StartsWith(mime, "audio/")
    ensures k == Other <==> !StartsWith(mime, "image/") && !StartsWith(mime, "video/")
                            && !StartsWith(mime, "audio/")
  {
    if StartsWith(mime, "image/") then (if mime == "image/gif" then Gif else Image)
    else if StartsWith(mime, "video/") then Video
    else if StartsWith(mime, "audio/") then Audio
    else Other
  }

  /** A MIME type `type/subtype` split at its first slash. */
  datatype MediaType = MediaType(topLevel: string, subtype: string)

  function ParseMediaType(mime: string): (r: Option<MediaType>)
    ensures r.None? <==> '/' !in mime
    ensures r.Some? ==> mime == r.value.topLevel + "/" + r.value.subtype
    ensures r.Some? ==> '/' !in r.value.topLevel
  {
    match IndexOf(mime, '/')
    case None => None
    case Some(i) =>
      assert mime == mime[..i] + "/" + mime[i + 1..];
      Some(MediaType(mime[..i], mime[i + 1..]))
  }

  /** A reference classification by top-level media type (`type/subtype`,
      RFC 6838): `image` (with the `gif` subtype singled out), `video`,
      `audio`, and everything else, including a type without a slash. */
  function ClassifyByMediaType(mime: string): Kind {
    match ParseMediaType(mime)
    case None => Other
    case Some(t) =>
      if t.topLevel == "image" then (if t.subtype == "gif" then Gif else Image)
      else if t.topLevel == "video" then Video
      else if t.topLevel == "audio" then Audio
      else Other
  }

  /** The prefix test and the split at the first slash agree. */
  lemma PrefixIsTopLevel(mime: string, top: string)
    requires '/' !in top
    ensures StartsWith(mime, top + "/") <==>
              ParseMediaType(mime).Some? && ParseMediaType(mime).value.topLevel == top
  {
    StartsWithUpTo(mime, top, '/');
  }

  /** An `image/` type is a gif exactly when its subtype is `gif`. */
  lemma ImageSubtype(mime: string)
    requires StartsWith(mime, "image/")
    ensures ParseMediaType(mime).Some?
    ensures ParseMediaType(mime).value.topLevel == "image"
    ensures ParseMediaType(mime).value.subtype == "gif" <==> mime == "image/gif"
  {
    PrefixIsTopLevel(mime, "image");
    var t := ParseMediaType(mime).value;
    assert mime == "image/" + t.subtype;
  }

  /** `detectKind` classifies every MIME string exactly as classification by
      top-level media type does. */
  lemma DetectKindByMediaType(mime: string)
    ensures DetectKind(mime) == ClassifyByMediaType(mime)
  {
    if StartsWith(mime, "image/") {
      ImageSubtype(mime);
    } else if StartsWith(mime, "video/") {
      PrefixIsTopLevel(mime, "video");
    } else if StartsWith(mime, "audio/") {
      PrefixIsTopLevel(mime, "audio");
    } else {
      PrefixIsTopLevel(mime, "image");
      PrefixIsTopLevel(mime, "video");
      PrefixIsTopLevel(mime, "audio");
    }
  }

  /** The empty type (a browser that cannot tell) is `other`. */
  lemma EmptyTypeIsOther()
    ensures DetectKind("") == Other
  {
  }
}
