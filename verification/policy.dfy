/** The upload policy shared by the two upload pages: the choices each page
    offers, and the `media_files` row built from a choice and a file. The
    18+ page (apps/web) derives the adult flags and the effective category
    from the bucket; the minors page (apps/unga) hard-wires the flags to
    false and passes the category through. */
module UploadPolicy {
  import opened Optional
  import opened MediaKind

  datatype Bucket = ProfilePublic | AdultPrivate | ChatTemp
  datatype Visibility = Public | Members | Private
  datatype Category = Profile | Post | Chat | Adult

  /** The moderation state of a new row. The pages only ever write
      `pending`; the states a later review sets are outside this model. */
  datatype Moderation = Pending

  /** Which page runs the upload. */
  datatype Variant = AdultSite | YouthSite

  /** The three choices of the form. */
  datatype Selection = Selection(bucket: Bucket, visibility: Visibility, category: Category)

  /** The choices a page's typed form can hold: the 18+ page offers every
      bucket, visibility and category; the minors page offers neither the
      `adult-private` bucket, nor `members` visibility, nor the `adult`
      category. */
  predicate Offered(v: Variant, sel: Selection) {
    match v
    case AdultSite => true
    case YouthSite =>
      sel.bucket != AdultPrivate && sel.visibility != Members && sel.category != Adult
  }

  /** What the page reads of the chosen file (its bytes go to the store
      unread). */
  datatype FileInfo = FileInfo(name: string, mimeType: string, size: nat)

  /** A row of the `media_files` table. */
  datatype MediaRecord = MediaRecord(
    userId: string,
    storageBucket: Bucket,
    storagePath: string,
    kind: Kind,
    mimeType: Option<string>,
    sizeBytes: nat,
    visibility: Visibility,
    category: Category,
    isSensitive: bool,
    adultOnly: bool,
    moderation: Moderation)

  /** The adult-only flag and the category a page writes for a choice. */
  datatype ContentFlags = ContentFlags(adultOnly: bool, category: Category)

  function ContentRules(v: Variant, sel: Selection): ContentFlags {
    match v
    case AdultSite =>
      var isAdultBucket := sel.bucket == AdultPrivate;
      ContentFlags(isAdultBucket, if isAdultBucket then Adult else sel.category)
    case YouthSite =>
      ContentFlags(false, sel.category)
  }

  /** `file.type || null`: the empty type is stored as null. */
  function MimeOrNull(mimeType: string): (r: Option<string>)
    ensures r.None? <==> mimeType == ""
    ensures r.Some? ==> r.value == mimeType
  {
    if mimeType == "" then None else Some(mimeType)
  }

  /** The invariant every row a page writes keeps: sensitive and adult-only
      agree; on the 18+ page they hold exactly for the `adult-private`
      bucket, whose rows are always `adult`; on the minors page they never
      hold; and moderation starts at `pending`. */
  predicate RowInvariant(v: Variant, r: MediaRecord) {
    && r.isSensitive == r.adultOnly
    && r.moderation == Pending
    && match v
       case AdultSite =>
         && (r.adultOnly <==> r.storageBucket == AdultPrivate)
         && (r.storageBucket == AdultPrivate ==> r.category == Adult)
       case YouthSite =>
         !r.adultOnly
  }

  /** The row inserted for an upload of `file` stored under `path`. */
  function BuildRecord(v: Variant, userId: string, sel: Selection, file: FileInfo, path: string)
    : (r: MediaRecord)
    ensures RowInvariant(v, r)
    ensures r.userId == userId && r.storageBucket == sel.bucket && r.storagePath == path
    ensures r.kind == DetectKind(file.mimeType)
    ensures r.mimeType.None? <==> file.mimeType == ""
    ensures r.mimeType.Some? ==> r.mimeType.value == file.mimeType
    ensures r.sizeBytes == file.size && r.visibility == sel.visibility
    ensures v.AdultSite? && sel.bucket == AdultPrivate ==> r.category == Adult
    ensures v.YouthSite? || sel.bucket != AdultPrivate ==> r.category == sel.category
  {
    var flags := ContentRules(v, sel);
    MediaRecord(
      userId := userId,
      storageBucket := sel.bucket,
      storagePath := path,
      kind := DetectKind(file.mimeType),
      mimeType := MimeOrNull(file.mimeType),
      sizeBytes := file.size,
      visibility := sel.visibility,
      category := flags.category,
      isSensitive := flags.adultOnly,
      adultOnly := flags.adultOnly,
      moderation := Pending)
  }

  /** On the 18+ page the category picked in the form does not matter for
      the `adult-private` bucket: two choices that differ only in category
      give the same row. */
  lemma AdultBucketIgnoresCategory(userId: string, sel1: Selection, sel2: Selection,
                                   file: FileInfo, path: string)
    requires sel1.bucket == AdultPrivate && sel2.bucket == AdultPrivate
    requires sel1.visibility == sel2.visibility
    ensures BuildRecord(AdultSite, userId, sel1, file, path)
         == BuildRecord(AdultSite, userId, sel2, file, path)
  {
  }

  /** On the minors page, every offered choice yields a row that is neither
      adult-only nor sensitive, is not `adult`, and is not in the
      `adult-private` bucket. */
  lemma YouthRowNeverAdult(userId: string, sel: Selection, file: FileInfo, path: string)
    requires Offered(YouthSite, sel)
    ensures var r := BuildRecord(YouthSite, userId, sel, file, path);
            !r.adultOnly && !r.isSensitive && r.category != Adult
            && r.storageBucket != AdultPrivate
  {
  }

  /** Outside the `adult-private` bucket the two pages write the same row:
      the pages differ only in how they treat that bucket. */
  lemma VariantsAgreeOutsideAdultBucket(userId: string, sel: Selection, file: FileInfo,
                                        path: string)
    requires sel.bucket != AdultPrivate
    ensures BuildRecord(AdultSite, userId, sel, file, path)
         == BuildRecord(YouthSite, userId, sel, file, path)
  {
  }

  /** On the 18+ page the `adult` category is selectable with any bucket;
      outside `adult-private` it is written with both flags false. */
  lemma AdultCategoryOutsideAdultBucket(userId: string, file: FileInfo, path: string,
                                        vis: Visibility)
    ensures var r := BuildRecord(AdultSite, userId, Selection(ProfilePublic, vis, Adult),
                                 file, path);
            r.category == Adult && !r.adultOnly && !r.isSensitive
  {
  }
}
