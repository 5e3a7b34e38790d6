/**
 * The exercise builder of `src/Admin.tsx`: reordering, saving an exercise
 * with its normalised fields, the per-exercise image list (upload batch
 * checks, upload loop, removal by index, persisting the list) and the
 * image-search link.
 *
 * The backend tables are fields of `ExerciseAdmin`; each remote call is a
 * parameter saying how it went (an error message or a fresh id). The file
 * store of the `exercise-images` bucket is the set of stored keys.
 */
module AdminTs {
  import opened Js
  import ExerciseOrder

  type Exercise = ExerciseOrder.Exercise

  // ---------------------------------------------------------------- images

  const MaxImages: nat := 5
  const MaxImageBytes: nat := 5 * 1024 * 1024

  datatype ImageFile = ImageFile(name: string, mimeType: string, size: nat)

  predicate FileAcceptable(f: ImageFile) {
    StartsWith(f.mimeType, "image/") && f.size <= MaxImageBytes
  }

  /** Every check of `handleImageUpload` passes for a batch of `files` added to `existing` images. */
  predicate BatchAccepted(existing: nat, files: seq<ImageFile>) {
    |files| > 0 && existing + |files| <= MaxImages
    && forall i :: 0 <= i < |files| ==> FileAcceptable(files[i])
  }

  /** File `i` is the first that the per-file checks reject. */
  predicate FirstRejectedAt(files: seq<ImageFile>, i: int) {
    0 <= i < |files| && !FileAcceptable(files[i]) && forall j :: 0 <= j < i ==> FileAcceptable(files[j])
  }

  /** Which check of the batch fails first; `index` is the first offending file. */
  datatype BatchVerdict = Empty | TooMany | NotAnImage(index: nat) | TooLarge(index: nat) | Accepted

  /** The checks of `handleImageUpload`, in the order the handler makes them. */
  method CheckImageBatch(existing: nat, files: seq<ImageFile>) returns (v: BatchVerdict)
    ensures v == Accepted <==> BatchAccepted(existing, files)
    ensures v == Empty <==> |files| == 0
    ensures v == TooMany <==> |files| > 0 && existing + |files| > MaxImages
    ensures v.NotAnImage? ==>
      v.index < |files| && !StartsWith(files[v.index].mimeType, "image/")
      && forall j :: 0 <= j < v.index ==> FileAcceptable(files[j])
    ensures v.TooLarge? ==>
      v.index < |files| && StartsWith(files[v.index].mimeType, "image/") && files[v.index].size > MaxImageBytes
      && forall j :: 0 <= j < v.index ==> FileAcceptable(files[j])
  {
    if |files| == 0 {
      return Empty;
    }
    if existing + |files| > MaxImages {
      return TooMany;
    }
    var i := 0;
    while i < |files|
      invariant 0 <= i <= |files|
      invariant forall j :: 0 <= j < i ==> FileAcceptable(files[j])
    {
      if !StartsWith(files[i].mimeType, "image/") {
        return NotAnImage(i);
      }
      if files[i].size > MaxImageBytes {
        return TooLarge(i);
      }
      i := i + 1;
    }
    return Accepted;
  }

  /**
   * One selected file together with what the environment supplies for it:
   * `stamp` is the `${Date.now()}-${random}` part of the stored name and
   * `uploadError` the error the storage upload reports, if any.
   */
  datatype SelectedImage = SelectedImage(file: ImageFile, stamp: string, uploadError: Option<string>)

  function Files(batch: seq<SelectedImage>): (files: seq<ImageFile>)
    ensures |files| == |batch| && forall i :: 0 <= i < |batch| ==> files[i] == batch[i].file
  {
    seq(|batch|, i requires 0 <= i < |batch| => batch[i].file)
  }

  /** `exercise-<stamp>.<ext>`, with `ext` the text after the last '.' of the original name. */
  function UploadKey(img: SelectedImage): string {
    "exercise-" + img.stamp + "." + AfterLast(img.file.name, '.')
  }

  /** The public URL of a stored key: the bucket's URL, a '/', the key. */
  function PublicUrl(bucketUrl: string, key: string): string {
    bucketUrl + "/" + key
  }

  predicate AllUploaded(batch: seq<SelectedImage>) {
    forall i :: 0 <= i < |batch| ==> batch[i].uploadError.None?
  }

  /** The URLs a fully successful upload of `batch` appends, in batch order. */
  function UploadUrls(bucketUrl: string, batch: seq<SelectedImage>): seq<string> {
    seq(|batch|, i requires 0 <= i < |batch| => PublicUrl(bucketUrl, UploadKey(batch[i])))
  }

  /** The keys a fully successful upload of `batch` stores, in batch order. */
  function UploadKeys(batch: seq<SelectedImage>): seq<string> {
    seq(|batch|, i requires 0 <= i < |batch| => UploadKey(batch[i]))
  }

  const UploadErrorPrefix := "Kunne ikke laste opp bilde: "

  /** What the upload loop leaves behind: the keys stored so far, their URLs, and the error that stopped it. */
  datatype UploadOutcome = UploadOutcome(stored: seq<string>, urls: seq<string>, error: Option<string>)

  /**
   * The upload loop of `handleImageUpload`: files are stored one by one and
   * the first failing upload throws, so the files stored before it stay in
   * the bucket while none of the URLs reach the image list.
   */
  method UploadBatch(bucketUrl: string, batch: seq<SelectedImage>) returns (out: UploadOutcome)
    ensures |out.stored| <= |batch| && |out.urls| == |out.stored|
    ensures forall i :: 0 <= i < |out.stored| ==>
      batch[i].uploadError.None? && out.stored[i] == UploadKey(batch[i])
      && out.urls[i] == PublicUrl(bucketUrl, out.stored[i])
    ensures out.error.None? <==> AllUploaded(batch)
    ensures out.error.None? ==> out.stored == UploadKeys(batch) && out.urls == UploadUrls(bucketUrl, batch)
    ensures out.error.Some? ==>
      |out.stored| < |batch| && batch[|out.stored|].uploadError.Some?
      && out.error.value == UploadErrorPrefix + batch[|out.stored|].uploadError.value
  {
    var stored: seq<string> := [];
    var urls: seq<string> := [];
    var i := 0;
    while i < |batch|
      invariant 0 <= i <= |batch| && |stored| == i && |urls| == i
      invariant forall j :: 0 <= j < i ==>
        batch[j].uploadError.None? && stored[j] == UploadKey(batch[j]) && urls[j] == PublicUrl(bucketUrl, stored[j])
    {
      var key := UploadKey(batch[i]);
      if batch[i].uploadError.Some? {
        return UploadOutcome(stored, urls, Some(UploadErrorPrefix + batch[i].uploadError.value));
      }
      stored := stored + [key];
      urls := urls + [PublicUrl(bucketUrl, key)];
      i := i + 1;
    }
    return UploadOutcome(stored, urls, None);
  }

  /** `list.filter((_, i) => i !== index)` */
  function RemoveAt<T>(s: seq<T>, index: int): (r: seq<T>)
    ensures 0 <= index < |s| ==> r == s[..index] + s[index + 1..]
    ensures !(0 <= index < |s|) ==> r == s
    decreases |s|
  {
    if |s| == 0 then []
    else
      var rest := RemoveAt(s[1..], index - 1);
      if index == 0 then rest else [s[0]] + rest
  }

  /** The storage key of an image URL: its last '/'-segment without any '?' query. */
  function StorageKey(url: string): string {
    BeforeFirst(AfterLast(url, '/'), '?')
  }

  /** A key without '/' or '?' is read back from its public URL, with or without a query. */
  lemma StorageKeyOfPublicUrl(bucketUrl: string, key: string, query: string)
    requires '/' !in key && '?' !in key && '/' !in query
    ensures StorageKey(PublicUrl(bucketUrl, key)) == key
    ensures StorageKey(PublicUrl(bucketUrl, key) + "?" + query) == key
  {
    assert PublicUrl(bucketUrl, key) == bucketUrl + ['/'] + key;
    AfterLastOf(bucketUrl, '/', key);
    SplitNoSeparator(key, '?');
    var tail := key + ['?'] + query;
    assert '/' !in tail;
    assert PublicUrl(bucketUrl, key) + "?" + query == bucketUrl + ['/'] + tail;
    AfterLastOf(bucketUrl, '/', tail);
    BeforeFirstOf(key, '?', query);
  }

  /** Stamps and file names free of '/' and '?', as a timestamp, a base-36 random part and a file name are. */
  predicate PlainNames(batch: seq<SelectedImage>) {
    forall i :: 0 <= i < |batch| ==>
      '/' !in batch[i].stamp && '?' !in batch[i].stamp && '/' !in batch[i].file.name && '?' !in batch[i].file.name
  }

  /** The stored name of a plainly named file holds neither '/' nor '?'. */
  lemma UploadKeyPlain(img: SelectedImage)
    requires '/' !in img.stamp && '?' !in img.stamp && '/' !in img.file.name && '?' !in img.file.name
    ensures '/' !in UploadKey(img) && '?' !in UploadKey(img)
  {
    var name := img.file.name;
    var ext := AfterLast(name, '.');
    AfterLastSpec(name, '.');
    forall ch | ch in ext
      ensures ch in name
    {
      var k :| 0 <= k < |ext| && ext[k] == ch;
      assert name[|name| - |ext| + k] == ch;
    }
  }

  /** The key of every uploaded file is read back from the URL the upload appends. */
  lemma UploadUrlsRoundTrip(bucketUrl: string, batch: seq<SelectedImage>)
    requires PlainNames(batch)
    ensures forall i :: 0 <= i < |batch| ==> StorageKey(UploadUrls(bucketUrl, batch)[i]) == UploadKey(batch[i])
  {
    forall i | 0 <= i < |batch|
      ensures StorageKey(UploadUrls(bucketUrl, batch)[i]) == UploadKey(batch[i])
    {
      UploadKeyPlain(batch[i]);
      StorageKeyOfPublicUrl(bucketUrl, UploadKey(batch[i]), "");
    }
  }

  function KeySet(stored: seq<string>): set<string> {
    set k | k in stored
  }

  /** After a fully successful upload, the key of every appended URL is among the stored keys. */
  lemma UploadedUrlsBacked(bucketUrl: string, batch: seq<SelectedImage>)
    requires PlainNames(batch)
    ensures forall i :: 0 <= i < |batch| ==> StorageKey(UploadUrls(bucketUrl, batch)[i]) in KeySet(UploadKeys(batch))
  {
    UploadUrlsRoundTrip(bucketUrl, batch);
    forall i | 0 <= i < |batch|
      ensures StorageKey(UploadUrls(bucketUrl, batch)[i]) in KeySet(UploadKeys(batch))
    {
      assert UploadKeys(batch)[i] in UploadKeys(batch);
    }
  }

  // ------------------------------------------------------ persisted images

  datatype ImageRow = ImageRow(exerciseId: int, imageUrl: string, order: int)

  /** The `exercise_images` table and the keys stored in the `exercise-images` bucket. */
  datatype ImageStore = ImageStore(rows: seq<ImageRow>, files: set<string>)

  /** `eq("exercise_id", id)`: the rows of one exercise, in table order. */
  function RowsOf(rows: seq<ImageRow>, id: int): seq<ImageRow>
    decreases |rows|
  {
    if |rows| == 0 then []
    else (if rows[0].exerciseId == id then [rows[0]] else []) + RowsOf(rows[1..], id)
  }

  /** What `delete().eq("exercise_id", id)` leaves: the rows of every other exercise. */
  function OtherRows(rows: seq<ImageRow>, id: int): seq<ImageRow>
    decreases |rows|
  {
    if |rows| == 0 then []
    else (if rows[0].exerciseId != id then [rows[0]] else []) + OtherRows(rows[1..], id)
  }

  /** `RowsOf` keeps exactly the rows of the exercise. */
  lemma {:induction false} RowsOfMembers(rows: seq<ImageRow>, id: int)
    ensures forall x :: x in RowsOf(rows, id) <==> x in rows && x.exerciseId == id
    decreases |rows|
  {
    if |rows| > 0 {
      RowsOfMembers(rows[1..], id);
      assert rows == [rows[0]] + rows[1..];
    }
  }

  /** `OtherRows` keeps exactly the rows of the other exercises. */
  lemma {:induction false} OtherRowsMembers(rows: seq<ImageRow>, id: int)
    ensures forall x :: x in OtherRows(rows, id) <==> x in rows && x.exerciseId != id
    decreases |rows|
  {
    if |rows| > 0 {
      OtherRowsMembers(rows[1..], id);
      assert rows == [rows[0]] + rows[1..];
    }
  }

  lemma {:induction false} RowsOfAppend(a: seq<ImageRow>, b: seq<ImageRow>, id: int)
    ensures RowsOf(a + b, id) == RowsOf(a, id) + RowsOf(b, id)
    decreases |a|
  {
    if |a| == 0 {
      assert a + b == b;
    } else {
      var ab := a + b;
      assert ab[0] == a[0] && ab[1..] == a[1..] + b;
      RowsOfAppend(a[1..], b, id);
      var h := if a[0].exerciseId == id then [a[0]] else [];
      assert RowsOf(ab, id) == h + RowsOf(a[1..] + b, id);
      assert RowsOf(a, id) == h + RowsOf(a[1..], id);
    }
  }

  lemma {:induction false} OtherRowsAppend(a: seq<ImageRow>, b: seq<ImageRow>, id: int)
    ensures OtherRows(a + b, id) == OtherRows(a, id) + OtherRows(b, id)
    decreases |a|
  {
    if |a| == 0 {
      assert a + b == b;
    } else {
      var ab := a + b;
      assert ab[0] == a[0] && ab[1..] == a[1..] + b;
      OtherRowsAppend(a[1..], b, id);
      var h := if a[0].exerciseId != id then [a[0]] else [];
      assert OtherRows(ab, id) == h + OtherRows(a[1..] + b, id);
      assert OtherRows(a, id) == h + OtherRows(a[1..], id);
    }
  }

  lemma {:induction false} RowsOfAll(rows: seq<ImageRow>, id: int)
    requires forall i :: 0 <= i < |rows| ==> rows[i].exerciseId == id
    ensures RowsOf(rows, id) == rows && OtherRows(rows, id) == []
    decreases |rows|
  {
    if |rows| > 0 {
      RowsOfAll(rows[1..], id);
      assert [rows[0]] + rows[1..] == rows;
    }
  }

  lemma {:induction false} RowsOfOther(rows: seq<ImageRow>, id: int)
    ensures RowsOf(OtherRows(rows, id), id) == []
    decreases |rows|
  {
    if |rows| > 0 {
      RowsOfOther(rows[1..], id);
      var t := OtherRows(rows[1..], id);
      if rows[0].exerciseId != id {
        var u := [rows[0]] + t;
        assert OtherRows(rows, id) == u;
        assert u[1..] == t;
        assert RowsOf(u, id) == [] + RowsOf(u[1..], id);
      } else {
        assert OtherRows(rows, id) == [] + t == t;
      }
    }
  }

  /** `images.map((url, index) => ({ exercise_id, image_url: url, order: index }))` */
  function ImageRows(exerciseId: int, images: seq<string>): seq<ImageRow> {
    seq(|images|, i requires 0 <= i < |images| => ImageRow(exerciseId, images[i], i))
  }

  function KeysOf(rows: seq<ImageRow>): set<string> {
    set x | x in rows :: StorageKey(x.imageUrl)
  }

  function UrlKeys(images: seq<string>): set<string> {
    set u | u in images :: StorageKey(u)
  }

  /** Every image row of `id` points at a file that is in the bucket. */
  predicate Backed(store: ImageStore, id: int) {
    forall x :: x in store.rows && x.exerciseId == id ==> StorageKey(x.imageUrl) in store.files
  }

  /**
   * `saveExerciseImages(exerciseId)` as written: when editing, the files of
   * ALL existing images of the exercise are removed and their rows deleted;
   * then one row per entry of the image list is inserted, order = index.
   */
  function SaveImagesAsWritten(store: ImageStore, exerciseId: int, editing: bool, images: seq<string>): ImageStore {
    var cleared := ClearedForEdit(store, exerciseId, editing);
    if |images| > 0 then cleared.(rows := cleared.rows + ImageRows(exerciseId, images)) else cleared
  }

  /**
   * The first half of `saveExerciseImages`: when editing, the files of all
   * existing images of the exercise are removed and their rows deleted. The
   * outcomes of these calls are not checked.
   */
  function ClearedForEdit(store: ImageStore, exerciseId: int, editing: bool): ImageStore {
    var existing := RowsOf(store.rows, exerciseId);
    if editing && |existing| > 0 then ImageStore(OtherRows(store.rows, exerciseId), store.files - KeysOf(existing))
    else store
  }

  /** The image step of `handleSave` as written: only a truthy id with a non-empty image list is saved. */
  function SaveStepAsWritten(store: ImageStore, savedId: Option<int>, editing: bool, images: seq<string>): ImageStore {
    if TruthyNum(savedId) && |images| > 0 then SaveImagesAsWritten(store, savedId.value, editing, images) else store
  }

  /**
   * An image that is kept while editing loses its file: the row is inserted
   * again, but the file it points at has just been removed.
   */
  lemma KeptImageLosesFile()
    ensures var url := PublicUrl("https://cdn/exercise-images", "exercise-1-a.png");
      var store := ImageStore([ImageRow(7, url, 0)], {"exercise-1-a.png"});
      var after := SaveStepAsWritten(store, Some(7), true, [url]);
      Backed(store, 7) && ImageRow(7, url, 0) in after.rows && !Backed(after, 7)
  {
    var key := "exercise-1-a.png";
    var url := PublicUrl("https://cdn/exercise-images", key);
    StorageKeyOfPublicUrl("https://cdn/exercise-images", key, "");
    var row := ImageRow(7, url, 0);
    var store := ImageStore([row], {key});
    RowsOfAll(store.rows, 7);
    assert KeysOf([row]) == {key};
    var after := SaveStepAsWritten(store, Some(7), true, [url]);
    assert after.files == {};
    assert after.rows == [] + ImageRows(7, [url]);
    assert after.rows[0] == row;
  }

  /** Removing every image of an exercise and saving leaves the old rows in place. */
  lemma RemovedImagesStay()
    ensures var store := ImageStore([ImageRow(7, "https://cdn/exercise-1-a.png", 0)], {"exercise-1-a.png"});
      var after := SaveStepAsWritten(store, Some(7), true, []);
      RowsOf(after.rows, 7) == [ImageRow(7, "https://cdn/exercise-1-a.png", 0)]
      && RowsOf(SyncImages(store, 7, true, []).rows, 7) == []
  {
    var store := ImageStore([ImageRow(7, "https://cdn/exercise-1-a.png", 0)], {"exercise-1-a.png"});
    RowsOfAll(store.rows, 7);
    SyncImagesRowsAreList(store, 7, []);
  }

  /**
   * The image step with the evident intent: when editing, the rows of the
   * exercise are replaced by the list and only the files of images that
   * are no longer listed are removed.
   */
  function SyncImages(store: ImageStore, exerciseId: int, editing: bool, images: seq<string>): ImageStore {
    var dropped := if editing then KeysOf(RowsOf(store.rows, exerciseId)) - UrlKeys(images) else {};
    var kept := if editing then OtherRows(store.rows, exerciseId) else store.rows;
    ImageStore(kept + ImageRows(exerciseId, images), store.files - dropped)
  }

  /** After an edit is saved, the rows of the exercise are exactly the image list, each with its index as order; the other exercises' rows are untouched. */
  lemma SyncImagesRowsAreList(store: ImageStore, exerciseId: int, images: seq<string>)
    ensures var r := RowsOf(SyncImages(store, exerciseId, true, images).rows, exerciseId);
      |r| == |images| && forall i :: 0 <= i < |images| ==> r[i] == ImageRow(exerciseId, images[i], i)
    ensures OtherRows(SyncImages(store, exerciseId, true, images).rows, exerciseId) == OtherRows(store.rows, exerciseId)
  {
    var kept := OtherRows(store.rows, exerciseId);
    var added := ImageRows(exerciseId, images);
    RowsOfAppend(kept, added, exerciseId);
    OtherRowsAppend(kept, added, exerciseId);
    RowsOfOther(store.rows, exerciseId);
    RowsOfAll(added, exerciseId);
    OtherRowsTwice(store.rows, exerciseId);
  }

  lemma {:induction false} OtherRowsTwice(rows: seq<ImageRow>, id: int)
    ensures OtherRows(OtherRows(rows, id), id) == OtherRows(rows, id)
    decreases |rows|
  {
    if |rows| > 0 {
      OtherRowsTwice(rows[1..], id);
      var t := OtherRows(rows[1..], id);
      if rows[0].exerciseId != id {
        var u := [rows[0]] + t;
        assert OtherRows(rows, id) == u;
        assert u[1..] == t;
        assert OtherRows(u, id) == [rows[0]] + OtherRows(u[1..], id);
      } else {
        assert OtherRows(rows, id) == [] + t == t;
      }
    }
  }

  /**
   * Saving keeps every image row of the exercise backed by a file, provided
   * the rows were backed before and every listed image is in the bucket
   * (an earlier row or a fresh upload).
   */
  lemma SyncImagesKeepsRowsBacked(store: ImageStore, exerciseId: int, editing: bool, images: seq<string>)
    requires Backed(store, exerciseId)
    requires forall u :: u in images ==> StorageKey(u) in store.files
    ensures Backed(SyncImages(store, exerciseId, editing, images), exerciseId)
  {
    var r := SyncImages(store, exerciseId, editing, images);
    var added := ImageRows(exerciseId, images);
    OtherRowsMembers(store.rows, exerciseId);
    RowsOfMembers(store.rows, exerciseId);
    forall x | x in r.rows && x.exerciseId == exerciseId
      ensures StorageKey(x.imageUrl) in r.files
    {
      if x in added {
        var i :| 0 <= i < |added| && added[i] == x;
        assert images[i] in images;
        assert StorageKey(x.imageUrl) in UrlKeys(images);
      } else {
        assert !editing;
      }
    }
  }

  // ------------------------------------------------------------ image search

  const SearchBase := "https://www.google.com/search?tbm=isch&q="
  const TitleMark := "[TITTEL]"
  const DescriptionMark := "[BESKRIVELSE]"
  const PromptIntro := "Tegnet illustrasjon " + "av en person " + "som utfører " + "øvelsen "
  const PromptMiddle := ". Fokus på riktig form og teknikk. "
  const PromptOutro := " Hvit bakgrunn. Ingen vannmerker. Søk i Google Bilder."

  /** The service-specific sentence of each prompt template; None for a name without a template. */
  function ServiceStyle(service: string): Option<string> {
    if service == "midjourney" then Some("Midjourney AI-generert bilde. Stilistisk tegning.")
    else if service == "dalle" then Some("DALL-E AI-generert bilde. Stilistisk tegning.")
    else if service == "stableDiffusion" then Some("Stable Diffusion AI-generert bilde. Stilistisk tegning.")
    else if service == "leonardo" then Some("Leonardo.ai AI-generert bilde. Stilistisk tegning.")
    else if service == "generic" then Some(GenericStyle)
    else None
  }

  /** Everything of a prompt after the description marker. */
  function PromptTail(style: string): string {
    PromptMiddle + style + PromptOutro
  }

  /** `servicePrompts[service] || servicePrompts.generic` */
  function PromptTemplate(service: string): string {
    var style := OrElse(ServiceStyle(service), ServiceStyle("generic").value);
    PromptIntro + TitleMark + ". " + DescriptionMark + PromptTail(style)
  }

  /** `generateImageSearchURL`; `encode` stands for `encodeURIComponent`. */
  function ImageSearchUrl(title: string, description: string, service: string, encode: string -> string): string {
    var prompt := ReplaceFirst(ReplaceFirst(PromptTemplate(service), TitleMark, title), DescriptionMark, description);
    SearchBase + encode(prompt)
  }

  /**
   * Two successive first-occurrence replacements fill two markers with the
   * texts themselves when nothing before each marker starts like it and
   * neither text holds a '$' pattern.
   */
  lemma FillMarks(intro: string, m1: string, sep: string, m2: string, tail: string, t: string, d: string)
    requires |m1| > 0 && |m2| > 0 && m1[0] !in intro && m2[0] !in intro + t + sep
    requires '$' !in t && '$' !in d
    ensures ReplaceFirst(ReplaceFirst(intro + m1 + sep + m2 + tail, m1, t), m2, d) == intro + t + sep + d + tail
  {
    var rest := sep + m2 + tail;
    var s1 := intro + m1 + rest;
    assert intro + m1 + sep + m2 + tail == s1;
    IndexOfAfter(intro, m1, rest, t);
    SubstitutionPlain(t, m1, intro, rest);
    var pre := intro + t + sep;
    var r1 := ReplaceFirst(s1, m1, t);
    assert r1 == pre + m2 + tail;
    IndexOfAfter(pre, m2, tail, d);
    SubstitutionPlain(d, m2, pre, tail);
    var r2 := ReplaceFirst(r1, m2, d);
    assert r2 == pre + d + tail;
  }

  /**
   * A title `$&` is not filled in: `replace` puts the matched marker back,
   * so the prompt keeps "[TITTEL]" where the title belongs.
   */
  lemma MatchedTitleKeepsMark(service: string)
    ensures ReplaceFirst(PromptTemplate(service), TitleMark, "$&") == PromptTemplate(service)
  {
    PromptTemplateStyle(service);
    var intro := PromptIntro;
    assert '[' !in intro;
    MatchedKeepsFirstMark(intro, TitleMark, ". ", DescriptionMark, PromptTail(StyleFor(service)));
  }

  lemma MatchedKeepsFirstMark(intro: string, m1: string, sep: string, m2: string, tail: string)
    requires |m1| > 0 && m1[0] !in intro
    ensures ReplaceFirst(intro + m1 + sep + m2 + tail, m1, "$&") == intro + m1 + sep + m2 + tail
  {
    var rest := sep + m2 + tail;
    assert intro + m1 + sep + m2 + tail == intro + m1 + rest;
    ReplaceByMatchedIsIdentity(intro, m1, rest);
  }

  /** The style sentence a service name selects: its own, or the generic one for a name without a template. */
  function StyleFor(service: string): string {
    if ServiceStyle(service).Some? then ServiceStyle(service).value else GenericStyle
  }

  const GenericStyle := "AI-generert tegning. Stilistisk illustrasjon."

  lemma PromptTemplateStyle(service: string)
    ensures PromptTemplate(service) == PromptIntro + TitleMark + ". " + DescriptionMark + PromptTail(StyleFor(service))
  {
    assert ServiceStyle("generic") == Some(GenericStyle);
  }

  /**
   * The search link encodes the prompt of the named service (the generic one
   * for any other name) with the title and description filled in, after the
   * fixed image-search address. A title containing '[' is left out: it could
   * itself hold the description marker, which the second replacement would hit.
   * A title or description with '$' is left out too: `replace` expands its
   * patterns (see `MatchedTitleKeepsMark`).
   */
  lemma ImageSearchUrlSpec(title: string, description: string, service: string, encode: string -> string)
    requires '[' !in title
    requires '$' !in title && '$' !in description
    requires service !in InheritedNames
    ensures ImageSearchUrl(title, description, service, encode)
      == SearchBase + encode(PromptIntro + title + ". " + description + PromptTail(StyleFor(service)))
  {
    PromptTemplateStyle(service);
    var intro := PromptIntro;
    assert '[' !in intro;
    assert '[' !in intro + title + ". ";
    FillMarks(intro, TitleMark, ". ", DescriptionMark, PromptTail(StyleFor(service)), title, description);
  }

  /**
   * The names every object inherits from `Object.prototype`. For these,
   * `servicePrompts[service]` is a function or an object rather than
   * undefined, and calling `replace` on it throws; the model leaves them out.
   */
  const InheritedNames: set<string> := {
    "constructor", "__proto__", "toString", "toLocaleString", "valueOf", "hasOwnProperty",
    "isPrototypeOf", "propertyIsEnumerable", "__defineGetter__", "__defineSetter__",
    "__lookupGetter__", "__lookupSetter__"}

  /** Any other name without a template gives the same link as "generic". */
  lemma UnknownServiceIsGeneric(title: string, description: string, service: string, encode: string -> string)
    requires ServiceStyle(service).None? && service !in InheritedNames
    ensures ImageSearchUrl(title, description, service, encode) == ImageSearchUrl(title, description, "generic", encode)
  {
    PromptTemplateStyle(service);
    PromptTemplateStyle("generic");
  }

  // ------------------------------------------------------------ exercise save

  /** The exercise form; `groupId`, `reps` and `weightUnit` may be unset (null or ""). */
  datatype ExerciseForm = ExerciseForm(
    title: string,
    description: string,
    order: int,
    active: bool,
    groupId: Option<int>,
    sets: int,
    reps: Option<int>,
    weightUnit: string)

  /** The form after a save or a cancel: empty, next order, the selected group. */
  function BlankForm(order: int, groupId: Option<int>): ExerciseForm {
    ExerciseForm("", "", order, true, groupId, 1, None, "kropp")
  }

  /** The group after the fallback: the form's group when set, else the selected group. */
  function SaveGroupId(formGroup: Option<int>, selectedGroupId: Option<int>): (g: Option<int>)
    ensures TruthyNum(g) <==> TruthyNum(formGroup) || TruthyNum(selectedGroupId)
    ensures TruthyNum(formGroup) ==> g == formGroup
    ensures !TruthyNum(formGroup) && TruthyNum(selectedGroupId) ==> g == selectedGroupId
  {
    if !TruthyNum(formGroup) && TruthyNum(selectedGroupId) then selectedGroupId else formGroup
  }

  /** The row written for a form: falsy sets become 1, falsy reps become null, a missing unit becomes "kropp". */
  function NormalizedRow(form: ExerciseForm, id: int, groupId: int): (r: Exercise)
    ensures r.id == id && r.groupId == groupId
    ensures r.title == form.title && r.description == form.description
    ensures r.order == form.order && r.active == form.active
    ensures r.sets != 0 && (form.sets != 0 ==> r.sets == form.sets)
    ensures !(r.reps.Some? && r.reps.value == 0) && (TruthyNum(form.reps) ==> r.reps == form.reps)
    ensures r.weightUnit != "" && (form.weightUnit != "" ==> r.weightUnit == form.weightUnit)
  {
    ExerciseOrder.Exercise(
      id, form.title, form.description, form.order, form.active, groupId,
      if form.sets != 0 then form.sets else 1,
      if TruthyNum(form.reps) then form.reps else None,
      OrElse(Some(form.weightUnit), "kropp"))
  }

  /** `update({...}).eq("id", id)` with the normalised fields of the form. */
  function UpdateExercise(table: seq<Exercise>, id: int, form: ExerciseForm, groupId: int): seq<Exercise> {
    seq(|table|, i requires 0 <= i < |table| =>
      if table[i].id == id then NormalizedRow(form, id, groupId) else table[i])
  }

  /** The `exercises` table after the write of a save: an update when `editingId` is truthy, an insert otherwise. */
  function SavedTable(table: seq<Exercise>, editingId: Option<int>, newId: int, form: ExerciseForm, groupId: int): seq<Exercise> {
    if TruthyNum(editingId) then UpdateExercise(table, editingId.value, form, groupId)
    else table + [NormalizedRow(form, newId, groupId)]
  }

  /** `savedExerciseId`: the edited id, or the id the insert returned. */
  function SavedId(editingId: Option<int>, newId: int): Option<int> {
    if TruthyNum(editingId) then editingId else Some(newId)
  }

  // ------------------------------------------------------------------ groups

  datatype Group = Group(id: int, name: string, description: string, order: int, active: bool)

  datatype GroupForm = GroupForm(name: string, description: string, order: int, active: bool)

  function UpdateGroup(table: seq<Group>, id: int, f: GroupForm): seq<Group> {
    seq(|table|, i requires 0 <= i < |table| =>
      if table[i].id == id then Group(id, f.name, f.description, f.order, f.active) else table[i])
  }

  // ------------------------------------------------------------------ alerts

  datatype Alert =
    | ChooseGroup
    | TooManyImages(existing: nat)
    | OnlyImages
    | ImageTooLarge
    | UploadFailed(message: string)
    | SaveFailed(message: string)
    | SaveGroupFailed(message: string)

  function AlertText(a: Alert): string {
    match a
    case ChooseGroup => "Du må velge en exercise group"
    case TooManyImages(n) => "Maksimum 5 bilder per øvelse. Du har allerede " + NatToString(n) + " bilder."
    case OnlyImages => "Kun bildefiler er tillatt"
    case ImageTooLarge => "Bildet er for stort. Maks størrelse er 5MB"
    case UploadFailed(m) => "Feil ved opplasting av bilder: " + OrElse(Some(m), "Ukjent feil")
    case SaveFailed(m) => "Feil ved lagring: " + m
    case SaveGroupFailed(m) => "Feil ved lagring av gruppe: " + m
  }

  // ------------------------------------------------------------- component

  class ExerciseAdmin {
    /** The exercises of the selected group, as last fetched. */
    var exercises: seq<Exercise>
    /** The exercise groups, as last fetched. */
    var groups: seq<Group>
    /** The `exercises` table. */
    var exerciseTable: seq<Exercise>
    /** The `exercise_groups` table. */
    var groupTable: seq<Group>
    /** The `exercise_images` table and the image bucket. */
    var imageStore: ImageStore
    var form: ExerciseForm
    var groupForm: GroupForm
    var editingId: Option<int>
    var editingGroupId: Option<int>
    var selectedGroupId: Option<int>
    var exerciseImages: seq<string>
    var showAddForm: bool
    var showGroupForm: bool
    var imageService: string
    /** The public URL of the image bucket. */
    const bucketUrl: string

    constructor(bucketUrl: string, groups: seq<Group>, exercises: seq<Exercise>, selectedGroupId: Option<int>,
                exerciseTable: seq<Exercise>, groupTable: seq<Group>, imageStore: ImageStore)
      ensures this.bucketUrl == bucketUrl && this.groups == groups && this.exercises == exercises
      ensures this.selectedGroupId == selectedGroupId
      ensures this.exerciseTable == exerciseTable && this.groupTable == groupTable && this.imageStore == imageStore
      ensures form == ExerciseForm("", "", 0, true, None, 1, None, "kropp")
      ensures groupForm == GroupForm("", "", 0, true)
      ensures editingId == None && editingGroupId == None && exerciseImages == []
      ensures !showAddForm && !showGroupForm && imageService == "midjourney"
    {
      this.bucketUrl := bucketUrl;
      this.groups := groups;
      this.exercises := exercises;
      this.selectedGroupId := selectedGroupId;
      this.exerciseTable := exerciseTable;
      this.groupTable := groupTable;
      this.imageStore := imageStore;
      form := ExerciseForm("", "", 0, true, None, 1, None, "kropp");
      groupForm := GroupForm("", "", 0, true);
      editingId := None;
      editingGroupId := None;
      exerciseImages := [];
      showAddForm := false;
      showGroupForm := false;
      imageService := "midjourney";
    }

    /** `handleMoveUp(id, currentOrder)`: the neighbour is looked up in the fetched list, then two writes. */
    method MoveUp(id: int, current: int)
      modifies this`exerciseTable
      ensures exerciseTable == ExerciseOrder.MoveUp(exercises, old(exerciseTable), id, current)
    {
      if current <= 1 {
        return;
      }
      var p := ExerciseOrder.FindOrder(exercises, current - 1);
      if p.None? {
        return;
      }
      var other := exercises[p.value].id;
      exerciseTable := ExerciseOrder.SetOrder(exerciseTable, id, current - 1);
      exerciseTable := ExerciseOrder.SetOrder(exerciseTable, other, current);
    }

    /** `handleMoveDown(id, currentOrder)` */
    method MoveDown(id: int, current: int)
      modifies this`exerciseTable
      ensures exerciseTable == ExerciseOrder.MoveDown(exercises, old(exerciseTable), id, current)
    {
      var m := ExerciseOrder.MaxOrder(exercises);
      if m.None? || current >= m.value {
        return;
      }
      var p := ExerciseOrder.FindOrder(exercises, current + 1);
      if p.None? {
        return;
      }
      var other := exercises[p.value].id;
      exerciseTable := ExerciseOrder.SetOrder(exerciseTable, id, current + 1);
      exerciseTable := ExerciseOrder.SetOrder(exerciseTable, other, current);
    }

    /** `handleRemoveImage(index)` */
    method RemoveImage(index: int)
      modifies this`exerciseImages
      ensures exerciseImages == RemoveAt(old(exerciseImages), index)
      ensures 0 <= index < |old(exerciseImages)| ==> |exerciseImages| == |old(exerciseImages)| - 1
    {
      exerciseImages := RemoveAt(exerciseImages, index);
    }

    /**
     * `handleImageUpload`: a rejected batch changes nothing; an accepted one
     * is uploaded file by file, and only when every upload succeeds are the
     * new URLs appended after the existing ones (see `UploadedUrlsBacked`
     * for the files behind them).
     */
    method ImageUpload(batch: seq<SelectedImage>) returns (alert: Option<Alert>)
      modifies this`exerciseImages, this`imageStore
      ensures |batch| == 0 ==> alert.None?
      ensures !BatchAccepted(|old(exerciseImages)|, Files(batch)) ==>
        exerciseImages == old(exerciseImages) && imageStore == old(imageStore)
        && (|batch| > 0 ==> alert.Some?)
      ensures |batch| > 0 && |old(exerciseImages)| + |batch| > MaxImages ==> alert == Some(TooManyImages(|old(exerciseImages)|))
      ensures forall i :: |batch| > 0 && |old(exerciseImages)| + |batch| <= MaxImages && FirstRejectedAt(Files(batch), i) ==>
        alert == (if StartsWith(Files(batch)[i].mimeType, "image/") then Some(ImageTooLarge) else Some(OnlyImages))
      ensures BatchAccepted(|old(exerciseImages)|, Files(batch)) && AllUploaded(batch) ==>
        alert.None? && exerciseImages == old(exerciseImages) + UploadUrls(bucketUrl, batch)
        && |exerciseImages| <= MaxImages
        && imageStore == old(imageStore).(files := old(imageStore).files + KeySet(UploadKeys(batch)))
      ensures BatchAccepted(|old(exerciseImages)|, Files(batch)) && !AllUploaded(batch) ==>
        exerciseImages == old(exerciseImages) && alert.Some? && alert.value.UploadFailed?
        && imageStore.rows == old(imageStore.rows) && old(imageStore.files) <= imageStore.files
    {
      var verdict := CheckImageBatch(|exerciseImages|, Files(batch));
      match verdict {
        case Empty => return None;
        case TooMany => return Some(TooManyImages(|exerciseImages|));
        case NotAnImage(_) => return Some(OnlyImages);
        case TooLarge(_) => return Some(ImageTooLarge);
        case Accepted =>
      }
      alert := UploadAndAppend(batch);
    }

    /** The `try` block of `handleImageUpload`, reached once the batch has passed every check. */
    method UploadAndAppend(batch: seq<SelectedImage>) returns (alert: Option<Alert>)
      requires BatchAccepted(|exerciseImages|, Files(batch))
      modifies this`exerciseImages, this`imageStore
      ensures AllUploaded(batch) ==>
        alert.None? && exerciseImages == old(exerciseImages) + UploadUrls(bucketUrl, batch)
        && |exerciseImages| <= MaxImages
        && imageStore == old(imageStore).(files := old(imageStore).files + KeySet(UploadKeys(batch)))
      ensures !AllUploaded(batch) ==>
        exerciseImages == old(exerciseImages) && alert.Some? && alert.value.UploadFailed?
        && imageStore.rows == old(imageStore.rows) && old(imageStore.files) <= imageStore.files
    {
      var out := UploadBatch(bucketUrl, batch);
      imageStore := imageStore.(files := imageStore.files + KeySet(out.stored));
      if out.error.Some? {
        return Some(UploadFailed(out.error.value));
      }
      exerciseImages := exerciseImages + out.urls;
      return None;
    }

    /**
     * `handleSave`. The group falls back to the selected one (the form object
     * is mutated, so the fallback stays even when the save then fails);
     * without a group nothing is written. `writeError` is the outcome of the
     * exercise write, `newId` the id an insert returns, and `imagesError` the
     * outcome of the image-row insert of `saveExerciseImages`, which runs only
     * for a truthy id and a non-empty image list. That insert comes after the
     * old files and rows are gone, so its failure leaves them gone.
     */
    method Save(writeError: Option<string>, newId: int, imagesError: Option<string>) returns (alert: Option<Alert>)
      modifies this`form, this`exerciseTable, this`imageStore, this`exerciseImages, this`editingId, this`showAddForm
      ensures var g := SaveGroupId(old(form).groupId, selectedGroupId);
        !TruthyNum(g) ==> alert == Some(ChooseGroup) && unchanged(this)
      ensures var g := SaveGroupId(old(form).groupId, selectedGroupId);
        TruthyNum(g) && writeError.Some? ==>
          alert == Some(SaveFailed(writeError.value)) && form == old(form).(groupId := g)
          && exerciseTable == old(exerciseTable) && imageStore == old(imageStore)
          && exerciseImages == old(exerciseImages) && editingId == old(editingId) && showAddForm == old(showAddForm)
      ensures var g := SaveGroupId(old(form).groupId, selectedGroupId);
        var saved := SavedId(old(editingId), newId);
        TruthyNum(g) && writeError.None? ==>
          exerciseTable == SavedTable(old(exerciseTable), old(editingId), newId, old(form), g.value)
          && if TruthyNum(saved) && |old(exerciseImages)| > 0 && imagesError.Some? then
               alert == Some(SaveFailed(imagesError.value)) && form == old(form).(groupId := g)
               && imageStore == ClearedForEdit(old(imageStore), saved.value, TruthyNum(old(editingId)))
               && exerciseImages == old(exerciseImages)
               && editingId == old(editingId) && showAddForm == old(showAddForm)
             else
               alert.None?
               && imageStore == SaveStepAsWritten(old(imageStore), saved, TruthyNum(old(editingId)), old(exerciseImages))
               && form == BlankForm(|exercises| + 1, selectedGroupId)
               && exerciseImages == [] && editingId == None && !showAddForm
    {
      var saved;
      alert, saved := WriteExercise(writeError, newId);
      if alert.Some? {
        return;
      }
      if TruthyNum(saved) && |exerciseImages| > 0 {
        imageStore := ClearedForEdit(imageStore, saved.value, TruthyNum(editingId));
        if imagesError.Some? {
          return Some(SaveFailed(imagesError.value));
        }
        imageStore := imageStore.(rows := imageStore.rows + ImageRows(saved.value, exerciseImages));
      }
      ResetAfterSave();
    }

    /**
     * `handleSave` with the image step of `SyncImages` in place of
     * `saveExerciseImages`: it runs for every saved id, an empty list
     * included, and is one write that happens whole or not at all.
     */
    method SaveCorrected(writeError: Option<string>, newId: int, imagesError: Option<string>) returns (alert: Option<Alert>)
      modifies this`form, this`exerciseTable, this`imageStore, this`exerciseImages, this`editingId, this`showAddForm
      ensures var g := SaveGroupId(old(form).groupId, selectedGroupId);
        !TruthyNum(g) ==> alert == Some(ChooseGroup) && unchanged(this)
      ensures var g := SaveGroupId(old(form).groupId, selectedGroupId);
        TruthyNum(g) && writeError.Some? ==>
          alert == Some(SaveFailed(writeError.value)) && form == old(form).(groupId := g)
          && exerciseTable == old(exerciseTable) && imageStore == old(imageStore)
          && exerciseImages == old(exerciseImages) && editingId == old(editingId) && showAddForm == old(showAddForm)
      ensures var g := SaveGroupId(old(form).groupId, selectedGroupId);
        var saved := SavedId(old(editingId), newId);
        TruthyNum(g) && writeError.None? ==>
          exerciseTable == SavedTable(old(exerciseTable), old(editingId), newId, old(form), g.value)
          && if TruthyNum(saved) && imagesError.Some? then
               alert == Some(SaveFailed(imagesError.value)) && form == old(form).(groupId := g)
               && imageStore == old(imageStore) && exerciseImages == old(exerciseImages)
               && editingId == old(editingId) && showAddForm == old(showAddForm)
             else
               alert.None?
               && imageStore == (if TruthyNum(saved)
                                 then SyncImages(old(imageStore), saved.value, TruthyNum(old(editingId)), old(exerciseImages))
                                 else old(imageStore))
               && form == BlankForm(|exercises| + 1, selectedGroupId)
               && exerciseImages == [] && editingId == None && !showAddForm
    {
      var saved;
      alert, saved := WriteExercise(writeError, newId);
      if alert.Some? {
        return;
      }
      if TruthyNum(saved) {
        if imagesError.Some? {
          return Some(SaveFailed(imagesError.value));
        }
        imageStore := SyncImages(imageStore, saved.value, TruthyNum(editingId), exerciseImages);
      }
      ResetAfterSave();
    }

    /** The group fallback and the exercise write of `handleSave`; `saved` is `savedExerciseId`. */
    method WriteExercise(writeError: Option<string>, newId: int) returns (alert: Option<Alert>, saved: Option<int>)
      modifies this`form, this`exerciseTable
      ensures var g := SaveGroupId(old(form).groupId, selectedGroupId);
        form == old(form).(groupId := g)
        && (!TruthyNum(g) ==> alert == Some(ChooseGroup) && form == old(form) && exerciseTable == old(exerciseTable))
        && (TruthyNum(g) && writeError.Some? ==> alert == Some(SaveFailed(writeError.value)) && exerciseTable == old(exerciseTable))
        && (TruthyNum(g) && writeError.None? ==>
              alert.None? && saved == SavedId(editingId, newId)
              && exerciseTable == SavedTable(old(exerciseTable), editingId, newId, old(form), g.value))
    {
      saved := None;
      if !TruthyNum(form.groupId) && TruthyNum(selectedGroupId) {
        form := form.(groupId := selectedGroupId);
      }
      if !TruthyNum(form.groupId) {
        return Some(ChooseGroup), saved;
      }
      if writeError.Some? {
        return Some(SaveFailed(writeError.value)), saved;
      }
      var groupId := form.groupId.value;
      saved := editingId;
      if TruthyNum(editingId) {
        exerciseTable := UpdateExercise(exerciseTable, editingId.value, form, groupId);
      } else {
        exerciseTable := exerciseTable + [NormalizedRow(form, newId, groupId)];
        saved := Some(newId);
      }
      alert := None;
    }

    /** The form reset that ends a successful `handleSave`. */
    method ResetAfterSave()
      modifies this`form, this`exerciseImages, this`editingId, this`showAddForm
      ensures form == BlankForm(|exercises| + 1, selectedGroupId)
      ensures exerciseImages == [] && editingId == None && !showAddForm
    {
      form := BlankForm(|exercises| + 1, selectedGroupId);
      exerciseImages := [];
      editingId := None;
      showAddForm := false;
    }

    /** `handleCancel`: the form is reset to the next order in the selected group and the image list cleared. */
    method Cancel()
      modifies this`form, this`exerciseImages, this`editingId, this`showAddForm, this`imageService
      ensures form == BlankForm(|exercises| + 1, selectedGroupId)
      ensures exerciseImages == [] && editingId == None && !showAddForm && imageService == "midjourney"
    {
      form := BlankForm(|exercises| + 1, selectedGroupId);
      exerciseImages := [];
      editingId := None;
      showAddForm := false;
      imageService := "midjourney";
    }

    /**
     * `handleSaveGroup`: a truthy `editingGroupId` updates that group, anything
     * else (also an id of 0) inserts a new one and selects it. The reset
     * order uses the group count from before the save.
     */
    method SaveGroup(writeError: Option<string>, newId: int) returns (alert: Option<Alert>)
      modifies this`groupTable, this`groupForm, this`editingGroupId, this`showGroupForm, this`selectedGroupId
      ensures writeError.Some? ==> alert == Some(SaveGroupFailed(writeError.value)) && unchanged(this)
      ensures writeError.None? ==>
        alert.None?
        && groupTable == (if TruthyNum(old(editingGroupId)) then UpdateGroup(old(groupTable), old(editingGroupId).value, old(groupForm))
                          else old(groupTable) + [Group(newId, old(groupForm).name, old(groupForm).description, old(groupForm).order, old(groupForm).active)])
        && selectedGroupId == (if TruthyNum(old(editingGroupId)) then old(selectedGroupId) else Some(newId))
        && groupForm == GroupForm("", "", |groups| + 1, true)
        && editingGroupId == None && !showGroupForm
    {
      if writeError.Some? {
        return Some(SaveGroupFailed(writeError.value));
      }
      var f := groupForm;
      if TruthyNum(editingGroupId) {
        groupTable := UpdateGroup(groupTable, editingGroupId.value, f);
      } else {
        groupTable := groupTable + [Group(newId, f.name, f.description, f.order, f.active)];
        selectedGroupId := Some(newId);
      }
      groupForm := GroupForm("", "", |groups| + 1, true);
      editingGroupId := None;
      showGroupForm := false;
      return None;
    }
  }
}
