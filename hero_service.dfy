/** The hero service: homepage slides in the `hero_slides` table, their images in the
    `hero-images` bucket. */
module HeroService {
  import opened Wrappers
  import opened Text
  import opened Seqs
  import opened Backend

  /** The client-visible columns of a `hero_slides` row besides `id` and `created_at`;
      `title` and `subtitle` are nullable. */
  datatype Slide = Slide(
    imageUrl: string,
    title: Option<string>,
    subtitle: Option<string>,
    orderIndex: int,
    useRandom: bool,
    isGlobalText: bool)

  /** `CreateHeroSlideInput`: only the image URL is required. */
  datatype SlideInput = SlideInput(
    imageUrl: string,
    title: Option<string>,
    subtitle: Option<string>,
    orderIndex: Option<int>,
    useRandom: Option<bool>,
    isGlobalText: Option<bool>)

  /** `Partial<CreateHeroSlideInput>`: `None` leaves a column alone. */
  datatype SlidePatch = SlidePatch(
    imageUrl: Option<string>,
    title: Option<string>,
    subtitle: Option<string>,
    orderIndex: Option<int>,
    useRandom: Option<bool>,
    isGlobalText: Option<bool>)

  /** The column values an insert leaves out take the table's defaults. The table's
      schema is not part of this model; null, 0, false and false are assumed. */
  const DefaultOrderIndex := 0
  const DefaultUseRandom := false
  const DefaultIsGlobalText := false

  /** The row an insert of `input` stores. */
  function Stored(input: SlideInput): Slide {
    Slide(
      input.imageUrl,
      input.title,
      input.subtitle,
      input.orderIndex.GetOr(DefaultOrderIndex),
      input.useRandom.GetOr(DefaultUseRandom),
      input.isGlobalText.GetOr(DefaultIsGlobalText))
  }

  function ApplySlidePatch(s: Slide, u: SlidePatch): Slide {
    Slide(
      u.imageUrl.GetOr(s.imageUrl),
      if u.title.Some? then u.title else s.title,
      if u.subtitle.Some? then u.subtitle else s.subtitle,
      u.orderIndex.GetOr(s.orderIndex),
      u.useRandom.GetOr(s.useRandom),
      u.isGlobalText.GetOr(s.isGlobalText))
  }

  /** An update sets exactly the columns it names: applying it twice is applying it
      once, and an update naming every column of a slide yields that slide. */
  lemma SlidePatchSets(s: Slide, t: Slide, u: SlidePatch)
    ensures ApplySlidePatch(ApplySlidePatch(s, u), u) == ApplySlidePatch(s, u)
    ensures t.title.Some? && t.subtitle.Some? ==>
      ApplySlidePatch(s, SlidePatch(Some(t.imageUrl), t.title, t.subtitle, Some(t.orderIndex),
                                    Some(t.useRandom), Some(t.isGlobalText))) == t
    ensures ApplySlidePatch(s, SlidePatch(None, None, None, None, None, None)) == s
  {
  }

  /** An insert that names every column stores exactly those values: every slide can
      be created as it is. */
  lemma StoredRoundTrip(s: Slide)
    ensures Stored(SlideInput(s.imageUrl, s.title, s.subtitle, Some(s.orderIndex),
                              Some(s.useRandom), Some(s.isGlobalText))) == s
  {
  }

  /** An insert stores what an update with the same columns would make of the slide
      holding only the image and the table's defaults. */
  lemma StoredIsPatchedDefaults(input: SlideInput)
    ensures Stored(input) ==
      ApplySlidePatch(Slide(input.imageUrl, None, None, DefaultOrderIndex, DefaultUseRandom, DefaultIsGlobalText),
                      SlidePatch(None, input.title, input.subtitle, input.orderIndex, input.useRandom, input.isGlobalText))
  {
  }

  /** `order('order_index', { ascending: true })`. */
  function ByOrderIndex(r: Row<Slide>): int {
    r.data.orderIndex
  }

  /** The listing is in ascending order index and holds exactly the stored slides. */
  lemma ListingByOrderIndex(rows: map<Id, Row<Slide>>, n: nat, x: Row<Slide>)
    requires forall k :: k in rows ==> k < n
    ensures var l := Query(rows, n, Everything, ByOrderIndex);
      (forall i, j :: 0 <= i < j < |l| ==> l[i].data.orderIndex <= l[j].data.orderIndex)
      && (x in l <==> x in rows.Values)
  {
    var l := Query(rows, n, Everything, ByOrderIndex);
    QueryContents(rows, n, Everything, ByOrderIndex, x);
    forall i, j | 0 <= i < j < |l| ensures l[i].data.orderIndex <= l[j].data.orderIndex {
      assert ByOrderIndex(l[i]) <= ByOrderIndex(l[j]);
    }
  }

  /** The marker `deleteImage` splits an image URL at. */
  const Marker := "/hero-images/"

  /** The text before the object path in every public URL of the bucket, and the
      condition under which the marker cannot be found inside it. */
  function UrlPrefix(projectUrl: string): string {
    projectUrl + "/storage/v1/object/public"
  }

  predicate MarkerOnlyAtPath(projectUrl: string) {
    IndexOf(UrlPrefix(projectUrl) + Marker[..|Marker| - 1], Marker).None?
  }

  /** The path `deleteImage` reads off a public URL of the bucket is the object's path,
      as long as the project URL does not itself produce the marker. */
  lemma {:induction false} PathOfPublicUrl(projectUrl: string, path: string)
    requires MarkerOnlyAtPath(projectUrl) && '/' !in path
    ensures SplitLast(PublicUrl(projectUrl, "hero-images", path), Marker) == path
  {
    var p := UrlPrefix(projectUrl);
    assert PublicUrl(projectUrl, "hero-images", path) == p + Marker + path;
    NoMarkerWithoutChar(path, Marker, '/');
    SplitLastAfterMarker(p, Marker, path);
  }

  /** A URL `uploadImage` returns leads `deleteImage` back to the object it stored. */
  lemma UploadedImagePath(projectUrl: string, token: string, file: File)
    requires MarkerOnlyAtPath(projectUrl) && '/' !in token && IsBaseName(file)
    ensures SplitLast(PublicUrl(projectUrl, "hero-images", ObjectName(token, file)), Marker)
            == ObjectName(token, file)
  {
    ObjectNameSegment(token, file);
    PathOfPublicUrl(projectUrl, ObjectName(token, file));
  }

  class Service {
    const slides: Table<Slide>
    const images: Bucket

    ghost predicate Valid()
      reads this, slides, images
    {
      slides.Valid() && images.name == "hero-images"
    }

    constructor (projectUrl: string)
      ensures Valid() && fresh(slides) && fresh(images)
      ensures slides.rows == map[] && images.objects == {} && images.projectUrl == projectUrl
    {
      slides := new Table();
      images := new Bucket("hero-images", projectUrl);
    }

    /** `fetchSlides`: all slides by ascending order index. */
    method FetchSlides() returns (r: Result<seq<Row<Slide>>>)
      requires Valid()
      ensures r.Ok? ==> r.value == Query(slides.rows, slides.nextId, Everything, ByOrderIndex)
    {
      r := slides.Select(Everything, ByOrderIndex);
    }

    /** `createSlide`: one new row holding the input, defaults for what it leaves out. */
    method CreateSlide(input: SlideInput) returns (r: Result<Row<Slide>>)
      requires Valid()
      modifies slides
      ensures Valid()
      ensures r.Ok? ==>
        r.value.data == Stored(input) && r.value.id !in old(slides.rows)
        && slides.rows == old(slides.rows)[r.value.id := r.value]
      ensures r.Err? ==> r.error == DatabaseError && slides.rows == old(slides.rows)
    {
      r := slides.Insert(Stored(input));
    }

    /** `updateSlide`: the row with that id takes the given columns. */
    method UpdateSlide(id: Id, patch: SlidePatch) returns (r: Result<Row<Slide>>)
      requires Valid()
      modifies slides`rows
      ensures Valid()
      ensures id !in old(slides.rows) ==> r.Err?
      ensures r.Ok? ==>
        id in old(slides.rows)
        && r.value == old(slides.rows)[id].(data := ApplySlidePatch(old(slides.rows)[id].data, patch))
        && slides.rows == old(slides.rows)[id := r.value]
      ensures r.Err? ==> slides.rows == old(slides.rows)
    {
      r := slides.Update(id, s => ApplySlidePatch(s, patch));
    }

    /** `deleteSlide`: the row goes; its image is not touched. */
    method DeleteSlide(id: Id) returns (r: Result<()>)
      requires Valid()
      modifies slides`rows
      ensures Valid()
      ensures r.Ok? ==> slides.rows == old(slides.rows) - {id}
      ensures r.Err? ==> r.error == DatabaseError && slides.rows == old(slides.rows)
    {
      var ok := slides.Delete(id);
      r := if ok then Ok(()) else Err(DatabaseError);
    }

    /** `uploadImage`: the file goes to a name made from random base-36 digits and the
        file's extension; the result is the object's public URL. The file is not
        checked. */
    method UploadImage(file: File) returns (r: Result<string>, ghost path: string, ghost token: string)
      requires Valid()
      modifies images`objects
      ensures Valid()
      ensures Over(token, Base36Alphabet) && '/' !in token && path == ObjectName(token, file)
      ensures r.Ok? ==>
        r.value == images.UrlOf(path)
        && path !in old(images.objects) && images.objects == old(images.objects) + {path}
      ensures r.Err? ==> r.error == StorageError && images.objects == old(images.objects)
    {
      var digits := RandomBase36();
      var filePath := ObjectName(digits, file);
      path, token := filePath, digits;
      var ok := images.Upload(filePath);
      if !ok {
        return Err(StorageError), path, token;
      }
      r := Ok(images.UrlOf(filePath));
    }

    /** `deleteImage`: the path is what follows the marker in the URL; an empty path
        means there is nothing to remove, and a failed removal is an error. */
    method DeleteImage(imageUrl: string) returns (r: Result<()>)
      requires Valid()
      modifies images`objects, images`failedRemovals
      ensures Valid()
      ensures SplitLast(imageUrl, Marker) == [] ==>
        r.Ok? && images.objects == old(images.objects) && images.failedRemovals == old(images.failedRemovals)
      ensures r.Ok? && SplitLast(imageUrl, Marker) != [] ==>
        images.objects == old(images.objects) - {SplitLast(imageUrl, Marker)}
      ensures r.Err? ==> r.error == StorageError && images.objects == old(images.objects)
    {
      var path := SplitLast(imageUrl, Marker);
      if path == [] {
        return Ok(());
      }
      var ok := images.Remove([path]);
      SetOfSingleton(path);
      r := if ok then Ok(()) else Err(StorageError);
    }
  }
}
