/** The hero slider admin page: the new-slide form, the selected image, and the
    mutations that call the hero service. */
module HeroAdmin {
  import opened Wrappers
  import opened Text
  import opened JsNumber
  import opened Backend
  import opened HeroService

  /** The new-slide form. */
  datatype SlideForm = SlideForm(title: string, subtitle: string, orderIndex: int, useRandom: bool, isGlobalText: bool)

  const InitialForm := SlideForm("", "", 0, false, false)

  /** `{ ...newSlide, image_url }`: every form field is sent, empty strings included. */
  function SlideInputOf(form: SlideForm, imageUrl: string): (input: SlideInput)
    ensures Stored(input) == Slide(imageUrl, Some(form.title), Some(form.subtitle), form.orderIndex,
                                   form.useRandom, form.isGlobalText)
  {
    SlideInput(imageUrl, Some(form.title), Some(form.subtitle), Some(form.orderIndex),
               Some(form.useRandom), Some(form.isGlobalText))
  }

  /** The update the global-text button sends: `is_global_text` negated, nothing else. */
  function GlobalTextPatch(slide: Slide): SlidePatch {
    SlidePatch(None, None, None, None, None, Some(!slide.isGlobalText))
  }

  lemma GlobalTextPatchFlips(slide: Slide)
    ensures ApplySlidePatch(slide, GlobalTextPatch(slide)) == slide.(isGlobalText := !slide.isGlobalText)
    ensures var s' := ApplySlidePatch(slide, GlobalTextPatch(slide));
      ApplySlidePatch(s', GlobalTextPatch(s')) == slide
  {
  }

  class Manager {
    const service: Service
    var selectedFile: Option<File>
    var newSlide: SlideForm

    ghost predicate Valid()
      reads this, service, service.slides, service.images
    {
      service.Valid()
    }

    constructor (service: Service)
      requires service.Valid()
      ensures Valid() && this.service == service
      ensures selectedFile.None? && newSlide == InitialForm
    {
      this.service := service;
      selectedFile := None;
      newSlide := InitialForm;
    }

    /** `handleFileChange`: the first chosen file, if any, becomes the selection. */
    method HandleFileChange(files: Option<seq<File>>)
      modifies this`selectedFile
      ensures files.Some? && |files.value| > 0 ==> selectedFile == Some(files.value[0])
      ensures files.None? || |files.value| == 0 ==> selectedFile == old(selectedFile)
    {
      if files.Some? && |files.value| > 0 {
        selectedFile := Some(files.value[0]);
      }
    }

    /** The order-index input's change handler. */
    method SetOrderIndex(text: string)
      modifies this`newSlide
      ensures newSlide == old(newSlide).(orderIndex := ParseIntOrZero(text))
    {
      newSlide := newSlide.(orderIndex := ParseIntOrZero(text));
    }

    /** The upload mutation: without a selection it fails before any upload; otherwise the
        image is uploaded and a slide is created with its URL. A failed create does not
        remove the uploaded image. On success the selection and the form are reset. */
    method UploadMutation() returns (r: Result<Row<Slide>>, ghost path: string, ghost uploaded: bool)
      requires Valid()
      modifies this, service.slides, service.images`objects
      ensures Valid()
      ensures old(selectedFile).None? ==> r == Err(NoFileSelected) && !uploaded
      ensures !uploaded ==>
        service.slides.rows == old(service.slides.rows) && service.images.objects == old(service.images.objects)
      ensures uploaded ==>
        old(selectedFile).Some? && path !in old(service.images.objects)
        && service.images.objects == old(service.images.objects) + {path}
      ensures r.Err? && uploaded ==> r.error == DatabaseError
      ensures r.Ok? ==>
        uploaded
        && r.value.data == Stored(SlideInputOf(old(newSlide), service.images.UrlOf(path)))
        && r.value.id !in old(service.slides.rows)
        && service.slides.rows == old(service.slides.rows)[r.value.id := r.value]
        && selectedFile.None? && newSlide == InitialForm
      ensures r.Err? ==>
        service.slides.rows == old(service.slides.rows)
        && selectedFile == old(selectedFile) && newSlide == old(newSlide)
    {
      path, uploaded := [], false;
      if selectedFile.None? {
        return Err(NoFileSelected), path, uploaded;
      }
      var url;
      ghost var token;
      url, path, token := service.UploadImage(selectedFile.value);
      if url.Err? {
        return Err(url.error), path, uploaded;
      }
      uploaded := true;
      r := service.CreateSlide(SlideInputOf(newSlide, url.value));
      if r.Ok? {
        selectedFile := None;
        newSlide := InitialForm;
      }
    }

    /** `handleUpload`: refuses to start the mutation without a selection, and otherwise
        runs it: the image is uploaded, then the slide created with its URL. */
    method HandleUpload() returns (r: Result<Row<Slide>>, ghost path: string, ghost uploaded: bool)
      requires Valid()
      modifies this, service.slides, service.images`objects
      ensures Valid()
      ensures old(selectedFile).None? ==>
        r == Err(NoFileSelected) && !uploaded
        && service.slides.rows == old(service.slides.rows)
        && service.images.objects == old(service.images.objects)
        && selectedFile == old(selectedFile) && newSlide == old(newSlide)
      ensures !uploaded ==>
        service.slides.rows == old(service.slides.rows) && service.images.objects == old(service.images.objects)
      ensures uploaded ==>
        old(selectedFile).Some? && path !in old(service.images.objects)
        && service.images.objects == old(service.images.objects) + {path}
      ensures r.Err? && uploaded ==> r.error == DatabaseError
      ensures r.Ok? ==>
        uploaded
        && r.value.data == Stored(SlideInputOf(old(newSlide), service.images.UrlOf(path)))
        && r.value.id !in old(service.slides.rows)
        && service.slides.rows == old(service.slides.rows)[r.value.id := r.value]
        && selectedFile.None? && newSlide == InitialForm
      ensures r.Err? ==>
        service.slides.rows == old(service.slides.rows)
        && selectedFile == old(selectedFile) && newSlide == old(newSlide)
    {
      if selectedFile.None? {
        return Err(NoFileSelected), [], false;
      }
      r, path, uploaded := UploadMutation();
    }

    /** The delete mutation: the image first, then the row. When the image removal fails
        the row stays; when the row delete fails the image is already gone. */
    method DeleteMutation(slide: Row<Slide>) returns (r: Result<()>)
      requires Valid()
      modifies service.slides`rows, service.images`objects, service.images`failedRemovals
      ensures Valid()
      ensures r.Ok? ==> service.slides.rows == old(service.slides.rows) - {slide.id}
      ensures r.Err? ==> r.error == StorageError || r.error == DatabaseError
      ensures (r.Ok? || r.error == DatabaseError) && SplitLast(slide.data.imageUrl, Marker) != [] ==>
        service.images.objects == old(service.images.objects) - {SplitLast(slide.data.imageUrl, Marker)}
      ensures SplitLast(slide.data.imageUrl, Marker) == [] ==> service.images.objects == old(service.images.objects)
      ensures r.Err? ==> service.slides.rows == old(service.slides.rows)
      ensures r.Err? && r.error == StorageError ==> service.images.objects == old(service.images.objects)
    {
      r := service.DeleteImage(slide.data.imageUrl);
      if r.Err? {
        return;
      }
      r := service.DeleteSlide(slide.id);
    }

    /** The global-text button: an update of `is_global_text` to its negation. */
    method ToggleGlobalText(slide: Row<Slide>) returns (r: Result<Row<Slide>>)
      requires Valid()
      modifies service.slides`rows
      ensures Valid()
      ensures r.Ok? ==>
        slide.id in old(service.slides.rows)
        && r.value.data == old(service.slides.rows)[slide.id].data.(isGlobalText := !slide.data.isGlobalText)
        && service.slides.rows == old(service.slides.rows)[slide.id := r.value]
      ensures r.Err? ==> service.slides.rows == old(service.slides.rows)
    {
      r := service.UpdateSlide(slide.id, GlobalTextPatch(slide.data));
    }
  }
}
