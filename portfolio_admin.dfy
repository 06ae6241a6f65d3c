/** The portfolio admin page: the project dialog's form state, its file selection with
    previews, and the mutations that call the portfolio service. */
module PortfolioAdmin {
  import opened Wrappers
  import opened Seqs
  import opened Backend
  import opened PortfolioService

  const GreenClasses := "bg-green-100 text-green-800 border-green-200"
  const BlueClasses := "bg-blue-100 text-blue-800 border-blue-200"
  const AmberClasses := "bg-amber-100 text-amber-800 border-amber-200"
  const GrayClasses := "bg-gray-100 text-gray-800 border-gray-200"

  /** The statuses the badge knows. */
  predicate KnownStatus(status: string) {
    status == "Completed" || status == "In Progress" || status == "Concept"
  }

  /** `getStatusColor`: the badge classes of a status. */
  function StatusColor(status: string): (c: string)
    ensures c == GrayClasses <==> !KnownStatus(status)
    ensures status == "Completed" ==> c == GreenClasses
    ensures status == "In Progress" ==> c == BlueClasses
    ensures status == "Concept" ==> c == AmberClasses
  {
    match status
    case "Completed" => GreenClasses
    case "In Progress" => BlueClasses
    case "Concept" => AmberClasses
    case _ => GrayClasses
  }

  /** Each known status has a badge of its own. */
  lemma StatusColorsDistinct(a: string, b: string)
    requires KnownStatus(a) && KnownStatus(b) && a != b
    ensures StatusColor(a) != StatusColor(b)
  {
    assert GreenClasses[3] != BlueClasses[3] && GreenClasses[3] != AmberClasses[3] && BlueClasses[3] != AmberClasses[3];
  }

  /** JavaScript's `s || fallback` on an optional string: a missing or empty string
      gives the fallback. */
  function OrElse(s: Option<string>, fallback: string): (r: string)
    ensures r != [] <==> (s.Some? && s.value != []) || fallback != []
    ensures s.Some? && s.value != [] ==> r == s.value
  {
    if s.Some? && s.value != [] then s.value else fallback
  }

  /** The status a project card shows: `project.status || 'Completed'`. */
  function ShownStatus(p: Project): string {
    OrElse(p.status, "Completed")
  }

  /** A project without a status, or with an empty one, shows the green badge. */
  lemma MissingStatusIsCompleted(p: Project)
    ensures (p.status.None? || p.status == Some("")) ==> StatusColor(ShownStatus(p)) == GreenClasses
    ensures p.status.Some? && p.status.value != [] ==> StatusColor(ShownStatus(p)) == StatusColor(p.status.value)
  {
  }

  /** The dialog's text fields. */
  datatype Fields = Fields(
    title: string,
    category: string,
    year: string,
    description: string,
    location: string,
    client: string,
    status: string)

  /** What the form shows when opened for a new project. */
  const InitialFields := Fields("", "", "", "", "", "", "Completed")

  /** The create guard: a required field is empty or no image is chosen. */
  predicate Incomplete(f: Fields, files: seq<File>) {
    f.title == [] || f.category == [] || f.year == [] || |files| == 0
  }

  /** The update the edit dialog sends: the seven text fields, never the images. */
  function TextPatch(f: Fields): ProjectPatch {
    ProjectPatch(Some(f.title), Some(f.category), Some(f.year), Some(f.description),
                 Some(f.location), Some(f.client), Some(f.status), None)
  }

  /** An edit stores the form's text and keeps the project's images. */
  lemma TextPatchKeepsImages(p: Project, f: Fields)
    ensures ApplyPatch(p, TextPatch(f)).images == p.images
    ensures var q := ApplyPatch(p, TextPatch(f));
      q.title == f.title && q.category == f.category && q.year == f.year
      && q.description == f.description && q.location == Some(f.location)
      && q.client == Some(f.client) && q.status == Some(f.status)
  {
  }

  /** The form `handleEdit` fills in from a project. */
  function EditFields(p: Project): (f: Fields)
    ensures f.title == p.title && f.category == p.category && f.year == p.year
    ensures f.description == p.description
    ensures f.status != []
  {
    Fields(p.title, p.category, p.year, p.description,
           OrElse(p.location, ""), OrElse(p.client, ""), OrElse(p.status, "Completed"))
  }

  /** Saving an edit without changing the form gives back the project, except that a
      missing location, client or status is stored as "", "" or "Completed". */
  lemma EditRoundTrip(p: Project)
    ensures var q := ApplyPatch(p, TextPatch(EditFields(p)));
      q.title == p.title && q.category == p.category && q.year == p.year
      && q.description == p.description && q.images == p.images
      && q.location == Some(OrElse(p.location, "")) && q.client == Some(OrElse(p.client, ""))
      && q.status == Some(ShownStatus(p))
    ensures p.location.Some? && p.location.value != [] && p.client.Some? && p.client.value != []
            && p.status.Some? && p.status.value != [] ==>
            ApplyPatch(p, TextPatch(EditFields(p))) == p
  {
  }

  /** The two preview lists stay aligned when `index` is dropped from both: the entry at
      position `k` of each came from the same position before. */
  lemma RemovePreviewAligned(files: seq<File>, urls: seq<string>, index: int, k: int)
    requires |files| == |urls| && 0 <= index < |files| && 0 <= k < |files| - 1
    ensures var j := if k < index then k else k + 1;
      Without(files, index)[k] == files[j] && Without(urls, index)[k] == urls[j]
  {
    WithoutAt(files, index, k);
    WithoutAt(urls, index, k);
  }

  /** The size check of `handleFileChange`: every chosen file is at most 5MB. */
  method AllWithinLimit(files: seq<File>) returns (ok: bool)
    ensures ok <==> forall i :: 0 <= i < |files| ==> files[i].size <= MaxImageSize
  {
    var i := 0;
    while i < |files|
      invariant 0 <= i <= |files|
      invariant forall j :: 0 <= j < i ==> files[j].size <= MaxImageSize
    {
      if files[i].size > MaxImageSize {
        return false;
      }
      i := i + 1;
    }
    ok := true;
  }

  class Manager {
    const service: Service
    var isDialogOpen: bool
    var isEditing: bool
    var editId: Option<Id>
    var fields: Fields
    var selectedFiles: seq<File>
    /** One object URL per selected file, in the same order. */
    var previewUrls: seq<string>
    var existingImages: seq<string>

    ghost predicate Valid()
      reads this, service, service.items, service.images
    {
      service.Valid() && |selectedFiles| == |previewUrls|
      && forall f :: f in selectedFiles ==> IsBaseName(f)
    }

    constructor (service: Service)
      requires service.Valid()
      ensures Valid() && this.service == service
      ensures !isDialogOpen && !isEditing && editId.None? && fields == InitialFields
      ensures selectedFiles == [] && previewUrls == [] && existingImages == []
    {
      this.service := service;
      isDialogOpen := false;
      isEditing := false;
      editId := None;
      fields := InitialFields;
      selectedFiles := [];
      previewUrls := [];
      existingImages := [];
    }

    /** `resetForm`: every field back to its initial value; the dialog stays as it is. */
    method ResetForm()
      requires Valid()
      modifies this
      ensures Valid()
      ensures fields == InitialFields && selectedFiles == [] && previewUrls == [] && existingImages == []
      ensures !isEditing && editId.None? && isDialogOpen == old(isDialogOpen)
    {
      fields := InitialFields;
      selectedFiles := [];
      previewUrls := [];
      existingImages := [];
      isEditing := false;
      editId := None;
    }

    /** `handleFileChange`: a batch with a file over 5MB is refused and the selection is
        kept; otherwise the batch and one new preview URL per file replace the old ones. */
    method HandleFileChange(files: Option<seq<File>>)
      requires Valid()
      requires files.Some? ==> forall f :: f in files.value ==> IsBaseName(f)
      modifies this`selectedFiles, this`previewUrls
      ensures Valid()
      ensures files.None? || (exists i :: 0 <= i < |files.value| && files.value[i].size > MaxImageSize) ==>
        selectedFiles == old(selectedFiles) && previewUrls == old(previewUrls)
      ensures files.Some? && (forall i :: 0 <= i < |files.value| ==> files.value[i].size <= MaxImageSize) ==>
        selectedFiles == files.value && |previewUrls| == |files.value|
    {
      if files.None? {
        return;
      }
      var ok := AllWithinLimit(files.value);
      if !ok {
        return;
      }
      selectedFiles := files.value;
      var blank := seq(|files.value|, _ => "");
      var urls: seq<string> :| |urls| == |blank|;
      previewUrls := urls;
    }

    /** `removePreview`: drops position `index` from both lists. */
    method RemovePreview(index: int)
      requires Valid()
      modifies this`selectedFiles, this`previewUrls
      ensures Valid()
      ensures selectedFiles == Without(old(selectedFiles), index)
      ensures previewUrls == Without(old(previewUrls), index)
    {
      var files := Without(selectedFiles, index);
      forall f | f in files ensures IsBaseName(f) {
        WithoutSplices(selectedFiles, index);
      }
      selectedFiles := files;
      previewUrls := Without(previewUrls, index);
    }

    /** `handleEdit`: the form takes the project's fields and enters edit mode. */
    method HandleEdit(project: Row<Project>)
      requires Valid()
      modifies this`fields, this`existingImages, this`editId, this`isEditing, this`isDialogOpen
      ensures Valid()
      ensures fields == EditFields(project.data) && existingImages == project.data.images
      ensures editId == Some(project.id) && isEditing && isDialogOpen
    {
      fields := EditFields(project.data);
      existingImages := project.data.images;
      editId := Some(project.id);
      isEditing := true;
      isDialogOpen := true;
    }

    /** `handleOpenChange`: closing the dialog resets the form. */
    method HandleOpenChange(open: bool)
      requires Valid()
      modifies this
      ensures Valid()
      ensures isDialogOpen == open
      ensures !open ==> fields == InitialFields && selectedFiles == [] && previewUrls == []
                        && existingImages == [] && !isEditing && editId.None?
      ensures open ==> fields == old(fields) && selectedFiles == old(selectedFiles)
                       && previewUrls == old(previewUrls) && existingImages == old(existingImages)
                       && isEditing == old(isEditing) && editId == old(editId)
    {
      if !open {
        ResetForm();
      }
      isDialogOpen := open;
    }

    /** `createProject` called with the form's fields and files, seen from the page: a
        refused file changes nothing; success adds one stored object per file and one row
        holding the text and their URLs; a failure adds no row and leaves behind only the
        objects whose cleanup removal failed. */
    method CreateProject(f: Fields, files: seq<File>)
      returns (r: Result<Row<Project>>, ghost stored: seq<string>, ghost tokens: seq<string>,
               ghost leaked: set<string>)
      requires service.Valid() && forall x :: x in files ==> IsBaseName(x)
      modifies service.items, service.images
      ensures service.Valid()
      ensures FirstRejection(files).Some? ==>
        r == Err(FirstRejection(files).value)
        && service.items.rows == old(service.items.rows) && service.images.objects == old(service.images.objects)
      ensures r.Ok? ==>
        FirstRejection(files).None?
        && NamedAfter(stored, tokens, files) && Distinct(stored)
        && SetOf(stored) !! old(service.images.objects)
        && service.images.objects == old(service.images.objects) + SetOf(stored)
        && r.value.data == Project(f.title, f.category, f.year, f.description, Some(f.location),
                                   Some(f.client), Some(f.status),
                                   Urls(service.images.projectUrl, service.images.name, stored))
        && |r.value.data.images| == |files|
        && r.value.id !in old(service.items.rows)
        && service.items.rows == old(service.items.rows)[r.value.id := r.value]
      ensures r.Err? ==>
        service.items.rows == old(service.items.rows)
        && leaked <= SetOf(stored) && leaked !! old(service.images.objects)
        && service.images.objects == old(service.images.objects) + leaked
      ensures service.images.failedRemovals == old(service.images.failedRemovals) ==> leaked == {}
    {
      r, stored, tokens, leaked := service.CreateProject(f.title, f.category, f.year, f.description,
                                                         f.location, f.client, f.status, files);
    }

    /** The create mutation: the guard, then `createProject`; on success the form is
        reset and the dialog closed. */
    method CreateMutation() returns (r: Result<Row<Project>>, ghost stored: seq<string>, ghost leaked: set<string>)
      requires Valid()
      modifies this, service.items, service.images
      ensures Valid()
      ensures Incomplete(old(fields), old(selectedFiles)) ==>
        r == Err(MissingFields) && service.items.rows == old(service.items.rows)
        && service.images.objects == old(service.images.objects)
      ensures r.Ok? ==>
        Distinct(stored) && SetOf(stored) !! old(service.images.objects)
        && service.images.objects == old(service.images.objects) + SetOf(stored)
        && r.value.data == Project(old(fields.title), old(fields.category), old(fields.year),
                                   old(fields.description), Some(old(fields.location)),
                                   Some(old(fields.client)), Some(old(fields.status)),
                                   Urls(service.images.projectUrl, service.images.name, stored))
        && |r.value.data.images| == |old(selectedFiles)|
        && r.value.id !in old(service.items.rows)
        && service.items.rows == old(service.items.rows)[r.value.id := r.value]
        && fields == InitialFields && selectedFiles == [] && !isEditing && !isDialogOpen
      ensures r.Err? ==>
        service.items.rows == old(service.items.rows)
        && leaked <= SetOf(stored) && leaked !! old(service.images.objects)
        && service.images.objects == old(service.images.objects) + leaked
        && fields == old(fields) && selectedFiles == old(selectedFiles) && isDialogOpen == old(isDialogOpen)
      ensures service.images.failedRemovals == old(service.images.failedRemovals) ==> leaked == {}
    {
      stored, leaked := [], {};
      if Incomplete(fields, selectedFiles) {
        return Err(MissingFields), stored, leaked;
      }
      var res;
      ghost var tokens;
      res, stored, tokens, leaked := CreateProject(fields, selectedFiles);
      if res.Err? {
        return res, stored, leaked;
      }
      ResetForm();
      isDialogOpen := false;
      r := res;
    }

    /** The update mutation: without a project id it fails; otherwise it sends the text
        fields only, even when files are selected. */
    method UpdateMutation() returns (r: Result<Row<Project>>)
      requires Valid()
      modifies this, service.items`rows
      ensures Valid()
      ensures service.images.objects == old(service.images.objects)
      ensures old(editId).None? ==> r == Err(NoProjectId) && service.items.rows == old(service.items.rows)
      ensures r.Ok? ==>
        old(editId).Some? && old(editId).value in old(service.items.rows)
        && r.value.data == ApplyPatch(old(service.items.rows)[old(editId).value].data, TextPatch(old(fields)))
        && r.value.data.images == old(service.items.rows)[old(editId).value].data.images
        && service.items.rows == old(service.items.rows)[old(editId).value := r.value]
        && fields == InitialFields && !isEditing && !isDialogOpen
      ensures r.Err? ==> service.items.rows == old(service.items.rows) && fields == old(fields)
    {
      if editId.None? {
        return Err(NoProjectId);
      }
      var id := editId.value;
      var res := service.UpdateProject(id, TextPatch(fields));
      if res.Err? {
        return res;
      }
      TextPatchKeepsImages(old(service.items.rows)[id].data, old(fields));
      ResetForm();
      isDialogOpen := false;
      r := res;
    }

    /** `handleSubmit`: update in edit mode, create otherwise. */
    method HandleSubmit() returns (r: Result<Row<Project>>, ghost stored: seq<string>, ghost leaked: set<string>)
      requires Valid()
      modifies this, service.items, service.images
      ensures Valid()
      ensures old(isEditing) ==> service.images.objects == old(service.images.objects)
      ensures old(isEditing) && old(editId).None? ==> r == Err(NoProjectId)
      ensures !old(isEditing) && Incomplete(old(fields), old(selectedFiles)) ==> r == Err(MissingFields)
      ensures old(isEditing) && r.Ok? ==>
        old(editId).Some? && old(editId).value in old(service.items.rows)
        && r.value.data == ApplyPatch(old(service.items.rows)[old(editId).value].data, TextPatch(old(fields)))
        && service.items.rows == old(service.items.rows)[old(editId).value := r.value]
      ensures !old(isEditing) && r.Ok? ==>
        r.value.data == Project(old(fields.title), old(fields.category), old(fields.year),
                                old(fields.description), Some(old(fields.location)),
                                Some(old(fields.client)), Some(old(fields.status)), r.value.data.images)
        && |r.value.data.images| == |old(selectedFiles)|
        && r.value.id !in old(service.items.rows)
        && service.items.rows == old(service.items.rows)[r.value.id := r.value]
      ensures !old(isEditing) && r.Ok? ==>
        Distinct(stored) && SetOf(stored) !! old(service.images.objects)
        && service.images.objects == old(service.images.objects) + SetOf(stored)
        && r.value.data.images == Urls(service.images.projectUrl, service.images.name, stored)
      ensures !old(isEditing) && r.Err? ==>
        leaked <= SetOf(stored) && leaked !! old(service.images.objects)
        && service.images.objects == old(service.images.objects) + leaked
      ensures service.images.failedRemovals == old(service.images.failedRemovals) ==> leaked == {}
      ensures r.Err? ==> service.items.rows == old(service.items.rows)
      ensures r.Ok? ==> fields == InitialFields && !isEditing && !isDialogOpen
    {
      if isEditing {
        stored, leaked := [], {};
        r := UpdateMutation();
      } else {
        r, stored, leaked := CreateMutation();
      }
    }

    /** The delete button: after the confirmation, `deleteProject` with the project's id
        and image URLs. */
    method DeleteMutation(project: Row<Project>, confirmed: bool) returns (r: Option<Result<()>>)
      requires Valid()
      modifies service.items`rows, service.images`objects, service.images`failedRemovals
      ensures Valid()
      ensures !confirmed ==> r.None? && service.items.rows == old(service.items.rows)
                             && service.images.objects == old(service.images.objects)
      ensures confirmed ==> r.Some?
      ensures r.Some? && r.value.Ok? ==> service.items.rows == old(service.items.rows) - {project.id}
      ensures r.Some? && r.value.Ok? && service.images.failedRemovals == old(service.images.failedRemovals) ==>
        service.images.objects == old(service.images.objects) - SetOf(FileNames(project.data.images))
      ensures r.Some? && r.value.Ok? && service.images.failedRemovals != old(service.images.failedRemovals) ==>
        service.images.objects == old(service.images.objects)
      ensures r.Some? && r.value.Err? ==>
        service.items.rows == old(service.items.rows) && service.images.objects == old(service.images.objects)
    {
      if !confirmed {
        return None;
      }
      var res := service.DeleteProject(project.id, project.data.images);
      r := Some(res);
    }
  }
}
