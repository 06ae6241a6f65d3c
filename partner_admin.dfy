/** The partners admin page: the add-partner dialog and the mutations that call the
    partner service. */
module PartnerAdmin {
  import opened Wrappers
  import opened Text
  import opened Backend
  import opened PartnerService

  /** The create guard: a logo and a name are required. */
  predicate Incomplete(name: string, file: Option<File>) {
    file.None? || name == []
  }

  class Manager {
    const service: Service
    var isDialogOpen: bool
    var newPartnerName: string
    var selectedFile: Option<File>

    ghost predicate Valid()
      reads this, service, service.partners, service.logos
    {
      service.Valid() && (selectedFile.Some? ==> IsBaseName(selectedFile.value))
    }

    constructor (service: Service)
      requires service.Valid()
      ensures Valid() && this.service == service
      ensures !isDialogOpen && newPartnerName == [] && selectedFile.None?
    {
      this.service := service;
      isDialogOpen := false;
      newPartnerName := [];
      selectedFile := None;
    }

    /** `handleFileChange`: only the first chosen file counts; one over 2MB is refused and
        the previous selection stays. */
    method HandleFileChange(files: Option<seq<File>>)
      requires Valid()
      requires files.Some? ==> forall f :: f in files.value ==> IsBaseName(f)
      modifies this`selectedFile
      ensures Valid()
      ensures files.Some? && |files.value| > 0 && files.value[0].size <= MaxLogoSize ==>
        selectedFile == Some(files.value[0])
      ensures files.None? || |files.value| == 0 || files.value[0].size > MaxLogoSize ==>
        selectedFile == old(selectedFile)
    {
      if files.Some? && |files.value| > 0 {
        var file := files.value[0];
        if file.size > MaxLogoSize {
          return;
        }
        selectedFile := Some(file);
      }
    }

    /** `createPartner` called with the dialog's name and logo, seen from the page: a
        refused logo changes nothing; success adds one stored logo and one row pointing at
        it; a failure adds no row and leaves behind at most the uploaded logo, and only
        when its removal failed. */
    method CreatePartner(name: string, logo: File) returns (r: Result<Row<Partner>>, ghost path: string)
      requires service.Valid() && IsBaseName(logo)
      modifies service.partners, service.logos
      ensures service.Valid()
      ensures LogoRejection(logo).Some? ==>
        r == Err(LogoRejection(logo).value) && service.logos.objects == old(service.logos.objects)
      ensures r.Ok? ==>
        LogoRejection(logo).None?
        && path != [] && '/' !in path && path !in old(service.logos.objects)
        && service.logos.objects == old(service.logos.objects) + {path}
        && r.value.data == Partner(name, service.logos.UrlOf(path), DefaultDisplayOrder)
        && r.value.id !in old(service.partners.rows)
        && service.partners.rows == old(service.partners.rows)[r.value.id := r.value]
      ensures r.Err? ==> service.partners.rows == old(service.partners.rows)
      ensures r.Err? && service.logos.failedRemovals == old(service.logos.failedRemovals) ==>
        service.logos.objects == old(service.logos.objects)
      ensures r.Err? && service.logos.failedRemovals != old(service.logos.failedRemovals) ==>
        path !in old(service.logos.objects) && service.logos.objects == old(service.logos.objects) + {path}
    {
      ghost var token;
      r, path, token := service.CreatePartner(name, logo);
    }

    /** The create mutation: the guard, then `createPartner`; on success the name and the
        selection are cleared and the dialog closes. */
    method CreateMutation() returns (r: Result<Row<Partner>>, ghost path: string)
      requires Valid()
      modifies this, service.partners, service.logos
      ensures Valid()
      ensures Incomplete(old(newPartnerName), old(selectedFile)) ==>
        r == Err(MissingFields) && service.partners.rows == old(service.partners.rows)
        && service.logos.objects == old(service.logos.objects)
      ensures r.Ok? ==>
        old(selectedFile).Some? && LogoRejection(old(selectedFile).value).None?
        && path !in old(service.logos.objects) && service.logos.objects == old(service.logos.objects) + {path}
        && r.value.data == Partner(old(newPartnerName), service.logos.UrlOf(path), DefaultDisplayOrder)
        && r.value.id !in old(service.partners.rows)
        && service.partners.rows == old(service.partners.rows)[r.value.id := r.value]
        && newPartnerName == [] && selectedFile.None? && !isDialogOpen
      ensures r.Err? ==>
        service.partners.rows == old(service.partners.rows)
        && newPartnerName == old(newPartnerName) && selectedFile == old(selectedFile)
        && isDialogOpen == old(isDialogOpen)
      ensures r.Err? && service.logos.failedRemovals == old(service.logos.failedRemovals) ==>
        service.logos.objects == old(service.logos.objects)
      ensures r.Err? && service.logos.failedRemovals != old(service.logos.failedRemovals) ==>
        path !in old(service.logos.objects) && service.logos.objects == old(service.logos.objects) + {path}
    {
      path := [];
      if Incomplete(newPartnerName, selectedFile) {
        return Err(MissingFields), path;
      }
      var res;
      res, path := CreatePartner(newPartnerName, selectedFile.value);
      if res.Err? {
        return res, path;
      }
      newPartnerName := [];
      selectedFile := None;
      isDialogOpen := false;
      r := res;
    }

    /** The delete button: after the confirmation, `deletePartner` with exactly the
        partner's id and logo URL. */
    method DeleteMutation(partner: Row<Partner>, confirmed: bool) returns (r: Option<Result<()>>)
      requires Valid()
      modifies service.partners`rows, service.logos`objects, service.logos`failedRemovals
      ensures Valid()
      ensures !confirmed ==> r.None? && service.partners.rows == old(service.partners.rows)
                             && service.logos.objects == old(service.logos.objects)
      ensures confirmed ==> r.Some?
      ensures r.Some? && r.value.Ok? ==> service.partners.rows == old(service.partners.rows) - {partner.id}
      ensures r.Some? && r.value.Ok? && SplitLast(partner.data.logoUrl, "/") != []
              && service.logos.failedRemovals == old(service.logos.failedRemovals) ==>
        service.logos.objects == old(service.logos.objects) - {SplitLast(partner.data.logoUrl, "/")}
      ensures r.Some? && r.value.Ok? && (SplitLast(partner.data.logoUrl, "/") == []
              || service.logos.failedRemovals != old(service.logos.failedRemovals)) ==>
        service.logos.objects == old(service.logos.objects)
      ensures r.Some? && r.value.Err? ==>
        service.partners.rows == old(service.partners.rows) && service.logos.objects == old(service.logos.objects)
    {
      if !confirmed {
        return None;
      }
      var res := service.DeletePartner(partner.id, partner.data.logoUrl);
      r := Some(res);
    }
  }
}
