/** The partner service: partners in the `partners` table, their logos in the
    `partner-logos` bucket. */
module PartnerService {
  import opened Wrappers
  import opened Text
  import opened Seqs
  import opened Backend

  /** The client-visible columns of a `partners` row besides `id` and `created_at`. */
  datatype Partner = Partner(name: string, logoUrl: string, displayOrder: int)

  /** The value `display_order` takes when an insert leaves it out. The table's schema
      is not part of this model; 0 is assumed. */
  const DefaultDisplayOrder := 0

  const MaxLogoSize := 2 * 1024 * 1024

  /** Why a logo is refused, size first. */
  function LogoRejection(f: File): (e: Option<Error>)
    ensures e.None? <==> f.size <= MaxLogoSize && StartsWith(f.mimeType, "image/")
    ensures f.size > MaxLogoSize ==> e == Some(LogoTooLarge)
    ensures f.size <= MaxLogoSize && !StartsWith(f.mimeType, "image/") ==> e == Some(InvalidLogoType)
  {
    if f.size > MaxLogoSize then Some(LogoTooLarge)
    else if !StartsWith(f.mimeType, "image/") then Some(InvalidLogoType)
    else None
  }

  /** `order('display_order', { ascending: true })`. */
  function ByDisplayOrder(r: Row<Partner>): int {
    r.data.displayOrder
  }

  /** The listing is in ascending display order and holds exactly the stored partners. */
  lemma ListingByDisplayOrder(rows: map<Id, Row<Partner>>, n: nat, x: Row<Partner>)
    requires forall k :: k in rows ==> k < n
    ensures var l := Query(rows, n, Everything, ByDisplayOrder);
      (forall i, j :: 0 <= i < j < |l| ==> l[i].data.displayOrder <= l[j].data.displayOrder)
      && (x in l <==> x in rows.Values)
  {
    var l := Query(rows, n, Everything, ByDisplayOrder);
    QueryContents(rows, n, Everything, ByDisplayOrder, x);
    forall i, j | 0 <= i < j < |l| ensures l[i].data.displayOrder <= l[j].data.displayOrder {
      assert ByDisplayOrder(l[i]) <= ByDisplayOrder(l[j]);
    }
  }

  /** The object a stored logo URL points back to. */
  lemma LogoUrlNamesObject(projectUrl: string, token: string, logo: File)
    requires '/' !in token && IsBaseName(logo)
    ensures SplitLast(PublicUrl(projectUrl, "partner-logos", ObjectName(token, logo)), "/")
            == ObjectName(token, logo)
  {
    ObjectNameSegment(token, logo);
    LastSegmentOfPublicUrl(projectUrl, "partner-logos", ObjectName(token, logo));
  }

  class Service {
    const partners: Table<Partner>
    const logos: Bucket

    ghost predicate Valid()
      reads this, partners, logos
    {
      partners.Valid() && logos.name == "partner-logos"
    }

    constructor (projectUrl: string)
      ensures Valid() && fresh(partners) && fresh(logos)
      ensures partners.rows == map[] && logos.objects == {} && logos.projectUrl == projectUrl
    {
      partners := new Table();
      logos := new Bucket("partner-logos", projectUrl);
    }

    /** `fetchPartners`: all partners by ascending display order. */
    method FetchPartners() returns (r: Result<seq<Row<Partner>>>)
      requires Valid()
      ensures r.Ok? ==> r.value == Query(partners.rows, partners.nextId, Everything, ByDisplayOrder)
    {
      r := partners.Select(Everything, ByDisplayOrder);
    }

    /** The upload step: the logo goes to a fresh name made from a new UUID and the
        file's extension. */
    method UploadLogo(logo: File) returns (path: Option<string>, token: string)
      requires Valid() && IsBaseName(logo)
      modifies logos`objects
      ensures |token| == 36 && Over(token, UuidAlphabet)
      ensures path.Some? ==>
        path.value == ObjectName(token, logo) && path.value != [] && '/' !in path.value
        && path.value !in old(logos.objects) && logos.objects == old(logos.objects) + {path.value}
      ensures path.None? ==> logos.objects == old(logos.objects)
    {
      var filePath;
      filePath, token := UuidObjectName(logo);
      var ok := logos.Upload(filePath);
      path := if ok then Some(filePath) else None;
    }

    /** `createPartner`: validate the logo, upload it under a fresh name, insert the row
        pointing at its public URL; a failed insert removes that one object again. */
    method CreatePartner(name: string, logo: File) returns (r: Result<Row<Partner>>, ghost path: string, ghost token: string)
      requires Valid() && IsBaseName(logo)
      modifies partners, logos
      ensures Valid()
      ensures LogoRejection(logo).Some? ==>
        r == Err(LogoRejection(logo).value)
        && partners.rows == old(partners.rows) && logos.objects == old(logos.objects)
      ensures r.Ok? ==>
        LogoRejection(logo).None?
        && path != [] && '/' !in path && path !in old(logos.objects)
        && |token| == 36 && Over(token, UuidAlphabet) && path == ObjectName(token, logo)
        && logos.objects == old(logos.objects) + {path}
        && r.value.data == Partner(name, logos.UrlOf(path), DefaultDisplayOrder)
        && r.value.id !in old(partners.rows)
        && partners.rows == old(partners.rows)[r.value.id := r.value]
      ensures r.Err? ==> partners.rows == old(partners.rows)
      ensures r.Err? && logos.failedRemovals == old(logos.failedRemovals) ==>
        logos.objects == old(logos.objects)
      ensures r.Err? && logos.failedRemovals != old(logos.failedRemovals) ==>
        path != [] && path !in old(logos.objects) && logos.objects == old(logos.objects) + {path}
    {
      path, token := [], [];
      var rejected := LogoRejection(logo);
      if rejected.Some? {
        return Err(rejected.value), path, token;
      }
      var uploaded, uuid := UploadLogo(logo);
      token := uuid;
      if uploaded.None? {
        return Err(StorageError), path, token;
      }
      var filePath := uploaded.value;
      path := filePath;
      var publicUrl := logos.UrlOf(filePath);
      var row := partners.Insert(Partner(name, publicUrl, DefaultDisplayOrder));
      if row.Err? {
        var removed := logos.Remove([filePath]);
        SetOfSingleton(filePath);
        return Err(DatabaseError), path, token;
      }
      r := row;
    }

    /** `deletePartner`: the row goes first; then the object the logo URL names is
        removed in a request whose failure is only logged. */
    method DeletePartner(id: Id, logoUrl: string) returns (r: Result<()>)
      requires Valid()
      modifies partners`rows, logos`objects, logos`failedRemovals
      ensures Valid()
      ensures r.Err? ==> partners.rows == old(partners.rows) && logos.objects == old(logos.objects)
      ensures r.Ok? ==> partners.rows == old(partners.rows) - {id}
      ensures r.Ok? && SplitLast(logoUrl, "/") != [] && logos.failedRemovals == old(logos.failedRemovals) ==>
        logos.objects == old(logos.objects) - {SplitLast(logoUrl, "/")}
      ensures r.Ok? && (SplitLast(logoUrl, "/") == [] || logos.failedRemovals != old(logos.failedRemovals)) ==>
        logos.objects == old(logos.objects)
    {
      var ok := partners.Delete(id);
      if !ok {
        return Err(DatabaseError);
      }
      var fileName := SplitLast(logoUrl, "/");
      if fileName != [] {
        var removed := logos.Remove([fileName]);
        SetOfSingleton(fileName);
      }
      r := Ok(());
    }
  }
}
