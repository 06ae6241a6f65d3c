/** The link service: the quick links of the links page, in the `quick_links` table. */
module LinkService {
  import opened Wrappers
  import opened Seqs
  import opened Backend

  /** The client-visible columns of a `quick_links` row besides `id` and `created_at`. */
  datatype QuickLink = QuickLink(
    title: string,
    url: string,
    iconName: string,
    color: string,
    orderIndex: int,
    isActive: bool)

  /** `CreateQuickLinkInput`: order and activity may be left out. */
  datatype LinkInput = LinkInput(
    title: string,
    url: string,
    iconName: string,
    color: string,
    orderIndex: Option<int>,
    isActive: Option<bool>)

  /** `Partial<CreateQuickLinkInput>`: `None` leaves a column alone. */
  datatype LinkPatch = LinkPatch(
    title: Option<string>,
    url: Option<string>,
    iconName: Option<string>,
    color: Option<string>,
    orderIndex: Option<int>,
    isActive: Option<bool>)

  /** The values an insert that leaves out `order_index` or `is_active` stores. The
      table's schema is not part of this model; 0 and true are assumed. */
  const DefaultOrderIndex := 0
  const DefaultIsActive := true

  /** The row an insert of `input` stores. */
  function Stored(input: LinkInput): QuickLink {
    QuickLink(input.title, input.url, input.iconName, input.color,
              input.orderIndex.GetOr(DefaultOrderIndex), input.isActive.GetOr(DefaultIsActive))
  }

  function ApplyLinkPatch(l: QuickLink, u: LinkPatch): QuickLink {
    QuickLink(
      u.title.GetOr(l.title),
      u.url.GetOr(l.url),
      u.iconName.GetOr(l.iconName),
      u.color.GetOr(l.color),
      u.orderIndex.GetOr(l.orderIndex),
      u.isActive.GetOr(l.isActive))
  }

  /** The update `toggleActive` sends: `is_active` and nothing else. */
  function ActivityPatch(isActive: bool): LinkPatch {
    LinkPatch(None, None, None, None, None, Some(isActive))
  }

  /** Toggling sets the activity flag, keeps every other column, and is idempotent;
      toggling to the negation twice restores the link. */
  lemma ActivityPatchSetsOnlyActivity(l: QuickLink, b: bool)
    ensures ApplyLinkPatch(l, ActivityPatch(b)) == l.(isActive := b)
    ensures ApplyLinkPatch(ApplyLinkPatch(l, ActivityPatch(b)), ActivityPatch(b)) == ApplyLinkPatch(l, ActivityPatch(b))
    ensures var l' := ApplyLinkPatch(l, ActivityPatch(!l.isActive));
      ApplyLinkPatch(l', ActivityPatch(!l'.isActive)) == l
  {
  }

  /** An insert that names every column stores exactly those values: every link can be
      created as it is. */
  lemma StoredRoundTrip(l: QuickLink)
    ensures Stored(LinkInput(l.title, l.url, l.iconName, l.color, Some(l.orderIndex), Some(l.isActive))) == l
  {
  }

  /** An insert stores what an update with the same columns would make of a link holding
      the table's defaults. */
  lemma StoredIsPatchedDefaults(input: LinkInput, l: QuickLink)
    requires l.orderIndex == DefaultOrderIndex && l.isActive == DefaultIsActive
    ensures Stored(input) ==
      ApplyLinkPatch(l, LinkPatch(Some(input.title), Some(input.url), Some(input.iconName),
                                  Some(input.color), input.orderIndex, input.isActive))
  {
  }

  /** `order('order_index', { ascending: true })`. */
  function ByOrderIndex(r: Row<QuickLink>): int {
    r.data.orderIndex
  }

  /** `eq('is_active', true)`. */
  function IsActive(r: Row<QuickLink>): bool {
    r.data.isActive
  }

  /** The public listing is in ascending order index and holds exactly the stored
      links that are active. */
  lemma ActiveListing(rows: map<Id, Row<QuickLink>>, n: nat, x: Row<QuickLink>)
    requires forall k :: k in rows ==> k < n
    ensures var l := Query(rows, n, IsActive, ByOrderIndex);
      (forall i, j :: 0 <= i < j < |l| ==> l[i].data.orderIndex <= l[j].data.orderIndex)
      && (x in l <==> x in rows.Values && x.data.isActive)
  {
    var l := Query(rows, n, IsActive, ByOrderIndex);
    QueryContents(rows, n, IsActive, ByOrderIndex, x);
    forall i, j | 0 <= i < j < |l| ensures l[i].data.orderIndex <= l[j].data.orderIndex {
      assert ByOrderIndex(l[i]) <= ByOrderIndex(l[j]);
    }
  }

  /** The public listing is the admin listing with the inactive links struck out: the
      same links, in the same relative order. */
  lemma ActiveIsFilteredAll(rows: map<Id, Row<QuickLink>>, n: nat)
    ensures Query(rows, n, IsActive, ByOrderIndex)
            == Filter(Query(rows, n, Everything, ByOrderIndex), IsActive)
  {
    var e := Enumerate(rows, n);
    FilterKeepsAll(e, Everything);
    SortFilterCommute(e, ByOrderIndex, IsActive);
  }

  class Service {
    const links: Table<QuickLink>

    ghost predicate Valid()
      reads this, links
    {
      links.Valid()
    }

    constructor ()
      ensures Valid() && fresh(links) && links.rows == map[]
    {
      links := new Table();
    }

    /** `fetchActiveLinks`: the active links by ascending order index. */
    method FetchActiveLinks() returns (r: Result<seq<Row<QuickLink>>>)
      requires Valid()
      ensures r.Ok? ==> r.value == Query(links.rows, links.nextId, IsActive, ByOrderIndex)
    {
      r := links.Select(IsActive, ByOrderIndex);
    }

    /** `fetchAllLinks`: every link by ascending order index. */
    method FetchAllLinks() returns (r: Result<seq<Row<QuickLink>>>)
      requires Valid()
      ensures r.Ok? ==> r.value == Query(links.rows, links.nextId, Everything, ByOrderIndex)
    {
      r := links.Select(Everything, ByOrderIndex);
    }

    /** `createLink`: one new row holding the input, defaults for what it leaves out. */
    method CreateLink(input: LinkInput) returns (r: Result<Row<QuickLink>>)
      requires Valid()
      modifies links
      ensures Valid()
      ensures r.Ok? ==>
        r.value.data == Stored(input) && r.value.id !in old(links.rows)
        && links.rows == old(links.rows)[r.value.id := r.value]
      ensures r.Err? ==> r.error == DatabaseError && links.rows == old(links.rows)
    {
      r := links.Insert(Stored(input));
    }

    /** `updateLink`: the row with that id takes the given columns. */
    method UpdateLink(id: Id, patch: LinkPatch) returns (r: Result<Row<QuickLink>>)
      requires Valid()
      modifies links`rows
      ensures Valid()
      ensures id !in old(links.rows) ==> r.Err?
      ensures r.Ok? ==>
        id in old(links.rows)
        && r.value == old(links.rows)[id].(data := ApplyLinkPatch(old(links.rows)[id].data, patch))
        && links.rows == old(links.rows)[id := r.value]
      ensures r.Err? ==> links.rows == old(links.rows)
    {
      r := links.Update(id, l => ApplyLinkPatch(l, patch));
    }

    /** `deleteLink`. */
    method DeleteLink(id: Id) returns (r: Result<()>)
      requires Valid()
      modifies links`rows
      ensures Valid()
      ensures r.Ok? ==> links.rows == old(links.rows) - {id}
      ensures r.Err? ==> r.error == DatabaseError && links.rows == old(links.rows)
    {
      var ok := links.Delete(id);
      r := if ok then Ok(()) else Err(DatabaseError);
    }

    /** `toggleActive`: an update of `is_active` alone. */
    method ToggleActive(id: Id, isActive: bool) returns (r: Result<Row<QuickLink>>)
      requires Valid()
      modifies links`rows
      ensures Valid()
      ensures id !in old(links.rows) ==> r.Err?
      ensures r.Ok? ==>
        id in old(links.rows)
        && r.value.data == old(links.rows)[id].data.(isActive := isActive)
        && r.value.id == id && r.value.createdAt == old(links.rows)[id].createdAt
        && links.rows == old(links.rows)[id := r.value]
      ensures r.Err? ==> links.rows == old(links.rows)
    {
      r := UpdateLink(id, ActivityPatch(isActive));
      if r.Ok? {
        ActivityPatchSetsOnlyActivity(old(links.rows)[id].data, isActive);
      }
    }
  }
}
