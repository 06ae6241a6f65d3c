/** The quick-links admin page: the add-link form and the mutations that call the link
    service. */
module LinkAdmin {
  import opened Wrappers
  import opened Text
  import opened JsNumber
  import opened Backend
  import opened LinkService

  /** The add-link form. */
  datatype LinkForm = LinkForm(title: string, url: string, iconName: string, color: string, orderIndex: int, isActive: bool)

  const InitialForm := LinkForm("", "", "Link", "#FF6B35", 0, true)

  /** The colour the native picker accepts. */
  const PickerFallback := "#000000"

  /** A value the picker can show: '#' and six more characters. */
  predicate PickerShape(c: string) {
    StartsWith(c, "#") && |c| == 7
  }

  /** The picker shows the typed colour when it has the picker's shape, black otherwise. */
  function ColorPickerValue(color: string): (v: string)
    ensures PickerShape(v)
    ensures PickerShape(color) ==> v == color
    ensures !PickerShape(color) ==> v == PickerFallback
  {
    if PickerShape(color) then color else PickerFallback
  }

  /** What a pick from the picker stores: the value upper-cased. */
  function PickedColor(value: string): (c: string)
    ensures |c| == |value|
    ensures forall i :: 0 <= i < |c| ==> !('a' <= c[i] <= 'z')
    ensures forall i :: 0 <= i < |c| ==> c[i] == value[i] || c[i] as int == value[i] as int - 32
    ensures forall i :: 0 <= i < |c| && !('a' <= value[i] <= 'z') ==> c[i] == value[i]
  {
    Upper(value)
  }

  /** A colour picked from the picker is shown by the picker as stored, and picking the
      shown colour again changes nothing. */
  lemma PickedColorShown(value: string)
    requires PickerShape(value)
    ensures ColorPickerValue(PickedColor(value)) == PickedColor(value)
    ensures PickedColor(ColorPickerValue(PickedColor(value))) == PickedColor(value)
  {
    var c := PickedColor(value);
    assert c[0] == UpperChar(value[0]) == '#';
    assert c[..1] == "#";
    UpperIdempotent(value);
  }

  /** `createMutation.mutate(newLink)`: the form sent as it is. */
  function InputOf(form: LinkForm): (input: LinkInput)
    ensures Stored(input) == QuickLink(form.title, form.url, form.iconName, form.color, form.orderIndex, form.isActive)
  {
    LinkInput(form.title, form.url, form.iconName, form.color, Some(form.orderIndex), Some(form.isActive))
  }

  /** The create guard: a title and a URL are required. */
  predicate Incomplete(form: LinkForm) {
    form.title == [] || form.url == []
  }

  class Manager {
    const service: Service
    var isAdding: bool
    var newLink: LinkForm

    ghost predicate Valid()
      reads this, service, service.links
    {
      service.Valid()
    }

    constructor (service: Service)
      requires service.Valid()
      ensures Valid() && this.service == service
      ensures !isAdding && newLink == InitialForm
    {
      this.service := service;
      isAdding := false;
      newLink := InitialForm;
    }

    /** The "Add Link" button opens or closes the form. */
    method ToggleAdding()
      modifies this`isAdding
      ensures isAdding == !old(isAdding)
    {
      isAdding := !isAdding;
    }

    /** The form's Cancel button closes it; what was typed stays. */
    method Cancel()
      modifies this`isAdding
      ensures !isAdding
    {
      isAdding := false;
    }

    /** The colour picker's change handler. */
    method PickColor(value: string)
      modifies this`newLink
      ensures newLink == old(newLink).(color := PickedColor(value))
    {
      newLink := newLink.(color := PickedColor(value));
    }

    /** The order-index input's change handler. */
    method SetOrderIndex(text: string)
      modifies this`newLink
      ensures newLink == old(newLink).(orderIndex := ParseIntOrZero(text))
    {
      newLink := newLink.(orderIndex := ParseIntOrZero(text));
    }

    /** `handleCreate`: with a title or URL missing the mutation is not started; otherwise
        `createLink` runs, and on success the form is reset and closed. */
    method HandleCreate() returns (r: Option<Result<Row<QuickLink>>>)
      requires Valid()
      modifies this, service.links
      ensures Valid()
      ensures Incomplete(old(newLink)) <==> r.None?
      ensures r.None? ==> service.links.rows == old(service.links.rows) && newLink == old(newLink)
                          && isAdding == old(isAdding)
      ensures r.Some? && r.value.Ok? ==>
        r.value.value.data == Stored(InputOf(old(newLink)))
        && r.value.value.id !in old(service.links.rows)
        && service.links.rows == old(service.links.rows)[r.value.value.id := r.value.value]
        && newLink == InitialForm && !isAdding
      ensures r.Some? && r.value.Err? ==>
        service.links.rows == old(service.links.rows) && newLink == old(newLink) && isAdding == old(isAdding)
    {
      if Incomplete(newLink) {
        return None;
      }
      var res := service.CreateLink(InputOf(newLink));
      if res.Ok? {
        isAdding := false;
        newLink := InitialForm;
      }
      r := Some(res);
    }

    /** The visibility button: `toggleActive` with the negation of the shown state. */
    method ToggleVisibility(link: Row<QuickLink>) returns (r: Result<Row<QuickLink>>)
      requires Valid()
      modifies service.links`rows
      ensures Valid()
      ensures r.Ok? ==>
        link.id in old(service.links.rows)
        && r.value.data == old(service.links.rows)[link.id].data.(isActive := !link.data.isActive)
        && service.links.rows == old(service.links.rows)[link.id := r.value]
      ensures r.Err? ==> service.links.rows == old(service.links.rows)
    {
      r := service.ToggleActive(link.id, !link.data.isActive);
    }

    /** The delete button: `deleteLink` with the link's id, without confirmation. */
    method DeleteMutation(link: Row<QuickLink>) returns (r: Result<()>)
      requires Valid()
      modifies service.links`rows
      ensures Valid()
      ensures r.Ok? ==> service.links.rows == old(service.links.rows) - {link.id}
      ensures r.Err? ==> service.links.rows == old(service.links.rows)
    {
      r := service.DeleteLink(link.id);
    }
  }
}
