/**
 * The stand-alone resources admin page: a list of records fetched from the
 * database, and one form used both to create a record and to edit one. The
 * replies of the database calls it makes are parameters of its handlers,
 * and the confirmation dialog before a delete is a boolean.
 */
module AdminResourcesPage {
  import opened JsRuntime
  import opened ResourceTypes
  import opened ResourceList
  import ResourceService

  /** The form values `handleEditResource` loads: the nine persisted members of the record. */
  function EditFormData(r: Resource): (form: Payload)
    ensures form.Keys == RequiredKeys
    ensures forall k :: k in form ==> form[k] == Member(r, k)
  {
    map k | k in RequiredKeys :: Member(r, k)
  }

  /** The record with only its nine persisted members. */
  function PersistedPart(r: Resource): Resource {
    r.(uploadDate := None, createdAt := None, fileName := None, fileSelected := None, fields := None)
  }

  /**
   * The edit form holds the record's nine persisted members and nothing
   * else: it reads back as the record without its optional members.
   */
  lemma EditFormDataReadsBack(r: Resource)
    ensures PayloadToResource(EditFormData(r)) == Some(PersistedPart(r))
  {
    EditFormAgrees(r);
    ReadsBackFrom(PersistedPart(r), EditFormData(r));
  }

  lemma EditFormAgrees(r: Resource)
    ensures forall k :: Get(EditFormData(r), k) == Member(PersistedPart(r), k)
  {
    forall k
      ensures Get(EditFormData(r), k) == Member(PersistedPart(r), k)
    {
      if k in RequiredKeys {
        assert Member(r, k) == Member(PersistedPart(r), k);
      } else {
        assert Member(PersistedPart(r), k) == Undefined;
      }
    }
  }

  /**
   * This page writes the form as it is, `field_id` included, while the
   * data-access layer would strip `field_id` from the same values.
   */
  lemma PageWritesFieldId(r: Resource)
    ensures FieldIdKey in EditFormData(r)
    ensures FieldIdKey !in ResourceService.UpdatePayload(r.id, EditFormData(r))
  {
  }

  /** The first row of a reply, as `data[0]` reads it: `undefined` (`None`) when there is none. */
  function FirstRow(rows: seq<Resource>): (r: Option<Resource>)
    ensures r.Some? <==> rows != []
    ensures r.Some? ==> r.value == rows[0]
  {
    if rows == [] then None else Some(rows[0])
  }

  /** A list of records seen as a list of values that may be `undefined`. */
  function Lift(s: seq<Resource>): (r: seq<Option<Resource>>)
    ensures |r| == |s| && forall i :: 0 <= i < |s| ==> r[i] == Some(s[i])
  {
    seq(|s|, i requires 0 <= i < |s| => Some(s[i]))
  }

  /** The list after an update, as written: every match becomes `data[0]`. */
  function AfterUpdateAsWritten(list: seq<Resource>, id: Num, rows: seq<Resource>): (r: seq<Option<Resource>>)
    ensures |r| == |list|
    ensures forall i :: 0 <= i < |list| && HasId(list[i], id) ==> r[i] == FirstRow(rows)
    ensures forall i :: 0 <= i < |list| && !HasId(list[i], id) ==> r[i] == Some(list[i])
  {
    seq(|list|, i requires 0 <= i < |list| => if HasId(list[i], id) then FirstRow(rows) else Some(list[i]))
  }

  /** An update that matched no row answers with no row, and the edited record's place in the list becomes `undefined`. */
  lemma EmptyUpdateReplyLeavesUndefined(list: seq<Resource>, id: Num, i: nat)
    requires i < |list| && HasId(list[i], id)
    ensures AfterUpdateAsWritten(list, id, [])[i] == None
  {
  }

  /** The list after an update: the returned row replaces the matches; without a row the list stays as it was. */
  function AfterUpdate(list: seq<Resource>, id: Num, rows: seq<Resource>): (r: seq<Resource>)
    ensures rows == [] ==> r == list
    ensures rows != [] ==> Lift(r) == AfterUpdateAsWritten(list, id, rows)
    ensures rows != [] ==> r == ReplaceById(list, id, rows[0])
  {
    var r := if rows == [] then list else ReplaceById(list, id, rows[0]);
    assert rows != [] ==> Lift(r) == AfterUpdateAsWritten(list, id, rows);
    r
  }

  /** The list after a create, as written: `data[0]` goes in front. */
  function AfterCreateAsWritten(list: seq<Resource>, rows: seq<Resource>): (r: seq<Option<Resource>>)
    ensures |r| == |list| + 1 && r[0] == FirstRow(rows) && r[1..] == Lift(list)
  {
    [FirstRow(rows)] + Lift(list)
  }

  /** An insert that answers with no row puts `undefined` at the head of the list. */
  lemma EmptyCreateReplyPrependsUndefined(list: seq<Resource>)
    ensures AfterCreateAsWritten(list, [])[0] == None
  {
  }

  /** The list after a create: the returned row goes in front; without a row the list stays as it was. */
  function AfterCreate(list: seq<Resource>, rows: seq<Resource>): (r: seq<Resource>)
    ensures rows == [] ==> r == list
    ensures rows != [] ==> Lift(r) == AfterCreateAsWritten(list, rows)
    ensures rows != [] ==> r == [rows[0]] + list
  {
    var r := if rows == [] then list else [rows[0]] + list;
    assert rows != [] ==> Lift(r) == AfterCreateAsWritten(list, rows);
    r
  }

  /** The state of the page. */
  class ResourcesAdmin {
    var resources: seq<Resource>
    var loading: bool
    var showForm: bool
    var editingResource: Option<Resource>
    var formData: Payload

    constructor ()
      ensures resources == [] && loading && !showForm && editingResource == None && formData == map[]
    {
      resources := [];
      loading := true;
      showForm := false;
      editingResource := None;
      formData := map[];
    }

    /** `fetchResources`: the rows answered (none for null) replace the list; an error keeps it. Loading ends either way. */
    method FetchResources(reply: ResourceService.Reply<seq<Resource>>)
      modifies this`resources, this`loading
      ensures !loading
      ensures reply.Failed? ==> resources == old(resources)
      ensures reply.Answered? && reply.data.Some? ==> resources == reply.data.value
      ensures reply.Answered? && reply.data.None? ==> resources == []
    {
      loading := true;
      if reply.Answered? {
        resources := if reply.data.Some? then reply.data.value else [];
      }
      loading := false;
    }

    /** `handleCreateResource`: an empty form, for a new record. */
    method HandleCreateResource()
      modifies this`editingResource, this`formData, this`showForm
      ensures editingResource == None && formData == map[] && showForm
    {
      editingResource := None;
      formData := map[];
      showForm := true;
    }

    /** `handleEditResource`: the form, loaded with the record's nine persisted members. */
    method HandleEditResource(resource: Resource)
      modifies this`editingResource, this`formData, this`showForm
      ensures editingResource == Some(resource) && formData == EditFormData(resource) && showForm
    {
      editingResource := Some(resource);
      formData := EditFormData(resource);
      showForm := true;
    }

    /** `handleFormChange`: the named member takes the value, the others keep theirs. */
    method HandleFormChange(name: string, value: Value)
      modifies this`formData
      ensures formData.Keys == old(formData).Keys + {MemberOf(name)}
      ensures formData[MemberOf(name)] == value
      ensures forall k :: k in old(formData) && k != MemberOf(name) ==> formData[k] == old(formData)[k]
    {
      formData := formData[MemberOf(name) := value];
    }

    /**
     * `handleFormSubmit`: writes the form as it is (an update of the record
     * being edited, otherwise an insert) and returns what it wrote. With
     * the rows answered, the list takes them in and the form closes; on an
     * error, or a null reply, nothing changes.
     */
    method HandleFormSubmit(reply: ResourceService.Reply<seq<Resource>>) returns (sent: Payload)
      modifies this`resources, this`showForm, this`editingResource
      ensures sent == formData
      ensures reply.Failed? || reply.data.None? ==>
        resources == old(resources) && showForm == old(showForm) && editingResource == old(editingResource)
      ensures reply.Answered? && reply.data.Some? ==>
        && !showForm && editingResource == None
        && resources == if old(editingResource).Some?
                        then AfterUpdate(old(resources), old(editingResource).value.id, reply.data.value)
                        else AfterCreate(old(resources), reply.data.value)
    {
      sent := formData;
      if reply.Failed? || reply.data.None? {
        return;
      }
      var rows := reply.data.value;
      if editingResource.Some? {
        resources := AfterUpdate(resources, editingResource.value.id, rows);
      } else {
        resources := AfterCreate(resources, rows);
      }
      showForm := false;
      editingResource := None;
    }

    /**
     * `handleDeleteResource`: nothing happens unless the dialog is
     * confirmed; then the delete is sent (the result says whether it was)
     * and, unless it failed, every row with the id leaves the list.
     */
    method HandleDeleteResource(id: Num, confirmed: bool, reply: ResourceService.Reply<()>) returns (called: bool)
      modifies this`resources
      ensures called == confirmed
      ensures !confirmed || reply.Failed? ==> resources == old(resources)
      ensures confirmed && reply.Answered? ==> resources == RemoveById(old(resources), id)
    {
      if !confirmed {
        return false;
      }
      called := true;
      if reply.Answered? {
        resources := RemoveById(resources, id);
      }
    }

    /** `handleFormCancel`: close the form and forget the record being edited. */
    method HandleFormCancel()
      modifies this`showForm, this`editingResource
      ensures !showForm && editingResource == None
    {
      showForm := false;
      editingResource := None;
    }
  }
}
