/**
 * The resources tab of the admin dashboard: the filter pipeline over the
 * catalogue, and the component state its handlers update. The outcomes of
 * the data-access calls it awaits are parameters of the handlers.
 */
module AdminResourcesTab {
  import opened JsRuntime
  import opened ResourceTypes
  import opened ResourceList
  import ResourceService

  /** A filter value: the selectors send strings, the semester selector may also send a number. */
  datatype FilterValue = Text(s: string) | Numeric(n: Num)

  /** The filter state `{ type, subject, semester, search, field }`. */
  datatype Filters = Filters(resourceType: string, subject: string, semester: FilterValue, search: string, field: string)

  /** Every filter at its reset value. */
  const EmptyFilters: Filters := Filters("", "", Text(""), "", "")

  /** The filter names the state holds; all but "semester" hold strings. */
  predicate IsFilterName(name: string) {
    name == "type" || name == "subject" || name == "semester" || name == "search" || name == "field"
  }

  predicate IsTextFilter(name: string) {
    IsFilterName(name) && name != "semester"
  }

  /** The value held under a filter name; `None` for a name the filters do not have. */
  function FilterAt(f: Filters, name: string): Option<FilterValue> {
    if name == "type" then Some(Text(f.resourceType))
    else if name == "subject" then Some(Text(f.subject))
    else if name == "semester" then Some(f.semester)
    else if name == "search" then Some(Text(f.search))
    else if name == "field" then Some(Text(f.field))
    else None
  }

  /**
   * `{ ...prev, [name]: value }`: the named filter takes the value and every
   * other filter keeps its own. A name the filters do not have adds a member
   * the pipeline never reads, so the filters are as before.
   */
  function WithFilter(f: Filters, name: string, value: FilterValue): (g: Filters)
    requires IsTextFilter(name) ==> value.Text?
    ensures IsFilterName(name) ==> FilterAt(g, name) == Some(value)
    ensures forall n :: n != name ==> FilterAt(g, n) == FilterAt(f, n)
    ensures !IsFilterName(name) ==> g == f
  {
    if name == "type" then f.(resourceType := value.s)
    else if name == "subject" then f.(subject := value.s)
    else if name == "semester" then f.(semester := value)
    else if name == "search" then f.(search := value.s)
    else if name == "field" then f.(field := value.s)
    else f
  }

  /** The field filter applies unless it is empty or "all". */
  predicate FieldActive(f: Filters) {
    f.field != "" && f.field != "all"
  }

  /** The type filter applies unless it is empty or the "all types" value. */
  predicate TypeActive(f: Filters, allTypes: string) {
    f.resourceType != "" && f.resourceType != allTypes
  }

  /** The subject filter applies unless it is empty or "all". */
  predicate SubjectActive(f: Filters) {
    f.subject != "" && f.subject != "all"
  }

  /**
   * The semester records must have, if the semester filter applies: none
   * for "" and "all", `parseInt` of any other string (NaN when it has no
   * leading digits), and a number as it is.
   */
  function SemesterTarget(v: FilterValue): (t: Option<Num>)
    ensures t.None? <==> v == Text("") || v == Text("all")
    ensures v.Numeric? ==> t == Some(v.n)
    ensures v.Text? && t.Some? ==> t.value == ParseInt(v.s)
  {
    match v
    case Text(s) => if s == "" || s == "all" then None else Some(ParseInt(s))
    case Numeric(n) => Some(n)
  }

  /** The lower-cased term occurs in the lower-cased title or description. */
  predicate SearchMatches(r: Resource, term: string)
    ensures term == "" ==> SearchMatches(r, term)
    ensures SearchMatches(r, term) ==> |term| <= |r.title| || |term| <= |r.description|
  {
    Includes(Lower(r.title), Lower(term)) || Includes(Lower(r.description), Lower(term))
  }

  /** The five narrowing steps, in the order the pipeline applies them. */
  datatype Stage = ByField | ByType | BySubject | BySemester | BySearch

  const AllStages: set<Stage> := {ByField, ByType, BySubject, BySemester, BySearch}

  /** A record passes a step when the step does not apply or the record matches it. */
  predicate Passes(stage: Stage, f: Filters, allTypes: string, r: Resource) {
    match stage
    case ByField => !FieldActive(f) || r.fieldId == f.field
    case ByType => !TypeActive(f, allTypes) || r.resourceType == f.resourceType
    case BySubject => !SubjectActive(f) || r.subject == f.subject
    case BySemester => SemesterTarget(f.semester).None? || NumEq(r.semester, SemesterTarget(f.semester).value)
    case BySearch => f.search == "" || SearchMatches(r, f.search)
  }

  predicate PassesAll(stages: set<Stage>, f: Filters, allTypes: string, r: Resource) {
    forall st :: st in stages ==> Passes(st, f, allTypes, r)
  }

  /** `s.filter(...)` with the conjunction of the given steps. */
  function KeepWhere(s: seq<Resource>, stages: set<Stage>, f: Filters, allTypes: string): (r: seq<Resource>)
    ensures IsSubsequence(r, s)
    ensures forall x :: x in r <==> x in s && PassesAll(stages, f, allTypes, x)
  {
    if s == [] then []
    else if PassesAll(stages, f, allTypes, s[0]) then [s[0]] + KeepWhere(s[1..], stages, f, allTypes)
    else KeepWhere(s[1..], stages, f, allTypes)
  }

  /** The filter pipeline: field, type, subject, semester and search, one after the other. */
  function Filtered(s: seq<Resource>, f: Filters, allTypes: string): (r: seq<Resource>)
    ensures forall x :: x in r ==> x in s
  {
    var byField := KeepWhere(s, {ByField}, f, allTypes);
    var byType := KeepWhere(byField, {ByType}, f, allTypes);
    var bySubject := KeepWhere(byType, {BySubject}, f, allTypes);
    var bySemester := KeepWhere(bySubject, {BySemester}, f, allTypes);
    KeepWhere(bySemester, {BySearch}, f, allTypes)
  }

  /** Every copy of a passing record stays and every copy of a failing one goes. */
  lemma {:induction false} KeepWhereCounts(s: seq<Resource>, stages: set<Stage>, f: Filters, allTypes: string)
    ensures forall x ::
      multiset(KeepWhere(s, stages, f, allTypes))[x] == if PassesAll(stages, f, allTypes, x) then multiset(s)[x] else 0
  {
    if s != [] {
      KeepWhereCounts(s[1..], stages, f, allTypes);
      assert s == [s[0]] + s[1..];
    }
  }

  /** Filtering twice is filtering once with both sets of steps. */
  lemma {:induction false} KeepWhereCompose(s: seq<Resource>, a: set<Stage>, b: set<Stage>, f: Filters, allTypes: string)
    ensures KeepWhere(KeepWhere(s, a, f, allTypes), b, f, allTypes) == KeepWhere(s, a + b, f, allTypes)
  {
    if s != [] {
      KeepWhereCompose(s[1..], a, b, f, allTypes);
      if PassesAll(a, f, allTypes, s[0]) {
        var once := KeepWhere(s, a, f, allTypes);
        assert once[0] == s[0] && once[1..] == KeepWhere(s[1..], a, f, allTypes);
      }
    }
  }

  /** A list whose every record passes the steps is kept whole. */
  lemma {:induction false} KeepWhereAllPass(s: seq<Resource>, stages: set<Stage>, f: Filters, allTypes: string)
    requires forall x :: x in s ==> PassesAll(stages, f, allTypes, x)
    ensures KeepWhere(s, stages, f, allTypes) == s
  {
    if s != [] {
      assert s[0] in s;
      assert forall x :: x in s[1..] ==> x in s;
      KeepWhereAllPass(s[1..], stages, f, allTypes);
    }
  }

  /** The pipeline is a single filter with all five steps. */
  lemma FilteredIsOnePass(s: seq<Resource>, f: Filters, allTypes: string)
    ensures Filtered(s, f, allTypes) == KeepWhere(s, AllStages, f, allTypes)
  {
    KeepWhereCompose(s, {ByField}, {ByType}, f, allTypes);
    KeepWhereCompose(s, {ByField, ByType}, {BySubject}, f, allTypes);
    KeepWhereCompose(s, {ByField, ByType, BySubject}, {BySemester}, f, allTypes);
    KeepWhereCompose(s, {ByField, ByType, BySubject, BySemester}, {BySearch}, f, allTypes);
    assert {ByField} + {ByType} == {ByField, ByType};
    assert {ByField, ByType} + {BySubject} == {ByField, ByType, BySubject};
    assert {ByField, ByType, BySubject} + {BySemester} == {ByField, ByType, BySubject, BySemester};
    assert {ByField, ByType, BySubject, BySemester} + {BySearch} == AllStages;
  }

  /** The result keeps some of the records, in their original order. */
  lemma FilteredIsSubsequence(s: seq<Resource>, f: Filters, allTypes: string)
    ensures IsSubsequence(Filtered(s, f, allTypes), s)
  {
    FilteredIsOnePass(s, f, allTypes);
  }

  /** A record is kept exactly when it is in the list and matches every filter that applies. */
  lemma KeptIff(s: seq<Resource>, f: Filters, allTypes: string, x: Resource)
    ensures x in Filtered(s, f, allTypes) <==>
      && x in s
      && (FieldActive(f) ==> x.fieldId == f.field)
      && (TypeActive(f, allTypes) ==> x.resourceType == f.resourceType)
      && (SubjectActive(f) ==> x.subject == f.subject)
      && (SemesterTarget(f.semester).Some? ==> NumEq(x.semester, SemesterTarget(f.semester).value))
      && (f.search != "" ==> SearchMatches(x, f.search))
  {
    FilteredIsOnePass(s, f, allTypes);
    PassesAllStages(f, allTypes, x);
  }

  lemma PassesAllStages(f: Filters, allTypes: string, x: Resource)
    ensures PassesAll(AllStages, f, allTypes, x) <==>
      Passes(ByField, f, allTypes, x) && Passes(ByType, f, allTypes, x) && Passes(BySubject, f, allTypes, x)
      && Passes(BySemester, f, allTypes, x) && Passes(BySearch, f, allTypes, x)
  {
  }

  /** With every filter at its reset value the whole list is shown. */
  lemma ResetFiltersShowEverything(s: seq<Resource>, allTypes: string)
    ensures Filtered(s, EmptyFilters, allTypes) == s
  {
    FilteredIsOnePass(s, EmptyFilters, allTypes);
    KeepWhereAllPass(s, AllStages, EmptyFilters, allTypes);
  }

  /** Filtering the result again with the same filters changes nothing. */
  lemma FilteredIdempotent(s: seq<Resource>, f: Filters, allTypes: string)
    ensures Filtered(Filtered(s, f, allTypes), f, allTypes) == Filtered(s, f, allTypes)
  {
    FilteredIsOnePass(s, f, allTypes);
    FilteredIsOnePass(Filtered(s, f, allTypes), f, allTypes);
    KeepWhereCompose(s, AllStages, AllStages, f, allTypes);
    assert AllStages + AllStages == AllStages;
  }

  /** The field filter compares `field_id`: a record with another `field_id` is dropped whatever its `field`. */
  lemma FieldFilterComparesFieldId(s: seq<Resource>, f: Filters, allTypes: string, x: Resource)
    requires FieldActive(f) && x.fieldId != f.field
    ensures x !in Filtered(s, f, allTypes)
  {
    KeptIff(s, f, allTypes, x);
  }

  /** A semester string without leading digits parses to NaN, and then no record is kept. */
  lemma UnparseableSemesterKeepsNothing(s: seq<Resource>, f: Filters, allTypes: string)
    requires SemesterTarget(f.semester) == Some(NaN)
    ensures Filtered(s, f, allTypes) == []
  {
    FilteredIsOnePass(s, f, allTypes);
    KeepWhereNonePass(s, AllStages, f, allTypes);
  }

  /** A list none of whose records passes the steps is filtered away entirely. */
  lemma {:induction false} KeepWhereNonePass(s: seq<Resource>, stages: set<Stage>, f: Filters, allTypes: string)
    requires forall x :: x in s ==> !PassesAll(stages, f, allTypes, x)
    ensures KeepWhere(s, stages, f, allTypes) == []
  {
    if s != [] {
      assert s[0] in s;
      assert forall x :: x in s[1..] ==> x in s;
      KeepWhereNonePass(s[1..], stages, f, allTypes);
    }
  }

  /** A semester string that starts with a number means that number ("2", "-1", "3rd"). */
  lemma SemesterTextIsParsed(n: int, rest: string)
    requires rest == [] || !IsDigit(rest[0])
    ensures SemesterTarget(Text(IntToString(n) + rest)) == Some(Finite(n))
  {
    var t := IntToString(n) + rest;
    assert t[0] == IntToString(n)[0];
    if n >= 0 {
      assert IsDigit(NatToString(n)[0]);
    }
    ParseIntOfIntToString(n, rest);
  }

  lemma {:induction false} LowerIdempotent(s: string)
    ensures Lower(Lower(s)) == Lower(s)
  {
    assert forall i :: 0 <= i < |s| ==> LowerChar(LowerChar(s[i])) == LowerChar(s[i]);
  }

  /** The search ignores the case of the term. */
  lemma SearchIgnoresCase(r: Resource, term: string)
    ensures SearchMatches(r, Lower(term)) == SearchMatches(r, term)
  {
    LowerIdempotent(term);
  }

  /**
   * The filter effect: starting from the full list, each filter that
   * applies narrows the result in turn.
   */
  method ApplyFilters(resources: seq<Resource>, filters: Filters, allTypes: string) returns (result: seq<Resource>)
    ensures result == Filtered(resources, filters, allTypes)
  {
    result := resources;
    if FieldActive(filters) {
      result := KeepWhere(result, {ByField}, filters, allTypes);
    } else {
      KeepWhereAllPass(result, {ByField}, filters, allTypes);
    }
    if TypeActive(filters, allTypes) {
      result := KeepWhere(result, {ByType}, filters, allTypes);
    } else {
      KeepWhereAllPass(result, {ByType}, filters, allTypes);
    }
    if SubjectActive(filters) {
      result := KeepWhere(result, {BySubject}, filters, allTypes);
    } else {
      KeepWhereAllPass(result, {BySubject}, filters, allTypes);
    }
    var narrowed := false;
    if filters.semester != Text("") {
      var semesterValue := match filters.semester
        case Text(t) => if t == "all" then Text("all") else Numeric(ParseInt(t))
        case Numeric(n) => Numeric(n);
      if semesterValue.Numeric? {
        result := KeepWhere(result, {BySemester}, filters, allTypes);
        narrowed := true;
      }
    }
    if !narrowed {
      KeepWhereAllPass(result, {BySemester}, filters, allTypes);
    }
    if filters.search != "" {
      result := KeepWhere(result, {BySearch}, filters, allTypes);
    } else {
      KeepWhereAllPass(result, {BySearch}, filters, allTypes);
    }
  }

  /** The upload form `{ title, description, type, subject, semester, fileUrl, file, field, field_id }`. */
  function UploadForm(resourceType: string, subject: string, field: string): Payload {
    map[Title := Str(""), Description := Str(""), TypeKey := Str(resourceType), Subject := Str(subject),
        Semester := Number(Finite(1)), FileUrl := Str("#"), Other("file") := Null,
        FieldKey := Str(field), FieldIdKey := Str("")]
  }

  /** The form's starting value. */
  const InitialUploadForm: Payload := UploadForm("", "", "")

  /** The value the form is reset to after an upload. */
  const UploadFormAfterUpload: Payload := UploadForm("Notes", "Computer Programming", "BCA")

  /** The object `handleUpload` passes to `createResource`. */
  function CreateRequest(form: Payload, fileUrl: Value): (request: Payload)
    ensures request.Keys == {Title, Description, TypeKey, Subject, Semester, FileUrl, FieldKey, FieldIdKey}
    ensures request[FileUrl] == fileUrl
    ensures forall k :: k in request && k != FileUrl ==> request[k] == Get(form, k)
  {
    map[Title := Get(form, Title), Description := Get(form, Description), TypeKey := Get(form, TypeKey),
        Subject := Get(form, Subject), Semester := Get(form, Semester), FileUrl := fileUrl,
        FieldKey := Get(form, FieldKey), FieldIdKey := Get(form, FieldIdKey)]
  }

  /**
   * The file URL `handleUpload` sends: the form's URL or "#" when no file
   * is chosen, the uploaded file's URL after a successful upload, and
   * `None` when the upload threw. It is never falsy.
   */
  function RequestUrl(form: Payload, selected: Option<string>, tempId: string, storage: ResourceService.StorageCall): (url: Option<Value>)
    ensures selected.None? ==> url == Some(Or(Get(form, FileUrl), Str("#")))
    ensures selected.Some? ==>
      var run := ResourceService.UploadResourceFile(selected, tempId, storage);
      && (url.Some? <==> run.url.Returned?)
      && (url.Some? ==> url.value == Str(run.url.value))
    ensures url.Some? ==> Truthy(url.value)
  {
    if selected.None? then Some(Or(Get(form, FileUrl), Str("#")))
    else
      var run := ResourceService.UploadResourceFile(selected, tempId, storage);
      if run.url.Threw? then None else Some(Str(run.url.value))
  }

  /**
   * The record being edited after the optional upload: unchanged without a
   * file; with the new URL and the file's name after a successful upload;
   * `None` when the upload threw.
   */
  function EditedRecord(current: Resource, selected: Option<string>, storage: ResourceService.StorageCall): (edited: Option<Resource>)
    ensures selected.None? ==> edited == Some(current)
    ensures selected.Some? ==>
      var run := ResourceService.UploadResourceFile(selected, NumToString(current.id), storage);
      && (edited.Some? <==> run.url.Returned?)
      && (edited.Some? ==> edited.value == current.(fileUrl := run.url.value, fileName := Some(selected.value)))
  {
    if selected.None? then Some(current)
    else
      var run := ResourceService.UploadResourceFile(selected, NumToString(current.id), storage);
      if run.url.Threw? then None
      else Some(current.(fileUrl := run.url.value, fileName := Some(selected.value)))
  }

  /** What `handleUpdateResource` sends: the edited record without the members the database lacks. */
  function CleanRecord(r: Resource): (clean: Payload)
    ensures clean.Keys == ResourceToPayload(r).Keys - ResourceService.StrippedKeys
    ensures forall k :: k in clean ==> Spelling(k) !in ResourceService.StrippedNames
    ensures forall k :: k in clean ==> clean[k] == Member(r, k)
  {
    ResourceService.StripKeys(ResourceToPayload(r))
  }

  /** The list after a delete as `handleDelete` is written: the row goes whatever `deleteResource` reported. */
  function AfterDeleteAsWritten(list: seq<Resource>, id: Num, deleted: bool): (r: seq<Resource>)
    ensures IsSubsequence(r, list)
    ensures forall x :: x in r <==> x in list && !HasId(x, id)
  {
    RemoveById(list, id)
  }

  /**
   * `deleteResource` reports failure by returning false and never throws,
   * so the handler's error branch cannot run and a row whose delete failed
   * still leaves the list.
   */
  lemma FailedDeleteStillRemovesRow(r: Resource)
    requires r.id.Finite?
    ensures !ResourceService.DeleteResource(ResourceService.Failed)
    ensures AfterDeleteAsWritten([r], r.id, ResourceService.DeleteResource(ResourceService.Failed)) == []
  {
  }

  /** The list after a delete: the rows with the id go only when the delete went through. */
  function AfterDelete(list: seq<Resource>, id: Num, deleted: bool): (r: seq<Resource>)
    ensures !deleted ==> r == list
    ensures deleted ==> r == AfterDeleteAsWritten(list, id, deleted)
  {
    if deleted then RemoveById(list, id) else list
  }

  /** A delete that went through removes every row with the id and keeps the others in order; one that failed keeps the list. */
  lemma AfterDeleteKeepsListOnFailure(list: seq<Resource>, id: Num, deleted: bool, x: Resource)
    ensures IsSubsequence(AfterDelete(list, id, deleted), list)
    ensures x in AfterDelete(list, id, deleted) <==> x in list && (!deleted || !HasId(x, id))
  {
    if !deleted {
      SubsequenceOfItself(list);
    }
  }

  lemma {:induction false} SubsequenceOfItself(s: seq<Resource>)
    ensures IsSubsequence(s, s)
  {
    if s != [] {
      SubsequenceOfItself(s[1..]);
    }
  }

  /** The state of the resources tab. */
  class ResourcesTab {
    const resources: seq<Resource>
    const allTypesValue: string
    var filteredResources: seq<Resource>
    var isUploadModalOpen: bool
    var isEditModalOpen: bool
    var currentResource: Option<Resource>
    var newResource: Payload
    var filters: Filters

    constructor (resources: seq<Resource>, allTypesValue: string)
      ensures this.resources == resources && this.allTypesValue == allTypesValue
      ensures filteredResources == resources
      ensures !isUploadModalOpen && !isEditModalOpen && currentResource == None
      ensures newResource == InitialUploadForm && filters == EmptyFilters
    {
      this.resources := resources;
      this.allTypesValue := allTypesValue;
      filteredResources := resources;
      isUploadModalOpen := false;
      isEditModalOpen := false;
      currentResource := None;
      newResource := InitialUploadForm;
      filters := EmptyFilters;
    }

    /** The filter effect: the shown list is the catalogue narrowed by the current filters. */
    method RunFilterEffect()
      modifies this`filteredResources
      ensures filteredResources == Filtered(resources, filters, allTypesValue)
    {
      filteredResources := ApplyFilters(resources, filters, allTypesValue);
    }

    /** `handleFilterChange`: one filter takes the new value, the others keep theirs. */
    method HandleFilterChange(filterType: string, value: FilterValue)
      requires IsTextFilter(filterType) ==> value.Text?
      modifies this`filters
      ensures filters == WithFilter(old(filters), filterType, value)
    {
      filters := WithFilter(filters, filterType, value);
    }

    /** `handleSearchChange`: only the search term changes. */
    method HandleSearchChange(searchTerm: string)
      modifies this`filters
      ensures filters == WithFilter(old(filters), "search", Text(searchTerm))
    {
      filters := filters.(search := searchTerm);
    }

    /** `resetFilters`: every filter back to its reset value. */
    method ResetFilters()
      modifies this`filters
      ensures filters == EmptyFilters
    {
      filters := EmptyFilters;
    }

    /** `handleEditClick`: edit a copy of the record in the open edit form. */
    method HandleEditClick(resource: Resource)
      modifies this`currentResource, this`isEditModalOpen
      ensures currentResource == Some(resource) && isEditModalOpen
    {
      currentResource := Some(resource);
      isEditModalOpen := true;
    }

    /** The edit form's cancel button: close it and forget the record. */
    method HandleEditCancel()
      modifies this`currentResource, this`isEditModalOpen
      ensures currentResource == None && !isEditModalOpen
    {
      isEditModalOpen := false;
      currentResource := None;
    }

    /** The "Add Resource" button. */
    method OpenUploadModal()
      modifies this`isUploadModalOpen
      ensures isUploadModalOpen
    {
      isUploadModalOpen := true;
    }

    /** The upload form's cancel button. */
    method CloseUploadModal()
      modifies this`isUploadModalOpen
      ensures !isUploadModalOpen
    {
      isUploadModalOpen := false;
    }

    /** `handleNewResourceChange`: the named member of the upload form takes the value. */
    method HandleNewResourceChange(name: string, value: Value)
      modifies this`newResource
      ensures newResource == old(newResource)[MemberOf(name) := value]
    {
      newResource := newResource[MemberOf(name) := value];
    }

    /**
     * `handleUpdateResource`. `selected` is the name of the file chosen in
     * the form, `storage` what the upload learns from outside, and
     * `updated` what `updateResource` returns for the payload sent, which
     * is returned as `sent` (`None` when no update was sent).
     */
    method HandleUpdateResource(selected: Option<string>, storage: ResourceService.StorageCall, updated: Option<Resource>)
      returns (sent: Option<Payload>)
      modifies this`filteredResources, this`currentResource, this`isEditModalOpen
      ensures old(currentResource).None? ==>
        sent == None && filteredResources == old(filteredResources)
        && currentResource == old(currentResource) && isEditModalOpen == old(isEditModalOpen)
      ensures old(currentResource).Some? ==> currentResource == None && !isEditModalOpen
      ensures old(currentResource).Some? ==>
        var edited := EditedRecord(old(currentResource).value, selected, storage);
        && (sent.Some? <==> edited.Some?)
        && (sent.Some? ==> sent.value == CleanRecord(edited.value))
      ensures sent.Some? && updated.Some? ==>
        filteredResources == ReplaceById(old(filteredResources), old(currentResource).value.id, updated.value)
      ensures sent.None? || updated.None? ==> filteredResources == old(filteredResources)
    {
      if currentResource.None? {
        return None;
      }
      var current := currentResource.value;
      sent := None;
      var uploaded := true;
      if selected.Some? {
        var run := ResourceService.UploadResourceFile(selected, NumToString(current.id), storage);
        if run.url.Threw? {
          uploaded := false;
        } else {
          current := current.(fileUrl := run.url.value, fileName := Some(selected.value));
        }
      }
      if uploaded {
        sent := Some(CleanRecord(current));
        if updated.Some? {
          filteredResources := ReplaceById(filteredResources, current.id, updated.value);
        }
      }
      isEditModalOpen := false;
      currentResource := None;
    }

    /**
     * `handleUpload`. `selected`, `clock` and `storage` feed the optional
     * upload (its object name starts with "temp_" and the clock reading);
     * `created` is the outcome of `createResource` for the request, which
     * is returned (`None` when the upload threw and nothing was created).
     */
    method HandleUpload(selected: Option<string>, clock: nat, storage: ResourceService.StorageCall,
                        created: Outcome<Resource>)
      returns (request: Option<Payload>)
      modifies this`filteredResources, this`isUploadModalOpen, this`newResource
      ensures var url := RequestUrl(old(newResource), selected, "temp_" + IntToString(clock), storage);
        && (request.Some? <==> url.Some?)
        && (request.Some? ==> request.value == CreateRequest(old(newResource), url.value))
      ensures request.Some? && created.Returned? ==>
        filteredResources == [created.value] + old(filteredResources)
        && !isUploadModalOpen && newResource == UploadFormAfterUpload
      ensures request.None? || created.Threw? ==>
        filteredResources == old(filteredResources)
        && isUploadModalOpen == old(isUploadModalOpen) && newResource == old(newResource)
    {
      var tempId := "temp_" + IntToString(clock);
      var fileUrl := RequestUrl(newResource, selected, tempId, storage);
      if fileUrl.None? {
        return None;
      }
      request := Some(CreateRequest(newResource, fileUrl.value));
      if created.Returned? {
        ShowCreated(created.value);
      }
    }

    /** After a create: the new record goes in front, the upload form closes and is reset. */
    method ShowCreated(created: Resource)
      modifies this`filteredResources, this`isUploadModalOpen, this`newResource
      ensures filteredResources == [created] + old(filteredResources)
      ensures !isUploadModalOpen && newResource == UploadFormAfterUpload
    {
      filteredResources := [created] + filteredResources;
      isUploadModalOpen := false;
      newResource := UploadFormAfterUpload;
    }

    /** `handleDelete` as written: the rows with the id leave the list whatever `deleteResource` reported. */
    method HandleDeleteAsWritten(id: Num, deleted: bool)
      modifies this`filteredResources
      ensures filteredResources == AfterDeleteAsWritten(old(filteredResources), id, deleted)
    {
      filteredResources := RemoveById(filteredResources, id);
    }

    /** `handleDelete` with its error branch reached: the rows leave the list only when the delete went through. */
    method HandleDelete(id: Num, deleted: bool)
      modifies this`filteredResources
      ensures filteredResources == AfterDelete(old(filteredResources), id, deleted)
    {
      if deleted {
        filteredResources := RemoveById(filteredResources, id);
      }
    }
  }
}
