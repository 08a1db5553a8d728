/**
 * The catalogue's single entity, `Resource`, and the untyped JavaScript
 * objects (payloads) it travels in between the screens and the hosted
 * database.
 */
module ResourceTypes {
  import opened JsRuntime

  /** The joined row of the `fields` table: `{ id, name }`. */
  datatype FieldRef = FieldRef(id: string, name: string)

  /**
   * A study resource. `uploadDate` and `created_at` are optional persisted
   * members; `fileName`, `fileSelected` and `fields` are optional members
   * that only the client uses. `field_id` is a required member.
   */
  datatype Resource = Resource(
    id: Num,
    title: string,
    description: string,
    subject: string,
    field: string,
    fieldId: string,
    resourceType: string,
    semester: Num,
    fileUrl: string,
    uploadDate: Option<string>,
    createdAt: Option<string>,
    fileName: Option<string>,
    fileSelected: Option<bool>,
    fields: Option<FieldRef>)

  /** A JavaScript value as it appears in a record or payload. */
  datatype Value = Undefined | Null | Bool(b: bool) | Number(n: Num) | Str(s: string) | Joined(ref: FieldRef)

  /** The member names the code spells out; each has a key constructor of its own. */
  predicate IsSpelledOut(s: string) {
    s in {"id", "title", "description", "subject", "field", "field_id", "type", "semester", "fileUrl",
          "uploadDate", "created_at", "fileName", "fileSelected", "fields"}
  }

  /** Any other property name. */
  type OtherName = s: string | !IsSpelledOut(s) witness "file"

  /**
   * An object key: one of the member names the code spells out, or
   * `Other(name)` for any other name. A name has exactly one key, so two
   * keys never share a spelling (`SpellingInjective`).
   */
  datatype Key =
    | Id | Title | Description | Subject | FieldKey | FieldIdKey | TypeKey | Semester | FileUrl
    | UploadDate | CreatedAt | FileName | FileSelected | Fields
    | Other(name: OtherName)

  /** The key as it is written in JavaScript. */
  function Spelling(k: Key): string {
    match k
    case Id => "id"
    case Title => "title"
    case Description => "description"
    case Subject => "subject"
    case FieldKey => "field"
    case FieldIdKey => "field_id"
    case TypeKey => "type"
    case Semester => "semester"
    case FileUrl => "fileUrl"
    case UploadDate => "uploadDate"
    case CreatedAt => "created_at"
    case FileName => "fileName"
    case FileSelected => "fileSelected"
    case Fields => "fields"
    case Other(name) => name
  }

  /** The key a JavaScript property name denotes. */
  function MemberOf(s: string): Key {
    if s == "id" then Id
    else if s == "title" then Title
    else if s == "description" then Description
    else if s == "subject" then Subject
    else if s == "field" then FieldKey
    else if s == "field_id" then FieldIdKey
    else if s == "type" then TypeKey
    else if s == "semester" then Semester
    else if s == "fileUrl" then FileUrl
    else if s == "uploadDate" then UploadDate
    else if s == "created_at" then CreatedAt
    else if s == "fileName" then FileName
    else if s == "fileSelected" then FileSelected
    else if s == "fields" then Fields
    else Other(s)
  }

  /**
   * Property names and keys correspond: `MemberOf` gives the key a name
   * denotes, and spelling that key gives the name back.
   */
  lemma KeyOfName(s: string)
    ensures Spelling(MemberOf(s)) == s
    ensures MemberOf(Spelling(MemberOf(s))) == MemberOf(s)
  {
  }

  /** Every key is the key of its own spelling, so distinct keys are spelled differently. */
  lemma SpellingInjective(a: Key, b: Key)
    ensures MemberOf(Spelling(a)) == a
    ensures Spelling(a) == Spelling(b) ==> a == b
  {
    KeyOfSpelling(a);
    KeyOfSpelling(b);
  }

  lemma KeyOfSpelling(k: Key)
    ensures MemberOf(Spelling(k)) == k
  {
    if k.Other? {
      assert !IsSpelledOut(k.name);
    }
  }

  /** A JavaScript object: its own keys and their values. */
  type Payload = map<Key, Value>

  /** `p[key]`: a missing key reads as `undefined`. */
  function Get(p: Payload, key: Key): Value {
    if key in p then p[key] else Undefined
  }

  /** JavaScript truthiness. */
  predicate Truthy(v: Value) {
    match v
    case Undefined => false
    case Null => false
    case Bool(b) => b
    case Number(n) => n.Finite? && n.v != 0
    case Str(s) => s != ""
    case Joined(_) => true
  }

  /** `a || b`: `a` when it is truthy, otherwise `b`. */
  function Or(a: Value, b: Value): (r: Value)
    ensures r == a || r == b
    ensures Truthy(r) <==> Truthy(a) || Truthy(b)
    ensures Truthy(a) ==> r == a
  {
    if Truthy(a) then a else b
  }

  const RequiredKeys: set<Key> :=
    {Id, Title, Description, Subject, FieldKey, FieldIdKey, TypeKey, Semester, FileUrl}
  const OptionalKeys: set<Key> := {UploadDate, CreatedAt}
  const ClientOnlyKeys: set<Key> := {FileName, FileSelected, Fields}

  /** `r[k]`: the value of member `k` of a record; an unset optional member is `undefined`. */
  function Member(r: Resource, k: Key): Value {
    match k
    case Id => Number(r.id)
    case Title => Str(r.title)
    case Description => Str(r.description)
    case Subject => Str(r.subject)
    case FieldKey => Str(r.field)
    case FieldIdKey => Str(r.fieldId)
    case TypeKey => Str(r.resourceType)
    case Semester => Number(r.semester)
    case FileUrl => Str(r.fileUrl)
    case UploadDate => if r.uploadDate.Some? then Str(r.uploadDate.value) else Undefined
    case CreatedAt => if r.createdAt.Some? then Str(r.createdAt.value) else Undefined
    case FileName => if r.fileName.Some? then Str(r.fileName.value) else Undefined
    case FileSelected => if r.fileSelected.Some? then Bool(r.fileSelected.value) else Undefined
    case Fields => if r.fields.Some? then Joined(r.fields.value) else Undefined
    case Other(_) => Undefined
  }

  /**
   * The plain object a record is as a JavaScript value (what `{ ...r }`
   * copies): every required member, and an optional member only when set.
   */
  function ResourceToPayload(r: Resource): (p: Payload)
    ensures RequiredKeys <= p.Keys <= RequiredKeys + OptionalKeys + ClientOnlyKeys
    ensures forall k :: k in p ==> p[k] != Undefined
    ensures forall k :: Get(p, k) == Member(r, k)
  {
    MembersOfRecord(r);
    map k | k in RequiredKeys + OptionalKeys + ClientOnlyKeys && Member(r, k) != Undefined :: Member(r, k)
  }

  /** Every required member of a record is defined, and no other key than the record's members is. */
  lemma MembersOfRecord(r: Resource)
    ensures forall k :: k in RequiredKeys ==> Member(r, k) != Undefined
    ensures forall k :: k !in RequiredKeys + OptionalKeys + ClientOnlyKeys ==> Member(r, k) == Undefined
  {
  }

  function StrAt(p: Payload, key: Key): Option<string> {
    if key in p && p[key].Str? then Some(p[key].s) else None
  }

  function NumAt(p: Payload, key: Key): Option<Num> {
    if key in p && p[key].Number? then Some(p[key].n) else None
  }

  /** An optional string member: absent or `undefined` is unset, a value of another kind fails. */
  function OptStrAt(p: Payload, key: Key): Option<Option<string>> {
    match Get(p, key)
    case Undefined => Some(None)
    case Str(s) => Some(Some(s))
    case _ => None
  }

  function OptBoolAt(p: Payload, key: Key): Option<Option<bool>> {
    match Get(p, key)
    case Undefined => Some(None)
    case Bool(b) => Some(Some(b))
    case _ => None
  }

  function OptRefAt(p: Payload, key: Key): Option<Option<FieldRef>> {
    match Get(p, key)
    case Undefined => Some(None)
    case Joined(f) => Some(Some(f))
    case _ => None
  }

  /**
   * Reads a record back from an object of the record's shape: every
   * required member of the right kind, each optional one unset or of the
   * right kind.
   */
  function PayloadToResource(p: Payload): Option<Resource> {
    var id :- NumAt(p, Id);
    var title :- StrAt(p, Title);
    var description :- StrAt(p, Description);
    var subject :- StrAt(p, Subject);
    var field :- StrAt(p, FieldKey);
    var fieldId :- StrAt(p, FieldIdKey);
    var resourceType :- StrAt(p, TypeKey);
    var semester :- NumAt(p, Semester);
    var fileUrl :- StrAt(p, FileUrl);
    var uploadDate :- OptStrAt(p, UploadDate);
    var createdAt :- OptStrAt(p, CreatedAt);
    var fileName :- OptStrAt(p, FileName);
    var fileSelected :- OptBoolAt(p, FileSelected);
    var fields :- OptRefAt(p, Fields);
    Some(Resource(id, title, description, subject, field, fieldId, resourceType, semester, fileUrl,
                  uploadDate, createdAt, fileName, fileSelected, fields))
  }

  /** Copying a record into a plain object loses nothing: it reads back as the same record. */
  lemma ResourcePayloadRoundTrip(r: Resource)
    ensures PayloadToResource(ResourceToPayload(r)) == Some(r)
  {
    ReadsBackFrom(r, ResourceToPayload(r));
  }

  /** Any object whose members are exactly a record's reads back as that record. */
  lemma ReadsBackFrom(r: Resource, p: Payload)
    requires forall k :: Get(p, k) == Member(r, k)
    ensures PayloadToResource(p) == Some(r)
  {
    RequiredRead(r, p);
    OptionalRead(r, p);
  }

  lemma RequiredRead(r: Resource, p: Payload)
    requires forall k :: Get(p, k) == Member(r, k)
    ensures NumAt(p, Id) == Some(r.id) && StrAt(p, Title) == Some(r.title)
    ensures StrAt(p, Description) == Some(r.description) && StrAt(p, Subject) == Some(r.subject)
    ensures StrAt(p, FieldKey) == Some(r.field) && StrAt(p, FieldIdKey) == Some(r.fieldId)
    ensures StrAt(p, TypeKey) == Some(r.resourceType) && NumAt(p, Semester) == Some(r.semester)
    ensures StrAt(p, FileUrl) == Some(r.fileUrl)
  {
    assert Get(p, Id) == Number(r.id) && Get(p, Semester) == Number(r.semester);
    assert Get(p, Title) == Str(r.title) && Get(p, Description) == Str(r.description);
    assert Get(p, Subject) == Str(r.subject) && Get(p, FieldKey) == Str(r.field);
    assert Get(p, FieldIdKey) == Str(r.fieldId) && Get(p, TypeKey) == Str(r.resourceType);
    assert Get(p, FileUrl) == Str(r.fileUrl);
  }

  lemma OptionalRead(r: Resource, p: Payload)
    requires forall k :: Get(p, k) == Member(r, k)
    ensures OptStrAt(p, UploadDate) == Some(r.uploadDate) && OptStrAt(p, CreatedAt) == Some(r.createdAt)
    ensures OptStrAt(p, FileName) == Some(r.fileName) && OptBoolAt(p, FileSelected) == Some(r.fileSelected)
    ensures OptRefAt(p, Fields) == Some(r.fields)
  {
    OptionalStringRead(p, UploadDate, r.uploadDate);
    OptionalStringRead(p, CreatedAt, r.createdAt);
    OptionalStringRead(p, FileName, r.fileName);
    SelectedRead(p, r.fileSelected);
    JoinedFieldRead(p, r.fields);
  }

  lemma OptionalStringRead(p: Payload, k: Key, v: Option<string>)
    requires Get(p, k) == if v.Some? then Str(v.value) else Undefined
    ensures OptStrAt(p, k) == Some(v)
  {
  }

  lemma SelectedRead(p: Payload, v: Option<bool>)
    requires Get(p, FileSelected) == if v.Some? then Bool(v.value) else Undefined
    ensures OptBoolAt(p, FileSelected) == Some(v)
  {
  }

  lemma JoinedFieldRead(p: Payload, v: Option<FieldRef>)
    requires Get(p, Fields) == if v.Some? then Joined(v.value) else Undefined
    ensures OptRefAt(p, Fields) == Some(v)
  {
  }
}
