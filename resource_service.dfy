/**
 * The data-access layer over the hosted `resources` table and the storage
 * bucket. Each call's reply from the hosted service is a parameter; what is
 * modelled is what the layer does around it: the record fix-ups on reads
 * and writes, the cleaning of update payloads, the error conventions, and
 * the naming and URL of uploaded files.
 */
module ResourceService {
  import opened JsRuntime
  import opened ResourceTypes
  import StorageConfig

  /**
   * What one query returned: `Failed` for a reported error or a thrown
   * exception (the layer treats both alike), otherwise the `data` it
   * answered with, which may be null.
   */
  datatype Reply<+T> = Failed | Answered(data: Option<T>)

  const FALLBACK_FIELD: string := "BCA"

  /** The members `updateResource` removes before writing. */
  const StrippedKeys: set<Key> := {Fields, FieldIdKey, FileName, FileSelected}

  /** The property names of the stripped members. */
  const StrippedNames: set<string> := {"fields", "field_id", "fileName", "fileSelected"}

  /** A key is stripped exactly when its property name is one of the stripped names. */
  lemma StrippedBySpelling()
    ensures forall k :: k in StrippedKeys <==> Spelling(k) in StrippedNames
  {
    forall k: Key | k.Other?
      ensures Spelling(k) !in StrippedNames
    {
      assert !IsSpelledOut(k.name);
    }
  }

  /**
   * `Number(v)`: a number is itself, a string is read as `Number` reads it,
   * and only null and booleans are the other values that give a number.
   */
  function ToNumber(v: Value): (n: Num)
    ensures v.Number? ==> n == v.n
    ensures v.Str? ==> n == StringToNumber(v.s)
    ensures v.Null? ==> n == Finite(0)
    ensures v.Bool? ==> n == Finite(if v.b then 1 else 0)
    ensures n.Finite? ==> v.Number? || v.Str? || v.Null? || v.Bool?
  {
    match v
    case Undefined => NaN
    case Null => Finite(0)
    case Bool(b) => Finite(if b then 1 else 0)
    case Number(n) => n
    case Str(s) => StringToNumber(s)
    case Joined(_) => NaN
  }

  /** `v?.name`: the name of a joined `fields` row; `undefined` for anything else. */
  function JoinedName(v: Value): (r: Value)
    ensures v.Joined? ==> r == Str(v.ref.name)
    ensures !v.Joined? ==> r.Undefined?
    ensures Truthy(r) <==> v.Joined? && v.ref.name != ""
  {
    if v.Joined? then Str(v.ref.name) else Undefined
  }

  /**
   * The fix-up every read applies (`getResources`, `getResourceById`): the
   * id becomes a number and `field` becomes the first truthy of the joined
   * field's name, the stored `field`, and "BCA".
   */
  function ReadFixup(row: Payload): (r: Payload)
    ensures r.Keys == row.Keys + {Id, FieldKey}
    ensures r[Id] == Number(ToNumber(Get(row, Id)))
    ensures Truthy(r[FieldKey])
    ensures Truthy(JoinedName(Get(row, Fields))) ==> r[FieldKey] == JoinedName(Get(row, Fields))
    ensures !Truthy(JoinedName(Get(row, Fields))) && Truthy(Get(row, FieldKey)) ==> r[FieldKey] == Get(row, FieldKey)
    ensures !Truthy(JoinedName(Get(row, Fields))) && !Truthy(Get(row, FieldKey)) ==> r[FieldKey] == Str(FALLBACK_FIELD)
    ensures forall k :: k in row && k != Id && k != FieldKey ==> r[k] == row[k]
  {
    var field := Or(Or(JoinedName(Get(row, Fields)), Get(row, FieldKey)), Str(FALLBACK_FIELD));
    row[Id := Number(ToNumber(Get(row, Id)))][FieldKey := field]
  }

  /** Reading a row that was already read changes nothing more. */
  lemma ReadFixupIdempotent(row: Payload)
    ensures ReadFixup(ReadFixup(row)) == ReadFixup(row)
  {
    var once := ReadFixup(row);
    assert Get(once, Fields) == Get(row, Fields);
    assert ReadFixup(once).Keys == once.Keys;
  }

  /**
   * The fix-up after an update: the id becomes a number and `field` is the
   * first truthy of the field that was sent, the stored one, and "BCA".
   */
  function WriteFixup(row: Payload, updates: Payload): (r: Payload)
    ensures r.Keys == row.Keys + {Id, FieldKey}
    ensures r[Id] == Number(ToNumber(Get(row, Id)))
    ensures Truthy(r[FieldKey])
    ensures Truthy(Get(updates, FieldKey)) ==> r[FieldKey] == Get(updates, FieldKey)
    ensures !Truthy(Get(updates, FieldKey)) && Truthy(Get(row, FieldKey)) ==> r[FieldKey] == Get(row, FieldKey)
    ensures !Truthy(Get(updates, FieldKey)) && !Truthy(Get(row, FieldKey)) ==> r[FieldKey] == Str(FALLBACK_FIELD)
    ensures forall k :: k in row && k != Id && k != FieldKey ==> r[k] == row[k]
  {
    var field := Or(Or(Get(updates, FieldKey), Get(row, FieldKey)), Str(FALLBACK_FIELD));
    row[Id := Number(ToNumber(Get(row, Id)))][FieldKey := field]
  }

  /** `getResources`: every row fixed up, in order; no rows when the query failed or answered null. */
  function GetResources(reply: Reply<seq<Payload>>): (r: seq<Payload>)
    ensures reply.Failed? || reply.data.None? ==> r == []
    ensures reply.Answered? && reply.data.Some? ==>
      |r| == |reply.data.value| && forall i :: 0 <= i < |r| ==> r[i] == ReadFixup(reply.data.value[i])
  {
    if reply.Failed? || reply.data.None? then []
    else seq(|reply.data.value|, i requires 0 <= i < |reply.data.value| => ReadFixup(reply.data.value[i]))
  }

  /**
   * `getResourceById`: null on an error, and on a null row (reading its id
   * throws, and the throw is caught); the fixed-up row otherwise.
   */
  function GetResourceById(reply: Reply<Payload>): (r: Option<Payload>)
    ensures r.Some? <==> reply.Answered? && reply.data.Some?
    ensures r.Some? ==> r.value == ReadFixup(reply.data.value)
  {
    match reply
    case Failed => None
    case Answered(data) => if data.Some? then Some(ReadFixup(data.value)) else None
  }

  /** `s.split('T')[0]`: everything before the first 'T'. */
  function DatePart(iso: string): (d: string)
    ensures d <= iso && 'T' !in d
    ensures |d| < |iso| ==> iso[|d|] == 'T'
  {
    if iso == [] || iso[0] == 'T' then [] else [iso[0]] + DatePart(iso[1..])
  }

  /** The date part of an ISO timestamp "date T time" is the date. */
  lemma {:induction false} DatePartOfTimestamp(date: string, time: string)
    requires 'T' !in date
    ensures DatePart(date + "T" + time) == date
  {
    if date != [] {
      assert (date + "T" + time)[1..] == date[1..] + "T" + time;
      DatePartOfTimestamp(date[1..], time);
    }
  }

  /**
   * The row `createResource` inserts: the caller's members, with the id set
   * to the clock reading as a string and `uploadDate` to today's date.
   */
  function NewResourcePayload(resource: Payload, now: nat, isoNow: string): (p: Payload)
    ensures p.Keys == resource.Keys + {Id, UploadDate}
    ensures p[Id] == Str(IntToString(now)) && p[UploadDate] == Str(DatePart(isoNow))
    ensures forall k :: k in resource && k != Id && k != UploadDate ==> p[k] == resource[k]
  {
    resource[Id := Str(IntToString(now))][UploadDate := Str(DatePart(isoNow))]
  }

  /** The fix-up after an insert: the id becomes a number, and a missing `uploadDate` falls back to the one sent. */
  function CreateFixup(row: Payload, uploadDate: string): (r: Payload)
    ensures r.Keys == row.Keys + {Id, UploadDate}
    ensures r[Id] == Number(ToNumber(Get(row, Id)))
    ensures r[UploadDate] == if Truthy(Get(row, UploadDate)) then row[UploadDate] else Str(uploadDate)
    ensures forall k :: k in row && k != Id && k != UploadDate ==> r[k] == row[k]
  {
    row[Id := Number(ToNumber(Get(row, Id)))][UploadDate := Or(Get(row, UploadDate), Str(uploadDate))]
  }

  /** `createResource`: throws on an error or a null row, otherwise returns the fixed-up row. */
  function CreateResource(isoNow: string, reply: Reply<Payload>): (r: Outcome<Payload>)
    ensures reply.Failed? ==> r == Threw(BackendError)
    ensures reply.Answered? && reply.data.None? ==> r == Threw(TypeError)
    ensures reply.Answered? && reply.data.Some? ==> r == Returned(CreateFixup(reply.data.value, DatePart(isoNow)))
  {
    match reply
    case Failed => Threw(BackendError)
    case Answered(data) => if data.Some? then Returned(CreateFixup(data.value, DatePart(isoNow))) else Threw(TypeError)
  }

  /**
   * If the store keeps the row it was given, reading it back (with
   * `joined`, the `fields` row its `field_id` names, or null) yields the
   * caller's members unchanged, the clock reading as a numeric id and
   * today's date. `field` becomes the joined row's name when that is
   * truthy, otherwise the created `field` when truthy, otherwise "BCA".
   */
  lemma CreatedRowReadsBack(resource: Payload, now: nat, isoNow: string, joined: Value)
    ensures var back := ReadFixup(NewResourcePayload(resource, now, isoNow)[Fields := joined]);
      && back[Id] == Number(Finite(now))
      && back[UploadDate] == Str(DatePart(isoNow))
      && back[Fields] == joined
      && (Truthy(JoinedName(joined)) ==> back[FieldKey] == JoinedName(joined))
      && (!Truthy(JoinedName(joined)) && Truthy(Get(resource, FieldKey)) ==> back[FieldKey] == resource[FieldKey])
      && (!Truthy(JoinedName(joined)) && !Truthy(Get(resource, FieldKey)) ==> back[FieldKey] == Str(FALLBACK_FIELD))
      && forall k :: k in resource && k != Id && k != UploadDate && k != FieldKey && k != Fields ==> back[k] == resource[k]
  {
    var row := NewResourcePayload(resource, now, isoNow)[Fields := joined];
    assert Get(row, Id) == Str(IntToString(now)) && UploadDate in row && row[UploadDate] == Str(DatePart(isoNow));
    StoredRowMembers(resource, now, isoNow, row, joined);
    StoredRowField(resource, row, joined);
  }

  /** The id, the date and the untouched members of a stored row, once read back. */
  lemma StoredRowMembers(resource: Payload, now: nat, isoNow: string, row: Payload, joined: Value)
    requires Get(row, Id) == Str(IntToString(now)) && Fields in row && row[Fields] == joined
    requires UploadDate in row && row[UploadDate] == Str(DatePart(isoNow))
    requires forall k :: k in resource && k != Id && k != UploadDate && k != Fields ==> k in row && row[k] == resource[k]
    ensures ReadFixup(row)[Id] == Number(Finite(now))
    ensures ReadFixup(row)[UploadDate] == Str(DatePart(isoNow))
    ensures ReadFixup(row)[Fields] == joined
    ensures forall k :: k in resource && k != Id && k != UploadDate && k != FieldKey && k != Fields ==>
      ReadFixup(row)[k] == resource[k]
  {
    StringToNumberOfIntToString(now);
  }

  /** The `field` of a stored row, once read back. */
  lemma StoredRowField(resource: Payload, row: Payload, joined: Value)
    requires Get(row, Fields) == joined && Get(row, FieldKey) == Get(resource, FieldKey)
    ensures Truthy(JoinedName(joined)) ==> ReadFixup(row)[FieldKey] == JoinedName(joined)
    ensures !Truthy(JoinedName(joined)) && Truthy(Get(resource, FieldKey)) ==> ReadFixup(row)[FieldKey] == resource[FieldKey]
    ensures !Truthy(JoinedName(joined)) && !Truthy(Get(resource, FieldKey)) ==> ReadFixup(row)[FieldKey] == Str(FALLBACK_FIELD)
  {
  }

  /** Removes the members the database has no column for. */
  function StripKeys(p: Payload): (r: Payload)
    ensures r.Keys == p.Keys - StrippedKeys
    ensures forall k :: k in r ==> r[k] == p[k] && Spelling(k) !in StrippedNames
  {
    StrippedBySpelling();
    p - StrippedKeys
  }

  lemma StripKeysIdempotent(p: Payload)
    ensures StripKeys(StripKeys(p)) == StripKeys(p)
  {
  }

  /** Removes the members whose value is `undefined`. */
  function PruneUndefined(p: Payload): (r: Payload)
    ensures r.Keys <= p.Keys
    ensures forall k :: k in r ==> r[k] == p[k] && r[k] != Undefined
    ensures forall k :: k in p && p[k] != Undefined ==> k in r
  {
    map k | k in p && p[k] != Undefined :: p[k]
  }

  /**
   * The payload `updateResource` writes: no stripped member, the id as a
   * string, no `undefined` value, and every other member of the update
   * exactly as given.
   */
  function UpdatePayload(id: Num, updates: Payload): (p: Payload)
    ensures p.Keys !! StrippedKeys
    ensures forall k :: k in p ==> Spelling(k) !in StrippedNames
    ensures Id in p && p[Id] == Str(NumToString(id))
    ensures forall k :: k in p ==> p[k] != Undefined
    ensures forall k :: k in updates && k !in StrippedKeys && k != Id && updates[k] != Undefined ==>
      k in p && p[k] == updates[k]
    ensures forall k :: k in p && k != Id ==> k in updates && p[k] == updates[k]
  {
    PruneUndefined(StripKeys(updates)[Id := Str(NumToString(id))])
  }

  /**
   * Deletes, one key at a time, every member of `m` whose value is
   * `undefined`, as the loop at the end of `updateResource` does.
   */
  method DeleteUndefinedMembers(m: Payload) returns (r: Payload)
    ensures r == PruneUndefined(m)
  {
    r := m;
    var pending := r.Keys;
    while pending != {}
      invariant pending <= r.Keys <= m.Keys
      invariant forall k :: k in r ==> r[k] == m[k]
      invariant forall k :: k in m && k !in pending ==> (k in r <==> m[k] != Undefined)
      decreases pending
    {
      var key :| key in pending;
      if r[key] == Undefined {
        r := r - {key};
      }
      pending := pending - {key};
    }
  }

  /**
   * Builds the update payload the way `updateResource` does: copy, delete
   * each stripped member, set the id, then delete every member that is
   * `undefined`.
   */
  method BuildUpdatePayload(id: Num, updates: Payload) returns (updateData: Payload)
    ensures updateData == UpdatePayload(id, updates)
  {
    var updatesCopy := updates;
    if Fields in updatesCopy { updatesCopy := updatesCopy - {Fields}; }
    if FieldIdKey in updatesCopy { updatesCopy := updatesCopy - {FieldIdKey}; }
    if FileName in updatesCopy { updatesCopy := updatesCopy - {FileName}; }
    if FileSelected in updatesCopy { updatesCopy := updatesCopy - {FileSelected}; }
    assert updatesCopy == StripKeys(updates);
    updateData := DeleteUndefinedMembers(updatesCopy[Id := Str(NumToString(id))]);
  }

  /** `updateResource`'s result: null on an error or a null row, otherwise the row fixed up. */
  function UpdateResource(updates: Payload, reply: Reply<Payload>): (r: Option<Payload>)
    ensures r.Some? <==> reply.Answered? && reply.data.Some?
    ensures r.Some? ==> r.value == WriteFixup(reply.data.value, updates)
  {
    match reply
    case Failed => None
    case Answered(data) => if data.Some? then Some(WriteFixup(data.value, updates)) else None
  }

  /** A record's `field_id` is a required member, yet an update never writes a member of that name. */
  lemma FieldIdNeverWritten(r: Resource, id: Num)
    ensures FieldIdKey in ResourceToPayload(r)
    ensures forall k :: k in UpdatePayload(id, ResourceToPayload(r)) ==> Spelling(k) != "field_id"
  {
    assert Get(ResourceToPayload(r), FieldIdKey) == Member(r, FieldIdKey);
  }

  /** `deleteResource`: true when the delete went through, false on any failure; it never throws. */
  function DeleteResource(reply: Reply<()>): (deleted: bool)
    ensures deleted <==> reply.Answered?
  {
    !reply.Failed?
  }

  /** The characters an uploaded file's name keeps: `[a-zA-Z0-9.]`. */
  predicate AllowedInFileName(c: char) {
    'a' <= c <= 'z' || 'A' <= c <= 'Z' || '0' <= c <= '9' || c == '.'
  }

  /** `name.replace(/[^a-zA-Z0-9.]/g, '_')`. */
  function SanitizeFileName(name: string): (r: string)
    ensures |r| == |name|
    ensures forall i :: 0 <= i < |name| && AllowedInFileName(name[i]) ==> r[i] == name[i]
    ensures forall i :: 0 <= i < |name| && !AllowedInFileName(name[i]) ==> r[i] == '_'
    ensures forall i :: 0 <= i < |r| ==> AllowedInFileName(r[i]) || r[i] == '_'
  {
    if name == [] then []
    else [if AllowedInFileName(name[0]) then name[0] else '_'] + SanitizeFileName(name[1..])
  }

  lemma SanitizeFileNameIdempotent(name: string)
    ensures SanitizeFileName(SanitizeFileName(name)) == SanitizeFileName(name)
  {
    var once := SanitizeFileName(name);
    var twice := SanitizeFileName(once);
    assert forall i :: 0 <= i < |once| ==> twice[i] == once[i];
  }

  /** The object an upload is stored under: `${resourceId}_${Date.now()}_${sanitizedFileName}`. */
  function ObjectName(resourceId: string, now: nat, fileName: string): (name: string)
    ensures resourceId + "_" <= name
    ensures |name| == |resourceId| + |IntToString(now)| + |fileName| + 2
  {
    resourceId + "_" + IntToString(now) + "_" + SanitizeFileName(fileName)
  }

  /**
   * Reads the clock reading and the file name back out of an object name,
   * given the resource id it starts with.
   */
  function SplitObjectName(resourceId: string, objectName: string): Option<(nat, string)> {
    if !(resourceId + "_" <= objectName) then None
    else
      var rest := objectName[|resourceId| + 1..];
      var ds := LeadingDigits(rest);
      if ds == [] || |ds| == |rest| || rest[|ds|] != '_' then None
      else Some((DigitsValue(ds), rest[|ds| + 1..]))
  }

  /** An object name determines the clock reading and the sanitised file name it was built from. */
  lemma ObjectNameRoundTrip(resourceId: string, now: nat, fileName: string)
    ensures SplitObjectName(resourceId, ObjectName(resourceId, now, fileName)) == Some((now, SanitizeFileName(fileName)))
  {
    SplitOfParts(resourceId, NatToString(now), SanitizeFileName(fileName));
    DigitsValueOfNatToString(now);
  }

  /** A name assembled from an id, a digit run and a tail splits back into the run's value and the tail. */
  lemma SplitOfParts(resourceId: string, digits: string, tail: string)
    requires digits != [] && AllDigits(digits)
    ensures SplitObjectName(resourceId, resourceId + "_" + digits + "_" + tail) == Some((DigitsValue(digits), tail))
  {
    var name := resourceId + "_" + digits + "_" + tail;
    var rest := digits + ("_" + tail);
    assert name == (resourceId + "_") + rest;
    assert name[|resourceId| + 1..] == rest;
    LeadingDigitsOfDigitRun(digits, "_" + tail);
    assert rest[|digits|] == '_';
    assert rest[|digits| + 1..] == tail;
  }

  /** What one storage upload attempt did. */
  datatype StorageReply = StorageThrew | StorageFailed | Stored(path: string)

  /**
   * Everything an upload learns from outside: the clock reading, the reply
   * of the first attempt, the reply of the retry (used only when the first
   * attempt throws), and the public URL the store reports for the path.
   */
  datatype StorageCall = StorageCall(now: nat, first: StorageReply, retry: StorageReply, publicUrl: string)

  /** The reply that decides an upload: the retry's when the first attempt threw. */
  function DecidingReply(storage: StorageCall): (r: StorageReply)
    ensures !storage.first.StorageThrew? ==> r == storage.first
    ensures storage.first.StorageThrew? ==> r == storage.retry
    ensures r.StorageThrew? ==> storage.first.StorageThrew? && storage.retry.StorageThrew?
  {
    if storage.first.StorageThrew? then storage.retry else storage.first
  }

  /** An upload: the object name it asked the store for (if it got that far) and the URL or the error. */
  datatype UploadRun = UploadRun(objectName: Option<string>, url: Outcome<string>)

  /** The public URL when it is absolute, otherwise one built from the stored path. */
  function FinalUrl(publicUrl: string, path: string): (url: string)
    ensures StorageConfig.IsAbsolute(publicUrl) ==> url == publicUrl
    ensures !StorageConfig.IsAbsolute(publicUrl) ==> url == StorageConfig.GetStorageUrl(path)
    ensures StorageConfig.IsAbsolute(url)
  {
    if StorageConfig.IsAbsolute(publicUrl) then publicUrl else StorageConfig.GetStorageUrl(path)
  }

  /**
   * `uploadResourceFile`: throws when there is no file; otherwise stores it
   * under its object name, retrying once when the first attempt throws, and
   * returns an absolute URL or throws the storage error.
   */
  function UploadResourceFile(file: Option<string>, resourceId: string, storage: StorageCall): (run: UploadRun)
    ensures file.None? ==> run == UploadRun(None, Threw(NoFileProvided))
    ensures file.Some? ==> run.objectName == Some(ObjectName(resourceId, storage.now, file.value))
    ensures run.url.Returned? <==> file.Some? && DecidingReply(storage).Stored?
    ensures run.url.Returned? ==> StorageConfig.IsAbsolute(run.url.value)
    ensures file.Some? && DecidingReply(storage).Stored? ==>
      run.url.value == FinalUrl(storage.publicUrl, DecidingReply(storage).path)
    ensures file.Some? && run.url.Threw? ==> run.url.failure == BackendError
  {
    if file.None? then UploadRun(None, Threw(NoFileProvided))
    else
      var name := ObjectName(resourceId, storage.now, file.value);
      match DecidingReply(storage)
      case Stored(path) => UploadRun(Some(name), Returned(FinalUrl(storage.publicUrl, path)))
      case StorageFailed => UploadRun(Some(name), Threw(BackendError))
      case StorageThrew => UploadRun(Some(name), Threw(BackendError))
  }
}
