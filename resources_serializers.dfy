/** resources/serializers.py: the file size limit, which depends on the
    submitted resource type, and the uploader filled in from the request. */
module ResourceSerializers {
  import opened Common
  import opened Users
  import opened ResourceModels

  /** 100 MB for videos, 20 MB for everything else. */
  const MaxVideoSize: nat := 100 * MiB
  const MaxFileSize: nat := 20 * MiB

  /** validate_file. The type is read from the raw request data
      (initial_data), so it is the submitted string, or None when the key is
      absent. The limit is inclusive: a comparison with > refuses only what
      is strictly larger. */
  function ValidateResourceFile(rawType: Option<string>, size: nat): (r: Result<nat>)
    ensures rawType == Some("video") ==> (r.Ok? <==> size <= 100 * 1024 * 1024)
    ensures rawType != Some("video") ==> (r.Ok? <==> size <= 20 * 1024 * 1024)
    ensures r.Ok? ==> r.value == size
    ensures r.Err? ==> r.error == (if rawType == Some("video") then VideoTooLarge else FileTooLarge)
  {
    var maxSize := if rawType == Some("video") then MaxVideoSize else MaxFileSize;
    if size > maxSize then
      if rawType == Some("video") then Err(VideoTooLarge) else Err(FileTooLarge)
    else Ok(size)
  }

  /** What a client submits to create a resource. uploaded_by, created_at,
      updated_at and view_count are read-only; is_featured is writable. */
  datatype ResourceSubmission = ResourceSubmission(
    title: string,
    description: string,
    fileSize: nat,
    thumbnail: Option<string>,
    resourceType: Option<string>,
    category: CategoryId,
    uploadedBy: Option<UserId>,
    viewCount: Option<nat>,
    isFeatured: Option<bool>)

  /** is_valid() followed by ResourceSerializer.create: the file is checked
      (against the raw type), the type must be one of the choices, the
      category must exist; the created row is uploaded by the requester and
      starts with no views. DRF reports every failing field at once; the
      model reports the first of them in field order (file, resource_type,
      category). */
  function NewResource(s: ResourceSubmission, requester: User, categories: set<CategoryId>): (r: Result<ResourceFields>)
    ensures r.Ok? <==> ValidateResourceFile(s.resourceType, s.fileSize).Ok? && s.resourceType.Some?
                       && ParseResourceType(s.resourceType.value).Some? && s.category in categories
    ensures ValidateResourceFile(s.resourceType, s.fileSize).Err? ==> r == Err(ValidateResourceFile(s.resourceType, s.fileSize).error)
    ensures r.Ok? ==> r.value.uploadedBy == requester.id
    ensures r.Ok? ==> r.value.resourceType == ParseResourceType(s.resourceType.value).value
    ensures r.Ok? ==> r.value.isFeatured == (if s.isFeatured.Some? then s.isFeatured.value else DefaultIsFeatured)
    ensures r.Ok? ==> r.value.title == s.title && r.value.description == s.description
    ensures r.Ok? ==> r.value.fileSize == s.fileSize && r.value.thumbnail == s.thumbnail && r.value.category == s.category
  {
    var file := ValidateResourceFile(s.resourceType, s.fileSize);
    if file.Err? then Err(file.error)
    else if s.resourceType.None? || ParseResourceType(s.resourceType.value).None? then Err(InvalidChoice)
    else if s.category !in categories then Err(UnknownObject)
    else Ok(ResourceFields(s.title, s.description, s.fileSize, s.thumbnail, ParseResourceType(s.resourceType.value).value,
                           s.category, requester.id, if s.isFeatured.Some? then s.isFeatured.value else DefaultIsFeatured))
  }

  /** POST to the resource endpoint: a new resource row from a valid
      submission, uploaded by the requester, with no views whatever the
      submission says. */
  method CreateResource(id: ResourceId, s: ResourceSubmission, requester: User, categories: set<CategoryId>, now: Timestamp)
    returns (r: Result<Resource>)
    ensures r.Ok? <==> NewResource(s, requester, categories).Ok?
    ensures r.Err? ==> r.error == NewResource(s, requester, categories).error
    ensures r.Ok? ==> fresh(r.value) && r.value.id == id && r.value.createdAt == now
    ensures r.Ok? ==> r.value.uploadedBy == requester.id && r.value.viewCount == 0
    ensures r.Ok? ==> r.value.isFeatured == NewResource(s, requester, categories).value.isFeatured
    ensures r.Ok? ==> var f := NewResource(s, requester, categories).value;
      && r.value.title == f.title && r.value.description == f.description && r.value.fileSize == f.fileSize
      && r.value.thumbnail == f.thumbnail && r.value.resourceType == f.resourceType && r.value.category == f.category
  {
    var fields := NewResource(s, requester, categories);
    if fields.Err? {
      return Err(fields.error);
    }
    var res := new Resource(id, fields.value, now);
    r := Ok(res);
  }

  /** The boundaries of the two limits: exactly 100 MiB passes as a video
      and exactly 20 MiB as anything else, one byte more does not; a 50 MiB
      file passes only as a video. */
  lemma FileLimitBoundaries()
    ensures ValidateResourceFile(Some("video"), 100 * MiB).Ok?
    ensures ValidateResourceFile(Some("video"), 100 * MiB + 1) == Err(VideoTooLarge)
    ensures ValidateResourceFile(Some("pdf"), 20 * MiB).Ok?
    ensures ValidateResourceFile(None, 20 * MiB + 1) == Err(FileTooLarge)
    ensures ValidateResourceFile(Some("video"), 50 * MiB).Ok? && ValidateResourceFile(Some("guide"), 50 * MiB).Err?
  {
  }

  /** The read-only fields of a submission have no effect on what is
      created. */
  lemma ResourceReadOnlyFieldsIgnored(s: ResourceSubmission, requester: User, categories: set<CategoryId>)
    ensures NewResource(s, requester, categories) == NewResource(s.(uploadedBy := None, viewCount := None), requester, categories)
  {
  }
}
