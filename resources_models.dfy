/** resources/models.py: educational resources, each in a category and
    uploaded by a user. A resource is an object because increment_view
    updates its view count in place. */
module ResourceModels {
  import opened Common
  import opened Users

  type ResourceId = nat
  type CategoryId = nat

  /** RESOURCE_TYPES */
  datatype ResourceType = Video | Pdf | Article | Guide | OtherResource

  /** The request value of resource_type, parsed against the choices; None
      for a value that names no choice. */
  function ParseResourceType(raw: string): (t: Option<ResourceType>)
    ensures t == Some(Video) <==> raw == "video"
    ensures t.None? <==> raw !in {"video", "pdf", "article", "guide", "other"}
  {
    if raw == "video" then Some(Video)
    else if raw == "pdf" then Some(Pdf)
    else if raw == "article" then Some(Article)
    else if raw == "guide" then Some(Guide)
    else if raw == "other" then Some(OtherResource)
    else None
  }

  /** A category row. */
  datatype ResourceCategory = ResourceCategory(id: CategoryId, name: string, description: string)

  /** The values a new resource row is created from. The file is represented
      by its size. */
  datatype ResourceFields = ResourceFields(
    title: string,
    description: string,
    fileSize: nat,
    thumbnail: Option<string>,
    resourceType: ResourceType,
    category: CategoryId,
    uploadedBy: UserId,
    isFeatured: bool)

  /** is_featured = BooleanField(default=False) */
  const DefaultIsFeatured: bool := false

  class Resource {
    const id: ResourceId
    var title: string
    var description: string
    var fileSize: nat
    var thumbnail: Option<string>
    var resourceType: ResourceType
    var category: CategoryId
    const uploadedBy: UserId
    const createdAt: Timestamp
    /** view_count = PositiveIntegerField(default=0) */
    var viewCount: nat
    var isFeatured: bool

    constructor (id: ResourceId, f: ResourceFields, now: Timestamp)
      ensures this.id == id && createdAt == now && viewCount == 0
      ensures title == f.title && description == f.description && fileSize == f.fileSize
      ensures thumbnail == f.thumbnail && resourceType == f.resourceType && category == f.category
      ensures uploadedBy == f.uploadedBy && isFeatured == f.isFeatured
    {
      this.id, this.createdAt, this.uploadedBy := id, now, f.uploadedBy;
      title, description, fileSize, thumbnail := f.title, f.description, f.fileSize, f.thumbnail;
      resourceType, category, isFeatured := f.resourceType, f.category, f.isFeatured;
      viewCount := 0;
    }
  }

  /** Resource.Meta.ordering = ['-created_at']: newest first. */
  predicate ResourcesInListingOrder(rs: seq<Resource>)
    reads rs
  {
    forall i, j :: 0 <= i < j < |rs| ==> rs[i].createdAt >= rs[j].createdAt
  }
}
