/** The notebook records: the two status enumerations, the embedded image
    request, the stored notebook with its defaults, and the partial update. */
module NotebookModel {
  import opened Wrappers
  import opened Timestamps

  datatype NotebookStatus = Pending | ProcessingText | ProcessingImages | Completed | Failed

  /** The stored string of a notebook status: its own name. */
  function NotebookStatusValue(s: NotebookStatus): string {
    match s
    case Pending => "PENDING"
    case ProcessingText => "PROCESSING_TEXT"
    case ProcessingImages => "PROCESSING_IMAGES"
    case Completed => "COMPLETED"
    case Failed => "FAILED"
  }

  /** Reading a stored status string back: exactly the five names parse. */
  function ParseNotebookStatus(v: string): (r: Option<NotebookStatus>)
    ensures r.Some? ==> NotebookStatusValue(r.value) == v
    ensures r.None? ==> forall s :: NotebookStatusValue(s) != v
  {
    if v == "PENDING" then Some(NotebookStatus.Pending)
    else if v == "PROCESSING_TEXT" then Some(NotebookStatus.ProcessingText)
    else if v == "PROCESSING_IMAGES" then Some(NotebookStatus.ProcessingImages)
    else if v == "COMPLETED" then Some(NotebookStatus.Completed)
    else if v == "FAILED" then Some(NotebookStatus.Failed)
    else None
  }

  /** Each status reads back as itself, so the stored names are distinct. */
  lemma NotebookStatusRoundTrip(s: NotebookStatus)
    ensures ParseNotebookStatus(NotebookStatusValue(s)) == Some(s)
  {
  }

  datatype ImageRequestStatus = Pending | Fetched | Validated | Failed

  function ImageRequestStatusValue(s: ImageRequestStatus): string {
    match s
    case Pending => "PENDING"
    case Fetched => "FETCHED"
    case Validated => "VALIDATED"
    case Failed => "FAILED"
  }

  function ParseImageRequestStatus(v: string): (r: Option<ImageRequestStatus>)
    ensures r.Some? ==> ImageRequestStatusValue(r.value) == v
    ensures r.None? ==> forall s :: ImageRequestStatusValue(s) != v
  {
    if v == "PENDING" then Some(ImageRequestStatus.Pending)
    else if v == "FETCHED" then Some(ImageRequestStatus.Fetched)
    else if v == "VALIDATED" then Some(ImageRequestStatus.Validated)
    else if v == "FAILED" then Some(ImageRequestStatus.Failed)
    else None
  }

  /** Each image-request status reads back as itself. */
  lemma ImageRequestStatusRoundTrip(s: ImageRequestStatus)
    ensures ParseImageRequestStatus(ImageRequestStatusValue(s)) == Some(s)
  {
  }

  /** One image placeholder's progress: its query, the scraped url, the
      validated url and the reason it failed. */
  datatype ImageRequest = ImageRequest(
    query: string,
    status: ImageRequestStatus,
    originalUrl: Option<string>,
    validatedImageUrl: Option<string>,
    errorMessage: Option<string>)

  /** `ImageRequest(query=q)` with its defaults. */
  function NewImageRequest(query: string): (r: ImageRequest)
    ensures r.query == query && r.status == ImageRequestStatus.Pending
    ensures r.originalUrl.None? && r.validatedImageUrl.None? && r.errorMessage.None?
  {
    ImageRequest(query, ImageRequestStatus.Pending, None, None, None)
  }

  /** A notebook document as stored under `users/{user_id}/notebooks/{notebook_id}`. */
  datatype Notebook = Notebook(
    notebookId: string,
    topicInput: string,
    userId: string,
    status: NotebookStatus,
    llmGeneratedText: Option<string>,
    imageRequests: seq<ImageRequest>,
    finalContent: Option<string>,
    errorMessage: Option<string>,
    createdAt: Time,
    updatedAt: Time)

  /** `NotebookInDBBase(topic_input=..., user_id=..., status=...)`: the fresh
      id and the two clock readings are the default factories' values. */
  function NewNotebook(topicInput: string, userId: string, status: NotebookStatus,
                       notebookId: string, createdAt: Time, updatedAt: Time): (nb: Notebook)
    ensures nb.notebookId == notebookId && nb.topicInput == topicInput && nb.userId == userId
    ensures nb.status == status && nb.createdAt == createdAt && nb.updatedAt == updatedAt
    ensures nb.llmGeneratedText.None? && nb.imageRequests == []
    ensures nb.finalContent.None? && nb.errorMessage.None?
  {
    Notebook(notebookId, topicInput, userId, status, None, [], None, None, createdAt, updatedAt)
  }

  /** The set of fields one `update` call writes; `None` means the field is
      not part of the update. Only `updated_at` is always present. */
  datatype NotebookUpdate = NotebookUpdate(
    topicInput: Option<string>,
    status: Option<NotebookStatus>,
    llmGeneratedText: Option<string>,
    imageRequests: Option<seq<ImageRequest>>,
    finalContent: Option<string>,
    errorMessage: Option<string>,
    updatedAt: Time)

  /** `NotebookUpdate()`: every optional field absent. */
  function EmptyNotebookUpdate(updatedAt: Time): (u: NotebookUpdate)
    ensures u.topicInput.None? && u.status.None? && u.llmGeneratedText.None?
    ensures u.imageRequests.None? && u.finalContent.None? && u.errorMessage.None?
    ensures u.updatedAt == updatedAt
  {
    NotebookUpdate(None, None, None, None, None, None, updatedAt)
  }
}
