/** The records the annotator stores and passes around (the shapes of types.ts).
    Times are integer milliseconds: the application reads them from the video
    element as seconds and only ever orders, formats and stores them. */
module Types {

  datatype Option<T> = None | Some(value: T)

  /** Record identifiers; the application fills them with random UUIDs. */
  type Id = string

  /** A browser File: its name and its bytes. */
  datatype MediaFile = MediaFile(name: string, bytes: seq<bv8>)

  datatype Video = Video(id: Id, name: string, file: MediaFile)

  datatype Annotation = Annotation(id: Id, videoId: Id, startTime: int, endTime: int, text: string)

  /** `NewAnnotation`, an annotation that has no id yet. */
  datatype NewAnnotation = NewAnnotation(videoId: Id, startTime: int, endTime: int, text: string)

  /** `{ ...draft, id }`: the draft's fields plus an id. Dropping the id again
      gives the draft back, so nothing of the draft is lost or altered. */
  function WithId(draft: NewAnnotation, id: Id): (a: Annotation)
    ensures a.id == id
    ensures NewAnnotation(a.videoId, a.startTime, a.endTime, a.text) == draft
  {
    Annotation(id, draft.videoId, draft.startTime, draft.endTime, draft.text)
  }

  /** A file offered for download: its name, MIME type and text content. */
  datatype Download = Download(fileName: string, mimeType: string, content: string)
}
