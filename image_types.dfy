/** The records the image store keeps and hands out (image-store/types.ts). */
module ImageTypes {
  import opened Wrappers

  /** A stored image: its id, owning session, MIME type, base64 payload, optional size and label. */
  datatype StoredImage = StoredImage(
    id: string,
    sessionId: string,
    mimeType: string,
    data: string,
    width: Option<int>,
    height: Option<int>,
    createdAt: int,      // a clock reading, carried and never inspected
    description: string
  )

  /** An image as the execution backend returns it. */
  datatype ImageOutput = ImageOutput(id: string, mimeType: string, data: string, width: Option<int>, height: Option<int>)

  /** What `store` returns to the tool response: the locator, the MIME type and the label. */
  datatype ImageReference = ImageReference(resourceUri: string, mimeType: string, description: string)
}
