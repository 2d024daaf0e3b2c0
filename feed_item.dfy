/** The record behind one feed card. */
module FeedModel {
  /** `FeedItem`: an immutable id with a title and a content summary. The
      id is a Java `long`; every id the repository builds fits in 32 bits. */
  datatype FeedItem = FeedItem(id: int, title: string, content: string)
}
