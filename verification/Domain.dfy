/** Values passed between the services. */
module Domain {
  import opened Basics

  type Bytes = seq<Byte>

  datatype Candidate = Candidate(
    url: string, container: string, quality: string, codec: string,
    isDirect: bool, playable: bool, priority: int, caption: string)

  datatype Part = Head | Tail

  /** Stands for the text of blobKey; CacheKeys.BlobKeysInjective is why the triple may replace it. */
  datatype BlobKey = BlobKey(episode: string, url: string, part: Part)

  /** domain.StartupMediaCache. A missing key text is None. */
  datatype Entry = Entry(
    episode: string, sourceUrl: string, sourceKey: string, container: string, quality: string,
    contentType: string, contentLength: int,
    headKey: Option<BlobKey>, headBytes: int,
    tailKey: Option<BlobKey>, tailBytes: int)
}
