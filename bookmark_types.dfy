/** The records the client exchanges with the bookmark service. */
module BookmarkTypes {
  import opened Wrappers

  /** What the client reads of a parsed URL: its `protocol` (with the trailing
      colon, as in "https:"), its `host`, and its serialisation `href`, which
      is also what `toString()` returns. */
  datatype Url = Url(protocol: string, host: string, href: string)

  /** The URL parser of the runtime (`new URL(s)`): `None` where it throws. */
  type UrlParser = string -> Option<Url>

  datatype Tag = Tag(id: string, name: string)

  /** The fields of a link bookmark's content that the client reads. */
  datatype LinkContent = LinkContent(
    url: string,
    title: Option<string>,
    description: Option<string>,
    imageUrl: Option<string>,
    htmlContent: Option<string>)

  /** The content of a bookmark, tagged by its `type`. */
  datatype Content =
    | Link(link: LinkContent)
    | Text(text: string)
    | Asset(assetId: string, assetType: string)

  /** A bookmark as the service returns it (`TagT` = `Tag`) or as the command
      line prints it after normalisation (`TagT` = the tag's name). */
  datatype Bookmark<TagT> = Bookmark(
    id: string,
    createdAt: string,
    title: Option<string>,
    archived: bool,
    favourited: bool,
    note: Option<string>,
    tags: seq<TagT>,
    content: Content)

  /** The argument of the create-bookmark call. */
  datatype CreateRequest = CreateLink(url: string) | CreateText(text: string)
}
