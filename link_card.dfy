/** The dashboard card of a link bookmark: when to poll the service again,
    the check that the bookmark is a link, and what the card shows (title,
    image, host). The three helpers the card imports (still loading, still
    crawling, image of a link) are parameters: any definition of them. */
module LinkCard {
  import opened Wrappers
  import opened BookmarkTypes

  /** What the image helper reports for a link. */
  datatype ImageDetails = ImageDetails(url: string, localAsset: bool)

  /** The source and the `unoptimized` flag of the card's image. */
  datatype CardImage = CardImage(src: string, unoptimized: bool)

  /** The `refetchInterval` value: a period in milliseconds, or `false`. */
  datatype Refetch = RefetchEvery(ms: nat) | NoRefetch

  /** The narrowed view of a bookmark whose content is a link. */
  datatype LinkBookmark = LinkBookmark(bookmark: Bookmark<Tag>, link: LinkContent)

  /** What the card renders. */
  datatype CardView = CardView(title: string, footer: string, image: CardImage, href: string)

  const PollPeriod: nat := 1000
  const BlurPlaceholder: string := "/blur.avif"
  const BlankPixel: string := "data:image/png;base64,iVBORw0KGgoAAAANSUhEUgAAAAEAAAABCAYAAAAfFcSJAAAAAXNSR0IArs4c6QAAAA1JREFUGFdj+P///38ACfsD/QVDRcoAAAAASUVORK5CYII="
  const InvalidBookmarkType: string := "Invalid bookmark type"
  const InvalidUrl: string := "Invalid URL"

  /** `refetchInterval`: poll every second while the latest data is still
      loading, and not at all when there is no data or it has loaded. */
  function RefetchInterval(data: Option<Bookmark<Tag>>, stillLoading: Bookmark<Tag> -> bool): (r: Refetch)
    ensures r != NoRefetch <==> data.Some? && stillLoading(data.value)
    ensures r != NoRefetch ==> r == RefetchEvery(PollPeriod)
  {
    if data.None? then NoRefetch
    else if stillLoading(data.value) then RefetchEvery(PollPeriod)
    else NoRefetch
  }

  /** The content-type guard: anything but a link is an error. */
  function AsLinkBookmark(b: Bookmark<Tag>): (r: Result<LinkBookmark>)
    ensures r.Ok? <==> b.content.Link?
    ensures r.Ok? ==> r.value.bookmark == b && r.value.link == b.content.link
    ensures r.Err? ==> r.message == InvalidBookmarkType
  {
    match b.content
    case Link(link) => Ok(LinkBookmark(b, link))
    case _ => Err(InvalidBookmarkType)
  }

  /** `LinkTitle`: the user's title, else the crawled title, else the host.
      Only an absent value falls through; the URL is parsed first, so a URL
      that does not parse is an error whatever the titles. */
  function LinkTitle(lb: LinkBookmark, parse: UrlParser): (r: Result<string>)
    ensures r.Ok? <==> parse(lb.link.url).Some?
    ensures r.Ok? ==>
      r.value == (if lb.bookmark.title.Some? then lb.bookmark.title.value
                  else if lb.link.title.Some? then lb.link.title.value
                  else parse(lb.link.url).value.host)
  {
    match parse(lb.link.url)
    case None => Err(InvalidUrl)
    case Some(u) =>
      Ok(match lb.bookmark.title
         case Some(t) => t
         case None =>
           match lb.link.title
           case Some(t) => t
           case None => u.host)
  }

  /** A user title, even the empty one, hides the crawled title and the host. */
  lemma UserTitleWins(lb: LinkBookmark, other: LinkContent, parse: UrlParser)
    requires lb.bookmark.title.Some?
    requires parse(lb.link.url).Some? && parse(other.url).Some?
    ensures LinkTitle(lb, parse) == LinkTitle(lb.(link := other), parse) == Ok(lb.bookmark.title.value)
  {
  }

  /** `LinkImage`: the blurred placeholder (optimised) while crawling, else
      the link's image (optimised only as a local asset), else a blank pixel
      (not optimised). */
  function LinkImage(lb: LinkBookmark, stillCrawling: Bookmark<Tag> -> bool,
                     imageOf: LinkContent -> Option<ImageDetails>): (r: CardImage)
    ensures stillCrawling(lb.bookmark) ==> r == CardImage(BlurPlaceholder, false)
    ensures !stillCrawling(lb.bookmark) && imageOf(lb.link).Some? ==>
      r.src == imageOf(lb.link).value.url && (r.unoptimized <==> !imageOf(lb.link).value.localAsset)
    ensures !stillCrawling(lb.bookmark) && imageOf(lb.link).None? ==> r == CardImage(BlankPixel, true)
  {
    var details := imageOf(lb.link);
    if stillCrawling(lb.bookmark) then CardImage(BlurPlaceholder, false)
    else if details.Some? then CardImage(details.value.url, !details.value.localAsset)
    else CardImage(BlankPixel, true)
  }

  /** The image is optimised exactly for the placeholder and for local assets. */
  lemma ImageOptimisedExactly(lb: LinkBookmark, stillCrawling: Bookmark<Tag> -> bool,
                              imageOf: LinkContent -> Option<ImageDetails>)
    ensures !LinkImage(lb, stillCrawling, imageOf).unoptimized
        <==> stillCrawling(lb.bookmark) || (imageOf(lb.link).Some? && imageOf(lb.link).value.localAsset)
  {
  }

  /** `LinkUrl`: the footer shows the host of the link's URL. */
  function LinkUrl(lb: LinkBookmark, parse: UrlParser): (r: Result<string>)
    ensures r.Ok? <==> parse(lb.link.url).Some?
    ensures r.Ok? ==> r.value == parse(lb.link.url).value.host
  {
    match parse(lb.link.url)
    case None => Err(InvalidUrl)
    case Some(u) => Ok(u.host)
  }

  /** The card itself: the type guard throws first; the title and the footer
      both parse the link's URL, so a URL that does not parse makes the card
      throw; otherwise it shows title, footer and image, all linking to the
      bookmark's URL. */
  function RenderLinkCard(b: Bookmark<Tag>, parse: UrlParser, stillCrawling: Bookmark<Tag> -> bool,
                          imageOf: LinkContent -> Option<ImageDetails>): (r: Result<CardView>)
    ensures r.Ok? <==> b.content.Link? && parse(b.content.link.url).Some?
    ensures !b.content.Link? ==> r == Err(InvalidBookmarkType)
    ensures b.content.Link? && parse(b.content.link.url).None? ==> r == Err(InvalidUrl)
    ensures r.Ok? ==>
      var lb := LinkBookmark(b, b.content.link);
      && Ok(r.value.title) == LinkTitle(lb, parse)
      && Ok(r.value.footer) == LinkUrl(lb, parse)
      && r.value.image == LinkImage(lb, stillCrawling, imageOf)
      && r.value.href == b.content.link.url
  {
    match AsLinkBookmark(b)
    case Err(e) => Err(e)
    case Ok(lb) =>
      match LinkTitle(lb, parse)
      case Err(e) => Err(e)
      case Ok(title) =>
        match LinkUrl(lb, parse)
        case Err(e) => Err(e)
        case Ok(host) => Ok(CardView(title, host, LinkImage(lb, stillCrawling, imageOf), lb.link.url))
  }

  /** Without a user or crawled title, a card that renders shows the host
      both as its title and in its footer. */
  lemma TitleFallsBackToFooter(b: Bookmark<Tag>, parse: UrlParser, stillCrawling: Bookmark<Tag> -> bool,
                               imageOf: LinkContent -> Option<ImageDetails>)
    requires b.content.Link? && b.title.None? && b.content.link.title.None?
    requires parse(b.content.link.url).Some?
    ensures RenderLinkCard(b, parse, stillCrawling, imageOf).Ok?
    ensures var v := RenderLinkCard(b, parse, stillCrawling, imageOf).value;
      v.title == v.footer == parse(b.content.link.url).value.host
  {
  }
}
