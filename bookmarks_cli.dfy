/** The `bookmarks` command of the command-line client: option accumulation,
    the normalised form in which bookmarks are printed, the requests built by
    `add`, `update` and `list`, and the cursor loop that aggregates `list`. */
module BookmarksCli {
  import opened Wrappers
  import opened BookmarkTypes

  // ---------------------------------------------------------------------
  // Repeated options

  /** `collect`: the accumulator given to the option parser for repeated
      flags; it appends the new value to what was collected before. */
  function Collect<T>(val: T, acc: seq<T>): (r: seq<T>)
    ensures |r| == |acc| + 1
    ensures r[..|acc|] == acc
    ensures r[|acc|] == val
  {
    acc + [val]
  }

  /** What the option parser does with the occurrences `vals` of a repeated
      flag, starting from the collected values `acc`. */
  function CollectAll<T>(vals: seq<T>, acc: seq<T>): seq<T>
    decreases |vals|
  {
    if |vals| == 0 then acc else CollectAll(vals[1..], Collect(vals[0], acc))
  }

  /** Starting from the default `[]`, a repeated flag yields its values in the
      order they were given. */
  lemma {:induction false} CollectAllInOrder<T>(vals: seq<T>, acc: seq<T>)
    ensures CollectAll(vals, acc) == acc + vals
    decreases |vals|
  {
    if |vals| > 0 {
      CollectAllInOrder(vals[1..], Collect(vals[0], acc));
      assert acc + [vals[0]] + vals[1..] == acc + vals;
    }
  }

  // ---------------------------------------------------------------------
  // Normalisation for printing

  const CropLength: nat := 10
  const CropMarker: string := "... <CROPPED>"

  /** A link's HTML content as printed: the first ten characters followed by
      the crop marker when it is longer than ten characters, else unchanged. */
  function CropHtml(html: Option<string>): (r: Option<string>)
    ensures r.Some? <==> html.Some?
    ensures html.Some? && |html.value| <= CropLength ==> r == html
    ensures html.Some? ==> |r.value| <= CropLength + |CropMarker|
    ensures html.Some? && |html.value| > CropLength ==>
      |r.value| == CropLength + |CropMarker| &&
      r.value[..CropLength] == html.value[..CropLength] && r.value[CropLength..] == CropMarker
  {
    // `htmlContent` is tested for truthiness first; the empty string it
    // rules out is no longer than ten characters either way.
    if html.Some? && html.value != "" && |html.value| > CropLength
    then Some(html.value[..CropLength] + CropMarker)
    else html
  }

  /** Only link content is cropped. */
  function CropContent(c: Content): (r: Content)
    ensures !c.Link? ==> r == c
    ensures c.Link? ==> r.Link? && r.link == c.link.(htmlContent := CropHtml(c.link.htmlContent))
  {
    match c
    case Link(link) => Link(link.(htmlContent := CropHtml(link.htmlContent)))
    case _ => c
  }

  /** Cropping an already cropped content changes nothing. */
  lemma CropIdempotent(c: Content)
    ensures CropContent(CropContent(c)) == CropContent(c)
  {
    if c.Link? && c.link.htmlContent.Some? && |c.link.htmlContent.value| > CropLength {
      var h := c.link.htmlContent.value;
      var once := h[..CropLength] + CropMarker;
      assert once[..CropLength] == h[..CropLength];
    }
  }

  /** The names of the tags, in order. */
  function TagNames(tags: seq<Tag>): (r: seq<string>)
    ensures |r| == |tags|
    ensures forall i :: 0 <= i < |tags| ==> r[i] == tags[i].name
  {
    if |tags| == 0 then [] else TagNames(tags[..|tags| - 1]) + [tags[|tags| - 1].name]
  }

  /** `normalizeBookmark`: tags become their names, link HTML is cropped, and
      every other field is as it was. */
  function NormalizeBookmark(b: Bookmark<Tag>): (r: Bookmark<string>)
    ensures |r.tags| == |b.tags| && forall i :: 0 <= i < |b.tags| ==> r.tags[i] == b.tags[i].name
    ensures r.content == CropContent(b.content)
    ensures r.id == b.id && r.createdAt == b.createdAt && r.title == b.title
    ensures r.archived == b.archived && r.favourited == b.favourited && r.note == b.note
  {
    Bookmark(b.id, b.createdAt, b.title, b.archived, b.favourited, b.note,
             TagNames(b.tags), CropContent(b.content))
  }

  /** The shallow copy lets `normalizeBookmark` crop the caller's content in
      place; normalising that bookmark a second time prints the same content. */
  lemma NormalizeTwice(b: Bookmark<Tag>)
    ensures NormalizeBookmark(b.(content := NormalizeBookmark(b).content)) == NormalizeBookmark(b)
  {
    CropIdempotent(b.content);
  }

  /** Every bookmark of a listing, normalised, in order. */
  function NormalizeAll(bs: seq<Bookmark<Tag>>): (r: seq<Bookmark<string>>)
    ensures |r| == |bs|
    ensures forall i :: 0 <= i < |bs| ==> r[i] == NormalizeBookmark(bs[i])
  {
    if |bs| == 0 then [] else NormalizeAll(bs[..|bs| - 1]) + [NormalizeBookmark(bs[|bs| - 1])]
  }

  // ---------------------------------------------------------------------
  // bookmarks add

  datatype AddOptions = AddOptions(link: seq<string>, note: seq<string>, stdin: bool)

  /** The outcome of one create call, as `Promise.allSettled` reports it;
      `reason` is the rejection's string form. */
  datatype Settled = Fulfilled(value: Bookmark<Tag>) | Rejected(reason: string)

  /** One printed line. */
  datatype OutputLine = BookmarkLine(bookmark: Bookmark<string>) | ErrorLine(message: string)

  function LinkCreates(urls: seq<string>): (r: seq<CreateRequest>)
    ensures |r| == |urls|
    ensures forall i :: 0 <= i < |urls| ==> r[i] == CreateLink(urls[i])
  {
    if |urls| == 0 then [] else LinkCreates(urls[..|urls| - 1]) + [CreateLink(urls[|urls| - 1])]
  }

  function TextCreates(texts: seq<string>): (r: seq<CreateRequest>)
    ensures |r| == |texts|
    ensures forall i :: 0 <= i < |texts| ==> r[i] == CreateText(texts[i])
  {
    if |texts| == 0 then [] else TextCreates(texts[..|texts| - 1]) + [CreateText(texts[|texts| - 1])]
  }

  /** The create calls of `add`, in order: every `--link`, then every
      `--note`, then the text read from standard input when `--stdin` is set. */
  function AddRequests(opts: AddOptions, stdinText: string): (r: seq<CreateRequest>)
    ensures |r| == |opts.link| + |opts.note| + (if opts.stdin then 1 else 0)
    ensures forall i :: 0 <= i < |opts.link| ==> r[i] == CreateLink(opts.link[i])
    ensures forall j :: 0 <= j < |opts.note| ==> r[|opts.link| + j] == CreateText(opts.note[j])
    ensures opts.stdin ==> r[|r| - 1] == CreateText(stdinText)
  {
    LinkCreates(opts.link) + TextCreates(opts.note) + (if opts.stdin then [CreateText(stdinText)] else [])
  }

  /** The line printed for one settled create. */
  function ReportLine(res: Settled): (line: OutputLine)
    ensures line.BookmarkLine? <==> res.Fulfilled?
    ensures res.Fulfilled? ==> line.bookmark == NormalizeBookmark(res.value)
    ensures res.Rejected? ==> line.message == "Error: " + res.reason
  {
    match res
    case Fulfilled(b) => BookmarkLine(NormalizeBookmark(b))
    case Rejected(reason) => ErrorLine("Error: " + reason)
  }

  /** The loop over the settled results: one line per result, in order, a
      rejection never hiding any other line. */
  method ReportResults(results: seq<Settled>) returns (lines: seq<OutputLine>)
    ensures |lines| == |results|
    ensures forall i :: 0 <= i < |results| ==> lines[i] == ReportLine(results[i])
  {
    lines := [];
    for i := 0 to |results|
      invariant |lines| == i
      invariant forall k :: 0 <= k < i ==> lines[k] == ReportLine(results[k])
    {
      lines := lines + [ReportLine(results[i])];
    }
  }

  /** `bookmarks add`: the requests issued and the lines printed, given the
      settled outcome of each request (same order as the requests). */
  method Add(opts: AddOptions, stdinText: string, responses: seq<Settled>)
    returns (requests: seq<CreateRequest>, lines: seq<OutputLine>)
    requires |responses| == |opts.link| + |opts.note| + (if opts.stdin then 1 else 0)
    ensures requests == AddRequests(opts, stdinText)
    ensures |lines| == |requests|
    ensures forall i :: 0 <= i < |requests| ==> lines[i] == ReportLine(responses[i])
  {
    requests := AddRequests(opts, stdinText);
    lines := ReportResults(responses);
  }

  // ---------------------------------------------------------------------
  // bookmarks update

  datatype UpdateOptions = UpdateOptions(
    title: Option<string>, note: Option<string>, archive: Option<bool>, favourite: Option<bool>)

  datatype UpdateRequest = UpdateRequest(
    bookmarkId: string, archived: Option<bool>, favourited: Option<bool>, title: Option<string>)

  /** The payload of `update`: the id and the flags given; `--note` is
      accepted by the parser but never sent. */
  function UpdatePayload(id: string, opts: UpdateOptions): (r: UpdateRequest)
    ensures r.bookmarkId == id
    ensures r.archived == opts.archive && r.favourited == opts.favourite && r.title == opts.title
  {
    UpdateRequest(id, opts.archive, opts.favourite, opts.title)
  }

  /** Two option sets give the same payload exactly when they agree on the
      title and the two flags, whatever their notes. */
  lemma UpdatePayloadForwards(id: string, a: UpdateOptions, b: UpdateOptions)
    ensures UpdatePayload(id, a) == UpdatePayload(id, b)
        <==> a.title == b.title && a.archive == b.archive && a.favourite == b.favourite
  {
  }

  // ---------------------------------------------------------------------
  // bookmarks list

  datatype ListOptions = ListOptions(includeArchived: bool, listId: Option<string>)

  /** The argument of the list call; the cursor type `C` is opaque. */
  datatype ListRequest<C> = ListRequest(
    archived: Option<bool>, listId: Option<string>, limit: nat, cursor: Option<C>)

  /** One response of the list call. */
  datatype Page<C> = Page(bookmarks: seq<Bookmark<Tag>>, nextCursor: Option<C>)

  /** The first request: archived bookmarks are excluded unless asked for, in
      which case the filter is left unset; the page size is `limit`. */
  function BaseListRequest<C>(opts: ListOptions, limit: nat): (r: ListRequest<C>)
    ensures r.archived == None <==> opts.includeArchived
    ensures r.archived != Some(true)
    ensures r.listId == opts.listId && r.limit == limit && r.cursor == None
  {
    ListRequest(if opts.includeArchived then None else Some(false), opts.listId, limit, None)
  }

  /** The pages the service answers, in order, end with a page without cursor. */
  predicate EndsWithoutCursor<C>(pages: seq<Page<C>>) {
    |pages| > 0 && pages[|pages| - 1].nextCursor.None?
  }

  /** The index of the first page without a cursor. */
  function LastPageIndex<C>(pages: seq<Page<C>>): (n: nat)
    requires EndsWithoutCursor(pages)
    ensures n < |pages| && pages[n].nextCursor.None?
    ensures forall k :: 0 <= k < n ==> pages[k].nextCursor.Some?
  {
    if pages[0].nextCursor.None? then 0 else 1 + LastPageIndex(pages[1..])
  }

  /** The bookmarks of the pages, concatenated in response order. */
  function Concat<C>(pages: seq<Page<C>>): seq<Bookmark<Tag>> {
    if |pages| == 0 then [] else Concat(pages[..|pages| - 1]) + pages[|pages| - 1].bookmarks
  }

  /** Concatenation distributes over consecutive runs of pages. */
  lemma {:induction false} ConcatAppend<C>(ps: seq<Page<C>>, qs: seq<Page<C>>)
    ensures Concat(ps + qs) == Concat(ps) + Concat(qs)
    decreases |qs|
  {
    if |qs| == 0 {
      assert ps + qs == ps;
    } else {
      var init := qs[..|qs| - 1];
      var last := qs[|qs| - 1];
      ConcatAppend(ps, init);
      var all := ps + qs;
      assert all[..|all| - 1] == ps + init && all[|all| - 1] == last;
      assert Concat(all) == Concat(ps + init) + last.bookmarks;
      assert Concat(qs) == Concat(init) + last.bookmarks;
      assert Concat(ps + init) + last.bookmarks == Concat(ps) + (Concat(init) + last.bookmarks);
    }
  }

  /** Total number of bookmarks on the pages. */
  function ItemCount<C>(pages: seq<Page<C>>): nat {
    if |pages| == 0 then 0 else ItemCount(pages[..|pages| - 1]) + |pages[|pages| - 1].bookmarks|
  }

  lemma {:induction false} ConcatLength<C>(pages: seq<Page<C>>)
    ensures |Concat(pages)| == ItemCount(pages)
  {
    if |pages| > 0 {
      ConcatLength(pages[..|pages| - 1]);
    }
  }

  /** The `list` action: the first request has no cursor, every later one
      repeats the filter with the previous page's cursor, and the loop stops at
      the first page without a cursor, one request per page. The service is
      `pages`: its k-th answer is `pages[k]`. */
  method ListAll<C>(opts: ListOptions, limit: nat, pages: seq<Page<C>>)
    returns (results: seq<Bookmark<Tag>>, requests: seq<ListRequest<C>>)
    requires EndsWithoutCursor(pages)
    ensures |requests| == LastPageIndex(pages) + 1
    ensures results == Concat(pages[..|requests|])
    ensures requests[0] == BaseListRequest(opts, limit)
    ensures forall k :: 1 <= k < |requests| ==>
      requests[k] == BaseListRequest(opts, limit).(cursor := pages[k - 1].nextCursor)
    ensures forall k :: 1 <= k < |requests| ==> requests[k].cursor.Some?
  {
    ghost var n := LastPageIndex(pages);
    var request := BaseListRequest(opts, limit);
    requests := [request];
    var k := 0;
    var resp := pages[0];
    results := resp.bookmarks;
    assert pages[..1] == [pages[0]];
    while resp.nextCursor.Some?
      invariant 0 <= k <= n
      invariant resp == pages[k]
      invariant |requests| == k + 1
      invariant results == Concat(pages[..k + 1])
      invariant requests[0] == request
      invariant forall j :: 1 <= j < |requests| ==> requests[j] == request.(cursor := pages[j - 1].nextCursor)
      decreases n - k
    {
      requests := requests + [request.(cursor := resp.nextCursor)];
      k := k + 1;
      resp := pages[k];
      assert pages[..k + 1][..k] == pages[..k];
      results := results + resp.bookmarks;
    }
  }

  /** Two pages of 20 and 5 bookmarks give 25 bookmarks from 2 requests. */
  lemma TwoPagesScenario<C>(p1: Page<C>, p2: Page<C>)
    requires |p1.bookmarks| == 20 && p1.nextCursor.Some?
    requires |p2.bookmarks| == 5 && p2.nextCursor.None?
    ensures LastPageIndex([p1, p2]) + 1 == 2
    ensures |Concat([p1, p2][..2])| == 25
  {
    assert [p1, p2][1..] == [p2];
    assert [p1, p2][..2] == [p1, p2];
    assert [p1, p2][..1] == [p1];
    assert [p1][..0] == [];
    assert Concat([p1]) == p1.bookmarks;
    assert Concat([p1, p2]) == p1.bookmarks + p2.bookmarks;
  }
}
