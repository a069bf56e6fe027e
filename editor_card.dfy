/** The "new item" card of the web dashboard: it classifies the submitted text
    as a note, a single link, or several links awaiting the user's choice, and
    issues the create requests that follow from that choice. */
module EditorCard {
  import opened Wrappers
  import opened JsStrings
  import opened BookmarkTypes

  /** The choice pending while the dialog asks what to do with several URLs. */
  datatype MultiUrlImportState = MultiUrlImportState(urls: seq<Url>, text: string)

  /** The answer of a create request that succeeded. */
  datatype CreateResponse = CreateResponse(id: string, alreadyExists: bool)

  /** The toasts the card raises. */
  datatype Notice = AlreadyExists(bookmarkId: string) | SomethingWentWrong

  /** Outcome of classifying the trimmed text. */
  datatype Classification = TextNote | SingleLink | MultipleUrls(urls: seq<Url>)

  predicate IsWebUrl(u: Url) {
    u.protocol == "http:" || u.protocol == "https:"
  }

  /** A line is accepted when it parses and its protocol is http or https. */
  predicate AcceptsLine(parse: UrlParser, line: string) {
    parse(line).Some? && IsWebUrl(parse(line).value)
  }

  /** The parsed URLs of all lines, in line order, or `None` as soon as one
      line is not accepted. */
  function ParseLines(lines: seq<string>, parse: UrlParser): (r: Option<seq<Url>>)
    ensures r.Some? <==> forall i :: 0 <= i < |lines| ==> AcceptsLine(parse, lines[i])
    ensures r.Some? ==> |r.value| == |lines|
    ensures r.Some? ==> forall i :: 0 <= i < |lines| ==> r.value[i] == parse(lines[i]).value
  {
    if |lines| == 0 then Some([])
    else
      match ParseLines(lines[..|lines| - 1], parse)
      case None => None
      case Some(urls) =>
        var u := parse(lines[|lines| - 1]);
        if u.Some? && IsWebUrl(u.value) then Some(urls + [u.value]) else None
  }

  /** The classification `tryToImportUrls` makes of the (trimmed) text. */
  function Classify(text: string, parse: UrlParser): (c: Classification)
    ensures c == SingleLink ==> '\n' !in text
    ensures c.MultipleUrls? ==> '\n' in text && |c.urls| == |Split(text, '\n')| >= 2
  {
    match ParseLines(Split(text, '\n'), parse)
    case None => TextNote
    case Some(urls) => if |urls| == 1 then SingleLink else MultipleUrls(urls)
  }

  /** One link create per URL, in order, each with the URL's serialisation. */
  function SeparateRequests(urls: seq<Url>): (r: seq<CreateRequest>)
    ensures |r| == |urls|
    ensures forall i :: 0 <= i < |urls| ==> r[i] == CreateLink(urls[i].href)
  {
    if |urls| == 0 then [] else SeparateRequests(urls[..|urls| - 1]) + [CreateLink(urls[|urls| - 1].href)]
  }

  /** Text is a note exactly when some line fails to parse or is not http(s). */
  lemma ClassifyTextNote(text: string, parse: UrlParser)
    ensures Classify(text, parse) == TextNote
        <==> exists i :: 0 <= i < |Split(text, '\n')| && !AcceptsLine(parse, Split(text, '\n')[i])
  {
    var lines := Split(text, '\n');
    if Classify(text, parse) == TextNote {
      assert !(forall i :: 0 <= i < |lines| ==> AcceptsLine(parse, lines[i]));
      var i :| 0 <= i < |lines| && !AcceptsLine(parse, lines[i]);
      assert 0 <= i < |Split(text, '\n')| && !AcceptsLine(parse, Split(text, '\n')[i]);
    }
  }

  /** Text is a single link exactly when it is one line and that line parses
      as an http(s) URL; the line is then the text itself. */
  lemma ClassifySingleLink(text: string, parse: UrlParser)
    ensures Classify(text, parse) == SingleLink <==> '\n' !in text && AcceptsLine(parse, text)
  {
    if '\n' !in text {
      SplitWithoutSeparator(text, '\n');
    }
  }

  /** Text asks the user exactly when it has several lines and all of them are
      http(s) URLs; the pending URLs are the parsed lines, one per line. */
  lemma ClassifyMultipleUrls(text: string, parse: UrlParser)
    ensures Classify(text, parse).MultipleUrls?
        <==> '\n' in text && forall i :: 0 <= i < |Split(text, '\n')| ==> AcceptsLine(parse, Split(text, '\n')[i])
    ensures Classify(text, parse).MultipleUrls? ==>
      var lines := Split(text, '\n');
      var urls := Classify(text, parse).urls;
      && |urls| == |lines| >= 2
      && forall i :: 0 <= i < |lines| ==> urls[i] == parse(lines[i]).value
  {
    var lines := Split(text, '\n');
    var r := ParseLines(lines, parse);
    var c := Classify(text, parse);
    assert c == (match r case None => TextNote case Some(urls) => if |urls| == 1 then SingleLink else MultipleUrls(urls));
    assert |lines| >= 1;
    assert |lines| == 1 <==> '\n' !in text;
  }

  /** A line made only of C0 control characters and spaces (the empty line
      included); the URL parser strips such characters from both ends. */
  predicate IsBlankLine(line: string) {
    forall k :: 0 <= k < |line| ==> line[k] <= ' '
  }

  /** Under the URL standard a blank line never parses: once stripped it is
      empty and there is no base URL. So empty input and input with a blank
      line are notes. */
  lemma BlankLineIsTextNote(text: string, parse: UrlParser)
    requires forall line :: IsBlankLine(line) ==> parse(line) == None
    requires exists i :: 0 <= i < |Split(text, '\n')| && IsBlankLine(Split(text, '\n')[i])
    ensures Classify(text, parse) == TextNote
  {
    var lines := Split(text, '\n');
    var i :| 0 <= i < |lines| && IsBlankLine(lines[i]);
    assert !AcceptsLine(parse, lines[i]);
  }

  /** Empty input is a note. */
  lemma EmptyTextIsTextNote(parse: UrlParser)
    requires forall line :: IsBlankLine(line) ==> parse(line) == None
    ensures Classify("", parse) == TextNote
  {
    assert Split("", '\n') == [""];
    assert IsBlankLine(Split("", '\n')[0]);
    BlankLineIsTextNote("", parse);
  }

  /** Two http(s) lines give a pending choice holding both parsed URLs. */
  lemma TwoUrlsAskTheUser(a: string, b: string, ua: Url, ub: Url, parse: UrlParser)
    requires '\n' !in a && '\n' !in b
    requires parse(a) == Some(ua) && parse(b) == Some(ub)
    requires IsWebUrl(ua) && IsWebUrl(ub)
    ensures Classify(a + "\n" + b, parse) == MultipleUrls([ua, ub])
  {
    assert Join([a, b], '\n') == a + "\n" + b;
    SplitJoin([a, b], '\n');
  }

  /** The card's mutable state: the text field, the pending multi-URL choice,
      the create requests issued so far, and the toasts raised so far. */
  class Editor {
    const parseUrl: UrlParser
    var input: string
    var pending: Option<MultiUrlImportState>
    var requests: seq<CreateRequest>
    var notices: seq<Notice>

    /** A pending choice always holds what classifying its text produced. */
    ghost predicate Valid()
      reads this
    {
      pending.Some? ==> Classify(pending.value.text, parseUrl) == MultipleUrls(pending.value.urls)
    }

    constructor (parseUrl: UrlParser)
      ensures Valid()
      ensures this.parseUrl == parseUrl
      ensures input == "" && pending == None && requests == [] && notices == []
    {
      this.parseUrl := parseUrl;
      input := "";
      pending := None;
      requests := [];
      notices := [];
    }

    /** The user edits the text field. */
    method SetInput(s: string)
      requires Valid()
      modifies this`input
      ensures Valid() && input == s
    {
      input := s;
    }

    /** `tryToImportUrls`: returns `true` where the source throws, having
        changed nothing; otherwise issues the single link create or records
        the pending choice. */
    method TryToImportUrls(text: string) returns (threw: bool)
      requires Valid()
      modifies this`pending, this`requests
      ensures Valid()
      ensures threw <==> Classify(text, parseUrl) == TextNote
      ensures threw ==> pending == old(pending) && requests == old(requests)
      ensures Classify(text, parseUrl) == SingleLink ==>
        pending == old(pending) && requests == old(requests) + [CreateLink(text)]
      ensures Classify(text, parseUrl).MultipleUrls? ==>
        requests == old(requests) && pending == Some(MultiUrlImportState(Classify(text, parseUrl).urls, text))
    {
      var lines := Split(text, '\n');
      var urls: seq<Url> := [];
      var i := 0;
      while i < |lines|
        invariant 0 <= i <= |lines|
        invariant ParseLines(lines[..i], parseUrl) == Some(urls)
      {
        assert lines[..i + 1][..i] == lines[..i];
        var url := parseUrl(lines[i]);
        if url.None? || !IsWebUrl(url.value) {
          return true;
        }
        urls := urls + [url.value];
        i := i + 1;
      }
      assert lines[..i] == lines;
      if |urls| == 1 {
        requests := requests + [CreateLink(text)];
        return false;
      }
      pending := Some(MultiUrlImportState(urls, text));
      return false;
    }

    /** `onSubmit`: trims the field and imports it, falling back to one text
        create of the whole trimmed text where the import throws. */
    method Submit()
      requires Valid()
      modifies this`pending, this`requests
      ensures Valid()
      ensures var text := Trim(input);
        match Classify(text, parseUrl)
        case TextNote => pending == old(pending) && requests == old(requests) + [CreateText(text)]
        case SingleLink => pending == old(pending) && requests == old(requests) + [CreateLink(text)]
        case MultipleUrls(urls) => pending == Some(MultiUrlImportState(urls, text)) && requests == old(requests)
    {
      var text := Trim(input);
      var threw := TryToImportUrls(text);
      if threw {
        requests := requests + [CreateText(text)];
      }
    }

    /** The dialog's `onOpenChange`: closing it drops the pending choice. */
    method OnOpenChange(open: bool)
      requires Valid()
      modifies this`pending
      ensures Valid()
      ensures pending == if open then old(pending) else None
    {
      if !open {
        pending := None;
      }
    }

    /** "Import as Text Bookmark": one text create of the stored text. */
    method ImportAsText()
      requires Valid() && pending.Some?
      modifies this`pending, this`requests
      ensures Valid()
      ensures requests == old(requests) + [CreateText(old(pending).value.text)]
      ensures pending == None
    {
      requests := requests + [CreateText(pending.value.text)];
      pending := None;
    }

    /** "Import as separate Bookmarks": one link create per stored URL, in
        order, each with the URL's serialisation; as the stored URLs are the
        parsed lines of the stored text, that is one create per line, and at
        least two. */
    method ImportAsSeparate()
      requires Valid() && pending.Some?
      modifies this`pending, this`requests
      ensures Valid()
      ensures requests == old(requests) + SeparateRequests(old(pending).value.urls)
      ensures |requests| == |old(requests)| + |Split(old(pending).value.text, '\n')| >= |old(requests)| + 2
      ensures pending == None
    {
      ghost var stored := pending.value;
      assert |stored.urls| == |Split(stored.text, '\n')| >= 2;
      requests := AppendSeparate(requests, pending.value.urls);
      pending := None;
    }

    /** A create succeeded: a notice if the bookmark already existed, and the
        text field is reset to its default, the empty string. */
    method OnSuccess(resp: CreateResponse)
      requires Valid()
      modifies this`input, this`notices
      ensures Valid()
      ensures input == ""
      ensures notices == old(notices) + (if resp.alreadyExists then [AlreadyExists(resp.id)] else [])
    {
      if resp.alreadyExists {
        notices := notices + [AlreadyExists(resp.id)];
      }
      input := "";
    }

    /** A create failed: only an error notice; the text field is kept. */
    method OnError()
      requires Valid()
      modifies this`notices
      ensures Valid()
      ensures notices == old(notices) + [SomethingWentWrong]
    {
      notices := notices + [SomethingWentWrong];
    }
  }

  /** The `forEach` of "Import as separate Bookmarks": appends one link
      create per URL to the log, in order. */
  method AppendSeparate(log: seq<CreateRequest>, urls: seq<Url>) returns (r: seq<CreateRequest>)
    ensures r == log + SeparateRequests(urls)
  {
    r := log;
    var i := 0;
    while i < |urls|
      invariant 0 <= i <= |urls|
      invariant r == log + SeparateRequests(urls[..i])
    {
      assert urls[..i + 1][..i] == urls[..i];
      r := r + [CreateLink(urls[i].href)];
      i := i + 1;
    }
    assert urls[..i] == urls;
  }
}
