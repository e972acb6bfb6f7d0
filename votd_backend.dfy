/** The backend's verse-of-the-day service (main.py): `fetch_votd` turns the
    bible.com verse-of-the-day page into a `{citation, passage, images,
    version}` record and keeps it in a class-level cache, and `handle_votd_ws`
    picks the one JSON object the socket sends before it closes.

    The page download (`fetch_data`) is an input: `None` when the request
    failed, otherwise the page text. The regular-expression scans of the page
    and the `json.loads` of its embedded `__NEXT_DATA__` script are inputs as
    well, gathered in a `Scan`. */
module VotdBackend {
  import opened PyText
  import opened Options

  /** The values the backend stores in its dictionaries. */
  datatype JsonValue = Str(s: string) | StrList(items: seq<string>)

  /** A Python dict from string keys; it is truthy when it is non-empty. */
  type Dict = map<string, JsonValue>

  /** What the embedded `__NEXT_DATA__` script yields once decoded:
      `Malformed` when `json.loads` or one of the key/index look-ups raises,
      otherwise the three strings the backend reads from it. */
  datatype NextData =
    | Malformed
    | Fields(content: string, human: string, abbreviation: string)

  /** The results of scanning the page: the `__NEXT_DATA__` match (if any)
      and the lists of verse, citation and image `src` matches, in page order. */
  datatype Scan = Scan(
    nextData: Option<NextData>,
    verseMatches: seq<string>,
    citationMatches: seq<string>,
    imageMatches: seq<string>)

  /** Why `fetch_votd` raised instead of returning. */
  datatype Crash =
    | MalformedNextData   // json.loads, a missing key or an empty `verses` list
    | VersionUnbound      // legacy path without citation matches: `version` never assigned

  /** A call of `fetch_votd` either returns a dict or raises. */
  datatype Outcome = Returned(data: Dict) | Raised(crash: Crash)

  const BibleCom := "https://www.bible.com"
  const RecordKeys: set<string> := {"citation", "passage", "images", "version"}

  /** The one shape of record that `fetch_votd` caches. */
  function Record(citation: string, passage: string, images: seq<string>, version: string): (d: Dict)
    ensures d.Keys == RecordKeys
    ensures d["citation"] == Str(citation) && d["passage"] == Str(passage)
    ensures d["images"] == StrList(images) && d["version"] == Str(version)
  {
    map["citation" := Str(citation), "passage" := Str(passage),
        "images" := StrList(images), "version" := Str(version)]
  }

  /** The absolute URL of every matched image `src`, in match order. */
  function ImageUrls(srcs: seq<string>): (urls: seq<string>)
    ensures |urls| == |srcs|
    ensures forall i :: 0 <= i < |srcs| ==> urls[i] == BibleCom + srcs[i]
  {
    Prefixed(BibleCom, srcs)
  }

  /** The citation the legacy path keeps from one citation match: the
      stripped text without its last six characters (" (VER)"). It is a
      prefix of the stripped text, six characters shorter, or empty. */
  function CitationOf(raw: string): (c: string)
    ensures var t := Strip(raw);
            |c| <= |t| && c == t[..|c|] &&
            (|t| <= 6 ==> c == "") && (|t| > 6 ==> |c| == |t| - 6)
  {
    DropLast(Strip(raw), 6)
  }

  /** The version the legacy path reads from one citation match: the last
      four characters of the stripped text with '(' and ')' removed. It has
      at most four characters and no parenthesis. */
  function VersionOf(raw: string): (v: string)
    ensures |v| <= 4 && '(' !in v && ')' !in v
  {
    var once := RemoveChar(TakeLast(Strip(raw), 4), '(');
    RemoveCharKeepsAbsent(once, ')', '(');
    RemoveChar(once, ')')
  }

  /** A stripped match that ends in " (" + three characters without
      parentheses + ")" is rebuilt exactly from the citation and the version
      the legacy path reads from it: the split loses nothing. */
  lemma {:induction false} CitationAndVersionRebuild(raw: string)
    requires |Strip(raw)| >= 6
    requires var t := Strip(raw);
             t[|t| - 6..|t| - 4] == " (" && t[|t| - 1] == ')' &&
             '(' !in t[|t| - 4..|t| - 1] && ')' !in t[|t| - 4..|t| - 1]
    ensures Strip(raw) == CitationOf(raw) + " (" + VersionOf(raw) + ")"
  {
    var t := Strip(raw);
    var ver := t[|t| - 4..|t| - 1];
    assert TakeLast(t, 4) == ver + ")";
    assert '(' !in ver + ")";
    RemoveAbsentChar(ver + ")", '(');
    RemoveTrailingChar(ver, ')');
    assert VersionOf(raw) == ver;
    assert t == t[..|t| - 6] + " (" + ver + ")";
  }

  /** The version read from one match is the stripped text's last four
      characters whenever those hold no parenthesis. */
  lemma VersionOfShape(raw: string)
    ensures var tail := TakeLast(Strip(raw), 4);
            '(' !in tail && ')' !in tail ==> VersionOf(raw) == tail
  {
    var tail := TakeLast(Strip(raw), 4);
    var once := RemoveChar(tail, '(');
    RemoveCharKeepsAbsent(once, ')', '(');
    if '(' !in tail && ')' !in tail {
      RemoveAbsentChar(tail, '(');
      RemoveAbsentChar(tail, ')');
    }
  }

  /** The passage the legacy path keeps from one verse match: the stripped
      text with every newline turned into a space, so no newline is left. */
  function PassageOf(raw: string): (p: string)
    ensures var t := Strip(raw);
            |p| == |t| && '\n' !in p &&
            forall i :: 0 <= i < |t| ==> p[i] == (if t[i] == '\n' then ' ' else t[i])
  {
    ReplaceCharRemovesAll(Strip(raw), '\n', ' ');
    ReplaceChar(Strip(raw), '\n', ' ')
  }

  /** The record built from the decoded `__NEXT_DATA__` script. */
  function JsonPathRecord(next: NextData, imageMatches: seq<string>): (o: Outcome)
    ensures next.Malformed? <==> o == Raised(MalformedNextData)
    ensures next.Fields? ==>
              o.Returned? && o.data.Keys == RecordKeys &&
              o.data["citation"] == Str(next.human) &&
              o.data["passage"] == Str(ReplaceChar(next.content, '\n', ' ')) &&
              o.data["images"] == StrList(ImageUrls(imageMatches)) &&
              o.data["version"] == Str(next.abbreviation)
  {
    match next
    case Malformed => Raised(MalformedNextData)
    case Fields(content, human, abbreviation) =>
      Returned(Record(human, ReplaceChar(content, '\n', ' '), ImageUrls(imageMatches), abbreviation))
  }

  /** The record built the old way, from the lists of matches. */
  function LegacyRecord(scan: Scan): (o: Outcome)
    ensures scan.citationMatches == [] <==> o == Raised(VersionUnbound)
    ensures var cs, vs := scan.citationMatches, scan.verseMatches;
            cs != [] ==>
              o.Returned? && o.data.Keys == RecordKeys &&
              o.data["citation"] == Str(CitationOf(cs[0])) &&
              o.data["passage"] == Str(if vs == [] then "" else PassageOf(vs[0])) &&
              o.data["images"] == StrList(ImageUrls(scan.imageMatches)) &&
              o.data["version"] == Str(VersionOf(cs[|cs| - 1]))
  {
    var cs := scan.citationMatches;
    var vs := scan.verseMatches;
    if cs == [] then Raised(VersionUnbound)
    else Returned(Record(
      CitationOf(cs[0]),
      if vs == [] then "" else PassageOf(vs[0]),
      ImageUrls(scan.imageMatches),
      VersionOf(cs[|cs| - 1])))
  }

  /** What `fetch_votd` does on an empty cache, given the page download. */
  function Uncached(page: Option<string>, scan: Scan): (o: Outcome)
    ensures (page == None || page == Some("")) ==> o == Returned(map[])
  {
    if page == None || page == Some("") then Returned(map[])
    else if scan.nextData.Some? then JsonPathRecord(scan.nextData.value, scan.imageMatches)
    else LegacyRecord(scan)
  }

  /** The JSON object the socket sends for one outcome of `fetch_votd`. */
  function Reply(o: Outcome): (r: Dict)
    ensures r != map[]
    ensures o.Returned? && o.data != map[] ==> r == o.data
    ensures o.Returned? && o.data == map[] ==> r == map["error" := Str("Failed to fetch data")]
    ensures o.Raised? ==> r == map["error" := Str("Internal error")]
  {
    var failed := map["error" := Str("Failed to fetch data")];
    var internal := map["error" := Str("Internal error")];
    assert "error" in failed && "error" in internal;
    match o
    case Returned(data) => if data != map[] then data else failed
    case Raised(_) => internal
  }

  /** The plugin object; `votdCache` is the class-level `votd_cache`. Python
      shares that attribute among all instances, so the constructor stands
      for the class definition, which sets it to `{}` once. */
  class Plugin {
    var votdCache: Dict

    /** The cache is either empty or one whole record. */
    ghost predicate Valid()
      reads this
    {
      votdCache == map[] || votdCache.Keys == RecordKeys
    }

    constructor ()
      ensures Valid()
      ensures votdCache == map[]
    {
      votdCache := map[];
    }

    /** `fetch_votd`. `fetched` tells whether `fetch_data` was called. */
    method FetchVotd(page: Option<string>, scan: Scan) returns (o: Outcome, fetched: bool)
      requires Valid()
      modifies this
      ensures Valid()
      ensures o.Returned? && o.data != map[] ==> o.data.Keys == RecordKeys
      ensures old(votdCache) != map[] ==>
                o == Returned(old(votdCache)) && !fetched && votdCache == old(votdCache)
      ensures old(votdCache) == map[] ==>
                fetched && o == Uncached(page, scan) &&
                votdCache == (if o.Returned? then o.data else map[])
    {
      if votdCache != map[] {
        return Returned(votdCache), false;
      }
      fetched := true;
      if page == None || page == Some("") {
        return Returned(map[]), fetched;
      }
      match scan.nextData {
        case Some(next) =>
          if next.Malformed? {
            return Raised(MalformedNextData), fetched;
          }
          var passage := ReplaceChar(next.content, '\n', ' ');
          var images := ImageUrls(scan.imageMatches);
          votdCache := Record(next.human, passage, images, next.abbreviation);
          return Returned(votdCache), fetched;
        case None =>
          var citations, version := ProcessCitations(scan.citationMatches);
          var verses := ProcessVerses(scan.verseMatches);
          var images := ImageUrls(scan.imageMatches);
          if version == None {
            return Raised(VersionUnbound), fetched;
          }
          votdCache := Record(
            if citations != [] then citations[0] else "",
            if verses != [] then verses[0] else "",
            images, version.value);
          return Returned(votdCache), fetched;
      }
    }

    /** `handle_votd_ws`: one call of `fetch_votd` and the one JSON reply
        chosen from its outcome. A raise of `fetch_votd` is a value here
        (`Raised`), so no path skips the `finally` and the socket's closing
        is not modelled separately. */
    method HandleVotdWs(page: Option<string>, scan: Scan) returns (reply: Dict)
      requires Valid()
      modifies this
      ensures Valid()
      ensures reply.Keys == RecordKeys || reply.Keys == {"error"}
      ensures old(votdCache) != map[] ==> reply == old(votdCache) && votdCache == old(votdCache)
      ensures old(votdCache) == map[] ==>
                reply == Reply(Uncached(page, scan)) &&
                votdCache == (if Uncached(page, scan).Returned? then Uncached(page, scan).data else map[])
    {
      var o, _ := FetchVotd(page, scan);
      reply := Reply(o);
    }
  }

  /** The citations kept from a list of citation matches, in order. */
  function CitationsOf(matches: seq<string>): (cs: seq<string>)
    ensures |cs| == |matches|
    ensures forall k :: 0 <= k < |matches| ==> cs[k] == CitationOf(matches[k])
  {
    if matches == [] then []
    else CitationsOf(matches[..|matches| - 1]) + [CitationOf(matches[|matches| - 1])]
  }

  /** The legacy loop over the citation matches: one citation per match, in
      order, and the version of the last match processed (`None` when the
      loop body never ran, so `version` stays unbound). */
  method ProcessCitations(matches: seq<string>) returns (citations: seq<string>, version: Option<string>)
    ensures citations == CitationsOf(matches)
    ensures version == if matches == [] then None else Some(VersionOf(matches[|matches| - 1]))
  {
    citations := [];
    version := None;
    var i := 0;
    while i < |matches|
      invariant 0 <= i <= |matches|
      invariant citations == CitationsOf(matches[..i])
      invariant version == if i == 0 then None else Some(VersionOf(matches[i - 1]))
    {
      var raw := matches[i];
      version := Some(VersionOf(raw));
      citations := citations + [CitationOf(raw)];
      assert matches[..i + 1][..i] == matches[..i];
      i := i + 1;
    }
    assert matches[..i] == matches;
  }

  /** The legacy loop over the verse matches: one passage per match, in order,
      stripped and with every newline turned into a space. */
  method ProcessVerses(matches: seq<string>) returns (verses: seq<string>)
    ensures |verses| == |matches|
    ensures forall i :: 0 <= i < |matches| ==> verses[i] == PassageOf(matches[i])
  {
    verses := [];
    var i := 0;
    while i < |matches|
      invariant 0 <= i <= |matches|
      invariant |verses| == i
      invariant forall k :: 0 <= k < i ==> verses[k] == PassageOf(matches[k])
    {
      verses := verses + [PassageOf(matches[i])];
      i := i + 1;
    }
  }

  /** Whenever a fetched page yields a record, it is a non-empty dict with
      exactly the four record keys, so it is cached and sent as it is. */
  lemma RecordWhenFetched(page: Option<string>, scan: Scan)
    requires page.Some? && page.value != ""
    requires scan.nextData.Some? ==> scan.nextData.value.Fields?
    requires scan.nextData.None? ==> scan.citationMatches != []
    ensures Uncached(page, scan).Returned?
    ensures Uncached(page, scan).data.Keys == RecordKeys
    ensures Reply(Uncached(page, scan)) == Uncached(page, scan).data
  {
  }

  /** On the JSON path the cached passage has no newline left. */
  lemma JsonPassageHasNoNewline(next: NextData, imageMatches: seq<string>)
    requires next.Fields?
    ensures var d := JsonPathRecord(next, imageMatches).data;
            d["passage"].Str? && '\n' !in d["passage"].s
  {
    ReplaceCharRemovesAll(next.content, '\n', ' ');
  }

  /** A citation match of the form "<reference> (<VER>)" with a three-letter
      version and no whitespace at the start of the reference is split into
      exactly that reference and version. */
  lemma {:induction false} CitationSplitsThreeLetterVersion(reference: string, ver: string)
    requires |ver| == 3 && '(' !in ver && ')' !in ver
    requires reference != [] && !IsSpace(reference[0])
    ensures var raw := reference + " (" + ver + ")";
            CitationOf(raw) == reference && VersionOf(raw) == ver
  {
    var raw := reference + " (" + ver + ")";
    assert raw[0] == reference[0] && raw[|raw| - 1] == ')';
    StripTrimmed(raw);
    assert TakeLast(raw, 4) == ver + ")";
    assert DropLast(raw, 6) == reference;
    assert '(' !in ver + ")";
    RemoveAbsentChar(ver + ")", '(');
    RemoveTrailingChar(ver, ')');
  }

  /** The split assumes a three-letter version: with a four-letter one such
      as "NKJV" the citation keeps a trailing space and the version loses its
      first letter. */
  lemma {:induction false} CitationSplitsFourLetterVersion(reference: string, ver: string)
    requires |ver| == 4 && '(' !in ver && ')' !in ver
    requires reference != [] && !IsSpace(reference[0])
    ensures var raw := reference + " (" + ver + ")";
            CitationOf(raw) == reference + " " && VersionOf(raw) == ver[1..]
  {
    var raw := reference + " (" + ver + ")";
    assert raw[0] == reference[0] && raw[|raw| - 1] == ')';
    StripTrimmed(raw);
    assert TakeLast(raw, 4) == ver[1..] + ")";
    assert DropLast(raw, 6) == reference + " ";
    assert '(' !in ver[1..] + ")";
    RemoveAbsentChar(ver[1..] + ")", '(');
    RemoveTrailingChar(ver[1..], ')');
  }

  /** Two socket requests on a fresh plugin: once the first has cached a
      record, the second is served that record without a fetch; a failed
      first fetch leaves the cache empty, so the second fetches again. */
  method TwoRequests(page1: Option<string>, scan1: Scan, page2: Option<string>, scan2: Scan)
    returns (reply1: Dict, reply2: Dict, fetched2: bool)
    ensures reply1 == Reply(Uncached(page1, scan1))
    ensures (page1 == None || page1 == Some("")) ==>
              reply1 == map["error" := Str("Failed to fetch data")] && fetched2
    ensures Uncached(page1, scan1).Returned? && (page1.Some? && page1.value != "") ==>
              reply2 == reply1 && !fetched2
    ensures Uncached(page1, scan1).Raised? ==> fetched2 && reply2 == Reply(Uncached(page2, scan2))
  {
    var plugin := new Plugin();
    reply1 := plugin.HandleVotdWs(page1, scan1);
    var o;
    o, fetched2 := plugin.FetchVotd(page2, scan2);
    reply2 := Reply(o);
    if Uncached(page1, scan1).Returned? && page1.Some? && page1.value != "" {
      RecordWhenFetched(page1, scan1);
    }
  }
}
