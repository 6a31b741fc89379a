/** `components/ui_utils.py`: the link from a Neo4j connection URI to the Neo4j
    Browser, and the Markdown rendering of a metadata dictionary. */
module UiUtils {
  import opened Wrappers
  import opened Text

  // ---------------------------------------------------------------------------
  // `get_neo4j_url_from_uri`

  /** The two fields of `urlparse(uri)` that are read: the (lower-cased) scheme and
      the host name, `None` when the URI has none. */
  datatype ParsedUri = ParsedUri(scheme: string, hostname: Option<string>)

  /** How an f-string shows the host name: `None` prints as `None`. */
  function HostText(h: Option<string>): string {
    match h
    case Some(name) => name
    case None => "None"
  }

  /** The Browser's HTTP port for a URI scheme. */
  function BrowserPort(scheme: string): (port: string)
    ensures |port| == 4
    ensures port == "7474" <==> scheme == "neo4j"
    ensures port != "7474" ==> port == "7473"
  {
    if scheme == "neo4j" then "7474" else "7473"
  }

  /** `get_neo4j_url_from_uri`. */
  function BrowserUrl(p: ParsedUri): (url: string)
    ensures StartsWith(url, "http://") && EndsWith(url, "/browser/")
  {
    "http://" + HostText(p.hostname) + ":" + BrowserPort(p.scheme) + "/browser/"
  }

  /** The host and the port written in a Browser URL: what lies between `http://`
      and the last 14 characters, and the four digits after the colon. */
  function ReadBrowserUrl(url: string): (hostAndPort: (string, string))
    requires |url| >= 7 + 14
  {
    (url[7..|url| - 14], url[|url| - 13..|url| - 9])
  }

  /** The URL carries the host and the port: reading it back gives both. */
  lemma BrowserUrlReadsBack(p: ParsedUri)
    ensures |BrowserUrl(p)| >= 7 + 14
    ensures ReadBrowserUrl(BrowserUrl(p)) == (HostText(p.hostname), BrowserPort(p.scheme))
  {
    var host, port := HostText(p.hostname), BrowserPort(p.scheme);
    var url := BrowserUrl(p);
    assert url == "http://" + host + (":" + port + "/browser/");
    assert url[7..|url| - 14] == host;
    assert url[|url| - 13..|url| - 9] == port;
  }

  /** So two URIs get the same Browser URL exactly when they have the same host
      text and agree on whether the scheme is `neo4j`. */
  lemma BrowserUrlInjective(p: ParsedUri, q: ParsedUri)
    ensures BrowserUrl(p) == BrowserUrl(q) <==>
      HostText(p.hostname) == HostText(q.hostname) && (p.scheme == "neo4j" <==> q.scheme == "neo4j")
  {
    BrowserUrlReadsBack(p);
    BrowserUrlReadsBack(q);
  }

  /** Only the plain `neo4j` scheme gets port 7474: `bolt` and the encrypted
      `neo4j+s` get 7473. */
  lemma OtherSchemesUse7473()
    ensures BrowserPort("bolt") == "7473" && BrowserPort("neo4j+s") == "7473"
    ensures BrowserPort("neo4j") == "7474"
  {
    assert "neo4j+s" != "neo4j" by { assert |"neo4j+s"| != |"neo4j"|; }
    assert "bolt" != "neo4j" by { assert |"bolt"| != |"neo4j"|; }
  }

  // ---------------------------------------------------------------------------
  // `format_metadata`

  /** A metadata value: a list, already rendered item by item with `str`, or any
      other value, already rendered with `str`. */
  datatype MetaValue = Items(items: seq<string>) | Scalar(text: string)

  /** A metadata dictionary, in insertion order. */
  type Metadata = seq<(string, MetaValue)>

  /** The shown part of a list: its first three items. */
  function FirstThree(items: seq<string>): (shown: seq<string>)
    ensures |shown| <= 3 && |shown| <= |items| && shown == items[..|shown|]
    ensures |items| >= 3 ==> |shown| == 3
    ensures |items| < 3 ==> shown == items
  {
    if |items| <= 3 then items else items[..3]
  }

  /** The line of one entry. */
  function MetadataLine(key: string, v: MetaValue): string {
    match v
    case Items(items) => "**" + key + "**: " + Join(FirstThree(items), ", ") + "..."
    case Scalar(text) => "**" + key + "**: " + text
  }

  function MetadataLines(m: Metadata): (lines: seq<string>)
    ensures |lines| == |m|
    ensures forall k :: 0 <= k < |m| ==> lines[k] == MetadataLine(m[k].0, m[k].1)
  {
    if m == [] then [] else MetadataLines(m[..|m| - 1]) + [MetadataLine(m[|m| - 1].0, m[|m| - 1].1)]
  }

  /** `format_metadata`: a falsy argument (`None` or an empty dictionary) gives the
      empty string, anything else one line per entry. */
  function FormattedMetadata(metadata: Option<Metadata>): string {
    if metadata.None? || metadata.value == [] then ""
    else Join(MetadataLines(metadata.value), "\n")
  }

  method FormatMetadata(metadata: Option<Metadata>) returns (r: string)
    ensures r == FormattedMetadata(metadata)
  {
    if metadata.None? || metadata.value == [] {
      return "";
    }
    var m := metadata.value;
    var formatted: seq<string> := [];
    for i := 0 to |m|
      invariant formatted == MetadataLines(m[..i])
    {
      assert m[..i + 1][..i] == m[..i];
      var (key, value) := m[i];
      if value.Items? {
        formatted := formatted + ["**" + key + "**: " + Join(FirstThree(value.items), ", ") + "..."];
      } else {
        formatted := formatted + ["**" + key + "**: " + value.text];
      }
    }
    assert m[..|m|] == m;
    r := Join(formatted, "\n");
  }

  /** No key and no rendered value holds a line break. */
  predicate SingleLine(m: Metadata) {
    forall k :: 0 <= k < |m| ==>
      '\n' !in m[k].0 &&
      match m[k].1
      case Items(items) => forall j :: 0 <= j < |items| ==> '\n' !in items[j]
      case Scalar(text) => '\n' !in text
  }

  lemma LineIsSingle(key: string, v: MetaValue)
    requires '\n' !in key
    requires v.Items? ==> forall j :: 0 <= j < |v.items| ==> '\n' !in v.items[j]
    requires v.Scalar? ==> '\n' !in v.text
    ensures '\n' !in MetadataLine(key, v)
  {
    if v.Items? {
      JoinAvoids(FirstThree(v.items), ", ", '\n');
    }
  }

  /** With single-line keys and values, the text splits back into exactly one line
      per entry, in dictionary order. */
  lemma {:induction false} OneLinePerEntry(m: Metadata)
    requires m != [] && SingleLine(m)
    ensures Split(FormattedMetadata(Some(m)), '\n') == MetadataLines(m)
    ensures Count(FormattedMetadata(Some(m)), '\n') == |m| - 1
  {
    var lines := MetadataLines(m);
    forall k | 0 <= k < |lines| ensures '\n' !in lines[k] {
      LineIsSingle(m[k].0, m[k].1);
    }
    JoinSplit(lines, '\n');
    SplitCount(FormattedMetadata(Some(m)), '\n');
  }

  /** A list shows its first three items only: what follows them never appears. */
  lemma ListShowsFirstThree(key: string, items: seq<string>, more: seq<string>)
    requires |items| >= 3
    ensures MetadataLine(key, Items(items + more)) == MetadataLine(key, Items(items))
    ensures EndsWith(MetadataLine(key, Items(items)), "...")
  {
    assert (items + more)[..3] == items[..3];
  }
}
