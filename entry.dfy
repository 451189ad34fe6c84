/** The canonical IPO record and its construction from one row of the
    upstream payload (`IPOEntry.from_api_data`). */
module Entry {
  import opened Common
  import opened PyStr

  /** A JSON value that is either `null` or a string (`view`, `url`). */
  datatype JsonText = Null | Text(s: string)

  /** The JSON values `str()` is applied to for `price`. */
  datatype Price = PriceInt(n: int) | PriceText(s: string) | PriceBool(b: bool) | PriceNull

  /** One object of the payload's `data` array. A field is `None` when the key is
      absent, in which case reading it raises `KeyError`. */
  datatype RawRecord = RawRecord(
    id: Option<int>,
    symbol: Option<string>,
    companyName: Option<string>,
    units: Option<string>,
    openingDate: Option<string>,
    closingDate: Option<string>,
    issueManager: Option<string>,
    price: Option<Price>,
    status: Option<string>,
    view: Option<JsonText>,
    url: Option<JsonText>)

  /** The `IPOEntry` dataclass. */
  datatype IpoEntry = IpoEntry(
    id: int,
    symbol: string,        // the markup as received
    symbolClean: string,
    companyName: string,
    units: string,
    openingDate: string,
    closingDate: string,
    issueManager: string,
    price: string,
    status: string,
    url: Option<string>)

  /** The first `<a>` element BeautifulSoup finds, with its `href` attribute if any. */
  datatype Anchor = Anchor(href: Option<string>)

  /** The HTML parser, left uninterpreted: `getText` is `BeautifulSoup(h).get_text()`
      and `findAnchor` is `BeautifulSoup(h).find("a")`. */
  datatype HtmlParser = HtmlParser(getText: string -> string, findAnchor: string -> Option<Anchor>)

  /** The ids of a batch of entries. */
  function Ids(es: seq<IpoEntry>): set<int> {
    set e | e in es :: e.id
  }

  /** `str(price)`. */
  function PriceString(p: Price): string {
    match p
    case PriceInt(n) => IntToDecimal(n)
    case PriceText(s) => s
    case PriceBool(b) => if b then "True" else "False"
    case PriceNull => "None"
  }

  /** The text of a markup fragment with surrounding whitespace removed. */
  function CleanText(html: HtmlParser, markup: string): string {
    Strip(html.getText(markup))
  }

  /** The link embedded in `view`: the `href` of its first anchor, when `view` is
      truthy, an anchor exists and its `href` is non-empty. */
  function ViewHref(view: JsonText, html: HtmlParser): (href: Option<string>)
    ensures href.Some? <==>
              && view.Text? && view.s != ""
              && html.findAnchor(view.s).Some?
              && html.findAnchor(view.s).value.href.Some?
              && html.findAnchor(view.s).value.href.value != ""
    ensures href.Some? ==> href.value != "" && html.findAnchor(view.s) == Some(Anchor(href))
  {
    match view
    case Null => None
    case Text(v) =>
      if v == "" then None
      else match html.findAnchor(v)
        case None => None
        case Some(a) => if a.href.Some? && a.href.value != "" then a.href else None
  }

  function JsonTextValue(t: JsonText): Option<string> {
    match t
    case Null => None
    case Text(s) => Some(s)
  }

  /** Every key that `from_api_data` reads unconditionally is present. */
  predicate HasReadKeys(raw: RawRecord) {
    && raw.id.Some? && raw.symbol.Some? && raw.companyName.Some? && raw.units.Some?
    && raw.openingDate.Some? && raw.closingDate.Some? && raw.issueManager.Some?
    && raw.price.Some? && raw.status.Some? && raw.view.Some?
  }

  /** Whether the record lacks the field a `KeyError` names. */
  predicate Lacks(raw: RawRecord, key: string) {
    || (key == "id" && raw.id.None?)
    || (key == "symbol" && raw.symbol.None?)
    || (key == "company_name" && raw.companyName.None?)
    || (key == "units" && raw.units.None?)
    || (key == "opening_date" && raw.openingDate.None?)
    || (key == "closing_date" && raw.closingDate.None?)
    || (key == "issue_manager" && raw.issueManager.None?)
    || (key == "price" && raw.price.None?)
    || (key == "status" && raw.status.None?)
    || (key == "view" && raw.view.None?)
    || (key == "url" && raw.url.None?)
  }

  /** `IPOEntry.from_api_data`: keys are read in the source's order and the first
      missing one raises `KeyError`; `url` is read only when `view` gives no link. */
  function FromApiData(raw: RawRecord, html: HtmlParser): (r: Result<IpoEntry, Exception>)
    // success exactly when every read key is there
    ensures r.Ok? <==> HasReadKeys(raw) && (ViewHref(raw.view.value, html).Some? || raw.url.Some?)
    ensures r.Err? ==> r.error.KeyError? && Lacks(raw, r.error.key)
    // fields copied unchanged
    ensures r.Ok? ==>
      && r.value.id == raw.id.value
      && r.value.symbol == raw.symbol.value
      && r.value.companyName == raw.companyName.value
      && r.value.units == raw.units.value
      && r.value.issueManager == raw.issueManager.value
    // price stringified; markup fields reduced to their stripped text
    ensures r.Ok? ==> r.value.price == PriceString(raw.price.value)
    ensures r.Ok? ==>
      && r.value.symbolClean == CleanText(html, raw.symbol.value)
      && r.value.openingDate == CleanText(html, raw.openingDate.value)
      && r.value.closingDate == CleanText(html, raw.closingDate.value)
      && r.value.status == CleanText(html, raw.status.value)
    // the embedded link wins; the raw `url` field is the fallback
    ensures r.Ok? && ViewHref(raw.view.value, html).Some? ==> r.value.url == ViewHref(raw.view.value, html)
    ensures r.Ok? && ViewHref(raw.view.value, html).None? ==> r.value.url == JsonTextValue(raw.url.value)
  {
    if raw.symbol.None? then Err(KeyError("symbol"))
    else if raw.openingDate.None? then Err(KeyError("opening_date"))
    else if raw.closingDate.None? then Err(KeyError("closing_date"))
    else if raw.status.None? then Err(KeyError("status"))
    else if raw.view.None? then Err(KeyError("view"))
    else
      var symbolClean := CleanText(html, raw.symbol.value);
      var openingDate := CleanText(html, raw.openingDate.value);
      var closingDate := CleanText(html, raw.closingDate.value);
      var status := CleanText(html, raw.status.value);
      var href := ViewHref(raw.view.value, html);
      if raw.id.None? then Err(KeyError("id"))
      else if raw.companyName.None? then Err(KeyError("company_name"))
      else if raw.units.None? then Err(KeyError("units"))
      else if raw.issueManager.None? then Err(KeyError("issue_manager"))
      else if raw.price.None? then Err(KeyError("price"))
      else if href.None? && raw.url.None? then Err(KeyError("url"))
      else
        Ok(IpoEntry(
          id := raw.id.value,
          symbol := raw.symbol.value,
          symbolClean := symbolClean,
          companyName := raw.companyName.value,
          units := raw.units.value,
          openingDate := openingDate,
          closingDate := closingDate,
          issueManager := raw.issueManager.value,
          price := PriceString(raw.price.value),
          status := status,
          url := if href.Some? then href else JsonTextValue(raw.url.value)))
  }

  /** When `view` yields a link, the raw `url` field is never read: its value, and
      even its presence, make no difference. */
  lemma UrlFieldUnreadWhenViewLinks(raw: RawRecord, html: HtmlParser, other: Option<JsonText>)
    requires raw.view.Some? && ViewHref(raw.view.value, html).Some?
    ensures FromApiData(raw.(url := other), html) == FromApiData(raw, html)
  {
  }

  /** An integer price is stringified without loss: its decimal form reads back.
      A corollary of `IntToDecimalRoundTrip`, stated for the price field. */
  lemma IntPriceRecoverable(n: int)
    ensures ParseDecimal(PriceString(PriceInt(n))) == Some(n)
  {
    IntToDecimalRoundTrip(n);
  }

  /** The cleaned text fields carry no surrounding whitespace. */
  lemma CleanTextTrimmed(html: HtmlParser, markup: string)
    ensures var t := CleanText(html, markup);
            t == [] || (!IsSpace(t[0]) && !IsSpace(t[|t| - 1]))
    ensures CleanText(html, markup) == Strip(CleanText(html, markup))
  {
  }
}
